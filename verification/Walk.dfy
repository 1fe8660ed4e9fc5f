/** The directory walk of the indexer: recursion over a finite tree, a result
    accumulated in place, and a cancel flag read before every entry. */
module Walk {
  import opened Wrappers

  /** What a directory entry leads to. A file's text is `None` when it cannot
      be read as text; `ext` is its extension, or empty. The entries of an
      unreadable directory cannot be listed. */
  datatype Node =
    | File(ext: string, text: Option<string>)
    | Dir(readable: bool, entries: seq<Node>)
    | Other // neither a directory nor a file
    | Lost  // an entry the listing itself failed on

  /** How text is measured; the walk only depends on the results. */
  datatype Measure = Measure(lowercase: string -> string, words: string -> nat, size: string -> nat)

  /** The totals the walk accumulates. */
  datatype Totals = Totals(files: nat, bytes: nat, wordsByExt: map<string, nat>)

  const ZERO := Totals(0, 0, map[])

  function WordsFor(t: Totals, ext: string): nat {
    if ext in t.wordsByExt then t.wordsByExt[ext] else 0
  }

  /** Counting one file. */
  function Count(m: Measure, t: Totals, file: Node): Totals
    requires file.File?
  {
    match file.text
    case None => t.(files := t.files + 1)
    case Some(text) =>
      var ext := m.lowercase(file.ext);
      Totals(t.files + 1, t.bytes + m.size(text), t.wordsByExt[ext := WordsFor(t, ext) + m.words(text)])
  }

  ghost predicate AllFiles(files: seq<Node>) {
    forall i :: 0 <= i < |files| ==> files[i].File?
  }

  function Tally(m: Measure, t: Totals, files: seq<Node>): Totals
    requires AllFiles(files)
  {
    if files == [] then t else Count(m, Tally(m, t, files[..|files| - 1]), files[|files| - 1])
  }

  /** All files below a node in depth-first order. */
  function FilesOf(node: Node): (files: seq<Node>)
    ensures AllFiles(files)
    decreases node, 1
  {
    if node.File? then [node]
    else if node.Dir? && node.readable then FilesOfAll(node.entries)
    else []
  }

  function FilesOfAll(entries: seq<Node>): (files: seq<Node>)
    ensures AllFiles(files)
    decreases entries, 0
  {
    if entries == [] then [] else FilesOf(entries[0]) + FilesOfAll(entries[1..])
  }

  /** The walk of a directory itself: a plain file has no listing. */
  function FilesBelow(root: Node): (files: seq<Node>)
    ensures AllFiles(files)
  {
    if root.Dir? then FilesOf(root) else []
  }

  /** What the flag reads at check number `k`. */
  type Flag = nat -> bool

  /** The files `walk_dir` counts when its first check is number `k`, and the
      number of the next check when it returns. */
  function WalkDir(dir: Node, flag: Flag, k: nat): (r: (seq<Node>, nat))
    ensures AllFiles(r.0) && k < r.1
    decreases dir, 1
  {
    if flag(k) || !dir.Dir? || !dir.readable then ([], k + 1)
    else WalkEntries(dir.entries, flag, k + 1)
  }

  function WalkEntry(entry: Node, flag: Flag, k: nat): (r: (seq<Node>, nat))
    ensures AllFiles(r.0) && k <= r.1
    decreases entry, 2
  {
    if entry.Dir? then WalkDir(entry, flag, k)
    else if entry.File? then ([entry], k)
    else ([], k)
  }

  function WalkEntries(entries: seq<Node>, flag: Flag, k: nat): (r: (seq<Node>, nat))
    ensures AllFiles(r.0) && k <= r.1
    decreases entries, 0
  {
    if entries == [] then ([], k)
    else if entries[0].Lost? then WalkEntries(entries[1..], flag, k)
    else if flag(k) then ([], k + 1)
    else
      var (here, k1) := WalkEntry(entries[0], flag, k + 1);
      var (rest, k2) := WalkEntries(entries[1..], flag, k1);
      (here + rest, k2)
  }

  /** The flag is one-way: nothing ever lowers it. */
  ghost predicate OneWay(flag: Flag) {
    forall i: nat, j: nat :: i <= j && flag(i) ==> flag(j)
  }

  /** Check `i` was made between `lo` and `hi` and found the flag up. */
  ghost predicate SeenUp(flag: Flag, lo: nat, hi: nat) {
    exists i: nat :: lo <= i < hi && flag(i)
  }

  /** Once the flag is up no further file is counted, at any level. */
  lemma {:induction false} NothingAfterUp(entries: seq<Node>, flag: Flag, k: nat)
    requires OneWay(flag) && flag(k)
    ensures WalkEntries(entries, flag, k).0 == []
    decreases entries
  {
    if entries == [] {
    } else if entries[0].Lost? {
      NothingAfterUp(entries[1..], flag, k);
    }
  }

  lemma PrefixOfBoth(here: seq<Node>, allHere: seq<Node>, rest: seq<Node>, allRest: seq<Node>)
    requires here <= allHere && rest <= allRest && (here == allHere || rest == [])
    ensures here + rest <= allHere + allRest
  {
    if rest == [] {
      assert here + rest == here;
    }
  }

  /** A walk counts a prefix of the files of the whole tree, and all of them
      when none of its own checks found the flag up. */
  lemma {:induction false} EntriesPrefix(entries: seq<Node>, flag: Flag, k: nat)
    requires OneWay(flag)
    ensures WalkEntries(entries, flag, k).0 <= FilesOfAll(entries)
    ensures !SeenUp(flag, k, WalkEntries(entries, flag, k).1) ==> WalkEntries(entries, flag, k).0 == FilesOfAll(entries)
    decreases entries, 1
  {
    if entries == [] {
    } else {
      if entries[0].Lost? {
        EntriesPrefix(entries[1..], flag, k);
      } else if flag(k) {
        assert SeenUp(flag, k, WalkEntries(entries, flag, k).1);
      } else {
        var (here, k1) := WalkEntry(entries[0], flag, k + 1);
        var (rest, k2) := WalkEntries(entries[1..], flag, k1);
        EntryPrefix(entries[0], flag, k + 1);
        EntriesPrefix(entries[1..], flag, k1);
        if SeenUp(flag, k + 1, k1) {
          NothingAfterUp(entries[1..], flag, k1);
        }
        PrefixOfBoth(here, FilesOf(entries[0]), rest, FilesOfAll(entries[1..]));
        assert SeenUp(flag, k + 1, k1) || SeenUp(flag, k1, k2) ==> SeenUp(flag, k, k2);
      }
    }
  }

  lemma {:induction false} EntryPrefix(entry: Node, flag: Flag, k: nat)
    requires OneWay(flag)
    ensures WalkEntry(entry, flag, k).0 <= FilesOf(entry)
    ensures !SeenUp(flag, k, WalkEntry(entry, flag, k).1) ==> WalkEntry(entry, flag, k).0 == FilesOf(entry)
    decreases entry, 2
  {
    if entry.Dir? {
      DirPrefix(entry, flag, k);
    }
  }

  lemma {:induction false} DirPrefix(dir: Node, flag: Flag, k: nat)
    requires OneWay(flag) && dir.Dir?
    ensures WalkDir(dir, flag, k).0 <= FilesOf(dir)
    ensures !SeenUp(flag, k, WalkDir(dir, flag, k).1) ==> WalkDir(dir, flag, k).0 == FilesOf(dir)
    decreases dir, 1
  {
    if flag(k) {
      assert SeenUp(flag, k, WalkDir(dir, flag, k).1);
    } else if dir.readable {
      EntriesPrefix(dir.entries, flag, k + 1);
    }
  }

  /** Cancelled walk is a prefix, for every tree and every one-way flag. */
  lemma WalkIsPrefix(root: Node, flag: Flag)
    requires OneWay(flag)
    ensures WalkDir(root, flag, 0).0 <= FilesBelow(root)
    ensures !SeenUp(flag, 0, WalkDir(root, flag, 0).1) ==> WalkDir(root, flag, 0).0 == FilesBelow(root)
  {
    if root.Dir? {
      DirPrefix(root, flag, 0);
    }
  }

  /** How many directories are nested in one another, at most. */
  function Levels(node: Node): nat
    decreases node, 1
  {
    if node.Dir? then 1 + LevelsAll(node.entries) else 0
  }

  function LevelsAll(entries: seq<Node>): nat
    decreases entries, 0
  {
    if entries == [] then 0 else Max(Levels(entries[0]), LevelsAll(entries[1..]))
  }

  function Max(a: nat, b: nat): nat {
    if a < b then b else a
  }

  lemma {:induction false} OneCheckAfterUp(entries: seq<Node>, flag: Flag, k: nat)
    requires flag(k)
    ensures WalkEntries(entries, flag, k).1 <= k + 1
    decreases entries
  {
    if entries == [] {
    } else if entries[0].Lost? {
      OneCheckAfterUp(entries[1..], flag, k);
    }
  }

  lemma {:induction false} EntriesStopSoon(entries: seq<Node>, flag: Flag, k: nat, up: nat)
    requires OneWay(flag) && flag(up)
    ensures WalkEntries(entries, flag, k).1 <= Max(k, up) + 1 + LevelsAll(entries)
    decreases entries, 0
  {
    if entries == [] || flag(k) {
      if flag(k) {
        OneCheckAfterUp(entries, flag, k);
      }
    } else if entries[0].Lost? {
      EntriesStopSoon(entries[1..], flag, k, up);
    } else {
      var k1 := WalkEntry(entries[0], flag, k + 1).1;
      if entries[0].Dir? {
        DirStopsSoon(entries[0], flag, k + 1, up);
      }
      if flag(k1) {
        OneCheckAfterUp(entries[1..], flag, k1);
      } else {
        EntriesStopSoon(entries[1..], flag, k1, up);
      }
    }
  }

  /** Once the flag is up the walk makes at most one more check for each level
      it is deep in. */
  lemma {:induction false} DirStopsSoon(dir: Node, flag: Flag, k: nat, up: nat)
    requires OneWay(flag) && flag(up) && dir.Dir?
    ensures WalkDir(dir, flag, k).1 <= Max(k, up) + Levels(dir)
    decreases dir, 1
  {
    if flag(k) || !dir.readable {
    } else {
      EntriesStopSoon(dir.entries, flag, k + 1, up);
    }
  }

  /** A walk depends on nothing but the checks it makes. */
  lemma {:induction false} EntriesDependOnChecks(entries: seq<Node>, f: Flag, g: Flag, k: nat)
    requires forall i: nat :: k <= i < WalkEntries(entries, f, k).1 ==> f(i) == g(i)
    ensures WalkEntries(entries, g, k) == WalkEntries(entries, f, k)
    decreases entries, 0
  {
    if entries == [] {
    } else {
      if entries[0].Lost? {
        EntriesDependOnChecks(entries[1..], f, g, k);
      } else if !f(k) {
        var (here, k1) := WalkEntry(entries[0], f, k + 1);
        if entries[0].Dir? {
          DirDependsOnChecks(entries[0], f, g, k + 1);
        }
        EntriesDependOnChecks(entries[1..], f, g, k1);
      }
    }
  }

  lemma {:induction false} DirDependsOnChecks(dir: Node, f: Flag, g: Flag, k: nat)
    requires forall i: nat :: k <= i < WalkDir(dir, f, k).1 ==> f(i) == g(i)
    ensures WalkDir(dir, g, k) == WalkDir(dir, f, k)
    decreases dir, 1
  {
    if !f(k) && dir.Dir? && dir.readable {
      EntriesDependOnChecks(dir.entries, f, g, k + 1);
    }
  }

  ghost predicate AtMost(a: Totals, b: Totals) {
    a.files <= b.files && a.bytes <= b.bytes && a.wordsByExt.Keys <= b.wordsByExt.Keys
    && forall ext :: WordsFor(a, ext) <= WordsFor(b, ext)
  }

  lemma {:induction false} TallyGrows(m: Measure, t: Totals, some: seq<Node>, all: seq<Node>)
    requires AllFiles(all) && some <= all
    ensures AllFiles(some) && AtMost(Tally(m, t, some), Tally(m, t, all))
    decreases |all|
  {
    if |some| == |all| {
      assert some == all;
    } else {
      TallyGrows(m, t, some, all[..|all| - 1]);
    }
  }

  /** Whatever a cancelled walk reports is at most what the full walk does. */
  lemma CancelledReportsLess(m: Measure, root: Node, flag: Flag)
    requires OneWay(flag)
    ensures AtMost(Tally(m, ZERO, WalkDir(root, flag, 0).0), Tally(m, ZERO, FilesBelow(root)))
  {
    WalkIsPrefix(root, flag);
    TallyGrows(m, ZERO, WalkDir(root, flag, 0).0, FilesBelow(root));
  }

  // ---- the totals, declaratively ----

  function SumOf(values: seq<nat>): nat {
    if values == [] then 0 else SumOf(values[..|values| - 1]) + values[|values| - 1]
  }

  function SizeIn(m: Measure, file: Node): nat
    requires file.File?
  {
    if file.text.Some? then m.size(file.text.value) else 0
  }

  function Sizes(m: Measure, files: seq<Node>): seq<nat>
    requires AllFiles(files)
  {
    seq(|files|, i requires 0 <= i < |files| => SizeIn(m, files[i]))
  }

  function WordsIn(m: Measure, file: Node): nat
    requires file.File?
  {
    if file.text.Some? then m.words(file.text.value) else 0
  }

  function WordsInWith(m: Measure, file: Node, ext: string): nat
    requires file.File?
  {
    if m.lowercase(file.ext) == ext then WordsIn(m, file) else 0
  }

  /** The words of each file, those of other extensions left out. */
  function WordsWith(m: Measure, files: seq<Node>, ext: string): seq<nat>
    requires AllFiles(files)
  {
    seq(|files|, i requires 0 <= i < |files| => WordsInWith(m, files[i], ext))
  }

  function AllWords(m: Measure, files: seq<Node>): seq<nat>
    requires AllFiles(files)
  {
    seq(|files|, i requires 0 <= i < |files| => WordsIn(m, files[i]))
  }

  function ReadableExts(m: Measure, files: seq<Node>): set<string>
    requires AllFiles(files)
  {
    set i | 0 <= i < |files| && files[i].text.Some? :: m.lowercase(files[i].ext)
  }

  /** The sum of all values of a map. */
  ghost function SumValues(words: map<string, nat>): nat
    decreases |words|
  {
    if words == map[] then 0 else
      var ext :| ext in words;
      words[ext] + SumValues(words - {ext})
  }

  lemma {:induction false} SumValuesAt(words: map<string, nat>, ext: string)
    requires ext in words
    ensures SumValues(words) == words[ext] + SumValues(words - {ext})
    decreases |words|
  {
    var pick :| pick in words && SumValues(words) == words[pick] + SumValues(words - {pick});
    if pick != ext {
      SumValuesAt(words - {pick}, ext);
      SumValuesAt(words - {ext}, pick);
      assert words - {pick} - {ext} == words - {ext} - {pick};
    }
  }

  lemma {:induction false} CountsAreRight(m: Measure, files: seq<Node>)
    requires AllFiles(files)
    ensures var t := Tally(m, ZERO, files); t.files == |files| && t.bytes == SumOf(Sizes(m, files))
    decreases |files|
  {
    if files == [] {
    } else {
      CountsAreRight(m, files[..|files| - 1]);
      assert Sizes(m, files)[..|files| - 1] == Sizes(m, files[..|files| - 1]);
    }
  }

  lemma {:induction false} ExtensionsAreRight(m: Measure, files: seq<Node>)
    requires AllFiles(files)
    ensures Tally(m, ZERO, files).wordsByExt.Keys == ReadableExts(m, files)
    decreases |files|
  {
    if files == [] {
    } else {
      ExtensionsAreRight(m, files[..|files| - 1]);
      ReadableStep(m, files);
    }
  }

  lemma {:induction false} WordsAreRight(m: Measure, files: seq<Node>, ext: string)
    requires AllFiles(files)
    ensures WordsFor(Tally(m, ZERO, files), ext) == SumOf(WordsWith(m, files, ext))
    decreases |files|
  {
    if files == [] {
    } else {
      WordsAreRight(m, files[..|files| - 1], ext);
      assert WordsWith(m, files, ext)[..|files| - 1] == WordsWith(m, files[..|files| - 1], ext);
    }
  }

  /** Adding to one entry of the map adds to the sum of its values. */
  lemma SumValuesAdd(words: map<string, nat>, ext: string, more: nat)
    ensures SumValues(words[ext := (if ext in words then words[ext] else 0) + more]) == SumValues(words) + more
  {
    var added := words[ext := (if ext in words then words[ext] else 0) + more];
    SumValuesAt(added, ext);
    if ext in words {
      SumValuesAt(words, ext);
      assert added - {ext} == words - {ext};
    } else {
      assert added - {ext} == words;
    }
  }

  lemma {:induction false} WordSumIsRight(m: Measure, files: seq<Node>)
    requires AllFiles(files)
    ensures SumValues(Tally(m, ZERO, files).wordsByExt) == SumOf(AllWords(m, files))
    decreases |files|
  {
    if files == [] {
    } else {
      var init, last := files[..|files| - 1], files[|files| - 1];
      WordSumIsRight(m, init);
      assert AllWords(m, files)[..|files| - 1] == AllWords(m, init);
      if last.text.Some? {
        SumValuesAdd(Tally(m, ZERO, init).wordsByExt, m.lowercase(last.ext), m.words(last.text.value));
      }
    }
  }

  /** The totals are what they should be: every file counted, readable bytes
      summed, a key for exactly the extensions of readable files, each with the
      words of its files, and together all the words. */
  lemma TotalsAreRight(m: Measure, files: seq<Node>)
    requires AllFiles(files)
    ensures var t := Tally(m, ZERO, files);
            && t.files == |files|
            && t.bytes == SumOf(Sizes(m, files))
            && t.wordsByExt.Keys == ReadableExts(m, files)
            && (forall ext :: WordsFor(t, ext) == SumOf(WordsWith(m, files, ext)))
            && SumValues(t.wordsByExt) == SumOf(AllWords(m, files))
  {
    CountsAreRight(m, files);
    ExtensionsAreRight(m, files);
    WordSumIsRight(m, files);
    forall ext ensures WordsFor(Tally(m, ZERO, files), ext) == SumOf(WordsWith(m, files, ext)) {
      WordsAreRight(m, files, ext);
    }
  }

  lemma ReadableStep(m: Measure, files: seq<Node>)
    requires AllFiles(files) && files != []
    ensures var init, last := files[..|files| - 1], files[|files| - 1];
            ReadableExts(m, files) == ReadableExts(m, init) + (if last.text.Some? then {m.lowercase(last.ext)} else {})
  {
    var init, last := files[..|files| - 1], files[|files| - 1];
    forall ext | ext in ReadableExts(m, init) ensures ext in ReadableExts(m, files) {
      var i :| 0 <= i < |init| && init[i].text.Some? && m.lowercase(init[i].ext) == ext;
      assert files[i] == init[i];
    }
    forall ext | ext in ReadableExts(m, files)
      ensures ext in ReadableExts(m, init) || (last.text.Some? && ext == m.lowercase(last.ext))
    {
      var i :| 0 <= i < |files| && files[i].text.Some? && m.lowercase(files[i].ext) == ext;
      if i < |init| {
        assert init[i] == files[i];
      }
    }
    if last.text.Some? {
      assert files[|files| - 1].text.Some?;
    }
  }

  // ---- the order of directory entries does not matter ----

  /** The same tree with the entries of any directories listed in any order. */
  ghost predicate Reordered(a: Node, b: Node)
    decreases a, 1
  {
    if a.Dir? && a.readable then
      b.Dir? && b.readable
      && exists mid: seq<Node> :: multiset(mid) == multiset(b.entries) && PairwiseReordered(a.entries, mid)
    else a == b
  }

  ghost predicate PairwiseReordered(a: seq<Node>, b: seq<Node>)
    decreases a, 0
  {
    |a| == |b| && (a == [] || (Reordered(a[0], b[0]) && PairwiseReordered(a[1..], b[1..])))
  }

  lemma FilesOfAllCons(first: Node, rest: seq<Node>)
    ensures multiset(FilesOfAll([first] + rest)) == multiset(FilesOf(first)) + multiset(FilesOfAll(rest))
  {
    assert ([first] + rest)[1..] == rest;
  }

  lemma {:induction false} FilesOfAllAt(before: seq<Node>, node: Node, after: seq<Node>)
    ensures multiset(FilesOfAll(before + [node] + after))
            == multiset(FilesOf(node)) + multiset(FilesOfAll(before + after))
    decreases |before|
  {
    if before == [] {
      assert before + [node] + after == [node] + after && before + after == after;
      FilesOfAllCons(node, after);
    } else {
      assert before + [node] + after == [before[0]] + (before[1..] + [node] + after);
      assert before + after == [before[0]] + (before[1..] + after);
      FilesOfAllCons(before[0], before[1..] + [node] + after);
      FilesOfAllCons(before[0], before[1..] + after);
      FilesOfAllAt(before[1..], node, after);
    }
  }

  /** An element found in a shuffled sequence can be taken out of both. */
  lemma TakeOut(node: Node, rest: seq<Node>, before: seq<Node>, after: seq<Node>)
    requires multiset([node] + rest) == multiset(before + [node] + after)
    ensures multiset(rest) == multiset(before + after)
  {
    assert multiset([node] + rest) == multiset{node} + multiset(rest);
    assert multiset(before + [node] + after) == multiset(before) + multiset{node} + multiset(after);
    assert multiset(before + after) == multiset(before) + multiset(after);
    assert multiset(rest) == multiset([node] + rest) - multiset{node};
  }

  lemma FindIn(node: Node, nodes: seq<Node>) returns (before: seq<Node>, after: seq<Node>)
    requires node in multiset(nodes)
    ensures nodes == before + [node] + after
  {
    var i :| 0 <= i < |nodes| && nodes[i] == node;
    before, after := nodes[..i], nodes[i + 1..];
  }

  lemma {:induction false} ShuffleKeepsFiles(a: seq<Node>, b: seq<Node>)
    requires multiset(a) == multiset(b)
    ensures multiset(FilesOfAll(a)) == multiset(FilesOfAll(b))
    decreases |a|
  {
    if a == [] {
      assert |multiset(b)| == 0;
    } else {
      var node, rest, before, after := TakeFirst(a, b);
      assert [] + [node] + rest == a && [] + rest == rest;
      ShuffleKeepsFiles(rest, before + after);
      FilesOfAllAt(before, node, after);
      FilesOfAllAt([], node, rest);
    }
  }

  lemma {:induction false} ReorderedKeepsFiles(a: Node, b: Node)
    requires Reordered(a, b)
    ensures multiset(FilesOf(a)) == multiset(FilesOf(b))
    decreases a, 1
  {
    if a.Dir? && a.readable {
      var mid: seq<Node> :| multiset(mid) == multiset(b.entries) && PairwiseReordered(a.entries, mid);
      PairwiseKeepsFiles(a.entries, mid);
      ShuffleKeepsFiles(mid, b.entries);
    }
  }

  lemma {:induction false} PairwiseKeepsFiles(a: seq<Node>, b: seq<Node>)
    requires PairwiseReordered(a, b)
    ensures multiset(FilesOfAll(a)) == multiset(FilesOfAll(b))
    decreases a, 0
  {
    if a == [] {
    } else {
      ReorderedKeepsFiles(a[0], b[0]);
      PairwiseKeepsFiles(a[1..], b[1..]);
    }
  }

  /** Counting two files in either order is the same. */
  lemma CountCommutes(m: Measure, t: Totals, a: Node, b: Node)
    requires a.File? && b.File?
    ensures Count(m, Count(m, t, a), b) == Count(m, Count(m, t, b), a)
  {
    if a.text.Some? && b.text.Some? {
      assert Count(m, Count(m, t, a), b).wordsByExt == Count(m, Count(m, t, b), a).wordsByExt;
    }
  }

  lemma {:induction false} TallyAt(m: Measure, t: Totals, before: seq<Node>, file: Node, after: seq<Node>)
    requires AllFiles(before) && file.File? && AllFiles(after)
    ensures Tally(m, t, before + [file] + after) == Count(m, Tally(m, t, before + after), file)
    decreases |after|
  {
    if after == [] {
      TallyLast(m, t, before, file);
      assert before + [file] + after == before + [file] && before + after == before;
    } else {
      var init, last := after[..|after| - 1], after[|after| - 1];
      var with, without := before + [file] + init, before + init;
      assert before + [file] + after == with + [last] && before + after == without + [last];
      TallyAt(m, t, before, file, init);
      TallyLast(m, t, with, last);
      TallyLast(m, t, without, last);
      CountCommutes(m, Tally(m, t, without), file, last);
    }
  }

  lemma TallyLast(m: Measure, t: Totals, files: seq<Node>, last: Node)
    requires AllFiles(files) && last.File?
    ensures Tally(m, t, files + [last]) == Count(m, Tally(m, t, files), last)
  {
    assert (files + [last])[..|files|] == files;
  }

  lemma AllFilesParts(before: seq<Node>, node: Node, after: seq<Node>)
    requires AllFiles(before + [node] + after)
    ensures AllFiles(before) && node.File? && AllFiles(after) && AllFiles(before + after)
  {
    var all := before + [node] + after;
    assert forall i :: 0 <= i < |before| ==> before[i] == all[i];
    assert all[|before|] == node;
    assert forall i :: 0 <= i < |after| ==> after[i] == all[|before| + 1 + i];
  }

  /** Whichever file is taken out, the tally is that of the others and it. */
  lemma TallyTaking(m: Measure, t: Totals, all: seq<Node>, before: seq<Node>, file: Node, after: seq<Node>)
    requires all == before + [file] + after && AllFiles(all)
    ensures file.File? && AllFiles(before + after)
    ensures Tally(m, t, all) == Count(m, Tally(m, t, before + after), file)
  {
    AllFilesParts(before, file, after);
    TallyAt(m, t, before, file, after);
  }

  lemma {:induction false} TallyIgnoresOrder(m: Measure, t: Totals, a: seq<Node>, b: seq<Node>)
    requires AllFiles(a) && AllFiles(b) && multiset(a) == multiset(b)
    ensures Tally(m, t, a) == Tally(m, t, b)
    decreases |a|
  {
    if a == [] {
      assert |multiset(b)| == 0;
    } else {
      var file, rest, before, after := TakeFirst(a, b);
      assert [] + rest == rest;
      TallyTaking(m, t, a, [], file, rest);
      TallyTaking(m, t, b, before, file, after);
      TallyIgnoresOrder(m, t, rest, before + after);
    }
  }

  lemma TakeFirst(a: seq<Node>, b: seq<Node>) returns (node: Node, rest: seq<Node>, before: seq<Node>, after: seq<Node>)
    requires a != [] && multiset(a) == multiset(b)
    ensures a == [node] + rest && b == before + [node] + after
    ensures multiset(rest) == multiset(before + after)
  {
    node, rest := a[0], a[1..];
    assert a == [node] + rest;
    assert a[0] in multiset(a);
    before, after := FindIn(node, b);
    TakeOut(node, rest, before, after);
  }

  /** The full walk reports the same totals however directories list their
      entries. */
  lemma OrderIsIrrelevant(m: Measure, a: Node, b: Node)
    requires Reordered(a, b)
    ensures Tally(m, ZERO, FilesBelow(a)) == Tally(m, ZERO, FilesBelow(b))
  {
    ReorderedKeepsFiles(a, b);
    TallyIgnoresOrder(m, ZERO, FilesBelow(a), FilesBelow(b));
  }
}
