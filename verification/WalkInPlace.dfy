/** The walk as it is carried out: one accumulator changed in place through all
    levels of the recursion, and a receiver whose reads may change at any check. */
module WalkInPlace {
  import opened Walk

  class IndexResult {
    var files: nat
    var bytes: nat
    var wordsByExt: map<string, nat>

    constructor ()
      ensures Value() == ZERO
    {
      files, bytes, wordsByExt := 0, 0, map[];
    }

    function Value(): Totals
      reads this
    {
      Totals(files, bytes, wordsByExt)
    }
  }

  /** The receiving end of the cancel channel: read number `checks` next. */
  class Receiver {
    const flag: Flag
    var checks: nat

    constructor (flag: Flag)
      ensures this.flag == flag && checks == 0
    {
      this.flag, checks := flag, 0;
    }

    method Borrow() returns (up: bool)
      modifies this
      ensures up == flag(old(checks)) && checks == old(checks) + 1
    {
      up := flag(checks);
      checks := checks + 1;
    }
  }

  lemma {:induction false} TallyConcat(m: Measure, t: Totals, a: seq<Node>, b: seq<Node>)
    requires AllFiles(a) && AllFiles(b)
    ensures Tally(m, t, a + b) == Tally(m, Tally(m, t, a), b)
    decreases |b|
  {
    if b == [] {
      assert a + b == a;
    } else {
      assert (a + b)[..|a + b| - 1] == a + b[..|b| - 1];
      TallyConcat(m, t, a, b[..|b| - 1]);
    }
  }

  /** One more file in place. */
  method CountFile(m: Measure, file: Node, acc: IndexResult)
    requires file.File?
    modifies acc
    ensures acc.Value() == Tally(m, old(acc.Value()), [file])
  {
    assert [file][..0] == [];
    acc.files := acc.files + 1;
    var ext := m.lowercase(file.ext);
    if file.text.Some? {
      var words := m.words(file.text.value);
      acc.bytes := acc.bytes + m.size(file.text.value);
      var soFar := if ext in acc.wordsByExt then acc.wordsByExt[ext] else 0;
      acc.wordsByExt := acc.wordsByExt[ext := soFar + words];
    }
  }

  /** Having counted `counted` and made check number `k - 1` last, the loop
      over `entries` still has entry `i` and those after it to go through. */
  ghost predicate Remaining(entries: seq<Node>, i: nat, flag: Flag, start: nat, counted: seq<Node>, k: nat) {
    && i <= |entries| && AllFiles(counted)
    && WalkEntries(entries, flag, start)
       == (counted + WalkEntries(entries[i..], flag, k).0, WalkEntries(entries[i..], flag, k).1)
  }

  lemma RemainingAll(entries: seq<Node>, flag: Flag, start: nat)
    ensures Remaining(entries, 0, flag, start, [], start)
  {
    assert entries[0..] == entries;
    var files := WalkEntries(entries, flag, start).0;
    assert [] + files == files;
  }

  lemma RemainingStep(entries: seq<Node>, i: nat, flag: Flag, start: nat, counted: seq<Node>, k: nat)
    requires i < |entries| && Remaining(entries, i, flag, start, counted, k)
    ensures entries[i].Lost? ==> Remaining(entries, i + 1, flag, start, counted, k)
    ensures !entries[i].Lost? && flag(k) ==> WalkEntries(entries, flag, start) == (counted, k + 1)
    ensures !entries[i].Lost? && !flag(k) ==>
              var (here, next) := WalkEntry(entries[i], flag, k + 1);
              Remaining(entries, i + 1, flag, start, counted + here, next)
  {
    var remaining := entries[i..];
    assert remaining[0] == entries[i] && remaining[1..] == entries[i + 1..];
    if !entries[i].Lost? && flag(k) {
      assert counted + [] == counted;
    }
    if !entries[i].Lost? && !flag(k) {
      var (here, next) := WalkEntry(entries[i], flag, k + 1);
      var (rest, last) := WalkEntries(entries[i + 1..], flag, next);
      assert WalkEntries(remaining, flag, k) == (here + rest, last);
      assert counted + (here + rest) == (counted + here) + rest;
    }
  }

  /** Adds exactly the files of the specified walk to what was there. */
  method WalkDirInPlace(m: Measure, dir: Node, acc: IndexResult, rx: Receiver)
    modifies acc, rx
    ensures var (files, next) := WalkDir(dir, rx.flag, old(rx.checks));
            rx.checks == next && acc.Value() == Tally(m, old(acc.Value()), files)
    decreases dir
  {
    var up := rx.Borrow();
    if up {
      return;
    }
    if !dir.Dir? || !dir.readable {
      return;
    }
    ghost var start, counted: seq<Node> := rx.checks, [];
    RemainingAll(dir.entries, rx.flag, start);
    for i := 0 to |dir.entries|
      invariant Remaining(dir.entries, i, rx.flag, start, counted, rx.checks)
      invariant acc.Value() == Tally(m, old(acc.Value()), counted)
    {
      var entry := dir.entries[i];
      RemainingStep(dir.entries, i, rx.flag, start, counted, rx.checks);
      if !entry.Lost? {
        up := rx.Borrow();
        if up {
          return;
        }
        ghost var here := WalkEntry(entry, rx.flag, rx.checks).0;
        if entry.Dir? {
          WalkDirInPlace(m, entry, acc, rx);
        } else if entry.File? {
          CountFile(m, entry, acc);
        }
        TallyConcat(m, old(acc.Value()), counted, here);
        counted := counted + here;
      }
    }
    assert counted + [] == counted;
  }

  /** The whole index, started from nothing: what it reports is the tally of a
      prefix of the tree's files, and of all of them unless a check of its own
      found the flag up. */
  method WalkAndIndex(m: Measure, dir: Node, rx: Receiver) returns (result: IndexResult)
    requires rx.checks == 0 && OneWay(rx.flag)
    modifies rx
    ensures fresh(result)
    ensures exists files :: AllFiles(files) && files <= FilesBelow(dir) && result.Value() == Tally(m, ZERO, files)
    ensures !SeenUp(rx.flag, 0, rx.checks) ==> result.Value() == Tally(m, ZERO, FilesBelow(dir))
    ensures rx.checks == WalkDir(dir, rx.flag, 0).1 && result.Value() == Tally(m, ZERO, WalkDir(dir, rx.flag, 0).0)
  {
    result := new IndexResult();
    WalkDirInPlace(m, dir, result, rx);
    WalkIsPrefix(dir, rx.flag);
  }
}
