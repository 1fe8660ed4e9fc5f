/** Strings in order of their characters, as the source's maps and sorts see
    them, and the sorted listing of a set of strings. */
module Ordering {
  predicate Less(a: string, b: string) {
    b != [] && (a == [] || a[0] < b[0] || (a[0] == b[0] && Less(a[1..], b[1..])))
  }

  lemma {:induction false} LessTotal(a: string, b: string)
    ensures Less(a, b) || Less(b, a) || a == b
    ensures !(Less(a, b) && Less(b, a))
    ensures !Less(a, a)
  {
    if a == [] {
    } else {
      LessTotal(a[1..], a[1..]);
      if b != [] {
        LessTotal(a[1..], b[1..]);
        if a[0] == b[0] && a[1..] == b[1..] {
          assert a == [a[0]] + a[1..] && b == [b[0]] + b[1..];
        }
      }
    }
  }

  lemma {:induction false} LessTransitive(a: string, b: string, c: string)
    requires Less(a, b) && Less(b, c)
    ensures Less(a, c)
  {
    if a != [] && a[0] == b[0] && b[0] == c[0] {
      LessTransitive(a[1..], b[1..], c[1..]);
    }
  }

  ghost predicate Least(key: string, keys: set<string>) {
    key in keys && forall other :: other in keys && other != key ==> Less(key, other)
  }

  lemma {:induction false} LeastExists(keys: set<string>) returns (key: string)
    requires keys != {}
    ensures Least(key, keys)
    decreases |keys|
  {
    var some :| some in keys;
    if keys == {some} {
      key := some;
    } else {
      key := LeastExists(keys - {some});
      LessTotal(key, some);
      if Less(some, key) {
        forall other | other in keys && other != some ensures Less(some, other) {
          if other != key {
            LessTransitive(some, key, other);
          }
        }
        key := some;
      }
    }
  }

  ghost predicate Increasing(keys: seq<string>) {
    forall i, j :: 0 <= i < j < |keys| ==> Less(keys[i], keys[j])
  }

  /** The keys in increasing order: this is how an ordered map iterates. */
  ghost function SortedKeys(keys: set<string>): (sorted: seq<string>)
    ensures Increasing(sorted)
    ensures forall key :: key in sorted <==> key in keys
    decreases |keys|
  {
    if keys == {} then [] else
      assert exists key :: Least(key, keys) by { var key := LeastExists(keys); }
      var key :| Least(key, keys);
      var rest := SortedKeys(keys - {key});
      assert forall i :: 0 <= i < |rest| ==> rest[i] in rest && Less(key, rest[i]);
      [key] + rest
  }

  /** There is only one increasing listing of a set. */
  lemma {:induction false} IncreasingUnique(a: seq<string>, b: seq<string>)
    requires Increasing(a) && Increasing(b)
    requires forall key :: key in a <==> key in b
    ensures a == b
    decreases |a|
  {
    assert b != [] ==> b[0] in a;
    if a == [] {
    } else {
      assert a[0] in b;
      if a[0] != b[0] {
        LessTotal(a[0], b[0]);
        assert false;
      }
      forall key ensures key in a[1..] <==> key in b[1..] {
        LessTotal(key, key);
        if key in a[1..] {
          assert Less(a[0], key);
          assert key in b;
        }
        if key in b[1..] {
          assert Less(b[0], key);
          assert key in a;
        }
      }
      IncreasingUnique(a[1..], b[1..]);
      assert a == [a[0]] + a[1..] && b == [b[0]] + b[1..];
    }
  }
}
