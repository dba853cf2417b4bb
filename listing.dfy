/**
 * The two orders in which the handlers list documents: newest first by
 * `createdAt` (ids are allocated by an increasing counter, so this is by
 * descending id) and ascending by `bloodGroup` in the database's binary string
 * order.
 */
module Listing {

  /** The keys below `n` whose record satisfies `keep`, largest first. */
  function NewestFirst<R>(m: map<nat, R>, keep: R -> bool, n: nat): (ks: seq<nat>)
    ensures forall i, j :: 0 <= i < j < |ks| ==> ks[i] > ks[j]
    ensures forall k :: k in ks <==> k in m && k < n && keep(m[k])
    decreases n
  {
    if n == 0 then []
    else
      var older := NewestFirst(m, keep, n - 1);
      assert forall i :: 0 <= i < |older| ==> older[i] in older && older[i] < n - 1;
      (if n - 1 in m && keep(m[n - 1]) then [n - 1] else []) + older
  }

  /** The records filed under `ks`, in that order. */
  function Pick<R>(m: map<nat, R>, ks: seq<nat>): (rs: seq<R>)
    requires forall i :: 0 <= i < |ks| ==> ks[i] in m
    ensures |rs| == |ks| && forall i :: 0 <= i < |ks| ==> rs[i] == m[ks[i]]
  {
    seq(|ks|, i requires 0 <= i < |ks| => m[ks[i]])
  }

  /** Code-point order of strings: a proper prefix comes first, else the first differing character decides. */
  predicate StrLess(a: string, b: string)
    decreases |a|
  {
    b != [] && (a == [] || a[0] < b[0] || (a[0] == b[0] && StrLess(a[1..], b[1..])))
  }

  lemma {:induction false} StrLessIrreflexive(a: string)
    ensures !StrLess(a, a)
    decreases |a|
  {
    if a != [] {
      StrLessIrreflexive(a[1..]);
    }
  }

  lemma {:induction false} StrLessTransitive(a: string, b: string, c: string)
    requires StrLess(a, b) && StrLess(b, c)
    ensures StrLess(a, c)
    decreases |a|
  {
    if a != [] && a[0] == b[0] && b[0] == c[0] {
      StrLessTransitive(a[1..], b[1..], c[1..]);
    }
  }

  lemma {:induction false} StrLessTotal(a: string, b: string)
    requires a != b
    ensures StrLess(a, b) || StrLess(b, a)
    decreases |a|
  {
    if a != [] && b != [] && a[0] == b[0] {
      StrLessTotal(a[1..], b[1..]);
    }
  }

  lemma {:induction false} StrLessAsymmetric(a: string, b: string)
    requires StrLess(a, b)
    ensures !StrLess(b, a)
  {
    if StrLess(b, a) {
      StrLessTransitive(a, b, a);
      StrLessIrreflexive(a);
    }
  }

  /** `k` is the least element of `keys`. */
  predicate IsLeast(k: string, keys: set<string>) {
    k in keys && forall j :: j in keys ==> k == j || StrLess(k, j)
  }

  /** The least element of a non-empty set exists. */
  lemma {:induction false} MinExists(keys: set<string>)
    requires keys != {}
    ensures exists k :: IsLeast(k, keys)
    decreases keys
  {
    var x :| x in keys;
    var rest := keys - {x};
    if rest == {} {
      assert keys == {x};
      assert IsLeast(x, keys);
    } else {
      MinExists(rest);
      var m :| IsLeast(m, rest);
      if StrLess(x, m) {
        forall j | j in keys ensures x == j || StrLess(x, j) {
          if j != x && j != m {
            StrLessTransitive(x, m, j);
          }
        }
        assert IsLeast(x, keys);
      } else {
        StrLessTotal(x, m);
        assert IsLeast(m, keys);
      }
    }
  }

  /** The least key of a non-empty set. */
  function MinKey(keys: set<string>): (k: string)
    requires keys != {}
    ensures k in keys && forall j :: j in keys && j != k ==> StrLess(k, j)
  {
    MinExists(keys);
    AsymmetricEverywhere();
    var k :| IsLeast(k, keys);
    k
  }

  lemma AsymmetricEverywhere()
    ensures forall a, b :: StrLess(a, b) ==> !StrLess(b, a)
  {
    forall a, b | StrLess(a, b) ensures !StrLess(b, a) {
      StrLessAsymmetric(a, b);
    }
  }

  /** The keys in ascending order, each once. */
  function SortedKeys(keys: set<string>): (ks: seq<string>)
    ensures forall i, j :: 0 <= i < j < |ks| ==> StrLess(ks[i], ks[j])
    ensures forall k :: k in ks <==> k in keys
    ensures |ks| == |keys|
    decreases keys
  {
    if keys == {} then []
    else
      var k := MinKey(keys);
      [k] + SortedKeys(keys - {k})
  }
}
