/** The order of string keys, and what it means to list a store in that order. */
module Sorting {

  /** Lexicographic order by code point. */
  predicate Less(a: string, b: string) {
    b != [] && (a == [] || a[0] < b[0] || (a[0] == b[0] && Less(a[1..], b[1..])))
  }

  /** They agree up to `k`, where `a` ends or has the smaller code point. */
  predicate SmallerAt(a: string, b: string, k: nat) {
    && k <= |a| && k < |b| && a[..k] == b[..k]
    && (k < |a| ==> a[k] < b[k])
  }

  lemma {:induction false} LessIsLexicographic(a: string, b: string)
    ensures Less(a, b) <==> exists k: nat :: SmallerAt(a, b, k)
  {
    if a == [] || b == [] || a[0] != b[0] {
      assert Less(a, b) ==> SmallerAt(a, b, 0);
      assert forall k | 0 < k <= |a| && k <= |b| && a[..k] == b[..k] :: a[..k][0] == b[..k][0];
    } else {
      LessIsLexicographic(a[1..], b[1..]);
      if k: nat :| SmallerAt(a[1..], b[1..], k) {
        assert a[..k + 1] == [a[0]] + a[1..][..k] && b[..k + 1] == [b[0]] + b[1..][..k];
        assert SmallerAt(a, b, k + 1);
      }
      if k: nat :| SmallerAt(a, b, k) {
        assert k > 0;
        assert a[1..][..k - 1] == a[..k][1..] && b[1..][..k - 1] == b[..k][1..];
        assert SmallerAt(a[1..], b[1..], k - 1);
      }
    }
  }

  lemma {:induction false} LessIsTotal(a: string, b: string)
    ensures Less(a, b) || Less(b, a) || a == b
    ensures !(Less(a, b) && Less(b, a))
    ensures !Less(a, a)
  {
    if a != [] {
      LessIsTotal(a[1..], a[1..]);
      if b != [] && a[0] == b[0] {
        LessIsTotal(a[1..], b[1..]);
        assert a[1..] == b[1..] ==> a == [a[0]] + a[1..] == [b[0]] + b[1..] == b;
      }
    }
  }

  lemma {:induction false} LessIsTransitive(a: string, b: string, c: string)
    requires Less(a, b) && Less(b, c)
    ensures Less(a, c)
  {
    if a != [] && a[0] == b[0] == c[0] {
      LessIsTransitive(a[1..], b[1..], c[1..]);
    }
  }

  ghost predicate Ascending(keys: seq<string>) {
    forall i, j | 0 <= i < j < |keys| :: Less(keys[i], keys[j])
  }

  lemma NonEmptyHasElement(a: seq<string>)
    ensures a != [] ==> exists x :: x in a
  {
    if a != [] {
      assert a[0] in a;
    }
  }

  lemma {:induction false} AscendingIsUnique(a: seq<string>, b: seq<string>)
    requires Ascending(a) && Ascending(b)
    requires forall x :: x in a <==> x in b
    ensures a == b
  {
    if a == [] {
      NonEmptyHasElement(b);
    } else if b == [] {
      NonEmptyHasElement(a);
    } else {
      HeadIsLeast(a, b[0]);
      HeadIsLeast(b, a[0]);
      LessIsTotal(a[0], b[0]);
      forall x ensures x in a[1..] <==> x in b[1..] {
        TailExcludesHead(a, x);
        TailExcludesHead(b, x);
      }
      AscendingIsUnique(a[1..], b[1..]);
      assert a == [a[0]] + a[1..] && b == [b[0]] + b[1..];
    }
  }

  lemma HeadIsLeast(a: seq<string>, x: string)
    requires Ascending(a) && x in a
    ensures x == a[0] || Less(a[0], x)
  {
  }

  lemma TailExcludesHead(a: seq<string>, x: string)
    requires Ascending(a) && a != []
    ensures x in a[1..] <==> x in a && x != a[0]
  {
    LessIsTotal(a[0], a[0]);
    if x in a && x != a[0] {
      var i :| 0 <= i < |a| && a[i] == x;
      assert a[1..][i - 1] == x;
    }
  }

  method InsertKey(keys: seq<string>, x: string) returns (r: seq<string>)
    requires Ascending(keys) && x !in keys
    ensures Ascending(r) && forall y :: y in r <==> y in keys || y == x
  {
    var i := 0;
    while i < |keys| && Less(keys[i], x)
      invariant 0 <= i <= |keys|
      invariant forall j | 0 <= j < i :: Less(keys[j], x)
    {
      i := i + 1;
    }
    r := keys[..i] + [x] + keys[i..];
    forall j | i <= j < |keys| ensures Less(x, keys[j]) {
      LessIsTotal(keys[i], x);
      if j > i {
        LessIsTransitive(x, keys[i], keys[j]);
      }
    }
    assert keys == keys[..i] + keys[i..];
  }

  /** Python's `sorted` on the keys of a dictionary. */
  method SortedKeys(keys: set<string>) returns (r: seq<string>)
    ensures Ascending(r) && forall y :: y in r <==> y in keys
  {
    r := [];
    var todo := keys;
    while todo != {}
      invariant todo <= keys
      invariant Ascending(r) && forall y :: y in r <==> y in keys - todo
      decreases |todo|
    {
      var x :| x in todo;
      r := InsertKey(r, x);
      todo := todo - {x};
    }
  }
}
