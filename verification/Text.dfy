/** The string operations the API_KEYS parser uses. */
module Text {
  import opened Wrappers

  /** The code points Python's `strip` removes. */
  predicate IsSpace(c: char) {
    var n := c as int;
    || 9 <= n <= 13 || 28 <= n <= 32 || n == 0x85 || n == 0xA0 || n == 0x1680
    || 0x2000 <= n <= 0x200A || n == 0x2028 || n == 0x2029 || n == 0x202F || n == 0x205F || n == 0x3000
  }

  /** The same code points, one by one. */
  lemma SpacesWrittenOut(c: char)
    ensures IsSpace(c) <==> c as int in {
              0x09, 0x0A, 0x0B, 0x0C, 0x0D, 0x1C, 0x1D, 0x1E, 0x1F, 0x20, 0x85, 0xA0, 0x1680,
              0x2000, 0x2001, 0x2002, 0x2003, 0x2004, 0x2005, 0x2006, 0x2007, 0x2008, 0x2009, 0x200A,
              0x2028, 0x2029, 0x202F, 0x205F, 0x3000}
  {
  }

  function LStrip(s: string): string {
    if s != [] && IsSpace(s[0]) then LStrip(s[1..]) else s
  }

  function RStrip(s: string): string {
    if s != [] && IsSpace(s[|s| - 1]) then RStrip(s[..|s| - 1]) else s
  }

  function Strip(s: string): string {
    RStrip(LStrip(s))
  }

  /** No space at either end. */
  predicate Trimmed(s: string) {
    s == [] || (!IsSpace(s[0]) && !IsSpace(s[|s| - 1]))
  }

  lemma {:induction false} RStripTrims(s: string)
    requires s != [] ==> !IsSpace(s[0])
    ensures Trimmed(RStrip(s)) && RStrip(s) <= s
  {
    if s != [] && IsSpace(s[|s| - 1]) {
      RStripTrims(s[..|s| - 1]);
    }
  }

  lemma {:induction false} LStripTrims(s: string)
    ensures LStrip(s) != [] ==> !IsSpace(LStrip(s)[0])
    ensures forall c | c in LStrip(s) :: c in s
  {
    if s != [] && IsSpace(s[0]) {
      LStripTrims(s[1..]);
    }
  }

  lemma StripTrims(s: string)
    ensures Trimmed(Strip(s))
    ensures forall c | c in Strip(s) :: c in s
    ensures Trimmed(s) ==> Strip(s) == s
  {
    LStripTrims(s);
    RStripTrims(LStrip(s));
  }

  /** Pieces of `s` between occurrences of `d`; always at least one. */
  function Split(s: string, d: char): (parts: seq<string>)
    ensures parts != []
  {
    if s == [] then [[]]
    else if s[0] == d then [[]] + Split(s[1..], d)
    else
      var rest := Split(s[1..], d);
      [[s[0]] + rest[0]] + rest[1..]
  }

  function Join(parts: seq<string>, d: char): string {
    if parts == [] then [] else if |parts| == 1 then parts[0] else parts[0] + [d] + Join(parts[1..], d)
  }

  lemma {:induction false} SplitPiecesLackDelimiter(s: string, d: char)
    ensures forall p | p in Split(s, d) :: d !in p
  {
    if s != [] {
      SplitPiecesLackDelimiter(s[1..], d);
      var rest := Split(s[1..], d);
      assert rest[0] in rest;
    }
  }

  lemma {:induction false} SplitWithout(p: string, d: char)
    requires d !in p
    ensures Split(p, d) == [p]
  {
    if p != [] {
      SplitWithout(p[1..], d);
      assert [p[0]] + p[1..] == p;
    }
  }

  lemma {:induction false} SplitAtFirst(p: string, d: char, rest: string)
    requires d !in p
    ensures Split(p + [d] + rest, d) == [p] + Split(rest, d)
  {
    var s := p + [d] + rest;
    if p == [] {
      assert s[1..] == rest;
    } else {
      SplitAtFirst(p[1..], d, rest);
      assert s[1..] == p[1..] + [d] + rest && s[0] == p[0];
      assert [p[0]] + p[1..] == p;
    }
  }

  /** Splitting undoes joining pieces that lack the delimiter. */
  lemma {:induction false} SplitOfJoin(parts: seq<string>, d: char)
    requires parts != [] && forall p | p in parts :: d !in p
    ensures Split(Join(parts, d), d) == parts
  {
    if |parts| == 1 {
      SplitWithout(parts[0], d);
    } else {
      SplitOfJoin(parts[1..], d);
      SplitAtFirst(parts[0], d, Join(parts[1..], d));
      assert parts == [parts[0]] + parts[1..];
    }
  }

  /** `partition`: what stands before and after the first `d`, if there is one. */
  function Partition(s: string, d: char): Option<(string, string)> {
    if s == [] then None
    else if s[0] == d then Some(([], s[1..]))
    else
      var rest := Partition(s[1..], d);
      if rest.None? then None else Some(([s[0]] + rest.value.0, rest.value.1))
  }

  /** The first part lacks the delimiter, and the parts make up the whole. */
  lemma {:induction false} PartitionSplits(s: string, d: char)
    ensures match Partition(s, d)
            case None => d !in s
            case Some((a, b)) => d !in a && s == a + [d] + b
  {
    if s != [] && s[0] != d {
      PartitionSplits(s[1..], d);
      assert s == [s[0]] + s[1..];
    }
  }

  lemma {:induction false} PartitionOfConcat(a: string, d: char, b: string)
    requires d !in a
    ensures Partition(a + [d] + b, d) == Some((a, b))
  {
    var s := a + [d] + b;
    if a == [] {
      assert s[1..] == b;
    } else {
      PartitionOfConcat(a[1..], d, b);
      assert s[1..] == a[1..] + [d] + b && s[0] == a[0];
      assert [a[0]] + a[1..] == a;
    }
  }

  ghost predicate AllSpaces(s: string) {
    forall c | c in s :: IsSpace(c)
  }

  lemma {:induction false} LStripCuts(s: string) returns (a: string)
    ensures s == a + LStrip(s) && AllSpaces(a)
  {
    if s != [] && IsSpace(s[0]) {
      a := LStripCuts(s[1..]);
      a := [s[0]] + a;
    } else {
      a := [];
    }
  }

  lemma {:induction false} RStripCuts(s: string) returns (b: string)
    ensures s == RStrip(s) + b && AllSpaces(b)
  {
    if s != [] && IsSpace(s[|s| - 1]) {
      b := RStripCuts(s[..|s| - 1]);
      b := b + [s[|s| - 1]];
    } else {
      b := [];
    }
  }

  /** Stripping takes spaces off both ends, and no more than that. */
  lemma StripCuts(s: string) returns (a: string, b: string)
    ensures s == a + Strip(s) + b && AllSpaces(a) && AllSpaces(b)
    ensures Trimmed(Strip(s))
  {
    a := LStripCuts(s);
    b := RStripCuts(LStrip(s));
    StripTrims(s);
  }
}
