/** Splitting strings at a separator and joining them again. */
module Text {

  /** The position of the first c, or the length. */
  function Find(s: string, c: char): (i: nat)
    ensures i <= |s|
    ensures c !in s[..i]
    ensures i < |s| ==> s[i] == c
  {
    if s == "" || s[0] == c then 0 else
    var i := 1 + Find(s[1..], c);
    assert s[..i] == [s[0]] + s[1..][..i - 1];
    i
  }

  function Split(s: string, c: char): (parts: seq<string>)
    ensures parts != []
    ensures c !in s ==> parts == [s]
    ensures c in s ==> |parts| > 1
    ensures forall p :: p in parts ==> c !in p && |p| <= |s| && (c in s ==> |p| < |s|)
    decreases |s|
  {
    var i := Find(s, c);
    assert s == s[..i] + s[i..];
    if i == |s| then
      assert s[..i] == s;
      [s]
    else
      [s[..i]] + Split(s[i + 1..], c)
  }

  function Join(parts: seq<string>, c: char): string
    requires parts != []
  {
    if |parts| == 1 then parts[0] else parts[0] + [c] + Join(parts[1..], c)
  }

  lemma JoinCons(s: string, c: char, i: nat, rest: seq<string>)
    requires i < |s| && s[i] == c
    requires rest != [] && Join(rest, c) == s[i + 1..]
    ensures Join([s[..i]] + rest, c) == s
  {
    var parts := [s[..i]] + rest;
    assert parts[1..] == rest;
    assert Join(parts, c) == s[..i] + [c] + s[i + 1..];
  }

  /** Joining the parts again gives the value. */
  lemma {:induction false} JoinSplit(s: string, c: char)
    ensures Join(Split(s, c), c) == s
    decreases |s|
  {
    var i := Find(s, c);
    if i < |s| {
      var rest := Split(s[i + 1..], c);
      JoinSplit(s[i + 1..], c);
      JoinCons(s, c, i, rest);
      assert Split(s, c) == [s[..i]] + rest;
    } else {
      assert s[..i] == s;
    }
  }

  lemma SplitFirst(p: string, rest: string, c: char)
    requires c !in p
    ensures Split(p + [c] + rest, c) == [p] + Split(rest, c)
  {
    var s := p + [c] + rest;
    FindAfter(p, rest, c);
    assert s[..|p|] == p && s[|p| + 1..] == rest;
  }

  /** Split undoes Join when no part contains the separator. */
  lemma {:induction false} SplitJoin(parts: seq<string>, c: char)
    requires parts != [] && forall p :: p in parts ==> c !in p
    ensures Split(Join(parts, c), c) == parts
    decreases |parts|
  {
    if |parts| == 1 {
      assert parts == [parts[0]];
    } else {
      var first, rest := parts[0], parts[1..];
      assert parts == [first] + rest;
      SplitJoin(rest, c);
      SplitFirst(first, Join(rest, c), c);
    }
  }

  lemma {:induction false} JoinConcat(p: seq<string>, q: seq<string>, c: char)
    requires p != [] && q != []
    ensures Join(p + q, c) == Join(p, c) + [c] + Join(q, c)
    decreases |p|
  {
    assert (p + q)[1..] == p[1..] + q;
    if |p| > 1 {
      JoinConcat(p[1..], q, c);
    }
  }

  /** The parts of two values joined are the parts of one and then of the other. */
  lemma SplitConcat(a: string, b: string, c: char)
    ensures Split(a + [c] + b, c) == Split(a, c) + Split(b, c)
  {
    var parts := Split(a, c) + Split(b, c);
    JoinSplit(a, c);
    JoinSplit(b, c);
    JoinConcat(Split(a, c), Split(b, c), c);
    SplitJoin(parts, c);
  }

  lemma FindAfter(p: string, rest: string, c: char)
    requires c !in p
    ensures Find(p + [c] + rest, c) == |p|
  {
    var s := p + [c] + rest;
    assert s[..|p|] == p && s[|p|] == c;
    assert forall k :: 0 <= k < |p| ==> s[k] == p[k];
  }

  /** A value split in two is the two parts around one separator, and the other way round. */
  lemma TwoParts(s: string, c: char, a: string, b: string)
    requires c !in a && c !in b
    ensures Split(s, c) == [a, b] <==> s == a + [c] + b
  {
    assert Join([a, b], c) == a + [c] + b by { assert [a, b][1..] == [b]; }
    SplitJoin([a, b], c);
    JoinSplit(s, c);
  }

  lemma SplitKeepsFree(s: string, c: char, d: char)
    requires d !in s
    ensures forall p :: p in Split(s, c) ==> d !in p
    decreases |s|
  {
    var i := Find(s, c);
    if i < |s| { SplitKeepsFree(s[i + 1..], c, d); }
  }
}
