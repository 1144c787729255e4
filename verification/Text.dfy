/** Splitting and joining of strings, as the standard library does it. */
module Text {

  function Split(s: string, c: char): (parts: seq<string>)
    ensures parts != []
  {
    if s == [] then [[]]
    else
      var rest := Split(s[1..], c);
      if s[0] == c then [[]] + rest else [[s[0]] + rest[0]] + rest[1..]
  }

  function Join(parts: seq<string>, sep: string): string {
    if parts == [] then []
    else if |parts| == 1 then parts[0]
    else parts[0] + sep + Join(parts[1..], sep)
  }

  /** Position of the first `c`, or the length if there is none. */
  function FirstIndex(s: string, c: char): (i: nat)
    ensures i <= |s|
    ensures c !in s[..i]
    ensures i < |s| ==> s[i] == c
  {
    if s == [] || s[0] == c then 0 else 1 + FirstIndex(s[1..], c)
  }

  ghost predicate AllWithout(parts: seq<string>, c: char) {
    forall i :: 0 <= i < |parts| ==> c !in parts[i]
  }

  lemma {:induction false} SplitWithout(s: string, c: char)
    ensures AllWithout(Split(s, c), c)
  {
    if s != [] {
      SplitWithout(s[1..], c);
    }
  }

  lemma {:induction false} SplitPrefix(p: string, rest: string, c: char)
    requires c !in p
    ensures Split(p + [c] + rest, c) == [p] + Split(rest, c)
  {
    var s := p + [c] + rest;
    if p == [] {
      assert s[1..] == rest;
    } else {
      SplitPrefix(p[1..], rest, c);
      assert s[1..] == p[1..] + [c] + rest;
      assert [p[0]] + p[1..] == p;
      assert c !in p[1..] && s[0] == p[0] && p[0] in p;
    }
  }

  lemma {:induction false} SplitSingle(p: string, c: char)
    requires c !in p
    ensures Split(p, c) == [p]
  {
    if p != [] {
      assert p[0] in p;
      SplitSingle(p[1..], c);
      assert [p[0]] + p[1..] == p;
    }
  }

  /** Splitting undoes joining when the separator does not occur in the parts. */
  lemma {:induction false} SplitJoin(parts: seq<string>, c: char)
    requires parts != [] && AllWithout(parts, c)
    ensures Split(Join(parts, [c]), c) == parts
  {
    if |parts| == 1 {
      SplitSingle(parts[0], c);
    } else {
      SplitJoin(parts[1..], c);
      SplitPrefix(parts[0], Join(parts[1..], [c]), c);
    }
  }

  /** Joining undoes splitting. */
  lemma {:induction false} JoinSplit(s: string, c: char)
    ensures Join(Split(s, c), [c]) == s
  {
    if s != [] {
      JoinSplit(s[1..], c);
      var rest := Split(s[1..], c);
      assert s == [s[0]] + s[1..];
      if s[0] == c {
        assert ([[]] + rest)[1..] == rest;
      } else {
        var parts := [[s[0]] + rest[0]] + rest[1..];
        assert parts[1..] == rest[1..];
      }
    }
  }

  lemma JoinThree(a: string, b: string, c: string, sep: string)
    ensures Join([a, b, c], sep) == a + sep + b + sep + c
  {
    assert [a, b, c][1..] == [b, c] && [b, c][1..] == [c];
    assert Join([b, c], sep) == b + sep + c;
    assert a + sep + (b + sep + c) == a + sep + b + sep + c;
  }

  lemma JoinFour(a: string, b: string, c: string, d: string, sep: string)
    ensures Join([a, b, c, d], sep) == a + sep + b + sep + c + sep + d
  {
    assert [a, b, c, d][1..] == [b, c, d];
    JoinThree(b, c, d, sep);
    assert a + sep + (b + sep + c + sep + d) == a + sep + b + sep + c + sep + d;
  }

  lemma JoinInjective(a: seq<string>, b: seq<string>, c: char)
    requires a != [] && b != [] && AllWithout(a, c) && AllWithout(b, c)
    requires Join(a, [c]) == Join(b, [c])
    ensures a == b
  {
    SplitJoin(a, c);
    SplitJoin(b, c);
  }

  lemma {:induction false} FirstIndexAt(p: string, c: char, rest: string)
    requires c !in p
    ensures FirstIndex(p + [c] + rest, c) == |p|
  {
    if p != [] {
      FirstIndexAt(p[1..], c, rest);
      assert (p + [c] + rest)[1..] == p[1..] + [c] + rest;
      assert p[0] in p;
    }
  }

  /** What precedes the first `c` and what follows it are determined by the whole. */
  lemma PrefixInjective(p: string, x: string, q: string, y: string, c: char)
    requires c !in p && c !in q
    requires p + [c] + x == q + [c] + y
    ensures p == q && x == y
  {
    FirstIndexAt(p, c, x);
    FirstIndexAt(q, c, y);
    assert p == (p + [c] + x)[..|p|] && q == (q + [c] + y)[..|q|];
    assert x == (p + [c] + x)[|p| + 1..] && y == (q + [c] + y)[|q| + 1..];
  }

  lemma StripPrefix(p: string, rest: string)
    ensures p <= p + rest && (p + rest)[|p|..] == rest
  {
  }

  lemma ConcatThree(a: string, b: string, c: string)
    ensures a + b + c == a + (b + c)
  {
  }

  // ---------------------------------------------------------------------
  // Letter case (ASCII)

  function LowerChar(c: char): char {
    if 'A' <= c <= 'Z' then (c as int + 32) as char else c
  }

  function ToLower(s: string): (r: string)
    ensures |r| == |s|
    ensures forall i :: 0 <= i < |s| ==> r[i] == LowerChar(s[i])
  {
    seq(|s|, i requires 0 <= i < |s| => LowerChar(s[i]))
  }

  predicate IsLetter(c: char) {
    'a' <= c <= 'z' || 'A' <= c <= 'Z'
  }

  /** Lowering never produces or hides a character that is not a letter. */
  lemma LowerKeeps(s: string, c: char)
    requires !IsLetter(c)
    ensures c in ToLower(s) <==> c in s
  {
    if c in s {
      var i :| 0 <= i < |s| && s[i] == c;
      assert ToLower(s)[i] == c;
    }
  }

  /** Lowering replaces the 26 capital letters and leaves everything else. */
  lemma LowerExactly(c: char)
    ensures LowerChar(c) ==
      if 'A' <= c <= 'Z' then "abcdefghijklmnopqrstuvwxyz"[c as int - 'A' as int] else c
  {
  }
}
