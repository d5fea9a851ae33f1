/** The few string operations of Python's `str` that the parser uses. */
module Text {

  /** `str.isspace()` for one character: the characters Python's
      argument-less `str.lstrip()` removes. */
  predicate IsSpace(c: char) {
    c in Whitespace
  }

  const Whitespace: set<char> :=
    {' ', '\t', '\n', '\r', '\U{000B}', '\U{000C}',
     '\U{001C}', '\U{001D}', '\U{001E}', '\U{001F}', '\U{0085}', '\U{00A0}',
     '\U{1680}', '\U{2000}', '\U{2001}', '\U{2002}', '\U{2003}', '\U{2004}',
     '\U{2005}', '\U{2006}', '\U{2007}', '\U{2008}', '\U{2009}', '\U{200A}',
     '\U{2028}', '\U{2029}', '\U{202F}', '\U{205F}', '\U{3000}'}

  predicate IsSuffix(r: string, s: string) {
    |r| <= |s| && r == s[|s| - |r|..]
  }

  lemma SuffixTransitive(a: string, b: string, c: string)
    requires IsSuffix(a, b) && IsSuffix(b, c)
    ensures IsSuffix(a, c)
  {
    assert c[|c| - |b|..][|b| - |a|..] == c[|c| - |a|..];
  }

  lemma SuffixAppend(a: string, b: string, c: string)
    requires IsSuffix(a, b)
    ensures IsSuffix(a + c, b + c)
  {
    assert (b + c)[|b + c| - |a + c|..] == b[|b| - |a|..] + c;
  }

  lemma SuffixDrop(s: string, k: nat)
    requires k <= |s|
    ensures IsSuffix(s[k..], s)
  {
  }

  /** `s.lstrip()`: the longest whitespace prefix is removed
      (`LStripSuffix` states that what is left is a suffix of `s`). */
  function LStrip(s: string): (r: string)
    ensures |r| <= |s|
    ensures r == [] || !IsSpace(r[0])
  {
    if s != [] && IsSpace(s[0]) then LStrip(s[1..]) else s
  }

  lemma {:induction false} LStripSuffix(s: string)
    ensures IsSuffix(LStrip(s), s)
  {
    if s != [] && IsSpace(s[0]) {
      LStripSuffix(s[1..]);
      SuffixDrop(s, 1);
      SuffixTransitive(LStrip(s), s[1..], s);
    }
  }

  /** `s.find(c)`: the index of the first occurrence of `c`, or -1
      (`FindCharFirst` states that the occurrence is the first). */
  function FindChar(s: string, c: char): (i: int)
    ensures -1 <= i < |s|
    ensures 0 <= i ==> s[i] == c
  {
    if s == [] then -1
    else if s[0] == c then 0
    else
      var j := FindChar(s[1..], c);
      if j < 0 then -1 else j + 1
  }

  /** `find` reports -1 exactly when `c` does not occur, and otherwise no
      earlier character is `c`. */
  lemma {:induction false} FindCharFirst(s: string, c: char)
    ensures FindChar(s, c) == -1 <==> c !in s
    ensures 0 <= FindChar(s, c) ==> c !in s[..FindChar(s, c)]
  {
    if s != [] && s[0] != c {
      FindCharFirst(s[1..], c);
      var j := FindChar(s[1..], c);
      if 0 <= j {
        assert s[..j + 1] == [s[0]] + s[1..][..j];
      }
      assert s == [s[0]] + s[1..];
    }
  }

  /** `s.startswith(p)`. */
  predicate StartsWith(s: string, p: string) {
    |p| <= |s| && s[..|p|] == p
  }

  lemma LStripIdempotent(s: string)
    ensures LStrip(LStrip(s)) == LStrip(s)
  {
  }

  /** Stripping a concatenation strips the first part, and the second only
      when the first was all whitespace. */
  lemma {:induction false} LStripAppend(x: string, y: string)
    ensures LStrip(x) != [] ==> LStrip(x + y) == LStrip(x) + y
    ensures LStrip(x) == [] ==> LStrip(x + y) == LStrip(y)
  {
    if x != [] {
      assert (x + y)[1..] == x[1..] + y;
      if IsSpace(x[0]) {
        LStripAppend(x[1..], y);
      }
    } else {
      assert x + y == y;
    }
  }

  /** The first occurrence of `c` in a concatenation is its first occurrence
      in the first part if there is one, otherwise in the second part. */
  lemma {:induction false} FindCharAppend(x: string, y: string, c: char)
    ensures 0 <= FindChar(x, c) ==> FindChar(x + y, c) == FindChar(x, c)
    ensures FindChar(x, c) < 0 && 0 <= FindChar(y, c) ==> FindChar(x + y, c) == |x| + FindChar(y, c)
    ensures FindChar(x, c) < 0 && FindChar(y, c) < 0 ==> FindChar(x + y, c) == -1
  {
    if x == [] {
      assert x + y == y;
    } else {
      assert (x + y)[1..] == x[1..] + y;
      if x[0] != c {
        FindCharAppend(x[1..], y, c);
      }
    }
  }
}
