/**
 * The Python string operations the judging core relies on: `str.isspace`,
 * `str.strip()`, `str.rstrip(c)`, `sep.join(xs)`, `needle in hay` and the
 * ASCII part of `str.lower()`, together with `str.split(sep)` as the inverse
 * of `join`.
 */
module Text {

  /** Python's `str.isspace()` for a single character. */
  predicate IsSpace(c: char) {
    || ('\t' <= c <= '\r')
    || ('\U{1C}' <= c <= ' ')
    || c == '\U{85}' || c == '\U{A0}' || c == '\U{1680}'
    || ('\U{2000}' <= c <= '\U{200A}')
    || c == '\U{2028}' || c == '\U{2029}' || c == '\U{202F}' || c == '\U{205F}' || c == '\U{3000}'
  }

  predicate AllSpace(s: string) {
    forall i :: 0 <= i < |s| ==> IsSpace(s[i])
  }

  /** Every character of `s` in positions `lo .. hi-1` is whitespace. */
  predicate SpaceBetween(s: string, lo: int, hi: int) {
    forall i :: lo <= i < hi && 0 <= i < |s| ==> IsSpace(s[i])
  }

  /** Neither the first nor the last character is whitespace. */
  predicate Unpadded(s: string) {
    s == [] || (!IsSpace(s[0]) && !IsSpace(s[|s| - 1]))
  }

  /** `s.lstrip()`: the suffix left after the leading whitespace. */
  function LStrip(s: string): (r: string)
    ensures |r| <= |s| && r == s[|s| - |r|..]
    ensures SpaceBetween(s, 0, |s| - |r|)
    ensures r == [] || !IsSpace(r[0])
  {
    if s != [] && IsSpace(s[0]) then LStrip(s[1..]) else s
  }

  /** `s.rstrip()`: the prefix left before the trailing whitespace. */
  function RStrip(s: string): (r: string)
    ensures |r| <= |s| && r == s[..|r|]
    ensures SpaceBetween(s, |r|, |s|)
    ensures r == [] || !IsSpace(r[|r| - 1])
  {
    if s != [] && IsSpace(s[|s| - 1]) then RStrip(s[..|s| - 1]) else s
  }

  /** How many whitespace characters `s.strip()` removes at the front. */
  function Leading(s: string): nat {
    |s| - |LStrip(s)|
  }

  /** `s.strip()`: whitespace removed at both ends, nothing else touched. */
  function Strip(s: string): (r: string)
    ensures Unpadded(r)
    ensures Leading(s) + |r| <= |s| && r == s[Leading(s)..Leading(s) + |r|]
    ensures SpaceBetween(s, 0, Leading(s)) && SpaceBetween(s, Leading(s) + |r|, |s|)
  {
    var t := LStrip(s);
    var r := RStrip(t);
    StripFrame(s, t, r);
    r
  }

  /** Trailing whitespace of the suffix `t` of `s` is trailing whitespace of `s`, and `r`'s place in `s` is `r`. */
  lemma StripFrame(s: string, t: string, r: string)
    requires |t| <= |s| && t == s[|s| - |t|..]
    requires |r| <= |t| && r == t[..|r|] && SpaceBetween(t, |r|, |t|)
    requires t == [] || !IsSpace(t[0])
    requires r == [] || !IsSpace(r[|r| - 1])
    ensures Unpadded(r)
    ensures r == s[|s| - |t|..|s| - |t| + |r|]
    ensures SpaceBetween(s, |s| - |t| + |r|, |s|)
  {
    var a := |s| - |t|;
    if r != [] {
      assert r[0] == t[0];
    }
    assert s[a..a + |r|] == t[..|r|];
    forall i | a + |r| <= i < |s| ensures IsSpace(s[i]) {
      assert s[i] == t[i - a];
    }
  }

  /** The only unpadded infix of `s` framed by whitespace is `s.strip()`. */
  lemma StripUnique(s: string, p: string, m: string, q: string)
    requires s == p + m + q && AllSpace(p) && AllSpace(q) && Unpadded(m)
    ensures m == Strip(s)
  {
    assert s == p + (m + q);
    if m == [] {
      assert s == (p + q) + [];
      assert AllSpace(p + q) by {
        forall i | 0 <= i < |p + q| ensures IsSpace((p + q)[i]) {
          if i < |p| { assert (p + q)[i] == p[i]; } else { assert (p + q)[i] == q[i - |p|]; }
        }
      }
      LStripPast(p + q, []);
    } else {
      LStripPast(p, m + q);
      RStripPast(m, q);
    }
  }

  /** `lstrip` removes a whitespace prefix and stops at the first other character. */
  lemma {:induction false} LStripPast(p: string, t: string)
    requires AllSpace(p) && (t == [] || !IsSpace(t[0]))
    ensures LStrip(p + t) == t
  {
    if p != [] {
      assert (p + t)[1..] == p[1..] + t;
      LStripPast(p[1..], t);
    } else {
      assert p + t == t;
    }
  }

  /** `rstrip` removes a whitespace suffix and stops at the last other character. */
  lemma {:induction false} RStripPast(t: string, q: string)
    requires AllSpace(q) && (t == [] || !IsSpace(t[|t| - 1]))
    ensures RStrip(t + q) == t
  {
    if q != [] {
      assert (t + q)[..|t + q| - 1] == t + q[..|q| - 1];
      RStripPast(t, q[..|q| - 1]);
    } else {
      assert t + q == t;
    }
  }

  /** Stripping twice is stripping once. */
  lemma StripIdempotent(s: string)
    ensures Strip(Strip(s)) == Strip(s)
  {
    var r := Strip(s);
    assert LStrip(r) == r;
    assert RStrip(r) == r;
  }

  /** `s.rstrip(c)`: every trailing `c` removed, and only those. */
  function RStripChar(s: string, c: char): (r: string)
    ensures |r| <= |s| && r == s[..|r|]
    ensures forall i :: |r| <= i < |s| ==> s[i] == c
    ensures r == [] || r[|r| - 1] != c
  {
    if s != [] && s[|s| - 1] == c then RStripChar(s[..|s| - 1], c) else s
  }

  /** `sep.join(xs)`. */
  function Join(sep: string, xs: seq<string>): string {
    if |xs| == 0 then ""
    else if |xs| == 1 then xs[0]
    else xs[0] + sep + Join(sep, xs[1..])
  }

  /** `s.split(sep)` for a non-empty separator. */
  function Split(s: string, sep: string): (r: seq<string>)
    requires |sep| > 0
    ensures |r| > 0
    decreases |s|
  {
    if |s| < |sep| then [s]
    else if s[..|sep|] == sep then [""] + Split(s[|sep|..], sep)
    else
      var rest := Split(s[1..], sep);
      [[s[0]] + rest[0]] + rest[1..]
  }

  lemma {:induction false} SplitAfterPlain(x: string, t: string, sep: string)
    requires |sep| > 0
    requires forall i :: 0 <= i < |x| ==> x[i] != sep[0]
    ensures Split(x + t, sep) == [x + Split(t, sep)[0]] + Split(t, sep)[1..]
  {
    if x == [] {
      assert x + t == t;
      var sp := Split(t, sep);
      assert x + sp[0] == sp[0];
      assert [sp[0]] + sp[1..] == sp;
    } else {
      var s := x + t;
      assert s[1..] == x[1..] + t;
      SplitAfterPlain(x[1..], t, sep);
      if |s| < |sep| {
        assert |t| < |sep|;
        assert Split(t, sep) == [t];
      } else {
        assert s[..|sep|][0] == x[0];
        assert [s[0]] + (x[1..] + Split(t, sep)[0]) == x + Split(t, sep)[0];
      }
    }
  }

  /** Splitting a join gives back the parts, when no part holds the separator's first character. */
  lemma {:induction false} SplitJoin(sep: string, xs: seq<string>)
    requires |sep| > 0 && |xs| > 0
    requires forall k, i :: 0 <= k < |xs| && 0 <= i < |xs[k]| ==> xs[k][i] != sep[0]
    ensures Split(Join(sep, xs), sep) == xs
  {
    var x := xs[0];
    if |xs| == 1 {
      assert x + "" == x;
      SplitAfterPlain(x, "", sep);
    } else {
      var j := Join(sep, xs[1..]);
      SplitJoin(sep, xs[1..]);
      var t := sep + j;
      assert t[..|sep|] == sep && t[|sep|..] == j;
      assert Split(t, sep) == [""] + xs[1..];
      SplitAfterPlain(x, t, sep);
      assert x + sep + j == x + t;
      assert x + "" == x;
      assert [x] + xs[1..] == xs;
    }
  }

  /** `needle in hay`. */
  function Contains(hay: string, needle: string): bool
    decreases |hay|
  {
    if |hay| < |needle| then false
    else hay[..|needle|] == needle || Contains(hay[1..], needle)
  }

  predicate OccursAt(hay: string, needle: string, i: int) {
    0 <= i && i + |needle| <= |hay| && hay[i..i + |needle|] == needle
  }

  /** `Contains` is substring search: some position of `hay` starts a copy of `needle`. */
  lemma {:induction false} ContainsIff(hay: string, needle: string)
    ensures Contains(hay, needle) <==> exists i :: OccursAt(hay, needle, i)
    decreases |hay|
  {
    if |hay| == 0 {
      if |needle| == 0 {
        assert OccursAt(hay, needle, 0);
      }
    } else if |hay| >= |needle| {
      ContainsIff(hay[1..], needle);
      if hay[..|needle|] == needle {
        assert hay[0..|needle|] == hay[..|needle|];
        assert OccursAt(hay, needle, 0);
      }
      if Contains(hay[1..], needle) {
        var i :| OccursAt(hay[1..], needle, i);
        assert hay[1..][i..i + |needle|] == hay[i + 1..i + 1 + |needle|];
        assert OccursAt(hay, needle, i + 1);
      }
      if exists i :: OccursAt(hay, needle, i) {
        var i :| OccursAt(hay, needle, i);
        if i == 0 {
          assert hay[0..|needle|] == hay[..|needle|];
        } else {
          assert hay[1..][i - 1..i - 1 + |needle|] == hay[i..i + |needle|];
          assert OccursAt(hay[1..], needle, i - 1);
        }
      }
    }
  }

  /** Python's `lower()` on one character, for the ASCII letters. */
  function LowerChar(c: char): char {
    if 'A' <= c <= 'Z' then (c as int + 32) as char else c
  }

  /** Lower-cases the ASCII letters of `s`, leaving every other character in place. */
  function Lower(s: string): (r: string)
    ensures |r| == |s|
    ensures forall i :: 0 <= i < |s| && 'A' <= s[i] <= 'Z' ==> r[i] as int == s[i] as int + ('a' as int - 'A' as int)
    ensures forall i :: 0 <= i < |s| && !('A' <= s[i] <= 'Z') ==> r[i] == s[i]
    ensures forall i :: 0 <= i < |r| ==> !('A' <= r[i] <= 'Z')
  {
    seq(|s|, i requires 0 <= i < |s| => LowerChar(s[i]))
  }
}
