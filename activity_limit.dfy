/**
 * The `limit` argument of `get_activity` in progress_blueprint.py: parsed
 * with Python's `int()`, 20 when absent or unparsable, then clamped into
 * 1 .. 50.
 */
module ActivityLimit {
  import opened Common
  import opened Text

  const DefaultLimit := 20
  const MinLimit := 1
  const MaxLimit := 50

  predicate IsDigit(c: char) {
    '0' <= c <= '9'
  }

  function DigitValue(c: char): nat
    requires IsDigit(c)
  {
    c as int - '0' as int
  }

  predicate DigitsOrUnderscores(s: string) {
    forall i :: 0 <= i < |s| ==> IsDigit(s[i]) || s[i] == '_'
  }

  /** Python's decimal-integer body: digits, with single underscores allowed between two digits. */
  predicate DigitGroups(s: string) {
    && |s| > 0 && IsDigit(s[0]) && IsDigit(s[|s| - 1])
    && DigitsOrUnderscores(s)
    && forall i :: 0 <= i < |s| && s[i] == '_' ==> i + 1 < |s| && IsDigit(s[i + 1])
  }

  /** The value of a run of digits and underscores, underscores ignored. */
  function DigitsValue(s: string): nat
    requires DigitsOrUnderscores(s)
  {
    if s == [] then 0
    else if s[|s| - 1] == '_' then DigitsValue(s[..|s| - 1])
    else 10 * DigitsValue(s[..|s| - 1]) + DigitValue(s[|s| - 1])
  }

  /** `int(s)` for a string `s`: None where it raises ValueError. */
  function ParseInt(s: string): Option<int> {
    ParseStripped(Strip(s))
  }

  /** `int()` once the surrounding whitespace is gone: an optional sign, then the digits. */
  function ParseStripped(t: string): (r: Option<int>)
    ensures r.Some? ==> exists i :: 0 <= i < |t| && IsDigit(t[i])
  {
    var signed := |t| > 0 && (t[0] == '+' || t[0] == '-');
    var body := if signed then t[1..] else t;
    if DigitGroups(body) then
      var magnitude: int := DigitsValue(body);
      assert IsDigit(t[|t| - 1]);
      Some(if signed && t[0] == '-' then -magnitude else magnitude)
    else None
  }

  /** `min(max(limit, 1), 50)`. */
  function Clamp(limit: int): (r: int)
    ensures MinLimit <= r <= MaxLimit
    ensures MinLimit <= limit <= MaxLimit ==> r == limit
    ensures limit < MinLimit ==> r == MinLimit
    ensures limit > MaxLimit ==> r == MaxLimit
  {
    Min(Max(limit, 1), 50)
  }

  function Max(a: int, b: int): int {
    if a >= b then a else b
  }

  function Min(a: int, b: int): int {
    if a <= b then a else b
  }

  /** The limit `get_activity` uses, for the request's `limit` argument (None when absent). */
  function ActivityLimit(arg: Option<string>): (limit: int)
    ensures MinLimit <= limit <= MaxLimit
    ensures arg.None? ==> limit == DefaultLimit
    ensures arg.Some? && ParseInt(arg.value).None? ==> limit == DefaultLimit
    ensures arg.Some? && ParseInt(arg.value).Some? ==> limit == Clamp(ParseInt(arg.value).value)
  {
    var parsed := match arg
      case None => DefaultLimit
      case Some(s) => ParseInt(s).GetOr(DefaultLimit);
    Clamp(parsed)
  }

  // ---------------------------------------------------------------------------
  // The parser against its inverse, Python's `str()` of an integer

  function DigitChar(d: nat): char
    requires d < 10
  {
    ('0' as int + d) as char
  }

  /** `str(n)` for `n >= 0`. */
  function NatToString(n: nat): string
    decreases n
  {
    if n < 10 then [DigitChar(n)] else NatToString(n / 10) + [DigitChar(n % 10)]
  }

  /** `str(n)`. */
  function IntToString(n: int): string {
    if n < 0 then "-" + NatToString(-n) else NatToString(n)
  }

  /** `str(n)` is a run of digits whose value is `n`. */
  lemma {:induction false} NatToStringValue(n: nat)
    ensures var s := NatToString(n);
      && |s| > 0 && (forall i :: 0 <= i < |s| ==> IsDigit(s[i]))
      && DigitsValue(s) == n
    decreases n
  {
    var s := NatToString(n);
    if n >= 10 {
      NatToStringValue(n / 10);
      assert s[..|s| - 1] == NatToString(n / 10);
    }
  }

  /** `int(str(n)) == n` for every integer `n`. */
  lemma ParseIntToString(n: int)
    ensures ParseInt(IntToString(n)) == Some(n)
  {
    StripNumber(n);
    ParseNumber(n);
  }

  /** The sign and digits `str(n)` writes are read back as `n`. */
  lemma ParseNumber(n: int)
    ensures ParseStripped(IntToString(n)) == Some(n)
  {
    var m: nat := if n < 0 then -n else n;
    var digits := NatToString(m);
    NatToStringValue(m);
    assert DigitGroups(digits);
    if n < 0 {
      var s := "-" + digits;
      assert s[1..] == digits;
    }
  }

  /** `str(n)` has no whitespace to strip. */
  lemma StripNumber(n: int)
    ensures Strip(IntToString(n)) == IntToString(n)
  {
    var s := IntToString(n);
    var m: nat := if n < 0 then -n else n;
    var digits := NatToString(m);
    NatToStringValue(m);
    assert Unpadded(s) by {
      assert s[|s| - 1] == digits[|digits| - 1];
    }
    assert s == "" + s + "";
    StripUnique(s, "", s, "");
  }

  /** `int()` ignores whitespace around the number. */
  lemma ParseIgnoresPadding(before: string, s: string, after: string)
    requires AllSpace(before) && AllSpace(after) && Unpadded(s)
    ensures ParseInt(before + s + after) == ParseInt(s)
  {
    StripUnique(before + s + after, before, s, after);
    assert s == "" + s + "";
    StripUnique(s, "", s, "");
  }

  /** A limit written as a number is that number clamped into 1 .. 50. */
  lemma LimitOfNumber(n: int)
    ensures ActivityLimit(Some(IntToString(n))) == Clamp(n)
    ensures MinLimit <= n <= MaxLimit ==> ActivityLimit(Some(IntToString(n))) == n
  {
    ParseIntToString(n);
  }

  /** A text with no digit in it, the empty string included, gives the default limit. */
  lemma LimitWithoutDigits(s: string)
    requires forall i :: 0 <= i < |s| ==> !IsDigit(s[i])
    ensures ActivityLimit(Some(s)) == DefaultLimit
  {
  }
}
