/**
 * Python's `int(text)` on a string (base 10), `str.strip()`, and `str(n)` for
 * an integer.
 *
 * `int` removes surrounding white space, accepts one optional sign and then
 * one or more decimal digits, where single underscores may separate digits;
 * anything else raises `ValueError`, modelled here as `None`. The white space
 * `int` removes is not quite that of `str.strip`: the four ASCII separators
 * U+001C to U+001F count as white space for `str.isspace` but not for `int`.
 */
module PyInt {
  import opened Wrappers

  /** Python's `str.isspace` on one character (the characters `str.strip` removes). */
  predicate IsSpace(c: char) {
    var n := c as int;
    (9 <= n <= 13) || (28 <= n <= 32) || n == 0x85 || n == 0xA0 || n == 0x1680
    || (0x2000 <= n <= 0x200A) || n == 0x2028 || n == 0x2029 || n == 0x202F
    || n == 0x205F || n == 0x3000
  }

  /**
   * The white space `int` skips around its digits: ASCII tab, line feed,
   * vertical tab, form feed, carriage return and space, and every non-ASCII
   * `str.isspace` character; not the separators U+001C to U+001F.
   */
  predicate IsIntSpace(c: char) {
    IsSpace(c) && !(28 <= c as int <= 31)
  }

  predicate IsDigit(c: char) {
    '0' <= c <= '9'
  }

  /** What is left of `s` after its leading white space. */
  function TrimStart(s: string): (t: string)
    ensures |t| <= |s| && t == s[|s| - |t|..]
    ensures t == [] || !IsSpace(t[0])
    ensures forall i :: 0 <= i < |s| - |t| ==> IsSpace(s[i])
  {
    if s != [] && IsSpace(s[0]) then TrimStart(s[1..]) else s
  }

  /** What is left of `s` after its trailing white space. */
  function TrimEnd(s: string): (t: string)
    ensures |t| <= |s| && t == s[..|t|]
    ensures t == [] || !IsSpace(t[|t| - 1])
    ensures forall i :: |t| <= i < |s| ==> IsSpace(s[i])
  {
    if s != [] && IsSpace(s[|s| - 1]) then TrimEnd(s[..|s| - 1]) else s
  }

  /** `s.strip()` */
  function Strip(s: string): (t: string)
    ensures t == [] || (!IsSpace(t[0]) && !IsSpace(t[|t| - 1]))
  {
    TrimEnd(TrimStart(s))
  }

  /** What `Strip` keeps is the slice `s[i..j]`, with only white space on either side. */
  lemma StripIsInfix(s: string) returns (i: nat, j: nat)
    ensures i <= j <= |s| && Strip(s) == s[i..j]
    ensures forall k :: 0 <= k < i ==> IsSpace(s[k])
    ensures forall k :: j <= k < |s| ==> IsSpace(s[k])
  {
    var u := TrimStart(s);
    var t := TrimEnd(u);
    i := |s| - |u|;
    j := i + |t|;
    assert u == s[i..] && t == u[..|t|];
    forall k | j <= k < |s| ensures IsSpace(s[k]) {
      assert s[k] == u[k - i];
    }
  }

  lemma StripUnchanged(s: string)
    requires s != [] && !IsSpace(s[0]) && !IsSpace(s[|s| - 1])
    ensures Strip(s) == s
  {
    assert TrimStart(s) == s;
    assert TrimEnd(s) == s;
  }

  /**
   * The same trims over the white space `int` skips. `int` trims its
   * argument itself rather than through `str.strip`, and stops at U+001C to
   * U+001F where `str.strip` would go on.
   */
  function IntTrimStart(s: string): (t: string)
    ensures |t| <= |s| && t == s[|s| - |t|..]
    ensures t == [] || !IsIntSpace(t[0])
    ensures forall i :: 0 <= i < |s| - |t| ==> IsIntSpace(s[i])
  {
    if s != [] && IsIntSpace(s[0]) then IntTrimStart(s[1..]) else s
  }

  function IntTrimEnd(s: string): (t: string)
    ensures |t| <= |s| && t == s[..|t|]
    ensures t == [] || !IsIntSpace(t[|t| - 1])
    ensures forall i :: |t| <= i < |s| ==> IsIntSpace(s[i])
  {
    if s != [] && IsIntSpace(s[|s| - 1]) then IntTrimEnd(s[..|s| - 1]) else s
  }

  function IntStrip(s: string): (t: string)
    ensures t == [] || (!IsIntSpace(t[0]) && !IsIntSpace(t[|t| - 1]))
  {
    IntTrimEnd(IntTrimStart(s))
  }

  lemma IntStripUnchanged(s: string)
    requires s != [] && !IsIntSpace(s[0]) && !IsIntSpace(s[|s| - 1])
    ensures IntStrip(s) == s
  {
    assert IntTrimStart(s) == s;
    assert IntTrimEnd(s) == s;
  }

  /** Digits, possibly with single underscores between two digits (`1_000`). */
  predicate IsDigitGroup(s: string) {
    && |s| > 0
    && IsDigit(s[0])
    && IsDigit(s[|s| - 1])
    && (forall i :: 0 <= i < |s| ==> IsDigit(s[i]) || s[i] == '_')
    && (forall i :: 0 <= i < |s| - 1 ==> s[i] == '_' ==> s[i + 1] != '_')
  }

  function DigitValue(c: char): nat
    requires IsDigit(c)
  {
    c as int - '0' as int
  }

  /** The value of a digit group read in base 10, the underscores ignored. */
  function DigitsValue(s: string): nat
    requires forall i :: 0 <= i < |s| ==> IsDigit(s[i]) || s[i] == '_'
  {
    if s == [] then 0
    else if s[|s| - 1] == '_' then DigitsValue(s[..|s| - 1])
    else 10 * DigitsValue(s[..|s| - 1]) + DigitValue(s[|s| - 1])
  }

  /**
   * `int(s)`: `None` stands for the `ValueError` Python raises. Once its own
   * white space is trimmed, the text it accepts holds only digits,
   * underscores and a leading sign, and a negative value was written with `-`.
   */
  function ParseInt(s: string): (r: Option<int>)
    ensures r.Some? ==> IsNumeral(IntStrip(s))
    ensures r.Some? && r.value < 0 ==> IntStrip(s)[0] == '-'
  {
    var t := IntStrip(s);
    assert |t| > 0 && (t[0] == '+' || t[0] == '-') ==> forall i :: 1 <= i < |t| ==> t[i] == t[1..][i - 1];
    ParseStripped(t)
  }

  /** Non-empty, and made of digits and underscores after an optional sign. */
  predicate IsNumeral(t: string) {
    && |t| > 0
    && (forall i :: 0 <= i < |t| ==> IsDigit(t[i]) || t[i] == '_' || (i == 0 && (t[i] == '+' || t[i] == '-')))
  }

  /**
   * `int(s.strip())`. `str.strip` removes every character `int` would skip,
   * so `int` then reads the stripped text as it stands (`ParseIntOfStrip`).
   */
  function ParseIntStripped(s: string): Option<int> {
    ParseStripped(Strip(s))
  }

  lemma ParseIntOfStrip(s: string)
    ensures ParseIntStripped(s) == ParseInt(Strip(s))
  {
    var t := Strip(s);
    if t != [] {
      IntStripUnchanged(t);
    } else {
      assert IntStrip(t) == [];
    }
  }

  /** An optional sign followed by a digit group, with the white space already stripped. */
  function ParseStripped(t: string): Option<int> {
    if |t| > 0 && (t[0] == '+' || t[0] == '-') then
      var body := t[1..];
      if IsDigitGroup(body) then
        var magnitude: int := DigitsValue(body);
        Some(if t[0] == '-' then -magnitude else magnitude)
      else None
    else if IsDigitGroup(t) then Some(DigitsValue(t))
    else None
  }

  function DigitChar(d: nat): (c: char)
    requires d < 10
    ensures IsDigit(c) && DigitValue(c) == d
  {
    ('0' as int + d) as char
  }

  /** The decimal digits of `n`, most significant first, without leading zeros. */
  function NatDigits(n: nat): (s: string)
    decreases n
  {
    if n < 10 then [DigitChar(n)] else NatDigits(n / 10) + [DigitChar(n % 10)]
  }

  /** `str(n)` */
  function ShowInt(n: int): string {
    if n < 0 then "-" + NatDigits(-n) else NatDigits(n)
  }

  lemma {:induction false} NatDigitsValue(n: nat)
    ensures |NatDigits(n)| > 0
    ensures forall i :: 0 <= i < |NatDigits(n)| ==> IsDigit(NatDigits(n)[i])
    ensures DigitsValue(NatDigits(n)) == n
    decreases n
  {
    var s := NatDigits(n);
    if n >= 10 {
      NatDigitsValue(n / 10);
      assert s[..|s| - 1] == NatDigits(n / 10);
      assert s[|s| - 1] == DigitChar(n % 10);
    }
  }

  /** `str(n)` is a digit group of `|n|`, after a `-` when `n` is negative. */
  lemma ShowIntDigits(n: int) returns (d: string)
    ensures IsDigitGroup(d) && DigitsValue(d) == (if n < 0 then -n else n)
    ensures ShowInt(n) == if n < 0 then "-" + d else d
  {
    var m: nat := if n < 0 then -n else n;
    NatDigitsValue(m);
    d := NatDigits(m);
  }

  /** Reading back what `str` wrote gives the same integer: `int(str(n)) == n`. */
  lemma ParseShowInt(n: int)
    ensures ParseInt(ShowInt(n)) == Some(n)
  {
    var d := ShowIntDigits(n);
    if n < 0 {
      ParseNegative(d);
    } else {
      ParsePositive(d);
    }
  }

  lemma ParsePositive(d: string)
    requires IsDigitGroup(d)
    ensures ParseInt(d) == Some(DigitsValue(d) as int)
  {
    IntStripUnchanged(d);
  }

  lemma ParseNegative(d: string)
    requires IsDigitGroup(d)
    ensures ParseInt("-" + d) == Some(-(DigitsValue(d) as int))
  {
    var s := "-" + d;
    assert s[1..] == d && s[0] == '-';
    assert s[|s| - 1] == d[|d| - 1];
    IntStripUnchanged(s);
  }

  /** White space that `int` skips, around the text, does not change what it reads. */
  lemma ParseIgnoresPadding(s: string, pre: string, post: string)
    requires forall i :: 0 <= i < |pre| ==> IsIntSpace(pre[i])
    requires forall i :: 0 <= i < |post| ==> IsIntSpace(post[i])
    ensures ParseInt(pre + s + post) == ParseInt(s)
  {
    PaddedIntStrip(s, pre, post);
    assert ParseInt(pre + s + post) == ParseStripped(IntStrip(s));
  }

  /**
   * `int` does not skip the separators U+001C to U+001F that `str.strip`
   * removes: `int("\x1c5")` raises, while `int("\x1c5".strip())` is 5.
   */
  lemma SeparatorIsNotIntSpace(c: char, d: string)
    requires 28 <= c as int <= 31 && IsDigitGroup(d)
    ensures IsSpace(c) && !IsIntSpace(c)
    ensures ParseInt([c] + d) == None
    ensures ParseInt(Strip([c] + d)) == ParseInt(d) == Some(DigitsValue(d) as int)
  {
    StripDropsSeparator(c, d);
    IntRejectsSeparator(c, d);
    ParsePositive(d);
  }

  lemma StripDropsSeparator(c: char, d: string)
    requires 28 <= c as int <= 31 && IsDigitGroup(d)
    ensures Strip([c] + d) == d
  {
    var s := [c] + d;
    assert IsSpace(s[0]) && s[1..] == d;
    assert !IsSpace(d[0]) && !IsSpace(d[|d| - 1]);
    assert TrimStart(d) == d;
    assert TrimStart(s) == d;
    assert TrimEnd(d) == d;
  }

  lemma IntRejectsSeparator(c: char, d: string)
    requires 28 <= c as int <= 31 && IsDigitGroup(d)
    ensures ParseInt([c] + d) == None
  {
    var s := [c] + d;
    assert s[|s| - 1] == d[|d| - 1];
    IntStripUnchanged(s);
    assert !IsDigitGroup(s);
  }

  lemma {:induction false} PaddedIntStrip(s: string, pre: string, post: string)
    requires forall i :: 0 <= i < |pre| ==> IsIntSpace(pre[i])
    requires forall i :: 0 <= i < |post| ==> IsIntSpace(post[i])
    ensures IntStrip(pre + s + post) == IntStrip(s)
  {
    PaddedTrimStart(s + post, pre);
    assert pre + s + post == pre + (s + post);
    PaddedTrimEnd(IntTrimStart(s + post), post);
    TrimStartAppend(s, post);
  }

  lemma {:induction false} PaddedTrimStart(s: string, pre: string)
    requires forall i :: 0 <= i < |pre| ==> IsIntSpace(pre[i])
    ensures IntTrimStart(pre + s) == IntTrimStart(s)
    decreases |pre|
  {
    if pre != [] {
      assert (pre + s)[1..] == pre[1..] + s;
      PaddedTrimStart(s, pre[1..]);
    } else {
      assert pre + s == s;
    }
  }

  lemma {:induction false} PaddedTrimEnd(s: string, post: string)
    requires forall i :: 0 <= i < |post| ==> IsIntSpace(post[i])
    ensures IntTrimEnd(s + post) == IntTrimEnd(s)
    decreases |post|
  {
    if post != [] {
      var q := post[..|post| - 1];
      assert (s + post)[..|s + post| - 1] == s + q;
      PaddedTrimEnd(s, q);
    } else {
      assert s + post == s;
    }
  }

  /** Trailing white space can be trimmed before or after the leading white space. */
  lemma {:induction false} TrimStartAppend(s: string, post: string)
    requires forall i :: 0 <= i < |post| ==> IsIntSpace(post[i])
    ensures IntTrimEnd(IntTrimStart(s + post)) == IntTrimEnd(IntTrimStart(s))
    decreases |s|
  {
    if s == [] {
      assert s + post == post;
      AllSpaceTrims(post);
    } else if IsIntSpace(s[0]) {
      assert (s + post)[1..] == s[1..] + post;
      TrimStartAppend(s[1..], post);
    } else {
      assert IntTrimStart(s + post) == s + post;
      PaddedTrimEnd(s, post);
    }
  }

  lemma {:induction false} AllSpaceTrims(s: string)
    requires forall i :: 0 <= i < |s| ==> IsIntSpace(s[i])
    ensures IntTrimStart(s) == []
    decreases |s|
  {
    if s != [] {
      AllSpaceTrims(s[1..]);
    }
  }
}
