/**
 * Python's `int(text)` on a string, base 10, as the logger applies it to a
 * port number. It accepts surrounding whitespace, an optional sign, and
 * decimal digits with single underscores between them; everything else is
 * a `ValueError`, modelled here as `None`.
 */
module PyInt {
  import opened Wrappers
  import opened Strings

  /**
   * The characters `int()` strips from both ends: the six ASCII whitespace
   * characters, and the non-ASCII characters Python counts as whitespace.
   * The ASCII separators U+001C to U+001F, which `str.isspace` accepts, are
   * not stripped by `int()`.
   */
  predicate IsSpace(ch: char) {
    || ch == ' ' || ch == '\t' || ch == '\n' || ch == '\r'
    || ch == '\U{000B}' || ch == '\U{000C}'
    || ch == '\U{0085}' || ch == '\U{00A0}' || ch == '\U{1680}'
    || ('\U{2000}' <= ch <= '\U{200A}')
    || ch == '\U{2028}' || ch == '\U{2029}' || ch == '\U{202F}'
    || ch == '\U{205F}' || ch == '\U{3000}'
  }

  predicate IsDigit(ch: char) {
    '0' <= ch <= '9'
  }

  predicate AllSpace(s: string) {
    forall i :: 0 <= i < |s| ==> IsSpace(s[i])
  }

  function TrimStart(s: string): (r: string)
    ensures r == [] || !IsSpace(r[0])
  {
    if s != [] && IsSpace(s[0]) then TrimStart(s[1..]) else s
  }

  function TrimEnd(s: string): (r: string)
    ensures r == [] || !IsSpace(r[|r| - 1])
  {
    if s != [] && IsSpace(s[|s| - 1]) then TrimEnd(s[..|s| - 1]) else s
  }

  lemma {:induction false} TrimStartIsSuffix(s: string)
    ensures |TrimStart(s)| <= |s| && TrimStart(s) == s[|s| - |TrimStart(s)|..]
  {
    if s != [] && IsSpace(s[0]) {
      TrimStartIsSuffix(s[1..]);
    }
  }

  lemma {:induction false} TrimEndIsPrefix(s: string)
    ensures |TrimEnd(s)| <= |s| && TrimEnd(s) == s[..|TrimEnd(s)|]
  {
    if s != [] && IsSpace(s[|s| - 1]) {
      TrimEndIsPrefix(s[..|s| - 1]);
    }
  }

  /** Surrounding whitespace removed, as `int()` does before parsing. */
  function Strip(s: string): (r: string)
    ensures forall i :: 0 <= i < |r| ==> r[i] in s
  {
    var t := TrimStart(s);
    var r := TrimEnd(t);
    TrimStartIsSuffix(s);
    TrimEndIsPrefix(t);
    assert forall i :: 0 <= i < |r| ==> r[i] == t[i] == s[|s| - |t| + i];
    r
  }

  /** Digits with single underscores between them: `1`, `1_000`, `007`; not `_1`, `1_`, `1__0`. */
  predicate ValidDigits(s: string) {
    && |s| > 0
    && IsDigit(s[0])
    && (|s| == 1 || ValidDigits(s[1..]) || (s[1] == '_' && ValidDigits(s[2..])))
  }

  /**
   * The shape `ValidDigits` accepts, stated character by character: it starts
   * and ends with a digit, holds only digits and underscores, and has no two
   * underscores in a row.
   */
  predicate DigitGroups(s: string) {
    && |s| > 0
    && IsDigit(s[0])
    && IsDigit(s[|s| - 1])
    && (forall i :: 0 <= i < |s| ==> IsDigit(s[i]) || s[i] == '_')
    && (forall i :: 0 <= i < |s| - 1 ==> !(s[i] == '_' && s[i + 1] == '_'))
  }

  lemma {:induction false} ValidDigitsCharacterised(s: string)
    ensures ValidDigits(s) <==> DigitGroups(s)
  {
    if |s| > 1 {
      ValidDigitsCharacterised(s[1..]);
      if |s| > 2 {
        ValidDigitsCharacterised(s[2..]);
      }
      if ValidDigits(s) {
        if !ValidDigits(s[1..]) {
          assert s[1] == '_' && ValidDigits(s[2..]);
          assert forall i :: 2 <= i < |s| ==> s[i] == s[2..][i - 2];
        }
      }
      if DigitGroups(s) {
        if IsDigit(s[1]) {
          assert DigitGroups(s[1..]);
        } else {
          assert s[1] == '_' && |s| > 2 && s[2] != '_';
          assert forall i :: 2 <= i < |s| ==> s[i] == s[2..][i - 2];
          assert DigitGroups(s[2..]);
        }
      }
    }
  }

  /** The value of a string of decimal digits, most significant first. */
  function DigitsValue(d: string): (n: nat) {
    if d == [] then 0
    else DigitsValue(d[..|d| - 1]) * 10 + (if IsDigit(d[|d| - 1]) then d[|d| - 1] as int - '0' as int else 0)
  }

  function ParseDigits(s: string): (r: Option<nat>) {
    if ValidDigits(s) then Some(DigitsValue(Without(s, '_'))) else None
  }

  /**
   * `int(text)`: `Some(n)` when Python returns `n`, `None` when it raises
   * `ValueError`. Non-ASCII Unicode decimal digits, which Python also
   * accepts, are not modelled.
   */
  function ParseInt(text: string): (r: Option<int>)
    ensures (forall i :: 0 <= i < |text| ==> !IsDigit(text[i])) ==> r.None?
    ensures r.Some? && r.value < 0 ==> |Strip(text)| > 0 && Strip(text)[0] == '-'
  {
    var t := Strip(text);
    if |t| > 0 && (t[0] == '+' || t[0] == '-') then
      match ParseDigits(t[1..])
      case None => None
      case Some(n) => Some(if t[0] == '-' then -(n as int) else n as int)
    else
      match ParseDigits(t)
      case None => None
      case Some(n) => Some(n)
  }

  function DigitChar(d: nat): (ch: char)
    requires d < 10
  {
    ('0' as int + d) as char
  }

  /** Python's `str(n)`: the shortest decimal form, with a leading `-` when negative. */
  function ShowNat(n: nat): (s: string)
    ensures |s| > 0 && forall i :: 0 <= i < |s| ==> IsDigit(s[i])
  {
    if n < 10 then [DigitChar(n)] else ShowNat(n / 10) + [DigitChar(n % 10)]
  }

  function Show(n: int): (s: string) {
    if n < 0 then "-" + ShowNat(-n) else ShowNat(n)
  }

  lemma {:induction false} AllDigitsValid(s: string)
    requires |s| > 0 && forall i :: 0 <= i < |s| ==> IsDigit(s[i])
    ensures ValidDigits(s)
  {
    if |s| > 1 {
      AllDigitsValid(s[1..]);
    }
  }

  lemma {:induction false} ShowNatValue(n: nat)
    ensures DigitsValue(ShowNat(n)) == n
  {
    var s := ShowNat(n);
    if n >= 10 {
      ShowNatValue(n / 10);
      assert s[..|s| - 1] == ShowNat(n / 10);
    }
  }

  /** Digits alone parse to the value they spell. */
  lemma ShowNatParses(n: nat)
    ensures ParseDigits(ShowNat(n)) == Some(n)
  {
    var s := ShowNat(n);
    AllDigitsValid(s);
    WithoutIdentity(s, '_');
    ShowNatValue(n);
  }

  /** `int(str(n)) == n` for every integer `n`. */
  lemma ParseShow(n: int)
    ensures ParseInt(Show(n)) == Some(n)
  {
    var s := Show(n);
    var d := ShowNat(if n < 0 then -n else n);
    ShowNatParses(if n < 0 then -n else n);
    assert !IsSpace(s[0]) && !IsSpace(s[|s| - 1]);
    assert Strip(s) == s;
    if n < 0 {
      assert s[1..] == d;
    }
  }

  lemma {:induction false} TrimStartSpaces(pre: string, s: string)
    requires AllSpace(pre)
    ensures TrimStart(pre + s) == TrimStart(s)
  {
    if pre != [] {
      assert (pre + s)[1..] == pre[1..] + s;
      TrimStartSpaces(pre[1..], s);
    } else {
      assert pre + s == s;
    }
  }

  lemma {:induction false} TrimEndSpaces(s: string, post: string)
    requires AllSpace(post)
    ensures TrimEnd(s + post) == TrimEnd(s)
  {
    if post != [] {
      var x := s + post;
      assert x[..|x| - 1] == s + post[..|post| - 1];
      TrimEndSpaces(s, post[..|post| - 1]);
    } else {
      assert s + post == s;
    }
  }

  /** Trailing text survives trimming the start unless the whole prefix is whitespace. */
  lemma {:induction false} TrimStartAppend(s: string, post: string)
    ensures AllSpace(s) ==> TrimStart(s + post) == TrimStart(post) && TrimStart(s) == []
    ensures !AllSpace(s) ==> TrimStart(s + post) == TrimStart(s) + post
  {
    if s == [] {
      assert s + post == post;
    } else {
      assert (s + post)[0] == s[0] && (s + post)[1..] == s[1..] + post;
      TrimStartAppend(s[1..], post);
      if !IsSpace(s[0]) {
        assert !AllSpace(s);
      }
    }
  }

  /** Whitespace added around a string does not survive stripping. */
  lemma StripIgnoresSurroundingSpace(pre: string, s: string, post: string)
    requires AllSpace(pre) && AllSpace(post)
    ensures Strip(pre + s + post) == Strip(s)
  {
    assert pre + s + post == pre + (s + post);
    TrimStartSpaces(pre, s + post);
    TrimStartAppend(s, post);
    if AllSpace(s) {
      TrimStartSpaces(post, []);
      assert post + [] == post;
    } else {
      TrimEndSpaces(TrimStart(s), post);
    }
  }

  /** `int()` ignores whitespace around its argument: `int(" 8080\n") == int("8080")`. */
  lemma ParseIntIgnoresSurroundingSpace(pre: string, s: string, post: string)
    requires AllSpace(pre) && AllSpace(post)
    ensures ParseInt(pre + s + post) == ParseInt(s)
  {
    StripIgnoresSurroundingSpace(pre, s, post);
  }

  /**
   * `int()` accepts exactly this: after stripping, an optional sign followed
   * by digits with single underscores between them. Anything else, such as
   * `"80ab"`, `"12 34"`, `"1__0"` or `"1_"`, is a `ValueError`.
   */
  lemma ParseIntAcceptsExactly(text: string)
    ensures var t := Strip(text);
      ParseInt(text).Some? <==>
        DigitGroups(t) || (|t| > 0 && (t[0] == '+' || t[0] == '-') && DigitGroups(t[1..]))
  {
    var t := Strip(text);
    ValidDigitsCharacterised(t);
    if |t| > 0 {
      ValidDigitsCharacterised(t[1..]);
    }
  }

  /** A leading `+` is accepted: `int("+" + str(n)) == n` for `n >= 0`. */
  lemma ParsePlusShow(n: nat)
    ensures ParseInt("+" + Show(n)) == Some(n)
  {
    var s := "+" + Show(n);
    ShowNatParses(n);
    assert !IsSpace(s[0]) && !IsSpace(s[|s| - 1]);
    assert Strip(s) == s;
    assert s[1..] == ShowNat(n);
  }

  /** Digits and letters mixed are a `ValueError`. */
  lemma ParseMixedExample()
    ensures ParseInt("80ab") == None
  {
    var s := "80ab";
    assert !IsSpace(s[0]) && !IsSpace(s[|s| - 1]);
    assert Strip(s) == s;
    ValidDigitsCharacterised(s);
    assert !DigitGroups(s);
  }

  /** A port written in decimal parses to its value. */
  lemma ParsePortExample()
    ensures ParseInt("1234") == Some(1234)
  {
    assert Show(1234) == "1234" by {
      assert ShowNat(1) == "1";
      assert ShowNat(12) == ShowNat(1) + "2";
      assert ShowNat(123) == ShowNat(12) + "3";
      assert ShowNat(1234) == ShowNat(123) + "4";
    }
    ParseShow(1234);
  }

  /** An ASCII separator that `str.isspace` accepts is not stripped: `int("\x1c1234")` is a `ValueError`. */
  lemma ParseSeparatorExample()
    ensures ParseInt("\U{001C}1234") == None
  {
    var s := "\U{001C}1234";
    assert !IsSpace(s[0]) && !IsSpace(s[|s| - 1]);
    assert Strip(s) == s;
    assert !ValidDigits(s);
  }

  /** A word is a `ValueError`. */
  lemma ParseWordExample()
    ensures ParseInt("notanumber") == None
  {
    var w := "notanumber";
    assert TrimStart(w) == w;
    assert TrimEnd(w) == w;
    assert !ValidDigits(w);
  }
}
