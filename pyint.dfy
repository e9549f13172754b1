/**
 * The part of Python's built-in `int(str)` that decides whether an inbound chat
 * message is an OTP attempt (otp.py:114-117), and `str(n)` for an integer `n`,
 * which `int` inverts.
 *
 * `int(s)` strips surrounding whitespace, accepts one optional sign, then decimal
 * digits in which single underscores may separate two digits; anything else is a
 * `ValueError`. Leading zeros are allowed ("007" is 7).
 */
module PyInt {

  import opened Wrappers

  /**
   * The characters `int` strips around a numeral: of the ASCII ones only the
   * space and `\t \n \v \f \r` (the information separators U+001C-U+001F,
   * which `str.isspace` accepts, are not stripped), and every non-ASCII code
   * point `str.isspace` accepts.
   */
  predicate IsSpace(c: char)
  {
    var k := c as int;
    || 0x09 <= k <= 0x0D
    || k == 0x20
    || k == 0x85 || k == 0xA0 || k == 0x1680
    || 0x2000 <= k <= 0x200A
    || k == 0x2028 || k == 0x2029 || k == 0x202F || k == 0x205F || k == 0x3000
  }

  predicate IsDigit(c: char)
  {
    '0' <= c <= '9'
  }

  function TrimLeft(s: string): (r: string)
    ensures |r| <= |s| && r == s[|s| - |r|..]
    ensures r == [] || !IsSpace(r[0])
  {
    if |s| > 0 && IsSpace(s[0]) then TrimLeft(s[1..]) else s
  }

  function TrimRight(s: string): (r: string)
    ensures |r| <= |s| && r == s[..|r|]
    ensures r == [] || !IsSpace(r[|r| - 1])
  {
    if |s| > 0 && IsSpace(s[|s| - 1]) then TrimRight(s[..|s| - 1]) else s
  }

  /** `str.strip()` with no argument. */
  function Strip(s: string): string
  {
    TrimRight(TrimLeft(s))
  }

  /** A run of decimal digits in which an underscore may only stand between two digits. */
  predicate WellFormedDigits(s: string)
  {
    && |s| > 0
    && IsDigit(s[0])
    && IsDigit(s[|s| - 1])
    && (forall i :: 0 <= i < |s| ==> IsDigit(s[i]) || s[i] == '_')
    && (forall i :: 0 <= i < |s| - 1 ==> !DoubleUnderscoreAt(s, i))
  }

  predicate DoubleUnderscoreAt(s: string, i: nat)
    requires i < |s| - 1
  {
    s[i] == '_' && s[i + 1] == '_'
  }

  /** The value of the digits of `s`, read left to right, underscores skipped. */
  function DigitsValue(s: string): nat
  {
    if s == [] then 0
    else
      var last := s[|s| - 1];
      if IsDigit(last) then 10 * DigitsValue(s[..|s| - 1]) + (last as int - '0' as int)
      else DigitsValue(s[..|s| - 1])
  }

  /** The character at `i` has a digit on either side. */
  predicate BetweenDigits(t: string, i: nat)
    requires i < |t|
  {
    0 < i < |t| - 1 && IsDigit(t[i - 1]) && IsDigit(t[i + 1])
  }

  /** Every character is a digit, or an underscore with a digit on either side. */
  predicate SeparatedDigits(t: string)
  {
    && |t| > 0
    && forall i :: 0 <= i < |t| ==> IsDigit(t[i]) || (t[i] == '_' && BetweenDigits(t, i))
  }

  lemma WellFormedIsSeparated(t: string)
    ensures WellFormedDigits(t) <==> SeparatedDigits(t)
  {
    if WellFormedDigits(t) {
      forall i | 0 <= i < |t| && !IsDigit(t[i])
        ensures t[i] == '_' && BetweenDigits(t, i)
      {
        assert !DoubleUnderscoreAt(t, i - 1) && !DoubleUnderscoreAt(t, i);
      }
    }
    if SeparatedDigits(t) {
      assert IsDigit(t[0]) && IsDigit(t[|t| - 1]);
      forall i | 0 <= i < |t| - 1
        ensures !DoubleUnderscoreAt(t, i)
      {
        assert IsDigit(t[i]) || BetweenDigits(t, i);
      }
    }
  }

  /**
   * The unsigned part of a numeral, `None` when it is not one: it is one exactly
   * when it is nonempty and each underscore stands between two digits.
   */
  function ParseDigits(t: string): (r: Option<nat>)
    ensures r.Some? <==> SeparatedDigits(t)
  {
    WellFormedIsSeparated(t);
    if WellFormedDigits(t) then Some(DigitsValue(t)) else None
  }

  /** `int(body)`: `None` stands for the `ValueError` that otp.py:116 catches. */
  function ParseInt(body: string): Option<int>
  {
    ParseNumeral(Strip(body))
  }

  /** An optionally signed numeral, already stripped. */
  function ParseNumeral(t: string): Option<int>
  {
    if |t| > 0 && (t[0] == '+' || t[0] == '-') then
      match ParseDigits(t[1..])
      case None => None
      case Some(v) => Some(if t[0] == '-' then -(v as int) else v)
    else
      match ParseDigits(t)
      case None => None
      case Some(v) => Some(v)
  }

  function DigitChar(d: nat): (c: char)
    requires d < 10
    ensures IsDigit(c) && c as int - '0' as int == d
  {
    ('0' as int + d) as char
  }

  /** `str(n)` for `n >= 0`: the shortest decimal numeral of `n`. */
  function ShowNat(n: nat): (s: string)
    ensures |s| > 0
    ensures forall i :: 0 <= i < |s| ==> IsDigit(s[i])
  {
    if n < 10 then [DigitChar(n)] else ShowNat(n / 10) + [DigitChar(n % 10)]
  }

  /** `str(n)`. */
  function Show(n: int): string
  {
    if n < 0 then "-" + ShowNat(-n) else ShowNat(n)
  }

  lemma {:induction false} DigitsValueOfShowNat(n: nat)
    ensures DigitsValue(ShowNat(n)) == n
  {
    if n >= 10 {
      var s := ShowNat(n);
      assert s[..|s| - 1] == ShowNat(n / 10);
      DigitsValueOfShowNat(n / 10);
    }
  }

  /** A numeral without surrounding whitespace is left alone by `strip`. */
  lemma StripNoSpace(s: string)
    requires |s| > 0 && !IsSpace(s[0]) && !IsSpace(s[|s| - 1])
    ensures Strip(s) == s
  {
  }

  /** `int(str(n)) == n`: every numeral the bot itself could print is read back as its value. */
  lemma {:induction false} ParseShow(n: int)
    ensures ParseInt(Show(n)) == Some(n)
  {
    if n < 0 {
      ParseShowNegative(n);
    } else {
      ParseShowNonNegative(n);
    }
  }

  lemma ParseShowNegative(n: int)
    requires n < 0
    ensures ParseInt(Show(n)) == Some(n)
  {
    var m: nat := -n;
    var digits := ShowNat(m);
    ShowNatWellFormed(m);
    DigitsValueOfShowNat(m);
    assert Show(n) == "-" + digits;
    ParseNegative(Show(n), digits);
  }

  lemma ParseShowNonNegative(m: nat)
    ensures ParseInt(Show(m)) == Some(m)
  {
    var digits := ShowNat(m);
    ShowNatWellFormed(m);
    DigitsValueOfShowNat(m);
    ParseNonNegative(Show(m), digits);
  }

  lemma ShowNatWellFormed(n: nat)
    ensures WellFormedDigits(ShowNat(n))
  {
    var s := ShowNat(n);
    assert forall i :: 0 <= i < |s| - 1 ==> !DoubleUnderscoreAt(s, i);
  }

  lemma ParseNegative(s: string, digits: string)
    requires WellFormedDigits(digits) && s == "-" + digits
    ensures ParseInt(s) == Some(-(DigitsValue(digits) as int))
  {
    assert s[1..] == digits;
    assert s[|s| - 1] == digits[|digits| - 1];
    StripNoSpace(s);
  }

  lemma ParseNonNegative(s: string, digits: string)
    requires WellFormedDigits(digits) && s == digits
    ensures ParseInt(s) == Some(DigitsValue(digits) as int)
  {
    StripNoSpace(digits);
    assert !(digits[0] == '+' || digits[0] == '-');
    assert ParseDigits(digits) == Some(DigitsValue(digits));
  }

  /** An information separator before a numeral makes `int` raise, though `str.isspace` holds of it. */
  lemma SeparatorNotStripped()
    ensures ParseInt([0x1C as char] + "7") == None
  {
    var t := [0x1C as char] + "7";
    StripNoSpace(t);
    assert !WellFormedDigits(t);
  }

  /** Surrounding whitespace does not change what `int` reads. */
  lemma {:induction false} ParseIgnoresSurroundingSpace(c: char, body: string)
    requires IsSpace(c)
    ensures ParseInt([c] + body) == ParseInt(body)
    ensures ParseInt(body + [c]) == ParseInt(body)
  {
    assert ([c] + body)[1..] == body;
    assert Strip([c] + body) == Strip(body);
    TrimLeftAppendSpace(body, c);
    assert Strip(body + [c]) == Strip(body);
  }

  lemma {:induction false} TrimRightAppendSpace(s: string, c: char)
    requires IsSpace(c)
    ensures TrimRight(s + [c]) == TrimRight(s)
  {
    assert (s + [c])[..|s|] == s;
  }

  lemma {:induction false} TrimLeftAppendSpace(s: string, c: char)
    requires IsSpace(c)
    ensures TrimRight(TrimLeft(s + [c])) == TrimRight(TrimLeft(s))
    decreases |s|
  {
    if |s| > 0 && IsSpace(s[0]) {
      assert (s + [c])[1..] == s[1..] + [c];
      TrimLeftAppendSpace(s[1..], c);
    } else if |s| == 0 {
      assert TrimLeft([c]) == [];
    } else {
      TrimRightAppendSpace(s, c);
    }
  }

  /** A message with no decimal digit in it (ordinary chat text) is never an OTP attempt. */
  lemma ParseNeedsDigit(body: string)
    requires forall i :: 0 <= i < |body| ==> !IsDigit(body[i])
    ensures ParseInt(body) == None
  {
    var l := TrimLeft(body);
    var t := TrimRight(l);
    assert forall i :: 0 <= i < |l| ==> !IsDigit(l[i]) by {
      forall i | 0 <= i < |l| ensures !IsDigit(l[i]) {
        assert l[i] == body[|body| - |l| + i];
      }
    }
    assert forall i :: 0 <= i < |t| ==> !IsDigit(t[i]) by {
      forall i | 0 <= i < |t| ensures !IsDigit(t[i]) {
        assert t[i] == l[i];
      }
    }
    NoDigitNoNumeral(t);
  }

  lemma NoDigitNoNumeral(t: string)
    requires forall i :: 0 <= i < |t| ==> !IsDigit(t[i])
    ensures ParseNumeral(t) == None
  {
    if |t| > 1 {
      assert !IsDigit(t[1..][0]);
    }
  }
}
