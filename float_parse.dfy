/** The part of Python's `float(str)` that the approval activity relies on:
    surrounding whitespace is ignored, an optional sign is followed by decimal
    digits with at most one decimal point, and at least one digit is needed.
    Anything else makes `float` raise, which this model returns as `None`. */
module FloatParse {
  import opened Values

  /** The characters `float` skips around a number: the ASCII tab, line feed,
      vertical tab, form feed, carriage return and space, and the non-ASCII
      code points Unicode classes as white space (which `float` first turns
      into spaces). The ASCII separators 0x1C-0x1F are not among them. */
  predicate IsSpace(c: char)
  {
    var n := c as int;
    (9 <= n <= 13) || n == 32 || n == 0x85 || n == 0xA0 || n == 0x1680
    || (0x2000 <= n <= 0x200A) || n == 0x2028 || n == 0x2029 || n == 0x202F
    || n == 0x205F || n == 0x3000
  }

  predicate IsDigit(c: char)
  {
    '0' <= c <= '9'
  }

  predicate AllDigits(s: string)
  {
    forall i :: 0 <= i < |s| ==> IsDigit(s[i])
  }

  function DigitValue(c: char): (d: nat)
    requires IsDigit(c)
    ensures d < 10
  {
    c as int - '0' as int
  }

  /** The natural number a string of decimal digits denotes (0 for ""). */
  function DigitsValue(s: string): nat
    requires AllDigits(s)
    decreases |s|
  {
    if |s| == 0 then 0 else DigitsValue(s[..|s| - 1]) * 10 + DigitValue(s[|s| - 1])
  }

  function Pow10(n: nat): (p: nat)
    ensures p >= 1
  {
    if n == 0 then 1 else 10 * Pow10(n - 1)
  }

  /** `s.lstrip()`. */
  function StripLeft(s: string): (r: string)
    ensures |r| <= |s| && r == s[|s| - |r|..]
    ensures |r| > 0 ==> !IsSpace(r[0])
    ensures forall i :: 0 <= i < |s| - |r| ==> IsSpace(s[i])
    decreases |s|
  {
    if |s| > 0 && IsSpace(s[0]) then StripLeft(s[1..]) else s
  }

  /** `s.rstrip()`. */
  function StripRight(s: string): (r: string)
    ensures |r| <= |s| && r == s[..|r|]
    ensures |r| > 0 ==> !IsSpace(r[|r| - 1])
    ensures forall i :: |r| <= i < |s| ==> IsSpace(s[i])
    decreases |s|
  {
    if |s| > 0 && IsSpace(s[|s| - 1]) then StripRight(s[..|s| - 1]) else s
  }

  /** The position of the first '.' in `s`. */
  function DotIndex(s: string): (i: nat)
    requires '.' in s
    ensures i < |s| && s[i] == '.' && '.' !in s[..i]
    decreases |s|
  {
    if s[0] == '.' then 0
    else
      assert '.' in s[1..] by {
        var k :| 0 <= k < |s| && s[k] == '.';
        assert s[1..][k - 1] == '.';
      }
      1 + DotIndex(s[1..])
  }

  /** The value of integer digits `ip` followed by fraction digits `fp`. */
  function Magnitude(ip: string, fp: string): real
    requires AllDigits(ip) && AllDigits(fp)
  {
    DigitsValue(ip) as real + DigitsValue(fp) as real / Pow10(|fp|) as real
  }

  /** An unsigned decimal: digits, or digits '.' digits, with at least one digit. */
  function ParseUnsigned(u: string): Option<real>
  {
    if '.' in u then
      var i := DotIndex(u);
      var ip, fp := u[..i], u[i + 1..];
      if AllDigits(ip) && AllDigits(fp) && |ip| + |fp| > 0 then
        Some(Magnitude(ip, fp))
      else None
    else if |u| > 0 && AllDigits(u) then Some(DigitsValue(u) as real)
    else None
  }

  /** `float(s)` for a string, or `None` where it would raise `ValueError`. */
  function ParseFloat(s: string): (r: Option<real>)
    ensures r.Some? ==> HasDigit(s)
  {
    var l := StripLeft(s);
    var t := StripRight(l);
    SignedNeedsDigit(t);
    DigitSurvivesStrip(s, l, t);
    ParseSigned(t)
  }

  /** A string holding at least one decimal digit. */
  predicate HasDigit(s: string)
  {
    exists i :: 0 <= i < |s| && IsDigit(s[i])
  }

  /** Stripping only removes characters, so a digit of the stripped text is
      a digit of the original. */
  lemma DigitSurvivesStrip(s: string, l: string, t: string)
    requires |t| <= |l| <= |s| && l == s[|s| - |l|..] && t == l[..|t|]
    ensures HasDigit(t) ==> HasDigit(s)
  {
    if HasDigit(t) {
      var i :| 0 <= i < |t| && IsDigit(t[i]);
      assert s[|s| - |l| + i] == t[i];
    }
  }

  /** A stripped number: an optional sign, then an unsigned decimal. */
  function ParseSigned(t: string): Option<real>
  {
    if |t| > 0 && t[0] == '-' then
      match ParseUnsigned(t[1..])
      case Some(x) => Some(-x)
      case None => None
    else if |t| > 0 && t[0] == '+' then ParseUnsigned(t[1..])
    else ParseUnsigned(t)
  }

  /** An unsigned decimal that parses holds a digit. */
  lemma UnsignedNeedsDigit(u: string)
    ensures ParseUnsigned(u).Some? ==> HasDigit(u)
  {
    if ParseUnsigned(u).Some? {
      if '.' in u {
        var i := DotIndex(u);
        if |u[..i]| > 0 {
          assert IsDigit(u[0]);
        } else {
          assert IsDigit(u[i + 1..][0]);
        }
      } else {
        assert IsDigit(u[0]);
      }
    }
  }

  /** A signed decimal that parses holds a digit after its sign. */
  lemma SignedNeedsDigit(t: string)
    ensures ParseSigned(t).Some? ==> HasDigit(t)
  {
    if |t| > 0 && (t[0] == '-' || t[0] == '+') {
      UnsignedNeedsDigit(t[1..]);
      if ParseSigned(t).Some? {
        var i :| 0 <= i < |t| - 1 && IsDigit(t[1..][i]);
        assert t[i + 1] == t[1..][i];
      }
    } else {
      UnsignedNeedsDigit(t);
    }
  }

  /** The canonical decimal rendering of a natural number (`str(n)`). */
  function ShowNat(n: nat): (s: string)
    ensures |s| > 0 && AllDigits(s)
  {
    var d := ['0' + ((n % 10) as char)];
    if n < 10 then d else ShowNat(n / 10) + d
  }

  lemma {:induction false} DigitsOfShowNat(n: nat)
    ensures DigitsValue(ShowNat(n)) == n
  {
    var s := ShowNat(n);
    if n >= 10 {
      DigitsOfShowNat(n / 10);
      assert s[..|s| - 1] == ShowNat(n / 10);
    }
  }

  lemma ParseDigitString(s: string)
    requires |s| > 0 && AllDigits(s)
    ensures ParseUnsigned(s) == Some(DigitsValue(s) as real)
  {
  }

  predicate AllSpace(s: string)
  {
    forall i :: 0 <= i < |s| ==> IsSpace(s[i])
  }

  lemma {:induction false} StripLeftPadding(lead: string, t: string)
    requires AllSpace(lead) && (|t| == 0 || !IsSpace(t[0]))
    ensures StripLeft(lead + t) == t
  {
    if |lead| == 0 {
      assert lead + t == t;
    } else {
      assert (lead + t)[0] == lead[0];
      assert (lead + t)[1..] == lead[1..] + t;
      StripLeftPadding(lead[1..], t);
    }
  }

  lemma {:induction false} StripRightPadding(t: string, trail: string)
    requires AllSpace(trail) && (|t| == 0 || !IsSpace(t[|t| - 1]))
    ensures StripRight(t + trail) == t
  {
    if |trail| == 0 {
      assert t + trail == t;
    } else {
      var s := t + trail;
      assert s[|s| - 1] == trail[|trail| - 1];
      assert s[..|s| - 1] == t + trail[..|trail| - 1];
      StripRightPadding(t, trail[..|trail| - 1]);
    }
  }

  /** A string of blanks, the empty string included, is not a number. */
  lemma ParseBlank(s: string)
    requires AllSpace(s)
    ensures ParseFloat(s) == None
  {
    assert StripLeft(s) == "";
  }

  /** The digits, and the fraction after an optional point, of a decimal. */
  function UnsignedText(ip: string, fp: string, point: bool): string
  {
    if point then ip + "." + fp else ip
  }

  /** A decimal as `float` accepts it: blanks, an optional sign, digits with
      an optional point and fraction (at least one digit overall), blanks. */
  function DecimalText(lead: string, sign: string, ip: string, fp: string, point: bool, trail: string): string
  {
    lead + sign + UnsignedText(ip, fp, point) + trail
  }

  predicate WellFormedDecimal(lead: string, sign: string, ip: string, fp: string, point: bool, trail: string)
  {
    && AllSpace(lead) && AllSpace(trail)
    && sign in {"", "+", "-"}
    && AllDigits(ip) && AllDigits(fp) && |ip| + |fp| > 0
    && (point || fp == "")
  }

  /** The number such a decimal denotes. */
  function DecimalValue(sign: string, ip: string, fp: string): real
    requires AllDigits(ip) && AllDigits(fp)
  {
    if sign == "-" then -Magnitude(ip, fp) else Magnitude(ip, fp)
  }

  lemma DotAfterDigits(ip: string, fp: string)
    requires AllDigits(ip)
    ensures '.' in ip + "." + fp && DotIndex(ip + "." + fp) == |ip|
  {
    var u := ip + "." + fp;
    assert u[|ip|] == '.';
    var i := DotIndex(u);
    assert forall k :: 0 <= k < |ip| ==> u[k] == ip[k];
  }

  lemma ParseFractionText(ip: string, fp: string)
    requires AllDigits(ip) && AllDigits(fp) && |ip| + |fp| > 0
    ensures ParseUnsigned(ip + "." + fp)
      == Some(Magnitude(ip, fp))
  {
    var u := ip + "." + fp;
    DotAfterDigits(ip, fp);
    var i := DotIndex(u);
    assert u[..i] == ip && u[i + 1..] == fp;
  }

  lemma ParseUnsignedText(ip: string, fp: string, point: bool)
    requires AllDigits(ip) && AllDigits(fp) && |ip| + |fp| > 0 && (point || fp == "")
    ensures ParseUnsigned(UnsignedText(ip, fp, point))
      == Some(Magnitude(ip, fp))
  {
    if point {
      ParseFractionText(ip, fp);
    } else {
      ParseDigitString(ip);
    }
  }

  lemma UnsignedTextEnds(ip: string, fp: string, point: bool)
    requires AllDigits(ip) && AllDigits(fp) && |ip| + |fp| > 0 && (point || fp == "")
    ensures var u := UnsignedText(ip, fp, point);
      |u| > 0 && !IsSpace(u[0]) && !IsSpace(u[|u| - 1]) && u[0] != '-' && u[0] != '+'
  {
    var u := UnsignedText(ip, fp, point);
    if point {
      assert |ip| > 0 ==> u[0] == ip[0];
      assert |ip| == 0 ==> u[0] == '.';
      assert |fp| > 0 ==> u[|u| - 1] == fp[|fp| - 1];
      assert |fp| == 0 ==> u[|u| - 1] == '.';
    } else {
      assert IsDigit(ip[0]) && IsDigit(ip[|ip| - 1]);
    }
  }

  lemma StripDecimalText(lead: string, sign: string, ip: string, fp: string, point: bool, trail: string)
    requires WellFormedDecimal(lead, sign, ip, fp, point, trail)
    ensures StripRight(StripLeft(DecimalText(lead, sign, ip, fp, point, trail)))
      == sign + UnsignedText(ip, fp, point)
  {
    var u := UnsignedText(ip, fp, point);
    var t := sign + u;
    UnsignedTextEnds(ip, fp, point);
    assert !IsSpace(t[0]) by {
      assert sign != "" ==> t[0] == sign[0];
      assert sign == "" ==> t == u;
    }
    assert t[|t| - 1] == u[|u| - 1];
    assert DecimalText(lead, sign, ip, fp, point, trail) == lead + (t + trail);
    assert (t + trail)[0] == t[0];
    StripLeftPadding(lead, t + trail);
    StripRightPadding(t, trail);
  }

  lemma {:induction false} ParseSignedOf(sign: string, u: string, x: real)
    requires sign in {"", "+", "-"}
    requires |u| > 0 && u[0] != '-' && u[0] != '+' && ParseUnsigned(u) == Some(x)
    ensures ParseSigned(sign + u) == Some(if sign == "-" then -x else x)
  {
    var t := sign + u;
    if sign == "-" {
      assert t[0] == '-' && t[1..] == u;
    } else if sign == "+" {
      assert t[0] == '+' && t[1..] == u;
    } else {
      assert t == u;
    }
  }

  lemma {:induction false} ParseSignedText(sign: string, ip: string, fp: string, point: bool)
    requires sign in {"", "+", "-"}
    requires AllDigits(ip) && AllDigits(fp) && |ip| + |fp| > 0 && (point || fp == "")
    ensures ParseSigned(sign + UnsignedText(ip, fp, point)) == Some(DecimalValue(sign, ip, fp))
  {
    ParseUnsignedText(ip, fp, point);
    UnsignedTextEnds(ip, fp, point);
    ParseSignedOf(sign, UnsignedText(ip, fp, point), Magnitude(ip, fp));
  }

  /** `float` of any decimal of the accepted shape is the number it spells. */
  lemma ParseDecimalText(lead: string, sign: string, ip: string, fp: string, point: bool, trail: string)
    requires WellFormedDecimal(lead, sign, ip, fp, point, trail)
    ensures ParseFloat(DecimalText(lead, sign, ip, fp, point, trail)) == Some(DecimalValue(sign, ip, fp))
  {
    var text := DecimalText(lead, sign, ip, fp, point, trail);
    var u := UnsignedText(ip, fp, point);
    var t := sign + u;
    StripDecimalText(lead, sign, ip, fp, point, trail);
    assert ParseFloat(text) == ParseSigned(t);
    ParseSignedText(sign, ip, fp, point);
  }

  lemma {:induction false} IntegerText(sign: string, s: string)
    ensures DecimalText("", sign, s, "", false, "") == sign + s
  {
    assert UnsignedText(s, "", false) == s;
  }

  /** A digit string, negated or not, parses as its integer value. */
  lemma {:induction false} ParseInteger(sign: string, s: string)
    requires sign in {"", "-"} && |s| > 0 && AllDigits(s)
    ensures ParseFloat(sign + s) == Some(DecimalValue(sign, s, ""))
  {
    IntegerText(sign, s);
    ParseDecimalText("", sign, s, "", false, "");
  }

  lemma {:induction false} IntegerMagnitude(s: string)
    requires AllDigits(s)
    ensures Magnitude(s, "") == DigitsValue(s) as real
  {
  }

  /** A digit string parses as the integer it spells. */
  lemma {:induction false} ParseDigits(s: string)
    requires |s| > 0 && AllDigits(s)
    ensures ParseFloat(s) == Some(DigitsValue(s) as real)
  {
    IntegerMagnitude(s);
    ParseInteger("", s);
    assert "" + s == s;
  }

  /** A digit string after a minus sign parses as the negated integer. */
  lemma {:induction false} ParseNegatedDigits(s: string)
    requires |s| > 0 && AllDigits(s)
    ensures ParseFloat("-" + s) == Some(-(DigitsValue(s) as real))
  {
    IntegerMagnitude(s);
    ParseInteger("-", s);
  }

  /** Parsing `str(n)` gives back the number: the unpadded case, with no
      sign and no point, of `ParseDecimalText`. */
  lemma {:induction false} ParseShowNat(n: nat)
    ensures ParseFloat(ShowNat(n)) == Some(n as real)
  {
    DigitsOfShowNat(n);
    ParseDigits(ShowNat(n));
  }

  /** Parsing `"-" + str(n)` gives back `-n`. */
  lemma {:induction false} ParseNegatedShowNat(n: nat)
    ensures ParseFloat("-" + ShowNat(n)) == Some(-(n as real))
  {
    DigitsOfShowNat(n);
    ParseNegatedDigits(ShowNat(n));
  }
}
