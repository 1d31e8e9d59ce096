/** The number conversions the parsers apply to matched tokens: Python's float() on a
    token of digits and dots (and, in the frame parser, an optional sign), and int()
    on a token of digits and thousands separators after the commas are removed. */
module Numbers {
  import opened Text
  import opened Records

  /** The value of a string of decimal digits. */
  function DigitsValue(s: string): (n: nat)
    requires AllIn(s, Digit)
    ensures n < Pow10(|s|)
  {
    if s == [] then 0 else 10 * DigitsValue(s[..|s| - 1]) + (s[|s| - 1] as int - '0' as int)
  }

  function Pow10(n: nat): (p: nat)
    ensures p >= 1
  {
    if n == 0 then 1 else 10 * Pow10(n - 1)
  }

  lemma ShiftPlaces(x: nat, p: nat)
    ensures 10 * (x * p) == x * (10 * p)
  {
  }

  /** A number below p, divided by p, is a fraction in [0, 1). */
  lemma FractionBelowOne(n: nat, p: nat)
    requires n < p
    ensures 0.0 <= n as real / p as real < 1.0
  {
    var q := n as real / p as real;
    assert q * p as real == n as real;
  }

  /** Reading digits a then digits b: the value of a shifted by |b| places, plus that of b. */
  lemma {:induction false} DigitsValueAppend(a: string, b: string)
    requires AllIn(a, Digit) && AllIn(b, Digit)
    ensures AllIn(a + b, Digit)
    ensures DigitsValue(a + b) == DigitsValue(a) * Pow10(|b|) + DigitsValue(b)
    decreases |b|
  {
    assert forall k :: 0 <= k < |a + b| ==> (a + b)[k] == if k < |a| then a[k] else b[k - |a|];
    if b == [] {
      assert a + b == a;
    } else {
      var b' := b[..|b| - 1];
      var last := b[|b| - 1] as int - '0' as int;
      assert (a + b)[..|a + b| - 1] == a + b';
      DigitsValueAppend(a, b');
      var x, p := DigitsValue(a), Pow10(|b'|);
      assert DigitsValue(a + b) == 10 * (x * p + DigitsValue(b')) + last;
      assert 10 * (x * p) == x * (10 * p) by {
        ShiftPlaces(x, p);
      }
    }
  }

  /** The tokens of digits and dots that float() accepts: at most one dot and at least one digit. */
  predicate IsPlainDecimal(tok: string) {
    && AllIn(tok, DecimalChar)
    && (forall i, j :: 0 <= i < j < |tok| && tok[i] == '.' ==> tok[j] != '.')
    && (exists k :: 0 <= k < |tok| && IsDigit(tok[k]))
  }

  /** float(tok) for a token with no sign and no exponent: None where Python raises. */
  function ParseDecimal(tok: string): (r: Option<real>)
    ensures r.Some? <==> IsPlainDecimal(tok)
    ensures r.Some? ==> r.value >= 0.0
  {
    var d := RunEnd(tok, 0, Digit);
    if d == |tok| then
      if d == 0 then None else Some(DigitsValue(tok) as real)
    else if tok[d] != '.' then None
    else
      var f := RunEnd(tok, d + 1, Digit);
      if f < |tok| || f == 1 then None
      else
        DigitRunsOfDecimal(tok, d, f);
        Some(DecimalValue(tok[..d], tok[d + 1..]))
  }

  /** The two digit runs ParseDecimal finds, as slices of the token. */
  lemma DigitRunsOfDecimal(tok: string, d: nat, f: nat)
    requires d < f == |tok| && RunEnd(tok, 0, Digit) == d && RunEnd(tok, d + 1, Digit) == f
    ensures AllIn(tok[..d], Digit) && AllIn(tok[d + 1..], Digit)
  {
    assert tok[..d] == tok[0..d] && tok[d + 1..] == tok[d + 1..f];
  }

  /** The number written whole.frac in base ten. */
  function DecimalValue(whole: string, frac: string): real
    requires AllIn(whole, Digit) && AllIn(frac, Digit)
  {
    DigitsValue(whole) as real + DigitsValue(frac) as real / Pow10(|frac|) as real
  }

  /** float(w + "." + f) reads the digits in base ten: the whole part w, plus f in tenths,
      hundredths, ...; the value lies in [w, w + 1). Either part may be empty, not both. */
  lemma ParseDecimalOfParts(w: string, f: string)
    requires AllIn(w, Digit) && AllIn(f, Digit) && |w| + |f| > 0
    ensures ParseDecimal(w + "." + f) == Some(DecimalValue(w, f))
    ensures DigitsValue(w) as real <= DecimalValue(w, f) < DigitsValue(w) as real + 1.0
  {
    JoinedLayout(w, '.', f);
    ParseDecimalOfLayout(w + "." + f, w, f);
    FractionBelowOne(DigitsValue(f), Pow10(|f|));
  }

  /** ParseDecimalOfParts on a token laid out, index by index, as w, '.' and f. */
  lemma ParseDecimalOfLayout(tok: string, w: string, f: string)
    requires AllIn(w, Digit) && AllIn(f, Digit) && |w| + |f| > 0
    requires |tok| == |w| + 1 + |f| && tok[|w|] == '.'
    requires forall k :: 0 <= k < |w| ==> tok[k] == w[k]
    requires forall k :: 0 <= k < |f| ==> tok[|w| + 1 + k] == f[k]
    ensures ParseDecimal(tok) == Some(DecimalValue(w, f))
  {
    var d := |w|;
    assert tok[..d] == w;
    assert tok[d + 1..] == f;
    RunOverSlice(tok, 0, d, Digit);
    assert forall k :: d + 1 <= k < |tok| ==> tok[k] == f[k - d - 1];
    RunOverSlice(tok, d + 1, |tok|, Digit);
    assert RunEnd(tok, 0, Digit) == d < |tok| && tok[d] == '.';
    assert RunEnd(tok, d + 1, Digit) == |tok| != 1;
  }

  lemma ParseDecimalOfDigits(w: string)
    requires AllIn(w, Digit) && w != []
    ensures ParseDecimal(w) == Some(DigitsValue(w) as real)
  {
    RunOverSlice(w, 0, |w|, Digit);
  }

  /** float("38.1") is 38.1, float("5.") is 5.0 and float(".5") is 0.5; "." and "1.2.3" are refused. */
  lemma ParseDecimalExamples()
    ensures ParseDecimal("38.1") == Some(38.1)
    ensures ParseDecimal("5.") == Some(5.0)
    ensures ParseDecimal(".5") == Some(0.5)
    ensures ParseDecimal(".") == None && ParseDecimal("1.2.3") == None
  {
    ThirtyEightPointOne();
    FivePoint();
    PointFive();
    assert !IsPlainDecimal("1.2.3") by {
      assert "1.2.3"[1] == '.' && "1.2.3"[3] == '.';
    }
    assert !IsPlainDecimal(".") by {
      assert !IsDigit("."[0]);
    }
  }

  lemma ThirtyEightPointOne()
    ensures ParseDecimal("38.1") == Some(38.1)
  {
    ParseDecimalOfParts("38", "1");
    assert "38" + "." + "1" == "38.1";
    assert DigitsValue("38") == 38 by {
      assert "38"[..1] == "3";
    }
  }

  lemma FivePoint()
    ensures ParseDecimal("5.") == Some(5.0)
  {
    ParseDecimalOfParts("5", "");
    assert "5" + "." + "" == "5.";
  }

  lemma PointFive()
    ensures ParseDecimal(".5") == Some(0.5)
  {
    ParseDecimalOfParts("", "5");
    assert "" + "." + "5" == ".5";
  }

  /** float(tok) for a token that may carry a leading sign. */
  function ParseFloat(tok: string): (r: Option<real>)
    ensures r.Some? <==> IsPlainDecimal(tok) || (|tok| > 0 && (tok[0] == '+' || tok[0] == '-') && IsPlainDecimal(tok[1..]))
  {
    if |tok| > 0 && (tok[0] == '+' || tok[0] == '-') then
      match ParseDecimal(tok[1..])
      case None => None
      case Some(v) => Some(if tok[0] == '-' then -v else v)
    else ParseDecimal(tok)
  }

  /** A leading '-' negates, a leading '+' changes nothing, and no sign reads as float() does. */
  lemma ParseFloatSign(rest: string)
    ensures ParseFloat("-" + rest) == if ParseDecimal(rest).Some? then Some(-ParseDecimal(rest).value) else None
    ensures ParseFloat("+" + rest) == ParseDecimal(rest)
    ensures rest == [] || (rest[0] != '+' && rest[0] != '-') ==> ParseFloat(rest) == ParseDecimal(rest)
  {
    assert ("-" + rest)[1..] == rest && ("+" + rest)[1..] == rest;
  }

  lemma ParseFloatExample()
    ensures ParseFloat("-1.5") == Some(-1.5)
  {
    ParseFloatSign("1.5");
    assert "-" + "1.5" == "-1.5";
    OneAndAHalf();
  }

  lemma OneAndAHalf()
    ensures ParseDecimal("1.5") == Some(1.5)
  {
    ParseDecimalOfParts("1", "5");
    assert "1" + "." + "5" == "1.5";
  }

  /** The string with every ',' removed: kb.replace(',', ''). */
  function RemoveCommas(s: string): (r: string)
    ensures |r| <= |s|
    ensures forall k :: 0 <= k < |r| ==> r[k] != ','
    ensures forall c :: c != ',' ==> multiset(r)[c] == multiset(s)[c]
  {
    if s == [] then []
    else
      assert s == [s[0]] + s[1..];
      (if s[0] == ',' then [] else [s[0]]) + RemoveCommas(s[1..])
  }

  /** Removing commas works piece by piece. */
  lemma {:induction false} RemoveCommasDistributes(a: string, b: string)
    ensures RemoveCommas(a + b) == RemoveCommas(a) + RemoveCommas(b)
    decreases |a|
  {
    if a != [] {
      assert (a + b)[0] == a[0] && (a + b)[1..] == a[1..] + b;
      RemoveCommasDistributes(a[1..], b);
    } else {
      assert a + b == b;
    }
  }

  /** A string without commas is left as it is. */
  lemma {:induction false} RemoveCommasKeepsCommaFree(s: string)
    requires forall k :: 0 <= k < |s| ==> s[k] != ','
    ensures RemoveCommas(s) == s
    decreases |s|
  {
    if s != [] {
      RemoveCommasKeepsCommaFree(s[1..]);
      assert s == [s[0]] + s[1..];
    }
  }

  /** int(kb.replace(',', '')) for a token of digits and commas: fails exactly when it has no digit. */
  function KbValue(kb: string): (r: Option<nat>)
    requires AllIn(kb, KbChar)
    ensures r.Some? <==> exists k :: 0 <= k < |kb| && IsDigit(kb[k])
    ensures r.Some? ==> AllIn(RemoveCommas(kb), Digit) && r.value == DigitsValue(RemoveCommas(kb))
  {
    var digits := RemoveCommas(kb);
    assert AllIn(digits, Digit) by {
      forall k | 0 <= k < |digits| ensures InClass(digits[k], Digit) {
        assert digits[k] in multiset(digits);
        assert digits[k] in multiset(kb);
      }
    }
    if digits == [] then
      assert forall k :: 0 <= k < |kb| ==> multiset(kb)[kb[k]] > 0;
      None
    else
      assert IsDigit(digits[0]) && digits[0] in multiset(kb);
      Some(DigitsValue(digits))
  }

  /** int("1,024".replace(',', '')) is 1024. */
  lemma KbValueExample()
    ensures KbValue("1,024") == Some(1024)
  {
    CommasOutOf1024();
    ValueOf1024();
  }

  lemma CommasOutOf1024()
    ensures RemoveCommas("1,024") == "1024"
  {
    RemoveCommasDistributes("1", ",024");
    RemoveCommasDistributes(",", "024");
    RemoveCommasKeepsCommaFree("1");
    RemoveCommasKeepsCommaFree("024");
    assert "1,024" == "1" + ",024" && ",024" == "," + "024";
  }

  lemma ValueOf1024()
    ensures DigitsValue("1024") == 1024
  {
    DigitsValueAppend("10", "24");
    assert "10" + "24" == "1024";
    assert DigitsValue("10") == 10 by {
      assert "10"[..1] == "1";
    }
    assert DigitsValue("24") == 24 by {
      assert "24"[..1] == "2";
    }
  }
}
