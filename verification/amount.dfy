/**
 * Amount text of the ledger (`comprobar_importe` in practicau2_1_bonus.py):
 * which strings are accepted, and the exact decimal number an accepted string
 * denotes (what `float(importe)` computes, without binary rounding).
 */
module Amount {
  import opened Text
  import opened Digits

  /** Drops one leading '-', as `valor[1:]` after `valor.startswith("-")`. */
  function StripSign(v: string): (body: string)
    ensures |v| > 0 && v[0] == '-' ==> v == "-" + body
    ensures !(|v| > 0 && v[0] == '-') ==> body == v
  {
    if |v| > 0 && v[0] == '-' then v[1..] else v
  }

  /** `s.replace(c, "")`. */
  function RemoveChar(s: string, c: char): (r: string)
    ensures forall i :: 0 <= i < |r| ==> r[i] != c
    ensures |r| + Count(s, c) == |s|
  {
    if s == [] then ""
    else if s[0] == c then RemoveChar(s[1..], c)
    else [s[0]] + RemoveChar(s[1..], c)
  }

  /** On one character: dropped when it is `c`, kept otherwise. */
  lemma RemoveCharSingle(x: char, c: char)
    ensures RemoveChar([x], c) == if x == c then [] else [x]
  {
    assert [x][1..] == [];
  }

  /** Removal works piecewise, so together with `RemoveCharSingle` it keeps every other character, in order. */
  lemma {:induction false} RemoveCharAppend(a: string, b: string, c: char)
    ensures RemoveChar(a + b, c) == RemoveChar(a, c) + RemoveChar(b, c)
  {
    if a == [] {
      assert a + b == b;
    } else {
      assert (a + b)[0] == a[0];
      assert (a + b)[1..] == a[1..] + b;
      RemoveCharAppend(a[1..], b, c);
    }
  }

  /** The characters after the first '.', or nothing when there is no '.'. */
  function AfterDot(s: string): string {
    if s == [] then ""
    else if s[0] == '.' then s[1..]
    else AfterDot(s[1..])
  }

  /** `comprobar_importe`: at most one '.' after the sign, and the rest, dot removed, is `isdigit()`. */
  function CheckAmount(v: string): (ok: bool)
    ensures ok ==> |v| > 0 && v != "-"
    ensures ok ==> Count(StripSign(v), '.') <= 1
  {
    var body := StripSign(v);
    if Count(body, '.') > 1 then false
    else IsDigitString(RemoveChar(body, '.'))
  }

  /**
   * The same language described character by character: an optional '-',
   * then digits and at most one '.', with at least one digit.
   */
  predicate IsAmountLiteral(v: string) {
    var body := StripSign(v);
    Count(body, '.') <= 1
    && DigitsAndDots(body)
    && HasDigit(body)
  }

  predicate DigitsAndDots(s: string) {
    forall i :: 0 <= i < |s| ==> IsDigit(s[i]) || s[i] == '.'
  }

  predicate HasDigit(s: string) {
    exists i :: 0 <= i < |s| && IsDigit(s[i])
  }

  lemma {:induction false} RemoveDotDigits(s: string)
    ensures AllDigits(RemoveChar(s, '.')) <==> DigitsAndDots(s)
    ensures DigitsAndDots(s) ==> (|RemoveChar(s, '.')| > 0 <==> HasDigit(s))
  {
    if s != [] {
      var t := s[1..];
      RemoveDotDigits(t);
      var r, rt := RemoveChar(s, '.'), RemoveChar(t, '.');
      assert DigitsAndDots(s) <==> (IsDigit(s[0]) || s[0] == '.') && DigitsAndDots(t) by {
        if (IsDigit(s[0]) || s[0] == '.') && DigitsAndDots(t) {
          forall i | 0 <= i < |s| ensures IsDigit(s[i]) || s[i] == '.' {
            if i > 0 { assert s[i] == t[i - 1]; }
          }
        }
      }
      assert HasDigit(s) <==> IsDigit(s[0]) || HasDigit(t) by {
        if HasDigit(s) {
          var i :| 0 <= i < |s| && IsDigit(s[i]);
          if i > 0 { assert IsDigit(t[i - 1]); }
        }
        if HasDigit(t) {
          var i :| 0 <= i < |t| && IsDigit(t[i]);
          assert IsDigit(s[i + 1]);
        }
      }
      if s[0] != '.' {
        assert r == [s[0]] + rt;
        assert AllDigits(r) <==> IsDigit(s[0]) && AllDigits(rt) by {
          if IsDigit(s[0]) && AllDigits(rt) {
            forall i | 0 <= i < |r| ensures IsDigit(r[i]) {
              if i > 0 { assert r[i] == rt[i - 1]; }
            }
          }
          if AllDigits(r) {
            assert IsDigit(r[0]);
            forall i | 0 <= i < |rt| ensures IsDigit(rt[i]) {
              assert rt[i] == r[i + 1];
            }
          }
        }
      }
    }
  }

  /** The validator accepts exactly the amount literals. */
  lemma CheckAmountIsLiteral(v: string)
    ensures CheckAmount(v) <==> IsAmountLiteral(v)
  {
    RemoveDotDigits(StripSign(v));
  }

  /** Unsigned amounts the validator accepts. */
  lemma CheckAmountAccepts()
    ensures CheckAmount("5") && CheckAmount("5.") && CheckAmount(".5") && CheckAmount("100")
  {
  }

  /** Signed amounts the validator accepts. */
  lemma CheckAmountAcceptsSigned()
    ensures CheckAmount("-5") && CheckAmount("-1.25")
  {
    assert "-5"[1..] == "5";
    assert "-1.25"[1..] == "1.25";
  }

  /** Texts the validator rejects. */
  lemma CheckAmountRejects()
    ensures !CheckAmount("") && !CheckAmount("-") && !CheckAmount(".") && !CheckAmount("-.")
    ensures !CheckAmount("--5") && !CheckAmount("+5") && !CheckAmount("1.2.3") && !CheckAmount("1e5")
  {
    assert "--5"[1..] == "-5";
    assert RemoveChar("-5", '.') == "-5";
    assert RemoveChar("+5", '.') == "+5";
    assert RemoveChar("1e5", '.') == "1e5";
    assert Count("1.2.3", '.') == 2;
  }

  /** A string with two or more '.' after the sign is never an amount. */
  lemma {:induction false} TwoDotsRejected(v: string)
    requires Count(StripSign(v), '.') >= 2
    ensures !CheckAmount(v)
  {
  }

  /** The exact number an accepted amount denotes (`float(importe)` without rounding). */
  function AmountValue(v: string): (r: real)
    requires CheckAmount(v)
    ensures v[0] == '-' ==> r <= 0.0
    ensures v[0] != '-' ==> r >= 0.0
  {
    var body := StripSign(v);
    var magnitude := Value(RemoveChar(body, '.')) as real / Pow10(|AfterDot(body)|) as real;
    if |v| > 0 && v[0] == '-' then -magnitude else magnitude
  }

  lemma {:induction false} RemoveAbsent(s: string, c: char)
    requires forall i :: 0 <= i < |s| ==> s[i] != c
    ensures RemoveChar(s, c) == s
  {
    if s != [] {
      RemoveAbsent(s[1..], c);
      assert s == [s[0]] + s[1..];
    }
  }

  lemma {:induction false} DotSplit(ip: string, fp: string)
    requires AllDigits(ip) && AllDigits(fp)
    ensures RemoveChar(ip + "." + fp, '.') == ip + fp
    ensures AfterDot(ip + "." + fp) == fp
    ensures Count(ip + "." + fp, '.') == 1
  {
    RemoveAbsent(ip, '.');
    RemoveAbsent(fp, '.');
    RemoveCharAppend(ip, ".", '.');
    RemoveCharAppend(ip + ".", fp, '.');
    assert RemoveChar(".", '.') == "";
    assert ip + "" == ip;
    CountAbsent(ip, '.');
    CountAbsent(fp, '.');
    CountAppend(ip, ".", '.');
    CountAppend(ip + ".", fp, '.');
    assert Count(".", '.') == 1;
    AfterDotSplit(ip, fp);
  }

  lemma {:induction false} AfterDotSplit(ip: string, fp: string)
    requires AllDigits(ip)
    ensures AfterDot(ip + "." + fp) == fp
  {
    var s := ip + "." + fp;
    if ip == [] {
      assert s == "." + fp && s[1..] == fp;
    } else {
      assert s[0] == ip[0];
      assert s[1..] == ip[1..] + "." + fp;
      AfterDotSplit(ip[1..], fp);
    }
  }

  lemma {:induction false} AfterDotAbsent(s: string)
    requires forall i :: 0 <= i < |s| ==> s[i] != '.'
    ensures AfterDot(s) == ""
  {
    if s != [] {
      AfterDotAbsent(s[1..]);
    }
  }

  /** A plain integer literal `ip` denotes the value of its digits. */
  lemma IntegerAmount(ip: string)
    requires IsDigitString(ip)
    ensures CheckAmount(ip) && AmountValue(ip) == Value(ip) as real
  {
    assert ip[0] != '-' && StripSign(ip) == ip;
    RemoveAbsent(ip, '.');
    CountAbsent(ip, '.');
    AfterDotAbsent(ip);
    assert Pow10(|AfterDot(ip)|) == 1;
  }

  lemma DivideShift(a: real, b: real, p: real)
    requires p > 0.0
    ensures (a * p + b) / p == a + b / p
  {
  }

  /** Dividing a shifted value by the shift. */
  lemma ScaleDown(m: nat, a: nat, b: nat, p: nat)
    requires p >= 1 && m == a * p + b
    ensures m as real / p as real == a as real + b as real / p as real
  {
    var ap := a * p;
    assert (ap) as real == a as real * p as real;
    assert m as real == ap as real + b as real;
    DivideShift(a as real, b as real, p as real);
  }

  lemma ScaledValue(ip: string, fp: string)
    requires AllDigits(ip) && AllDigits(fp)
    ensures AllDigits(ip + fp)
    ensures Value(ip + fp) as real / Pow10(|fp|) as real == Value(ip) as real + Value(fp) as real / Pow10(|fp|) as real
  {
    ValueAppend(ip, fp);
    ScaleDown(Value(ip + fp), Value(ip), Value(fp), Pow10(|fp|));
  }

  /** `ip.fp` denotes ip + fp / 10^|fp|, whichever of ip and fp is empty. */
  lemma FixedPointAmount(ip: string, fp: string)
    requires AllDigits(ip) && AllDigits(fp) && |ip| + |fp| > 0
    ensures CheckAmount(ip + "." + fp)
    ensures AmountValue(ip + "." + fp) == Value(ip) as real + Value(fp) as real / Pow10(|fp|) as real
  {
    var s := ip + "." + fp;
    DotSplit(ip, fp);
    assert s[0] != '-' by {
      if ip == [] { assert s[0] == '.'; } else { assert s[0] == ip[0]; }
    }
    ScaledValue(ip, fp);
    assert StripSign(s) == s;
  }

  /** A leading '-' negates the amount it is put in front of. */
  lemma NegatedAmount(v: string)
    requires CheckAmount(v) && v[0] != '-'
    ensures CheckAmount("-" + v) && AmountValue("-" + v) == -AmountValue(v)
  {
    assert ("-" + v)[1..] == v;
  }

  /** The text `str(n)` of a natural number is an amount denoting `n`. */
  lemma DecimalAmount(n: nat)
    ensures CheckAmount(Decimal(n)) && AmountValue(Decimal(n)) == n as real
  {
    IntegerAmount(Decimal(n));
    ValueOfDecimal(n);
  }
}
