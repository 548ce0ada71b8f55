// Decimal numerals, as printed with %d and read back by the number parsers.
module Decimal {
  import opened Base

  const MAX_INT64: int := 0x7FFF_FFFF_FFFF_FFFF

  predicate IsDigit(c: char) {
    '0' <= c <= '9'
  }

  predicate AllDigits(s: string) {
    forall i :: 0 <= i < |s| ==> IsDigit(s[i])
  }

  function DigitVal(c: char): nat
    requires IsDigit(c)
  {
    c as int - '0' as int
  }

  function DigitChar(d: nat): char
    requires d < 10
  {
    ('0' as int + d) as char
  }

  /** The number a digit string denotes; leading zeros are allowed. */
  function Val(s: string): nat
    requires AllDigits(s)
  {
    if s == [] then 0 else Val(s[..|s|-1]) * 10 + DigitVal(s[|s|-1])
  }

  /** strconv.ParseInt(s, 10, 64), and strconv.Atoi on a 64-bit platform: None for their errors, overflow included. */
  function ParseInt(s: string): Option<int> {
    var digits := if s != [] && (s[0] == '+' || s[0] == '-') then s[1..] else s;
    if digits == [] || !AllDigits(digits) then None
    else
      var n: int := Val(digits);
      var v := if s[0] == '-' then 0 - n else n;
      if -MAX_INT64 - 1 <= v <= MAX_INT64 then Some(v) else None
  }

  function Print(n: nat): (s: string)
    ensures |s| > 0 && AllDigits(s)
  {
    if n < 10 then [DigitChar(n)] else Print(n / 10) + [DigitChar(n % 10)]
  }

  lemma {:induction false} ValPrint(n: nat)
    ensures Val(Print(n)) == n
  {
    if n >= 10 {
      ValPrint(n / 10);
      assert Print(n)[..|Print(n)|-1] == Print(n / 10);
    } else {
      assert Print(n)[..0] == [];
    }
  }

  lemma {:induction false} ValZeroPadded(s: string)
    requires AllDigits(s)
    ensures AllDigits("0" + s) && Val("0" + s) == Val(s)
  {
    if s != [] {
      ValZeroPadded(s[..|s|-1]);
      assert ("0" + s)[..|s|] == "0" + s[..|s|-1];
    } else {
      assert "0" + s == "0";
      assert "0"[..0] == [];
    }
  }

  lemma {:induction false} ValBound(s: string)
    requires AllDigits(s)
    ensures |s| <= 3 ==> Val(s) <= 999
    ensures |s| <= 2 ==> Val(s) <= 99
    ensures |s| <= 1 ==> Val(s) <= 9
  {
    if s != [] {
      ValBound(s[..|s|-1]);
    }
  }

  /** s is sign and the digits d, and means v. */
  ghost predicate Spells(s: string, sign: string, d: string, v: int) {
    && s == sign + d && d != "" && AllDigits(d) && sign in {"", "+", "-"}
    && v == (if sign == "-" then 0 - Val(d) else Val(d))
  }

  /** What the number parsers accept: an optional sign and digits, within 64 bits. */
  lemma ParseIntIff(s: string, v: int)
    ensures ParseInt(s) == Some(v) <==>
            -0x8000_0000_0000_0000 <= v <= 0x7FFF_FFFF_FFFF_FFFF && exists sign, d :: Spells(s, sign, d, v)
  {
    if ParseInt(s) == Some(v) {
      if s[0] == '+' || s[0] == '-' {
        assert s == [s[0]] + s[1..];
        assert Spells(s, [s[0]], s[1..], v);
      } else {
        assert s == "" + s;
        assert Spells(s, "", s, v);
      }
    }
    if sign, d :| Spells(s, sign, d, v) {
      assert IsDigit(d[0]);
      assert sign != "" ==> s[1..] == d;
      assert sign == "" ==> s == d;
    }
  }
}
