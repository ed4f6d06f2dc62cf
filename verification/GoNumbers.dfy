/** Decimal numbers as the Go library prints and parses them. */
module GoNumbers {
  import opened Tables

  const INT64_MIN := -0x8000_0000_0000_0000
  const INT64_MAX := 0x7FFF_FFFF_FFFF_FFFF

  predicate AllDigits(s: string) {
    s != [] && forall i :: 0 <= i < |s| ==> '0' <= s[i] <= '9'
  }

  function Digits(s: string): nat
    requires forall i :: 0 <= i < |s| ==> '0' <= s[i] <= '9'
  {
    if s == [] then 0 else 10 * Digits(s[..|s| - 1]) + (s[|s| - 1] as int - '0' as int)
  }

  /** `strconv.ParseInt` in base ten for 64 bits. */
  function ParseInt(s: string): Option<int> {
    var negative := s != [] && s[0] == '-';
    var digits := if s != [] && (s[0] == '-' || s[0] == '+') then s[1..] else s;
    if !AllDigits(digits) then None
    else
      var n := if negative then -(Digits(digits) as int) else Digits(digits);
      if INT64_MIN <= n <= INT64_MAX then Some(n) else None
  }

  type Int64 = n: int | INT64_MIN <= n <= INT64_MAX

  function NatText(n: nat): string {
    (if n < 10 then "" else NatText(n / 10)) + ['0' + (n % 10) as char]
  }

  /** `strconv.Itoa`. */
  function Itoa(n: int): string {
    if n < 0 then "-" + NatText(-n) else NatText(n)
  }

  lemma {:induction false} NatTextLaw(n: nat)
    ensures var t := NatText(n); AllDigits(t) && Digits(t) == n
  {
    if n >= 10 {
      NatTextLaw(n / 10);
    }
    var t := NatText(n);
    assert t[..|t| - 1] == if n < 10 then "" else NatText(n / 10);
  }

  /** Printing and parsing a 64-bit integer. */
  lemma ItoaReadsBack(n: Int64)
    ensures ParseInt(Itoa(n)) == Some(n as int)
    ensures forall i :: 0 <= i < |Itoa(n)| ==> Itoa(n)[i] == '-' || '0' <= Itoa(n)[i] <= '9'
    ensures |Itoa(n)| > 0 && '0' <= Itoa(n)[|Itoa(n)| - 1] <= '9'
  {
    hide NatText, Digits;
    var t := Itoa(n);
    var size: nat := if n < 0 then -(n as int) else n;
    var digits := NatText(size);
    NatTextLaw(size);
    if n < 0 {
      assert t[1..] == digits;
    }
  }
}
