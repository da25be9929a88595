/** Positional numerals in ASCII, as `format!("{:o}", n)` and `n.to_string()` print them. */
module Digits {
  import opened Prelude

  const ZERO: byte := 48

  datatype Radix = Octal | Decimal {
    function Size(): nat { if Octal? then 8 else 10 }

    /** `higher` shifted one place to the left, plus a last digit. */
    function Shift(higher: int, digit: int): int {
      if Octal? then higher * 8 + digit else higher * 10 + digit
    }

    /** Everything but the last digit. */
    function Higher(n: nat): (r: nat)
      ensures n > 0 ==> r < n
    {
      if Octal? then n / 8 else n / 10
    }

    function Last(n: nat): (r: nat)
      ensures r < Size()
      ensures Shift(Higher(n), r) == n
    {
      if Octal? then n % 8 else n % 10
    }
  }

  function Print(n: nat, radix: Radix): (s: Bytes)
    ensures s != []
    ensures forall i :: 0 <= i < |s| ==> ZERO <= s[i] < ZERO + 10
    decreases n
  {
    if n < radix.Size() then [ZERO + n] else Print(radix.Higher(n), radix) + [ZERO + radix.Last(n)]
  }

  /** Horner evaluation; any byte counts as its distance from '0'. */
  function Value(s: Bytes, radix: Radix): int {
    if s == [] then 0 else radix.Shift(Value(s[..|s| - 1], radix), s[|s| - 1] - ZERO)
  }

  lemma {:induction false} ValueOfPrint(n: nat, radix: Radix)
    ensures Value(Print(n, radix), radix) == n
    decreases n
  {
    var s := Print(n, radix);
    if n < radix.Size() {
      assert s[..|s| - 1] == [];
    } else {
      ValueOfPrint(radix.Higher(n), radix);
      assert s[..|s| - 1] == Print(radix.Higher(n), radix);
    }
  }
}
