/**
 Decimal printing and parsing of Go integers: `strconv.Itoa` and `strconv.Atoi` on a
 64-bit platform.  Every persisted number of the program (cluster ids in cache keys,
 replica counts in annotations) goes through this pair.
 */
module Decimal {
  import opened Wrappers

  const MIN_INT64: int := -0x8000_0000_0000_0000
  const MAX_INT64: int := 0x7fff_ffff_ffff_ffff

  datatype NumError = Syntax | Range

  predicate IsInt64(n: int) {
    MIN_INT64 <= n <= MAX_INT64
  }

  /** Go's `int32(n)`: the low 32 bits read as a signed number. */
  function ToInt32(n: int): (r: int)
    ensures -0x8000_0000 <= r < 0x8000_0000
    ensures r == n <==> -0x8000_0000 <= n < 0x8000_0000
  {
    var low := n % 0x1_0000_0000;
    if low < 0x8000_0000 then low else low - 0x1_0000_0000
  }

  predicate IsDigit(c: char) {
    '0' <= c <= '9'
  }

  predicate AllDigits(s: string) {
    forall i :: 0 <= i < |s| ==> IsDigit(s[i])
  }

  function DigitChar(d: nat): char
    requires d < 10
  {
    ('0' as int + d) as char
  }

  function Digits(n: nat): (s: string)
    ensures s != [] && AllDigits(s)
  {
    if n < 10 then [DigitChar(n)] else Digits(n / 10) + [DigitChar(n % 10)]
  }

  function Itoa(n: int): (s: string)
    ensures s != [] && '_' !in s
    ensures s == "0" <==> n == 0
  {
    if n < 0 then
      "-" + Digits(-n)
    else
      DigitsOfZero(n);
      Digits(n)
  }

  function DigitsValue(s: string): nat
    requires AllDigits(s)
  {
    if s == [] then 0
    else 10 * DigitsValue(s[..|s| - 1]) + (s[|s| - 1] as int - '0' as int)
  }

  /** The syntax half of `Atoi`: an optional sign and at least one digit, of any size. */
  function ParseInt(s: string): Option<int> {
    var body := if s != [] && (s[0] == '-' || s[0] == '+') then s[1..] else s;
    if body == [] || !AllDigits(body) then None
    else
      var magnitude: int := DigitsValue(body);
      Some(if s[0] == '-' then -magnitude else magnitude)
  }

  function Atoi(s: string): Result<int, NumError> {
    match ParseInt(s)
    case None => Err(Syntax)
    case Some(n) => if IsInt64(n) then Ok(n) else Err(Range)
  }

  lemma {:induction false} DigitsOfZero(n: nat)
    ensures Digits(n) == "0" <==> n == 0
  {
  }

  lemma {:induction false} DigitsRoundTrip(n: nat)
    ensures DigitsValue(Digits(n)) == n
  {
    if n < 10 {
      assert Digits(n)[..0] == [];
    } else {
      DigitsRoundTrip(n / 10);
      assert Digits(n)[..|Digits(n)| - 1] == Digits(n / 10);
    }
  }

  /** Printing then parsing gives the number back, whatever its size or sign. */
  lemma {:induction false} ParseIntOfItoa(n: int)
    ensures ParseInt(Itoa(n)) == Some(n)
  {
    var m := if n < 0 then -n else n;
    DigitsRoundTrip(m);
    assert IsDigit(Digits(m)[0]);
    if n < 0 {
      assert Itoa(n)[1..] == Digits(m);
    }
  }

  /** `Atoi` undoes `Itoa` exactly on the numbers a Go `int` can hold. */
  lemma {:induction false} AtoiOfItoa(n: int)
    ensures Atoi(Itoa(n)) == if IsInt64(n) then Ok(n) else Err(Range)
  {
    ParseIntOfItoa(n);
  }

  lemma {:induction false} ItoaInjective(m: int, n: int)
    ensures Itoa(m) == Itoa(n) <==> m == n
  {
    ParseIntOfItoa(m);
    ParseIntOfItoa(n);
  }
}
