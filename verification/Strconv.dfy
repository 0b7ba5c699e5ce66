/** Decimal numbers as text, read within 64 bits. */
module Strconv {
  import opened Common

  function Digit(c: char): Option<nat> {
    if '0' <= c <= '9' then Some(c as int - '0' as int) else None
  }

  function Digits(s: string, value: nat): Option<nat> {
    if s == [] then Some(value)
    else
      var d := Digit(s[0]);
      if d.None? then None else Digits(s[1..], 10 * value + d.value)
  }

  const MAX_INT := 0x7fff_ffff_ffff_ffff

  function Signed(negative: bool, n: int): Option<int> {
    if negative then (if n <= MAX_INT + 1 then Some(-n) else None)
    else if n <= MAX_INT then Some(n) else None
  }

  /** strconv.Atoi: an optional sign, at least one digit, and within 64 bits */
  function Atoi(s: string): Option<int> {
    var signed := s != [] && (s[0] == '-' || s[0] == '+');
    var digits := if signed then s[1..] else s;
    var n := Digits(digits, 0);
    if digits == [] || n.None? then None else Signed(signed && s[0] == '-', n.value)
  }

  function DigitChar(d: nat): char
    requires d < 10
  {
    '0' + d as char
  }

  function Decimal(n: nat): string {
    if n < 10 then [DigitChar(n)] else Decimal(n / 10) + [DigitChar(n % 10)]
  }

  /** strconv.Itoa */
  function Itoa(n: int): string {
    if n < 0 then ['-'] + Decimal(-n) else Decimal(n)
  }

  lemma {:induction false} DigitsConcat(a: string, b: string, value: nat)
    ensures Digits(a, value).Some? ==> Digits(a + b, value) == Digits(b, Digits(a, value).value)
  {
    if a == [] {
      assert a + b == b;
    } else {
      assert (a + b)[1..] == a[1..] + b;
      var d := Digit(a[0]);
      if d.Some? {
        DigitsConcat(a[1..], b, 10 * value + d.value);
      }
    }
  }

  lemma {:induction false} DecimalIsRead(n: nat)
    ensures Digits(Decimal(n), 0) == Some(n) && Decimal(n) != []
    ensures forall c | c in Decimal(n) :: '0' <= c <= '9'
  {
    if n < 10 {
      assert Decimal(n)[1..] == [];
    } else {
      DecimalIsRead(n / 10);
      var last := [DigitChar(n % 10)];
      DigitsConcat(Decimal(n / 10), last, 0);
      assert last[1..] == [];
    }
  }

  ghost predicate Fits(n: int) {
    -MAX_INT - 1 <= n <= MAX_INT
  }

  lemma AtoiItoa(n: int)
    requires Fits(n)
    ensures Atoi(Itoa(n)) == Some(n) && Itoa(n) != [] && Itoa(n)[0] != '!' && ',' !in Itoa(n) && '_' !in Itoa(n)
    ensures Itoa(n)[0] == '-' <==> n < 0
  {
    hide Decimal, Digits;
    if n < 0 {
      DecimalIsRead(-n);
      assert Itoa(n)[1..] == Decimal(-n);
    } else {
      DecimalIsRead(n);
      assert Itoa(n)[0] in Itoa(n);
    }
  }

  ghost predicate AllDigits(s: string) {
    forall i | 0 <= i < |s| :: '0' <= s[i] <= '9'
  }

  lemma {:induction false} DigitsOnly(s: string, value: nat)
    ensures Digits(s, value).Some? <==> AllDigits(s)
  {
    if s != [] {
      if Digit(s[0]).Some? {
        DigitsOnly(s[1..], 10 * value + Digit(s[0]).value);
        assert AllDigits(s) ==> AllDigits(s[1..]);
        assert s == [s[0]] + s[1..];
        assert AllDigits(s[1..]) ==> AllDigits(s);
      }
    }
  }

  /** What is read is an optional sign and at least one digit, nothing else, and a number within 64 bits. */
  lemma AtoiAccepts(s: string)
    ensures Atoi(s).Some? ==>
      var digits := if s != [] && (s[0] == '-' || s[0] == '+') then s[1..] else s;
      digits != [] && AllDigits(digits) && Fits(Atoi(s).value)
  {
    DigitsOnly(s, 0);
    if s != [] {
      DigitsOnly(s[1..], 0);
    }
  }

  /** A plus sign changes nothing and a minus sign changes the sign. */
  lemma AtoiSigned(s: string)
    requires s != [] && AllDigits(s) && Atoi(s).Some?
    ensures Atoi("+" + s) == Atoi(s) && Atoi("-" + s) == Some(-Atoi(s).value)
  {
    assert ("+" + s)[1..] == s && ("-" + s)[1..] == s;
    assert s[0] != '+' && s[0] != '-';
  }
}
