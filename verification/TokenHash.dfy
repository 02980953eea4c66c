/** The four-digit token of sharing/share_session.cc: a polynomial hash over signed bytes with the remainder of
    C++, which truncates toward zero.
 */
module TokenHash {
  const MODULO := 9973
  const MULTIPLIER := 31

  type Byte = x: int | 0 <= x < 256

  // A byte reinterpreted as signed.
  function Signed(b: Byte): int { if b < 128 then b else b - 256 }

  // The remainder has the sign of the dividend.
  function Rem(a: int): (r: int)
    ensures -MODULO < r < MODULO
    ensures (a - r) % MODULO == 0
    ensures a >= 0 ==> r >= 0
    ensures a <= 0 ==> r <= 0
  {
    if a >= 0 then a % MODULO else -(-a % MODULO)
  }

  function Power(n: nat): nat { if n == 0 then 1 else MULTIPLIER * Power(n - 1) }

  // The sum of byte i times 31 to the i, over unbounded integers.
  function Polynomial(bytes: seq<Byte>): int {
    if bytes == [] then 0
    else Polynomial(bytes[..|bytes| - 1]) + Signed(bytes[|bytes| - 1]) * Power(|bytes| - 1)
  }

  predicate Congruent(a: int, b: int) { (a - b) % MODULO == 0 }

  predicate FitsInt32(x: int) { -0x8000_0000 <= x <= 0x7FFF_FFFF }

  lemma CongruentMeans(a: int, b: int)
    ensures Congruent(a, b) <==> exists k :: a - b == MODULO * k
  {
    if Congruent(a, b) {
      assert a - b == MODULO * ((a - b) / MODULO);
    }
  }

  lemma CongruentScale(a: int, b: int, c: int)
    requires Congruent(a, b)
    ensures Congruent(c * a, c * b)
  {
    var k := (a - b) / MODULO;
    assert a - b == MODULO * k;
    assert c * a - c * b == c * (a - b) == MODULO * (c * k);
    CongruentMeans(c * a, c * b);
  }

  lemma CongruentAdd(a: int, b: int, c: int, d: int)
    requires Congruent(a, b) && Congruent(c, d)
    ensures Congruent(a + c, b + d)
  {
  }

  lemma RemCongruent(a: int, b: int)
    requires Congruent(a, b)
    ensures Congruent(Rem(a), b)
  {
  }

  function Abs(x: int): nat { if x < 0 then -x else x }

  function Digit(n: int): char
    requires 0 <= n < 10
  {
    "0123456789"[n]
  }

  // "%04d" for a number of at most four digits.
  function FourDigits(n: nat): (s: string)
    requires n < 10000
    ensures |s| == 4
  {
    [Digit(n / 1000), Digit(n / 100 % 10), Digit(n / 10 % 10), Digit(n % 10)]
  }

  function Value(s: string): int
    requires forall i :: 0 <= i < |s| ==> '0' <= s[i] <= '9'
  {
    if s == "" then 0 else 10 * Value(s[..|s| - 1]) + (s[|s| - 1] as int - '0' as int)
  }

  // Four digits spell the number, leading zeros included.
  lemma FourDigitsSpell(n: nat)
    requires n < 10000
    ensures forall i :: 0 <= i < 4 ==> '0' <= FourDigits(n)[i] <= '9'
    ensures Value(FourDigits(n)) == n
  {
    var s := FourDigits(n);
    DigitSpells(n / 1000);
    DigitSpells(n / 100 % 10);
    DigitSpells(n / 10 % 10);
    DigitSpells(n % 10);
    DecimalDigits(n);
    ValueOfFour(s[0], s[1], s[2], s[3]);
    assert s == [s[0], s[1], s[2], s[3]];
  }

  lemma DigitSpells(k: int)
    requires 0 <= k < 10
    ensures '0' <= Digit(k) <= '9' && Digit(k) as int - '0' as int == k
  {
  }

  lemma ValueOfFour(a: char, b: char, c: char, d: char)
    requires '0' <= a <= '9' && '0' <= b <= '9' && '0' <= c <= '9' && '0' <= d <= '9'
    ensures var z := '0' as int;
            Value([a, b, c, d]) == 1000 * (a as int - z) + 100 * (b as int - z) + 10 * (c as int - z) + (d as int - z)
  {
    var z := '0' as int;
    assert [a, b, c, d][..3] == [a, b, c] && [a, b, c][..2] == [a, b] && [a, b][..1] == [a] && [a][..0] == "";
    assert Value([a]) == a as int - z;
    assert Value([a, b]) == 10 * Value([a]) + (b as int - z);
    assert Value([a, b, c]) == 10 * Value([a, b]) + (c as int - z);
  }

  lemma DecimalDigits(n: nat)
    ensures 1000 * (n / 1000) + 100 * (n / 100 % 10) + 10 * (n / 10 % 10) + n % 10 == n
  {
    assert n / 100 / 10 == n / 1000 && n / 10 / 10 == n / 100;
  }

  // ---------------------------------------------------------------- the hash

  // The hash and the multiplier after the given bytes.
  function Hash(bytes: seq<Byte>): (int, int) {
    if bytes == [] then (0, 1)
    else
      var (hash, multiplier) := Hash(bytes[..|bytes| - 1]);
      (Rem(hash + Signed(bytes[|bytes| - 1]) * multiplier), Rem(multiplier * MULTIPLIER))
  }

  function Token(bytes: seq<Byte>): string
    requires Abs(Hash(bytes).0) < 10000
  {
    FourDigits(Abs(Hash(bytes).0))
  }

  // No operation of a round leaves 32 bits.
  ghost predicate RoundFits(hash: int, multiplier: int, byte: int) {
    && FitsInt32(byte * multiplier) && FitsInt32(hash + byte * multiplier)
    && FitsInt32(multiplier * MULTIPLIER)
  }

  lemma BoundedRoundFits(hash: int, multiplier: int, byte: int)
    requires -MODULO < hash < MODULO && 0 <= multiplier < MODULO && -128 <= byte < 128
    ensures RoundFits(hash, multiplier, byte)
  {
    assert -128 * multiplier <= byte * multiplier <= 128 * multiplier;
  }

  lemma RoundCongruent(hash: int, multiplier: int, byte: int, sum: int, power: int)
    requires Congruent(hash, sum) && Congruent(multiplier, power)
    ensures Congruent(Rem(hash + byte * multiplier), sum + byte * power)
    ensures Congruent(Rem(multiplier * MULTIPLIER), MULTIPLIER * power)
  {
    CongruentScale(multiplier, power, byte);
    CongruentAdd(hash, sum, byte * multiplier, byte * power);
    RemCongruent(hash + byte * multiplier, sum + byte * power);
    CongruentScale(multiplier, power, MULTIPLIER);
    RemCongruent(multiplier * MULTIPLIER, MULTIPLIER * power);
  }

  // Main result: for every byte sequence the hash stays strictly within the modulus, is congruent to the
  // polynomial of the signed bytes, and the next round fits 32 bits whatever its byte.
  lemma {:induction false} HashIsPolynomial(bytes: seq<Byte>)
    ensures -MODULO < Hash(bytes).0 < MODULO && 0 <= Hash(bytes).1 < MODULO
    ensures Congruent(Hash(bytes).0, Polynomial(bytes)) && Congruent(Hash(bytes).1, Power(|bytes|))
    ensures forall b: Byte :: RoundFits(Hash(bytes).0, Hash(bytes).1, Signed(b))
  {
    if bytes != [] {
      var init, b := bytes[..|bytes| - 1], bytes[|bytes| - 1];
      HashIsPolynomial(init);
      RoundCongruent(Hash(init).0, Hash(init).1, Signed(b), Polynomial(init), Power(|init|));
    }
    forall b: Byte ensures RoundFits(Hash(bytes).0, Hash(bytes).1, Signed(b)) {
      BoundedRoundFits(Hash(bytes).0, Hash(bytes).1, Signed(b));
    }
  }

  // The token spells the absolute value of the hash in exactly four digits.
  lemma TokenIsFourDigits(bytes: seq<Byte>)
    ensures Abs(Hash(bytes).0) < 10000
    ensures |Token(bytes)| == 4 && forall i :: 0 <= i < 4 ==> '0' <= Token(bytes)[i] <= '9'
    ensures Congruent(Value(Token(bytes)), Polynomial(bytes)) || Congruent(-Value(Token(bytes)), Polynomial(bytes))
  {
    HashIsPolynomial(bytes);
    FourDigitsSpell(Abs(Hash(bytes).0));
  }

  method TokenToFourDigitString(bytes: seq<Byte>) returns (token: string)
    ensures Abs(Hash(bytes).0) < 10000 && token == Token(bytes)
  {
    var hash, multiplier := 0, 1;
    for i := 0 to |bytes|
      invariant (hash, multiplier) == Hash(bytes[..i])
    {
      assert bytes[..i + 1][..i] == bytes[..i];
      hash := Rem(hash + Signed(bytes[i]) * multiplier);
      multiplier := Rem(multiplier * MULTIPLIER);
    }
    assert bytes[..|bytes|] == bytes;
    TokenIsFourDigits(bytes);
    token := FourDigits(Abs(hash));
  }
}
