/** Bytes and fixed-width integers. */
module Bytes {
  type Byte = b: int | 0 <= b < 256

  type Bytes = seq<Byte>

  const TWO_TO_32 := 0x1_0000_0000

  type Word = n: int | 0 <= n < TWO_TO_32

  function BigEndian(n: Word): (b: Bytes)
    ensures |b| == 4
  {
    [n / 0x1_00_00_00, n / 0x1_00_00 % 0x100, n / 0x1_00 % 0x100, n % 0x100]
  }

  function FromBigEndian(b: Bytes): Word
    requires |b| == 4
  {
    b[0] as int * 0x1_00_00_00 + b[1] as int * 0x1_00_00 + b[2] as int * 0x1_00 + b[3]
  }

  function LittleEndian(n: Word): (b: Bytes)
    ensures |b| == 4
  {
    [n % 0x100, n / 0x1_00 % 0x100, n / 0x1_00_00 % 0x100, n / 0x1_00_00_00]
  }

  function FromLittleEndian(b: Bytes): Word
    requires |b| == 4
  {
    b[3] as int * 0x1_00_00_00 + b[2] as int * 0x1_00_00 + b[1] as int * 0x1_00 + b[0]
  }

  lemma BigEndianRoundTrip(n: Word, b: Bytes)
    requires |b| == 4
    ensures FromBigEndian(BigEndian(n)) == n
    ensures BigEndian(FromBigEndian(b)) == b
  {
    DigitsOfWord(n);
    WordOfDigits(b[0], b[1], b[2], b[3]);
  }

  lemma LittleEndianRoundTrip(n: Word, b: Bytes)
    requires |b| == 4
    ensures FromLittleEndian(LittleEndian(n)) == n
    ensures LittleEndian(FromLittleEndian(b)) == b
  {
    DigitsOfWord(n);
    WordOfDigits(b[3], b[2], b[1], b[0]);
  }

  lemma DigitsOfWord(n: Word)
    ensures n == n / 0x1_00_00_00 * 0x1_00_00_00 + n / 0x1_00_00 % 0x100 * 0x1_00_00 + n / 0x1_00 % 0x100 * 0x1_00 + n % 0x100
  {
    var a, b, c := n / 0x100, n / 0x1_00_00, n / 0x1_00_00_00;
    assert n == a * 0x100 + n % 0x100;
    assert b == a / 0x100 && a == b * 0x100 + a % 0x100;
    assert c == b / 0x100 && b == c * 0x100 + b % 0x100;
  }

  lemma WordOfDigits(d: Byte, c: Byte, b: Byte, a: Byte)
    ensures var n := d as int * 0x1_00_00_00 + c as int * 0x1_00_00 + b as int * 0x1_00 + a;
            && n / 0x1_00_00_00 == d && n / 0x1_00_00 % 0x100 == c && n / 0x1_00 % 0x100 == b && n % 0x100 == a
  {
    LastDigit(d, c);
    LastDigit(d as int * 0x100 + c, b);
    LastDigit((d as int * 0x100 + c) * 0x100 + b, a);
    var n := d as int * 0x1_00_00_00 + c as int * 0x1_00_00 + b as int * 0x1_00 + a;
    assert n / 0x1_00_00 == n / 0x100 / 0x100 && n / 0x1_00_00_00 == n / 0x100 / 0x100 / 0x100;
  }

  lemma LastDigit(n: int, a: Byte)
    ensures (n * 0x100 + a) / 0x100 == n && (n * 0x100 + a) % 0x100 == a
  {
  }
}
