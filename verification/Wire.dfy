/** The bytes of a sequenced client request: packed fields, little-endian, 38 bytes. */
module Wire {

  type Byte = n: nat | n < 256

  function LittleEndian(n: nat, k: nat): (b: seq<Byte>)
    ensures |b| == k
  {
    if k == 0 then [] else [n % 256] + LittleEndian(n / 256, k - 1)
  }

  function FromLittleEndian(b: seq<Byte>): nat {
    if b == [] then 0 else b[0] + 256 * FromLittleEndian(b[1..])
  }

  /** How many values `k` bytes hold. */
  function Range(k: nat): (r: nat)
    ensures r > 0
  {
    if k == 0 then 1 else 256 * Range(k - 1)
  }

  lemma {:induction false} ReadBack(n: nat, k: nat)
    requires n < Range(k)
    ensures FromLittleEndian(LittleEndian(n, k)) == n
  {
    if k > 0 {
      assert n / 256 < Range(k - 1);
      ReadBack(n / 256, k - 1);
      assert LittleEndian(n, k)[1..] == LittleEndian(n / 256, k - 1);
    }
  }

  lemma {:induction false} WriteBack(b: seq<Byte>)
    ensures FromLittleEndian(b) < Range(|b|) && LittleEndian(FromLittleEndian(b), |b|) == b
  {
    if b != [] {
      WriteBack(b[1..]);
      var n := FromLittleEndian(b);
      assert n % 256 == b[0] && n / 256 == FromLittleEndian(b[1..]);
    }
  }

  /** A client request with its sequence number. The type, the side and the price stay as stored: one
      byte, one byte, and the two's complement of a 64-bit number. */
  datatype OMClientRequest = OMClientRequest(seqNum: nat, kind: nat, client: nat, ticker: nat, coid: nat, side: nat,
                                             price: nat, qty: nat)
  {
    predicate Storable() {
      && seqNum < Range(8) && kind < Range(1) && client < Range(4) && ticker < Range(4) && coid < Range(8)
      && side < Range(1) && price < Range(8) && qty < Range(4)
    }
  }

  const RECORD: nat := 38

  function Encode(m: OMClientRequest): (b: seq<Byte>)
    ensures |b| == RECORD
  {
    LittleEndian(m.seqNum, 8) + LittleEndian(m.kind, 1) + LittleEndian(m.client, 4) + LittleEndian(m.ticker, 4)
    + LittleEndian(m.coid, 8) + LittleEndian(m.side, 1) + LittleEndian(m.price, 8) + LittleEndian(m.qty, 4)
  }

  function Decode(b: seq<Byte>): OMClientRequest
    requires |b| == RECORD
  {
    OMClientRequest(FromLittleEndian(b[0..8]), FromLittleEndian(b[8..9]), FromLittleEndian(b[9..13]),
                    FromLittleEndian(b[13..17]), FromLittleEndian(b[17..25]), FromLittleEndian(b[25..26]),
                    FromLittleEndian(b[26..34]), FromLittleEndian(b[34..38]))
  }

  lemma Fields(m: OMClientRequest)
    ensures var b := Encode(m);
            && b[0..8] == LittleEndian(m.seqNum, 8) && b[8..9] == LittleEndian(m.kind, 1)
            && b[9..13] == LittleEndian(m.client, 4) && b[13..17] == LittleEndian(m.ticker, 4)
            && b[17..25] == LittleEndian(m.coid, 8) && b[25..26] == LittleEndian(m.side, 1)
            && b[26..34] == LittleEndian(m.price, 8) && b[34..38] == LittleEndian(m.qty, 4)
  {
    hide LittleEndian;
  }

  lemma MultiplyUp(a: int, b: int, d: nat)
    ensures a <= b ==> a * d <= b * d
    ensures a * d == (a - 1) * d + d
  {
  }

  lemma QuotientIs(n: nat, d: nat, q: nat, r: nat)
    requires d > 0 && r < d && n == q * d + r
    ensures n / d == q
  {
    var k, t := n / d, n % d;
    assert n == k * d + t;
    MultiplyUp(k + 1, q, d);
    MultiplyUp(q + 1, k, d);
  }

  lemma {:induction false} DivideTwice(n: nat, b: nat)
    requires b > 0
    ensures n / 256 / b == n / (256 * b)
  {
    var q, r := n / 256, n % 256;
    var p, t := q / b, q % b;
    assert n == 256 * (p * b + t) + r;
    assert 256 * (p * b + t) == p * (256 * b) + 256 * t;
    assert 0 <= 256 * t + r < 256 * b;
    QuotientIs(n, 256 * b, p, 256 * t + r);
  }

  /** Byte `i` of a number is its digit number `i` to the base 256, the lowest first. */
  lemma {:induction false} ByteIs(n: nat, k: nat, i: nat)
    requires i < k
    ensures LittleEndian(n, k)[i] as nat == n / Range(i) % 256
  {
    if i > 0 {
      ByteIs(n / 256, k - 1, i - 1);
      DivideTwice(n, Range(i - 1));
    }
  }

  /** `k` bytes from position `at` are the digits of `n`, the lowest first. */
  ghost predicate Digits(b: seq<Byte>, at: nat, k: nat, n: nat)
    requires at + k <= |b|
  {
    forall i :: 0 <= i < k ==> b[at + i] as nat == n / Range(i) % 256
  }

  lemma FieldDigits(b: seq<Byte>, at: nat, k: nat, n: nat)
    requires at + k <= |b| && b[at..at + k] == LittleEndian(n, k)
    ensures Digits(b, at, k, n)
  {
    forall i | 0 <= i < k
      ensures b[at + i] as nat == n / Range(i) % 256
    {
      ByteIs(n, k, i);
      assert b[at..at + k][i] == b[at + i];
    }
  }

  /** Where each field of a request lies in its record, without padding. */
  lemma Layout(m: OMClientRequest)
    ensures var b := Encode(m);
            && Digits(b, 0, 8, m.seqNum) && Digits(b, 8, 1, m.kind) && Digits(b, 9, 4, m.client)
            && Digits(b, 13, 4, m.ticker) && Digits(b, 17, 8, m.coid) && Digits(b, 25, 1, m.side)
            && Digits(b, 26, 8, m.price) && Digits(b, 34, 4, m.qty)
  {
    hide Encode, LittleEndian, Digits;
    var b := Encode(m);
    Fields(m);
    FieldDigits(b, 0, 8, m.seqNum);
    FieldDigits(b, 8, 1, m.kind);
    FieldDigits(b, 9, 4, m.client);
    FieldDigits(b, 13, 4, m.ticker);
    FieldDigits(b, 17, 8, m.coid);
    FieldDigits(b, 25, 1, m.side);
    FieldDigits(b, 26, 8, m.price);
    FieldDigits(b, 34, 4, m.qty);
  }

  /** What is written is read back. */
  lemma DecodeEncode(m: OMClientRequest)
    requires m.Storable()
    ensures Decode(Encode(m)) == m
  {
    hide LittleEndian, FromLittleEndian, Encode, Range;
    Fields(m);
    ReadBack(m.seqNum, 8);
    ReadBack(m.kind, 1);
    ReadBack(m.client, 4);
    ReadBack(m.ticker, 4);
    ReadBack(m.coid, 8);
    ReadBack(m.side, 1);
    ReadBack(m.price, 8);
    ReadBack(m.qty, 4);
  }

  /** Every 38 bytes are the encoding of what is read from them. */
  lemma EncodeDecode(b: seq<Byte>)
    requires |b| == RECORD
    ensures Decode(b).Storable() && Encode(Decode(b)) == b
  {
    hide LittleEndian, FromLittleEndian, Range;
    WriteBack(b[0..8]);
    WriteBack(b[8..9]);
    WriteBack(b[9..13]);
    WriteBack(b[13..17]);
    WriteBack(b[17..25]);
    WriteBack(b[25..26]);
    WriteBack(b[26..34]);
    WriteBack(b[34..38]);
    assert b == b[0..8] + b[8..9] + b[9..13] + b[13..17] + b[17..25] + b[25..26] + b[26..34] + b[34..38];
  }
}
