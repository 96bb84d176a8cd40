/** Byte strings, the fixed-width integers written into them, and how a stream is cut into pieces. */
module ByteStrings {

  type byte = x: int | 0 <= x < 256

  type Bytes = seq<byte>

  datatype Option<+T> = None | Some(value: T)

  datatype Result<+T> = Ok(value: T) | Err

  const TWO32: int := 0x1_0000_0000

  /** The stream that a list of reads or writes adds up to. */
  function Concat<T>(pieces: seq<seq<T>>): seq<T> {
    if pieces == [] then [] else pieces[0] + Concat(pieces[1..])
  }

  lemma Assoc<T>(a: seq<T>, b: seq<T>, c: seq<T>)
    ensures a + b + c == a + (b + c)
  {
  }

  lemma {:induction false} ConcatSplit<T>(a: seq<seq<T>>, b: seq<seq<T>>)
    ensures Concat(a + b) == Concat(a) + Concat(b)
  {
    if a == [] {
      assert a + b == b;
    } else {
      assert (a + b)[1..] == a[1..] + b;
      ConcatSplit(a[1..], b);
    }
  }

  function BigEndian32(v: nat): (b: Bytes)
    requires v < TWO32
    ensures |b| == 4
  {
    [v / 0x100_0000, v / 0x1_0000 % 256, v / 0x100 % 256, v % 256]
  }

  function FromBigEndian32(b: Bytes): (v: nat)
    requires |b| == 4
    ensures v < TWO32
  {
    var b0: int, b1: int, b2: int, b3: int := b[0], b[1], b[2], b[3];
    b0 * 0x100_0000 + b1 * 0x1_0000 + b2 * 0x100 + b3
  }

  lemma BigEndian32RoundTrip(v: nat)
    requires v < TWO32
    ensures FromBigEndian32(BigEndian32(v)) == v
  {
    assert v / 0x1_0000 == v / 0x100_0000 * 256 + v / 0x1_0000 % 256;
    assert v / 0x100 == v / 0x1_0000 * 256 + v / 0x100 % 256;
  }

  function Pow256(k: nat): (p: nat)
    ensures p > 0
  {
    if k == 0 then 1 else 256 * Pow256(k - 1)
  }

  function LittleEndian(n: Bytes): (v: nat)
    ensures v < Pow256(|n|)
  {
    if n == [] then 0 else n[0] + 256 * LittleEndian(n[1..])
  }

  function ToLittleEndian(v: nat, k: nat): (b: Bytes)
    ensures |b| == k
  {
    if k == 0 then [] else [v % 256] + ToLittleEndian(v / 256, k - 1)
  }

  /** Writing a number into k bytes keeps it modulo 256^k. */
  lemma {:induction false} LittleEndianRoundTrip(v: nat, k: nat)
    ensures LittleEndian(ToLittleEndian(v, k)) == v % Pow256(k)
  {
    if k > 0 {
      LittleEndianRoundTrip(v / 256, k - 1);
      assert ToLittleEndian(v, k)[1..] == ToLittleEndian(v / 256, k - 1);
      ModByByte(v, Pow256(k - 1));
    } else {
      ModUnique(v, 1, v, 0);
    }
  }

  lemma ModByByte(v: nat, m: nat)
    requires m > 0
    ensures v % 256 + 256 * (v / 256 % m) == v % (256 * m)
  {
    var q, r := v / 256 / m, v / 256 % m;
    assert v / 256 == q * m + r;
    assert v == 256 * (v / 256) + v % 256;
    assert 256 * (q * m) == q * (256 * m);
    ModUnique(v, 256 * m, q, 256 * r + v % 256);
  }

  lemma ModUnique(v: int, m: nat, q: int, r: int)
    requires m > 0 && v == q * m + r && 0 <= r < m
    ensures v % m == r
  {
    var d, e := v / m, v % m;
    assert v == d * m + e;
    assert (d - q) * m == r - e;
    MulBound(d - q, m);
  }

  lemma MulBound(k: int, m: nat)
    ensures k >= 1 ==> k * m >= m
    ensures k <= -1 ==> k * m <= 0 - m
  {
  }
}
