/**
 The length-prefixed LZ4 block and the per-session encryption: internal/proxy/crypto.go, and the order in which
 internal/proxy/common.go applies them.

 The LZ4 block format is written out as a decoder, so that the hand-written literal block can be checked against it.
 Of the library only this is assumed: the compressor returns an error, nothing, or a block of that format for its
 input, and the decompressor implements that format and refuses output that does not fit.
 */
module Lz4 {
  import opened ByteStrings

  const MAX_DECOMPRESSED := 8 * 1024 * 1024

  // ---------------------------------------------------------------- the block format

  /** A length that starts in a 4-bit field and, if that is full, goes on in bytes up to and including one below 255. */
  function ReadExtension(src: Bytes): (r: Option<(nat, Bytes)>)
    ensures r.Some? ==> |r.value.1| < |src|
  {
    if src == [] then None
    else if src[0] < 255 then Some((src[0], src[1..]))
    else
      match ReadExtension(src[1..])
      case None => None
      case Some((n, rest)) => Some((255 + n, rest))
  }

  function ReadLength(field: nat, src: Bytes): (r: Option<(nat, Bytes)>)
    ensures r.Some? ==> |r.value.1| <= |src|
  {
    if field < 15 then Some((field, src))
    else
      match ReadExtension(src)
      case None => None
      case Some((n, rest)) => Some((15 + n, rest))
  }

  /** Copies n bytes that start offset bytes before the end, one by one, so that source and copy may overlap. */
  function CopyMatch(out: Bytes, offset: nat, n: nat): Bytes
    requires 0 < offset <= |out|
    decreases n
  {
    if n == 0 then out else CopyMatch(out + [out[|out| - offset]], offset, n - 1)
  }

  /** One sequence after another: literals, then, unless the block ends there, a match. */
  function DecodeBlock(src: Bytes, out: Bytes): Option<Bytes>
    decreases |src|
  {
    if src == [] then None
    else
      var token: nat := src[0];
      match ReadLength(token / 16, src[1..])
      case None => None
      case Some((literals, rest)) =>
        if |rest| < literals then None
        else
          var grown := out + rest[..literals];
          var tail := rest[literals..];
          if tail == [] then Some(grown)
          else if |tail| < 2 then None
          else
            var lo: nat, hi: nat := tail[0], tail[1];
            match ReadLength(token % 16, tail[2..])
            case None => None
            case Some((n, next)) =>
              var offset := lo + 256 * hi;
              if offset == 0 || offset > |grown| then None
              else DecodeBlock(next, CopyMatch(grown, offset, n + 4))
  }

  /** The library's decompressor on an output buffer of the given capacity. */
  function UncompressBlock(block: Bytes, capacity: nat): Result<Bytes> {
    match DecodeBlock(block, [])
    case None => Err
    case Some(data) => if |data| <= capacity then Ok(data) else Err
  }

  /** The library's compressor: an error, or the bytes it wrote, none of them when it found nothing to gain. */
  ghost predicate CompressorContract(input: Bytes, written: Result<Bytes>) {
    written.Ok? && written.value != [] ==> DecodeBlock(written.value, []) == Some(input)
  }

  // ---------------------------------------------------------------- the literal block

  function Extension(n: nat): Bytes {
    if n >= 255 then [255] + Extension(n - 255) else [n]
  }

  function LiteralBlock(input: Bytes): Bytes {
    (if |input| < 15 then [|input| * 16] else [240] + Extension(|input| - 15)) + input
  }

  method AppendLZ4LiteralBlock(prefix: Bytes, input: Bytes) returns (out: Bytes)
    ensures out == prefix + LiteralBlock(input)
  {
    var literalLen := |input|;
    if literalLen < 15 {
      out := prefix + [literalLen * 16];
      out := out + input;
      Assoc(prefix, [literalLen * 16], input);
      return;
    }
    out := prefix + [240];
    var remaining := literalLen - 15;
    ghost var head := out;
    while remaining >= 255
      invariant 0 <= remaining
      invariant out + Extension(remaining) == head + Extension(literalLen - 15)
    {
      Assoc(out, [255], Extension(remaining - 255));
      out := out + [255];
      remaining := remaining - 255;
    }
    out := out + [remaining];
    Assoc(prefix, [240], Extension(literalLen - 15));
    Assoc(prefix, [240] + Extension(literalLen - 15), input);
    out := out + input;
  }

  lemma {:induction false} ReadsExtension(n: nat, rest: Bytes)
    ensures ReadExtension(Extension(n) + rest) == Some((n, rest))
  {
    var b := Extension(n) + rest;
    if n >= 255 {
      assert b[1..] == Extension(n - 255) + rest;
      ReadsExtension(n - 255, rest);
    } else {
      assert b[1..] == rest;
    }
  }

  /** The fallback is one sequence of literals, and it decodes to what was put in, whatever its length. */
  lemma LiteralBlockDecodes(input: Bytes)
    ensures DecodeBlock(LiteralBlock(input), []) == Some(input)
    ensures |LiteralBlock(input)| > |input| && LiteralBlock(input)[0] % 16 == 0
  {
    var b := LiteralBlock(input);
    if |input| >= 15 {
      var ext := Extension(|input| - 15);
      Assoc([240], ext, input);
      assert b[1..] == ext + input;
      ReadsExtension(|input| - 15, input);
    } else {
      assert b[1..] == input;
    }
    assert input[..|input|] == input;
    assert [] + input == input;
  }

  /** What a match copies repeats with its offset as the period. */
  lemma {:induction false} CopyMatchRepeats(out: Bytes, offset: nat, n: nat)
    requires 0 < offset <= |out|
    ensures var r := CopyMatch(out, offset, n);
      && |r| == |out| + n && r[..|out|] == out
      && forall i :: |out| <= i < |r| ==> r[i] == r[i - offset]
    decreases n
  {
    if n > 0 {
      var more := out + [out[|out| - offset]];
      CopyMatchRepeats(more, offset, n - 1);
      var r := CopyMatch(out, offset, n);
      assert r[..|more|] == more;
      assert r[..|out|] == more[..|out|] == out;
      assert r[|out|] == more[|out|] && r[|out| - offset] == more[|out| - offset];
    }
  }

  function Nibble(n: nat): (r: nat)
    ensures r < 16
  {
    if n < 15 then n else 15
  }

  function Overflow(n: nat): Bytes {
    if n < 15 then [] else Extension(n - 15)
  }

  lemma ReadsLength(n: nat, rest: Bytes)
    ensures ReadLength(Nibble(n), Overflow(n) + rest) == Some((n, rest))
  {
    if n < 15 {
      assert [] + rest == rest;
    } else {
      ReadsExtension(n - 15, rest);
    }
  }

  /** A sequence as the format has it: a token, the literals, the offset and the length of the match. */
  function Sequence(literals: Bytes, lo: byte, hi: byte, length: nat, next: Bytes): Bytes
    requires length >= 4
  {
    var token := Nibble(|literals|) * 16 + Nibble(length - 4);
    [token] + (Overflow(|literals|) + (literals + ([lo, hi] + (Overflow(length - 4) + next))))
  }

  /** Every sequence of the format, whatever its lengths, is read as what it was made of. */
  lemma SequenceReads(literals: Bytes, lo: byte, hi: byte, length: nat, next: Bytes)
    requires length >= 4
    ensures var src, tail := Sequence(literals, lo, hi, length, next), [lo, hi] + (Overflow(length - 4) + next);
      && ReadLength(src[0] / 16, src[1..]) == Some((|literals|, literals + tail))
      && ReadLength(src[0] % 16, tail[2..]) == Some((length - 4, next))
  {
    var tail := [lo, hi] + (Overflow(length - 4) + next);
    assert Sequence(literals, lo, hi, length, next)[1..] == Overflow(|literals|) + (literals + tail);
    ReadsLength(|literals|, literals + tail);
    ReadsLength(length - 4, next);
    assert tail[2..] == Overflow(length - 4) + next;
  }

  lemma Cut(a: Bytes, b: Bytes)
    ensures (a + b)[..|a|] == a && (a + b)[|a|..] == b
  {
  }

  /** One sequence is decoded as the format says: the literals, the repeated bytes, then what follows. */
  lemma SequenceStep(src: Bytes, literals: Bytes, tail: Bytes, n: nat, next: Bytes, out: Bytes)
    requires src != [] && |tail| >= 2 && ReadLength(src[0] / 16, src[1..]) == Some((|literals|, literals + tail))
    requires ReadLength(src[0] % 16, tail[2..]) == Some((n, next))
    ensures var low: nat, high: nat := tail[0], tail[1];
      var offset := low + 256 * high;
      DecodeBlock(src, out) ==
      if offset == 0 || offset > |out + literals| then None
      else DecodeBlock(next, CopyMatch(out + literals, offset, n + 4))
  {
    Cut(literals, tail);
  }

  /** A block that breaks off after the literals or within the offset of a match is none. */
  lemma BrokenOffset(literals: Bytes, token: nat, one: byte)
    requires |literals| < 15 && token < 16
    ensures DecodeBlock([|literals| * 16 + token] + (literals + [one]), []) == None
  {
    var b := [|literals| * 16 + token] + (literals + [one]);
    assert b[1..] == literals + [one];
    assert (literals + [one])[|literals|..] == [one];
  }

  // ---------------------------------------------------------------- the prefixed block

  /** The output of CompressData when the library's compressor wrote the given result. */
  function Compressed(input: Bytes, written: Result<Bytes>): Bytes {
    if input == [] then [0, 0, 0, 0] else ToLittleEndian(|input| % TWO32, 4) + Block(input, written)
  }

  /** The library's block, or the literal one when the library failed or gained nothing. */
  function Block(input: Bytes, written: Result<Bytes>): Bytes {
    if written.Err? || written.value == [] || |written.value| >= |input| then LiteralBlock(input) else written.value
  }

  method CompressData(input: Bytes, written: Result<Bytes>) returns (out: Bytes)
    ensures out == Compressed(input, written)
  {
    if |input| == 0 {
      return [0, 0, 0, 0];
    }
    var prefix := ToLittleEndian(|input| % TWO32, 4);
    if written.Err? {
      out := AppendLZ4LiteralBlock(prefix, input);
      return;
    }
    var n := |written.value|;
    if n <= 0 || n >= |input| {
      out := AppendLZ4LiteralBlock(prefix, input);
      return;
    }
    out := prefix + written.value;
  }

  function DecompressData(input: Bytes): Result<Bytes> {
    if |input| < 4 then Err else Decompressed(input[4..], LittleEndian(input[..4]))
  }

  function Decompressed(payload: Bytes, size: nat): Result<Bytes> {
    if size == 0 then Ok([])
    else if size > MAX_DECOMPRESSED then Err
    else
      var out := UncompressBlock(payload, size);
      if out.Ok? && |out.value| == size then out
      else if |payload| == size then Ok(payload)
      else if out.Ok? then Err
      else
        var large := UncompressBlock(payload, MAX_DECOMPRESSED);
        if large.Ok? && |large.value| >= size then Ok(large.value[..size]) else Err
  }

  /**
   What decompression gives has the length that was announced, at most 8 MiB: the content of the block, as much of it as
   was announced, or the payload as it came. Everything else is an error.
   */
  lemma DecompressedIs(input: Bytes, out: Bytes)
    requires DecompressData(input) == Ok(out)
    ensures |input| >= 4 && |out| == LittleEndian(input[..4]) <= MAX_DECOMPRESSED
    ensures var block := DecodeBlock(input[4..], []);
      out == [] || out == input[4..] || (block.Some? && out <= block.value)
  {
  }

  /** A payload that is no block is only taken as it came, if it has the announced length. */
  lemma NoBlockIsError(input: Bytes)
    requires |input| >= 4 && DecodeBlock(input[4..], []).None? && LittleEndian(input[..4]) > 0
    ensures DecompressData(input).Ok? <==> |input[4..]| == LittleEndian(input[..4]) <= MAX_DECOMPRESSED
  {
  }

  /** A length of 0 announces nothing, whatever follows; and more than was announced is cut off. */
  lemma CutToSize(input: Bytes)
    requires |input| >= 4
    ensures var size, block := LittleEndian(input[..4]), DecodeBlock(input[4..], []);
      && (size == 0 ==> DecompressData(input) == Ok([]))
      && (0 < size <= MAX_DECOMPRESSED && |input[4..]| != size && block.Some? ==>
            DecompressData(input) == if size <= |block.value| <= MAX_DECOMPRESSED then Ok(block.value[..size]) else Err)
  {
    var size, block := LittleEndian(input[..4]), DecodeBlock(input[4..], []);
    assert block.Some? && |block.value| == size ==> block.value[..size] == block.value;
  }

  lemma PrefixReads(v: nat, block: Bytes)
    ensures var b := ToLittleEndian(v % TWO32, 4) + block;
      |b| >= 4 && LittleEndian(b[..4]) == v % TWO32 && b[4..] == block
  {
    var b := ToLittleEndian(v % TWO32, 4) + block;
    assert b[..4] == ToLittleEndian(v % TWO32, 4);
    LittleEndianRoundTrip(v % TWO32, 4);
    assert Pow256(4) == TWO32 by {
      assert Pow256(1) == 256;
      assert Pow256(2) == 256 * Pow256(1);
      assert Pow256(3) == 256 * Pow256(2);
      assert Pow256(4) == 256 * Pow256(3);
    }
  }

  /** The library's block is taken exactly when it is one and saves something; nothing is just its length, 0. */
  lemma CompressedShorter(input: Bytes, written: Result<Bytes>)
    ensures input == [] ==> Compressed(input, written) == [0, 0, 0, 0]
    ensures input != [] ==>
      var c := Compressed(input, written);
      && |c| >= 4 && LittleEndian(c[..4]) == |input| % TWO32
      && c[4..] == (if written.Ok? && 0 < |written.value| < |input| then written.value else LiteralBlock(input))
  {
    PrefixReads(|input|, Block(input, written));
  }

  /** Both forms of the block decode to the input; the block is never as long as the input. */
  lemma BlockDecodes(input: Bytes, written: Result<Bytes>)
    requires input != [] && CompressorContract(input, written)
    ensures DecodeBlock(Block(input, written), []) == Some(input) && |Block(input, written)| != |input|
  {
    LiteralBlockDecodes(input);
  }

  lemma Uncompresses(input: Bytes, block: Bytes, capacity: nat)
    requires DecodeBlock(block, []) == Some(input)
    ensures UncompressBlock(block, capacity) == if |input| <= capacity then Ok(input) else Err
  {
  }

  lemma DecompressedIff(input: Bytes, block: Bytes, size: nat)
    requires input != [] && size == |input| % TWO32 && DecodeBlock(block, []) == Some(input)
    ensures Decompressed(block, size) == Ok(input) <==> |input| <= MAX_DECOMPRESSED
  {
    Uncompresses(input, block, size);
    Uncompresses(input, block, MAX_DECOMPRESSED);
  }

  lemma EmptyRoundTrip(written: Result<Bytes>)
    ensures DecompressData(Compressed([], written)) == Ok([])
  {
    PrefixReads(0, []);
    assert ToLittleEndian(0, 4) == [0, 0, 0, 0] by {
      assert ToLittleEndian(0, 1) == [0];
      assert ToLittleEndian(0, 2) == [0] + ToLittleEndian(0, 1);
      assert ToLittleEndian(0, 3) == [0] + ToLittleEndian(0, 2);
    }
    assert [0, 0, 0, 0] + [] == [0, 0, 0, 0];
  }

  /**
   The round trip holds exactly for inputs of at most 8 MiB. For those the first decompression succeeds, so that
   neither the raw-block branch nor the retry with the large buffer is ever taken.
   */
  lemma RoundTripIff(input: Bytes, written: Result<Bytes>)
    requires CompressorContract(input, written)
    ensures DecompressData(Compressed(input, written)) == Ok(input) <==> |input| <= MAX_DECOMPRESSED
    ensures 0 < |input| <= MAX_DECOMPRESSED ==>
      var b := Compressed(input, written);
      |b| >= 4 && UncompressBlock(b[4..], LittleEndian(b[..4])) == Ok(input)
  {
    if input == [] {
      EmptyRoundTrip(written);
    } else {
      var block := Block(input, written);
      PrefixReads(|input|, block);
      BlockDecodes(input, written);
      DecompressedIff(input, block, |input| % TWO32);
      Uncompresses(input, block, |input| % TWO32);
    }
  }

  // ---------------------------------------------------------------- encryption

  /** Exclusive or of the lowest k bits. */
  function XorBits(a: nat, b: nat, k: nat): (r: nat)
    ensures k == 8 ==> r < 256
  {
    XorBitsBound(a, b, k);
    XorBitsOf(a, b, k)
  }

  function XorBitsOf(a: nat, b: nat, k: nat): nat {
    if k == 0 then 0 else 2 * XorBitsOf(a / 2, b / 2, k - 1) + (if a % 2 == b % 2 then 0 else 1)
  }

  function Pow2(k: nat): nat {
    if k == 0 then 1 else 2 * Pow2(k - 1)
  }

  lemma {:induction false} XorBitsBound(a: nat, b: nat, k: nat)
    ensures XorBitsOf(a, b, k) < Pow2(k)
    ensures Pow2(8) == 256
  {
    if k > 0 {
      XorBitsBound(a / 2, b / 2, k - 1);
    }
    assert Pow2(8) == 2 * (2 * (2 * (2 * Pow2(4))));
    assert Pow2(4) == 2 * (2 * (2 * (2 * Pow2(0))));
  }

  lemma {:induction false} XorBitsTwice(a: nat, b: nat, k: nat)
    requires a < Pow2(k)
    ensures XorBitsOf(XorBitsOf(a, b, k), b, k) == a
  {
    if k > 0 {
      XorBitsTwice(a / 2, b / 2, k - 1);
    }
  }

  function XorByte(a: byte, b: byte): byte {
    XorBits(a, b, 8)
  }

  lemma XorTwice(a: byte, b: byte)
    ensures XorByte(XorByte(a, b), b) == a
  {
    XorBitsBound(a, b, 8);
    XorBitsTwice(a, b, 8);
  }

  function Xored(data: Bytes, key: Bytes): (r: Bytes)
    ensures |r| == |data|
  {
    if key == [] then data
    else seq(|data|, i requires 0 <= i < |data| => XorByte(data[i], key[i % |key|]))
  }

  /** The k-th bit of a number. */
  predicate Bit(v: nat, k: nat) {
    if k == 0 then v % 2 == 1 else Bit(v / 2, k - 1)
  }

  lemma {:induction false} XorBit(a: nat, b: nat, n: nat, k: nat)
    requires k < n
    ensures Bit(XorBitsOf(a, b, n), k) <==> Bit(a, k) != Bit(b, k)
    decreases n
  {
    if k > 0 {
      XorBit(a / 2, b / 2, n - 1, k - 1);
    }
  }

  /** A bit is turned over exactly where the repeated key has one. */
  lemma XoredBit(data: Bytes, key: Bytes, i: nat, k: nat)
    requires i < |data| && k < 8
    ensures Bit(Xored(data, key)[i], k) <==> Bit(data[i], k) != (key != [] && Bit(key[i % |key|], k))
  {
    if key != [] {
      XorBit(data[i], key[i % |key|], 8, k);
    }
  }

  method XorData(data: Bytes, key: Bytes) returns (out: array<byte>)
    ensures fresh(out) && out[..] == Xored(data, key)
  {
    out := new byte[|data|](i requires 0 <= i < |data| => data[i]);
    if |key| == 0 {
      return;
    }
    for i := 0 to |data|
      invariant forall k :: 0 <= k < i ==> out[k] == XorByte(data[k], key[k % |key|])
      invariant forall k :: i <= k < |data| ==> out[k] == data[k]
    {
      out[i] := XorByte(out[i], key[i % |key|]);
    }
  }

  lemma XoredTwice(data: Bytes, key: Bytes)
    ensures Xored(Xored(data, key), key) == data
  {
    forall i | 0 <= i < |data| && key != []
      ensures Xored(Xored(data, key), key)[i] == data[i]
    {
      XorTwice(data[i], key[i % |key|]);
    }
  }

  /** AES-SIV is a pair of functions of nonce and data, of which open undoes seal. */
  datatype Cipher =
    | Plain
    | Xor(key: Bytes)
    | AesSiv(seal: (Bytes, Bytes) -> Bytes, open: (Bytes, Bytes) -> Option<Bytes>)
  {
    ghost predicate Sound() {
      AesSiv? ==> forall n: Bytes, p: Bytes {:trigger seal(n, p)} ::
        open(n, seal(n, p)) == Some(p) && |seal(n, p)| < |p| + 0x100
    }
  }

  function Encrypt(c: Cipher, nonce: Bytes, data: Bytes): Bytes {
    match c
    case Plain => data
    case Xor(key) => Xored(data, key)
    case AesSiv(seal, _) => var text := seal(nonce, data); nonce + (ToLittleEndian(|text|, 8) + text)
  }

  function Decrypt(c: Cipher, data: Bytes): Result<Bytes> {
    match c
    case Plain => Ok(data)
    case Xor(key) => Ok(Xored(data, key))
    case AesSiv(_, open) =>
      if |data| < 24 then Err
      else if LittleEndian(data[16..24]) != |data[24..]| then Err
      else
        match open(data[..16], data[24..])
        case None => Err
        case Some(plain) => Ok(plain)
  }

  lemma Pow256Of8()
    ensures Pow256(8) == 0x1_0000_0000_0000_0000
  {
    assert Pow256(1) == 256;
    assert Pow256(2) == 0x1_0000;
    assert Pow256(3) == 0x100_0000;
    assert Pow256(4) == 0x1_0000_0000;
    assert Pow256(5) == 0x100_0000_0000;
    assert Pow256(6) == 0x1_0000_0000_0000;
    assert Pow256(7) == 0x100_0000_0000_0000;
  }

  /** Nonce, announced length, text. */
  predicate Packed(data: Bytes, nonce: Bytes, text: Bytes) {
    |nonce| == 16 && |text| < Pow256(8) && data == nonce + (ToLittleEndian(|text|, 8) + text)
  }

  lemma PackedReads(data: Bytes, nonce: Bytes, text: Bytes)
    requires Packed(data, nonce, text)
    ensures |data| >= 24 && data[..16] == nonce && data[24..] == text && LittleEndian(data[16..24]) == |text|
  {
    var size := ToLittleEndian(|text|, 8);
    LittleEndianRoundTrip(|text|, 8);
    Cut(nonce, size + text);
    Cut(size, text);
    assert data[16..24] == data[16..][..8] && data[24..] == data[16..][8..];
  }

  /** Go slices are shorter than 2^63 bytes; the bound leaves room for what sealing adds. */
  lemma DecryptsEncrypted(c: Cipher, nonce: Bytes, data: Bytes)
    requires c.Sound() && |nonce| == 16 && |data| < 0x4000_0000_0000_0000
    ensures Decrypt(c, Encrypt(c, nonce, data)) == Ok(data)
  {
    match c
    case Plain =>
    case Xor(key) => XoredTwice(data, key);
    case AesSiv(seal, open) =>
      var text := seal(nonce, data);
      Pow256Of8();
      PackedReads(Encrypt(c, nonce, data), nonce, text);
  }

  lemma {:induction false} WrittenAgain(b: Bytes)
    ensures ToLittleEndian(LittleEndian(b), |b|) == b
  {
    if b != [] {
      WrittenAgain(b[1..]);
      var v := LittleEndian(b);
      assert v % 256 == b[0] && v / 256 == LittleEndian(b[1..]);
    }
  }

  lemma ReadsPacked(data: Bytes)
    requires |data| >= 24 && LittleEndian(data[16..24]) == |data[24..]|
    ensures Packed(data, data[..16], data[24..])
  {
    WrittenAgain(data[16..24]);
    assert data == data[..16] + (data[16..24] + data[24..]);
  }

  /** Sealed data opens only whole: with its nonce, the length it announces, and a text the cipher accepts. */
  lemma OpensIff(seal: (Bytes, Bytes) -> Bytes, open: (Bytes, Bytes) -> Option<Bytes>, data: Bytes, plain: Bytes)
    ensures Decrypt(AesSiv(seal, open), data) == Ok(plain)
       <==> exists nonce, text :: Packed(data, nonce, text) && open(nonce, text) == Some(plain)
  {
    if |data| >= 24 && LittleEndian(data[16..24]) == |data[24..]| {
      ReadsPacked(data);
    }
    forall nonce, text | Packed(data, nonce, text)
      ensures |data| >= 24 && data[..16] == nonce && data[24..] == text && LittleEndian(data[16..24]) == |text|
    {
      PackedReads(data, nonce, text);
    }
  }

  /** What does not open is not passed on, compressed or not. */
  lemma UnopenedIsRefused(compress: bool, c: Cipher, data: Bytes)
    requires Decrypt(c, data).Err?
    ensures DecodeData(compress, c, data).Err?
  {
  }

  /** EncodeDataAndLimit before it asks for window space: compress, then encrypt. */
  function EncodeData(compress: bool, c: Cipher, nonce: Bytes, written: Result<Bytes>, data: Bytes): Bytes {
    Encrypt(c, nonce, if compress then Compressed(data, written) else data)
  }

  /** Decrypt, then decompress. */
  function DecodeData(compress: bool, c: Cipher, data: Bytes): Result<Bytes> {
    match Decrypt(c, data)
    case Err => Err
    case Ok(out) => if compress then DecompressData(out) else Ok(out)
  }

  lemma {:induction false} ExtensionShort(n: nat)
    ensures |Extension(n)| <= n + 1
  {
    if n >= 255 {
      ExtensionShort(n - 255);
    }
  }

  lemma CompressedIsShort(input: Bytes, written: Result<Bytes>)
    ensures |Compressed(input, written)| <= 2 * |input| + 6
  {
    if |input| >= 15 {
      ExtensionShort(|input| - 15);
    }
  }

  lemma DecodesWhatWasSent(compress: bool, c: Cipher, nonce: Bytes, sent: Bytes)
    requires c.Sound() && |nonce| == 16 && |sent| < 0x4000_0000_0000_0000
    ensures DecodeData(compress, c, Encrypt(c, nonce, sent)) == if compress then DecompressData(sent) else Ok(sent)
  {
    DecryptsEncrypted(c, nonce, sent);
  }

  /** What one end of a session encodes the other end decodes, except compressed payloads above 8 MiB. */
  lemma SessionDecodesIff(compress: bool, c: Cipher, nonce: Bytes, written: Result<Bytes>, data: Bytes)
    requires c.Sound() && CompressorContract(data, written) && |nonce| == 16 && |data| < 0x1000_0000_0000_0000
    ensures DecodeData(compress, c, EncodeData(compress, c, nonce, written, data)) == Ok(data)
      <==> !compress || |data| <= MAX_DECOMPRESSED
  {
    var sent := if compress then Compressed(data, written) else data;
    CompressedIsShort(data, written);
    DecodesWhatWasSent(compress, c, nonce, sent);
    RoundTripIff(data, written);
  }
}
