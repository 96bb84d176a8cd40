/**
 The Shadowsocks AEAD chunk stream: internal/proxy/shadowsocks.go.

 The cipher is a pair of functions; all that is assumed of it is that open undoes seal under the same nonce and
 that a sealed block is longer than its plaintext by a fixed overhead.
 */
module Shadowsocks {
  import opened ByteStrings
  import opened Incremental

  const MAX_PAYLOAD := 0x3fff

  datatype Aead = Aead(
    overhead: nat,
    nonceSize: nat,
    seal: (Bytes, Bytes) -> Bytes,
    open: (Bytes, Bytes) -> Option<Bytes>)
  {
    ghost predicate Sound() {
      forall n: Bytes, p: Bytes {:trigger seal(n, p)} ::
        |seal(n, p)| == |p| + overhead && open(n, seal(n, p)) == Some(p)
    }

    function FirstNonce(): Bytes {
      seq(nonceSize, _ => 0)
    }
  }

  // ---------------------------------------------------------------- the nonce counter

  /** The nonce after one increment: a carry runs from the first byte upwards and falls off the end. */
  function Incremented(n: Bytes): (r: Bytes)
    ensures |r| == |n|
  {
    if n == [] then []
    else if n[0] == 255 then [0] + Incremented(n[1..])
    else [n[0] + 1] + n[1..]
  }

  /** The nonce is a little-endian counter modulo 256^len. */
  lemma {:induction false} IncrementedCounts(n: Bytes)
    ensures LittleEndian(Incremented(n)) == if LittleEndian(n) + 1 == Pow256(|n|) then 0 else LittleEndian(n) + 1
  {
    if n != [] {
      IncrementedCounts(n[1..]);
      var r := Incremented(n);
      if n[0] == 255 {
        assert r[1..] == Incremented(n[1..]);
      } else {
        assert r[1..] == n[1..];
      }
    }
  }

  function NonceAfter(n: Bytes, k: nat): (r: Bytes)
    ensures |r| == |n|
    decreases k
  {
    if k == 0 then n else NonceAfter(Incremented(n), k - 1)
  }

  lemma {:induction false} NonceAfterAdds(n: Bytes, j: nat, k: nat)
    ensures NonceAfter(n, j + k) == NonceAfter(NonceAfter(n, j), k)
    decreases j
  {
    if j > 0 {
      NonceAfterAdds(Incremented(n), j - 1, k);
    }
  }

  lemma {:induction false} NonceAfterCounts(n: Bytes, k: nat)
    requires LittleEndian(n) + k < Pow256(|n|)
    ensures LittleEndian(NonceAfter(n, k)) == LittleEndian(n) + k
    decreases k
  {
    if k > 0 {
      IncrementedCounts(n);
      NonceAfterCounts(Incremented(n), k - 1);
    }
  }

  lemma {:induction false} ZeroCounts(k: nat)
    ensures LittleEndian(seq(k, _ => 0)) == 0
  {
    if k > 0 {
      ZeroCounts(k - 1);
      var z: Bytes := seq(k, _ => 0);
      var y: Bytes := seq(k - 1, _ => 0);
      assert z[1..] == y;
    }
  }

  /** No two blocks of a session are sealed under one nonce before the counter has run through all its values. */
  lemma NoncesNeverRepeat(a: Aead, i: nat, j: nat)
    requires i < j < Pow256(a.nonceSize)
    ensures NonceAfter(a.FirstNonce(), i) != NonceAfter(a.FirstNonce(), j)
  {
    ZeroCounts(a.nonceSize);
    NonceAfterCounts(a.FirstNonce(), i);
    NonceAfterCounts(a.FirstNonce(), j);
  }

  lemma {:induction false} CarryRun(n: Bytes, i: nat)
    requires i <= |n| && forall k :: 0 <= k < i ==> n[k] == 255
    ensures Incremented(n) == seq(i, _ => 0) + Incremented(n[i..])
    decreases i
  {
    if i > 0 {
      CarryRun(n[1..], i - 1);
      assert n[1..][i - 1..] == n[i..];
    } else {
      assert n[0..] == n;
    }
  }

  method IncrementNonce(nonce: array<byte>)
    modifies nonce
    ensures nonce[..] == Incremented(old(nonce[..]))
  {
    ghost var before := nonce[..];
    var i := 0;
    while i < nonce.Length
      invariant 0 <= i <= nonce.Length
      invariant forall k :: 0 <= k < i ==> before[k] == 255 && nonce[k] == 0
      invariant forall k :: i <= k < nonce.Length ==> nonce[k] == before[k]
    {
      var bumped: int := nonce[i];
      nonce[i] := (bumped + 1) % 256;
      if nonce[i] != 0 {
        CarryRun(before, i);
        assert Incremented(before[i..]) == [nonce[i]] + before[i + 1..];
        assert nonce[..] == seq(i, _ => 0) + ([nonce[i]] + before[i + 1..]);
        return;
      }
      i := i + 1;
    }
    CarryRun(before, i);
    assert before[i..] == [];
    assert nonce[..] == seq(i, _ => 0) + [];
  }

  // ---------------------------------------------------------------- reading

  datatype ReaderState = AwaitSalt | Ready(aead: Aead, nonce: Bytes, payloadSize: nat)

  function ReaderStep(saltSize: nat, derive: Bytes -> Aead): Parser<ReaderState, Bytes> {
    (s: ReaderState, b: Bytes) => Parse(saltSize, derive, s, b)
  }

  function Parse(saltSize: nat, derive: Bytes -> Aead, s: ReaderState, b: Bytes): Step<ReaderState, Bytes> {
      if s.AwaitSalt? then
        if |b| < saltSize || saltSize == 0 then Wait
        else
          var a := derive(b[..saltSize]);
          Advance(saltSize, Ready(a, a.FirstNonce(), 0), [])
      else
        var size := (if s.payloadSize == 0 then 2 else s.payloadSize) + s.aead.overhead;
        if |b| < size then Wait
        else
          match s.aead.open(s.nonce, b[..size])
          case None => Halt(s, [])
          case Some(plain) =>
            if s.payloadSize > 0 then Advance(size, s.(nonce := Incremented(s.nonce), payloadSize := 0), [plain])
            else if |plain| != 2 then Halt(s, [])
            else
              var n := FromBigEndian16(plain);
              if 0 < n <= MAX_PAYLOAD then Advance(size, s.(nonce := Incremented(s.nonce), payloadSize := n), [])
              else Halt(s, [])
  }

  function FromBigEndian16(b: Bytes): nat
    requires |b| == 2
  {
    var hi: int, lo: int := b[0], b[1];
    hi * 256 + lo
  }

  lemma ReaderStepStable(saltSize: nat, derive: Bytes -> Aead)
    ensures Stable(ReaderStep(saltSize, derive))
  {
    forall s: ReaderState, b: Bytes, more: Bytes
      ensures StableAt(ReaderStep(saltSize, derive), s, b, more)
    {
      var size := if s.AwaitSalt? then saltSize
        else (if s.payloadSize == 0 then 2 else s.payloadSize) + s.aead.overhead;
      if |b| >= size {
        assert (b + more)[..size] == b[..size];
      }
    }
  }

  /** One block: waited for, refused, or opened; a size header when no size is pending, a payload otherwise. */
  ghost predicate OpensBlock(
      p: Parser<ReaderState, Bytes>, a: Aead, n: Bytes, size: nat, b: Bytes, out: seq<Bytes>)
    requires Stable(p)
  {
    var k := (if size == 0 then 2 else size) + a.overhead;
    var d := Drain(p, Ready(a, n, size), b, out);
    if |b| < k then d == Conf(Ready(a, n, size), b, out, false)
    else
      match a.open(n, b[..k])
      case None => d.halted
      case Some(plain) =>
        if size > 0 then d == Drain(p, Ready(a, Incremented(n), 0), b[k..], out + [plain])
        else if |plain| == 2 && 0 < FromBigEndian16(plain) <= MAX_PAYLOAD then
          d == Drain(p, Ready(a, Incremented(n), FromBigEndian16(plain)), b[k..], out)
        else d.halted
  }

  ghost predicate OpensBlocks(p: Parser<ReaderState, Bytes>, a: Aead)
    requires Stable(p)
  {
    forall n, size: nat, b, out :: OpensBlock(p, a, n, size, b, out)
  }

  lemma ReaderOpensBlocks(saltSize: nat, derive: Bytes -> Aead, a: Aead)
    requires Stable(ReaderStep(saltSize, derive))
    ensures OpensBlocks(ReaderStep(saltSize, derive), a)
  {
    forall n, size: nat, b, out
      ensures OpensBlock(ReaderStep(saltSize, derive), a, n, size, b, out)
    {
      DrainOne(ReaderStep(saltSize, derive), Ready(a, n, size), b, out);
      assert out + [] == out;
    }
  }

  class StreamReader {
    const saltSize: nat
    const derive: Bytes -> Aead
    var buffer: Bytes
    var aead: Option<Aead>
    var nonce: array<byte>
    var payloadSize: nat

    constructor (saltSize: nat, derive: Bytes -> Aead)
      requires saltSize > 0
      ensures fresh(nonce) && buffer == [] && View() == AwaitSalt
      ensures this.saltSize == saltSize && this.derive == derive
    {
      this.saltSize, this.derive := saltSize, derive;
      buffer, aead, payloadSize := [], None, 0;
      nonce := new byte[0];
    }

    ghost function View(): ReaderState
      reads this, nonce
    {
      if aead.None? then AwaitSalt else Ready(aead.value, nonce[..], payloadSize)
    }

    /** Opens the first n buffered bytes under the current nonce and, if that succeeds, steps past them. */
    method OpenBlock(n: nat) returns (plain: Option<Bytes>)
      requires aead.Some? && n <= |buffer|
      modifies this`buffer, nonce
      ensures plain == aead.value.open(old(nonce[..]), old(buffer)[..n])
      ensures plain.Some? ==> buffer == old(buffer)[n..] && nonce[..] == Incremented(old(nonce[..]))
    {
      plain := aead.value.open(nonce[..], buffer[..n]);
      if plain.Some? {
        IncrementNonce(nonce);
        buffer := buffer[n..];
      }
    }

    /** On success the chunks opened by this call; on failure nothing, not even the chunks opened before it. */
    method Feed(data: Bytes) returns (r: Result<seq<Bytes>>)
      requires saltSize > 0
      modifies this, nonce
      ensures nonce == old(nonce) || fresh(nonce)
      ensures Stable(ReaderStep(saltSize, derive))
      ensures var c := Incremental.Feed(ReaderStep(saltSize, derive), Conf(old(View()), old(buffer), [], false), data);
        && (r.Err? <==> c.halted)
        && (r.Ok? ==> c == Conf(View(), buffer, r.value, false))
    {
      ReaderStepStable(saltSize, derive);
      ghost var p := ReaderStep(saltSize, derive);
      ghost var goal := Drain(p, View(), buffer + data, []);
      buffer := buffer + data;
      if aead.None? {
        if |buffer| < saltSize {
          return Ok([]);
        }
        DrainAdvance(p, AwaitSalt, buffer, []);
        var a := derive(buffer[..saltSize]);
        aead := Some(a);
        nonce := new byte[a.nonceSize](_ => 0);
        payloadSize := 0;
        buffer := buffer[saltSize..];
        assert nonce[..] == a.FirstNonce();
        ghost var none: seq<Bytes> := [];
        assert none + [] == none;
      }
      ReaderOpensBlocks(saltSize, derive, aead.value);
      r := OpenChunks(p);
    }

    /** One Feed for every read of the connection, until one fails: the parser over all the reads. */
    method FeedStream(pieces: seq<Bytes>) returns (out: seq<Bytes>, ok: bool)
      requires saltSize > 0
      modifies this, nonce
      ensures Stable(ReaderStep(saltSize, derive))
      ensures var c := FeedAll(ReaderStep(saltSize, derive), Conf(old(View()), old(buffer), [], false), pieces);
        && (ok <==> !c.halted)
        && (if ok then c == Conf(View(), buffer, out, false) else out <= c.out)
    {
      ReaderStepStable(saltSize, derive);
      ghost var p := ReaderStep(saltSize, derive);
      ghost var goal := FeedAll(p, Conf(View(), buffer, [], false), pieces);
      out, ok := [], true;
      var i := 0;
      while i < |pieces|
        invariant 0 <= i <= |pieces|
        invariant nonce == old(nonce) || fresh(nonce)
        invariant goal == FeedAll(p, Conf(View(), buffer, out, false), pieces[i..])
      {
        ghost var before := Conf(View(), buffer, out, false);
        DrainExtends(p, View(), buffer + pieces[i], out);
        var r := Feed(pieces[i]);
        assert pieces[i..][1..] == pieces[i + 1..];
        if r.Err? {
          HaltedStays(p, Incremental.Feed(p, before, pieces[i]), pieces[i + 1..]);
          return out, false;
        }
        out := out + r.value;
        i := i + 1;
      }
    }

    /** The first half of a round of that loop: whether the size of the next chunk is known, unless it does not open. */
    method OpenSize(ghost p: Parser<ReaderState, Bytes>, ghost out: seq<Bytes>) returns (sized: Option<bool>)
      requires aead.Some? && Stable(p) && OpensBlocks(p, aead.value) && payloadSize == 0
      modifies this`buffer, this`payloadSize, nonce
      ensures var d := Drain(p, old(View()), old(buffer), out);
        match sized
        case None => d.halted
        case Some(known) =>
          if known then d == Drain(p, View(), buffer, out) && payloadSize > 0 && |buffer| < |old(buffer)|
          else View() == old(View()) && buffer == old(buffer) && d == Conf(View(), buffer, out, false)
    {
      var a := aead.value;
      var sizeBlockLen := 2 + a.overhead;
      assert OpensBlock(p, a, nonce[..], payloadSize, buffer, out);
      if |buffer| < sizeBlockLen {
        return Some(false);
      }
      var unsealed := OpenBlock(sizeBlockLen);
      if unsealed.None? {
        return None;
      }
      var sizeBlock := unsealed.value;
      if |sizeBlock| != 2 {
        return None;
      }
      payloadSize := FromBigEndian16(sizeBlock);
      if payloadSize <= 0 || payloadSize > MAX_PAYLOAD {
        return None;
      }
      return Some(true);
    }

    /** The loop of Feed over what is buffered; p is the step it follows. */
    method OpenChunks(ghost p: Parser<ReaderState, Bytes>) returns (r: Result<seq<Bytes>>)
      requires aead.Some? && Stable(p) && OpensBlocks(p, aead.value)
      modifies this`buffer, this`payloadSize, nonce
      ensures var c := Drain(p, old(View()), old(buffer), []);
        && (r.Err? <==> c.halted)
        && (r.Ok? ==> c == Conf(View(), buffer, r.value, false))
    {
      ghost var goal := Drain(p, View(), buffer, []);
      var a := aead.value;
      var out: seq<Bytes> := [];
      while true
        invariant goal == Drain(p, View(), buffer, out)
        decreases |buffer|
      {
        if payloadSize == 0 {
          var sized := OpenSize(p, out);
          if sized.None? {
            return Err;
          }
          if !sized.value {
            break;
          }
        }
        var payloadBlockLen := payloadSize + a.overhead;
        assert OpensBlock(p, a, nonce[..], payloadSize, buffer, out);
        if |buffer| < payloadBlockLen {
          break;
        }
        var unsealed := OpenBlock(payloadBlockLen);
        if unsealed.None? {
          return Err;
        }
        payloadSize := 0;
        out := out + [unsealed.value];
      }
      r := Ok(out);
    }
  }

  // ---------------------------------------------------------------- writing

  predicate ChunkSized(chunks: seq<Bytes>) {
    forall i :: 0 <= i < |chunks| ==> 0 < |chunks[i]| <= MAX_PAYLOAD
  }

  /** How a payload is divided: full chunks of 0x3fff bytes, then what is left. */
  function Chunks(data: Bytes): (r: seq<Bytes>)
    ensures Concat(r) == data
    ensures ChunkSized(r)
  {
    if data == [] then []
    else
      var n := if |data| > MAX_PAYLOAD then MAX_PAYLOAD else |data|;
      assert data == data[..n] + data[n..];
      [data[..n]] + Chunks(data[n..])
  }

  function SealOne(a: Aead, n: Bytes, chunk: Bytes): Bytes
  {
    a.seal(n, [|chunk| / 256 % 256, |chunk| % 256]) + a.seal(Incremented(n), chunk)
  }

  function SealChunks(a: Aead, n: Bytes, chunks: seq<Bytes>): Bytes
    decreases |chunks|
  {
    if chunks == [] then []
    else SealOne(a, n, chunks[0]) + SealChunks(a, NonceAfter(n, 2), chunks[1..])
  }

  lemma {:induction false} SealChunksSplit(a: Aead, n: Bytes, x: seq<Bytes>, y: seq<Bytes>)
    ensures SealChunks(a, n, x + y) == SealChunks(a, n, x) + SealChunks(a, NonceAfter(n, 2 * |x|), y)
    decreases |x|
  {
    if x == [] {
      assert x + y == y;
    } else {
      var m, one, later := NonceAfter(n, 2), SealOne(a, n, x[0]), x[1..];
      assert SealChunks(a, n, x + y) == one + SealChunks(a, m, later + y) by {
        assert (x + y)[1..] == later + y && (x + y)[0] == x[0];
      }
      SealChunksSplit(a, m, later, y);
      assert NonceAfter(n, 2 * |x|) == NonceAfter(m, 2 * |later|) by {
        assert 2 * |x| == 2 + 2 * |later|;
        NonceAfterAdds(n, 2, 2 * |later|);
      }
      Assoc(one, SealChunks(a, m, later), SealChunks(a, NonceAfter(m, 2 * |later|), y));
    }
  }

  lemma SealOneMore(a: Aead, n: Bytes, done: seq<Bytes>, chunk: Bytes)
    ensures SealChunks(a, n, done + [chunk]) == SealChunks(a, n, done) + SealOne(a, NonceAfter(n, 2 * |done|), chunk)
    ensures NonceAfter(n, 2 * |done + [chunk]|) == Incremented(Incremented(NonceAfter(n, 2 * |done|)))
  {
    var m := NonceAfter(n, 2 * |done|);
    SealChunksSplit(a, n, done, [chunk]);
    NonceAfterAdds(n, 2 * |done|, 2);
    assert NonceAfter(m, 2) == NonceAfter(Incremented(m), 1) == Incremented(Incremented(m));
    assert [chunk][1..] == [];
    assert SealOne(a, m, chunk) + [] == SealOne(a, m, chunk);
  }

  lemma SealedOneMore(a: Aead, n: Bytes, done: seq<Bytes>, chunk: Bytes, prefix: Bytes, header: Bytes, body: Bytes)
    requires header + body == SealOne(a, NonceAfter(n, 2 * |done|), chunk)
    ensures prefix + SealChunks(a, n, done) + header + body == prefix + SealChunks(a, n, done + [chunk])
  {
    SealOneMore(a, n, done, chunk);
    Assoc(prefix + SealChunks(a, n, done), header, body);
    Assoc(prefix, SealChunks(a, n, done), header + body);
  }

  datatype WriterState = WriterState(salt: Bytes, aead: Aead, nonce: Bytes, saltSent: bool)

  function AfterSealing(w: WriterState, data: Bytes): WriterState {
    if data == [] then w else w.(nonce := NonceAfter(w.nonce, 2 * |Chunks(data)|), saltSent := true)
  }

  function Sealed(w: WriterState, data: Bytes): Bytes {
    if data == [] then []
    else
      var blocks := SealChunks(w.aead, w.nonce, Chunks(data));
      if w.saltSent then blocks else w.salt + blocks
  }

  class StreamWriter {
    const salt: Bytes
    const aead: Aead
    const nonce: array<byte>
    var saltSent: bool

    constructor (salt: Bytes, derive: Bytes -> Aead)
      ensures fresh(nonce) && View() == WriterState(salt, derive(salt), derive(salt).FirstNonce(), false)
    {
      this.salt, aead := salt, derive(salt);
      nonce := new byte[derive(salt).nonceSize](_ => 0);
      saltSent := false;
      new;
      assert nonce[..] == derive(salt).FirstNonce();
    }

    ghost function View(): WriterState
      reads this, nonce
    {
      WriterState(salt, aead, nonce[..], saltSent)
    }

    method SealNext(plain: Bytes) returns (block: Bytes)
      modifies nonce
      ensures block == aead.seal(old(nonce[..]), plain)
      ensures nonce[..] == Incremented(old(nonce[..]))
    {
      block := aead.seal(nonce[..], plain);
      IncrementNonce(nonce);
    }

    method SealData(data: Bytes) returns (out: Bytes)
      modifies this, nonce
      ensures out == Sealed(old(View()), data)
      ensures View() == AfterSealing(old(View()), data)
    {
      out := [];
      if |data| == 0 {
        return;
      }
      if !saltSent {
        out := out + salt;
        saltSent := true;
      }
      ghost var prefix := out;
      ghost var n0 := nonce[..];
      ghost var done: seq<Bytes> := [];
      var rest := data;
      while |rest| > 0
        invariant saltSent
        invariant done + Chunks(rest) == Chunks(data)
        invariant out == prefix + SealChunks(aead, n0, done)
        invariant nonce[..] == NonceAfter(n0, 2 * |done|)
      {
        var chunkSize := |rest|;
        if chunkSize > MAX_PAYLOAD {
          chunkSize := MAX_PAYLOAD;
        }
        var chunk := rest[..chunkSize];
        rest := rest[chunkSize..];
        SealOneMore(aead, n0, done, chunk);
        var header := SealNext([chunkSize / 256 % 256, chunkSize % 256]);
        var body := SealNext(chunk);
        out := out + header + body;
        SealedOneMore(aead, n0, done, chunk, prefix, header, body);
        Assoc(done, [chunk], Chunks(rest));
        done := done + [chunk];
      }
      assert done == Chunks(data);
      assert prefix == if old(saltSent) then [] else salt;
    }
  }

  // ---------------------------------------------------------------- the two ends together

  /** The bytes on the wire for a list of SealData calls. */
  function Wire(w: WriterState, payloads: seq<Bytes>): Bytes
    decreases |payloads|
  {
    if payloads == [] then [] else Sealed(w, payloads[0]) + Wire(AfterSealing(w, payloads[0]), payloads[1..])
  }

  function AllChunks(payloads: seq<Bytes>): (r: seq<Bytes>)
    ensures Concat(r) == Concat(payloads)
  {
    if payloads == [] then []
    else
      var first, rest := Chunks(payloads[0]), AllChunks(payloads[1..]);
      ConcatSplit(first, rest);
      first + rest
  }

  lemma {:induction false} DrainSealed(
      p: Parser<ReaderState, Bytes>, a: Aead, n: Bytes, chunks: seq<Bytes>, tail: Bytes, out: seq<Bytes>)
    requires ChunkSized(chunks)
    requires Stable(p) && OpensBlocks(p, a) && a.Sound()
    ensures Drain(p, Ready(a, n, 0), SealChunks(a, n, chunks) + tail, out)
         == Drain(p, Ready(a, NonceAfter(n, 2 * |chunks|), 0), tail, out + chunks)
    decreases |chunks|
  {
    if chunks == [] {
      assert [] + tail == tail;
      assert out + [] == out;
    } else {
      var c, later, n2 := chunks[0], chunks[1..], NonceAfter(n, 2);
      DrainChunk(p, a, n, c, SealChunks(a, n2, later) + tail, out);
      Assoc(SealOne(a, n, c), SealChunks(a, n2, later), tail);
      DrainSealed(p, a, n2, later, tail, out + [c]);
      assert NonceAfter(n, 2 * |chunks|) == NonceAfter(n2, 2 * |later|) by {
        assert 2 * |chunks| == 2 + 2 * |later|;
        NonceAfterAdds(n, 2, 2 * |later|);
      }
      assert out + [c] + later == out + chunks by {
        assert [c] + later == chunks;
        Assoc(out, [c], later);
      }
    }
  }

  lemma DrainChunk(p: Parser<ReaderState, Bytes>, a: Aead, n: Bytes, c: Bytes, rest: Bytes, out: seq<Bytes>)
    requires 0 < |c| <= MAX_PAYLOAD
    requires Stable(p) && OpensBlocks(p, a) && a.Sound()
    ensures Drain(p, Ready(a, n, 0), SealOne(a, n, c) + rest, out)
         == Drain(p, Ready(a, NonceAfter(n, 2), 0), rest, out + [c])
  {
    var n1 := Incremented(n);
    var header: Bytes := [|c| / 256 % 256, |c| % 256];
    assert NonceAfter(n, 2) == NonceAfter(n1, 1) == Incremented(n1);
    assert FromBigEndian16(header) == |c|;
    Assoc(a.seal(n, header), a.seal(n1, c), rest);
    OpensSealed(p, a, n, 0, header, a.seal(n1, c) + rest, out);
    OpensSealed(p, a, n1, |c|, c, rest, out);
  }

  lemma OpensSealed(
      p: Parser<ReaderState, Bytes>, a: Aead, n: Bytes, size: nat, plain: Bytes, rest: Bytes, out: seq<Bytes>)
    requires Stable(p) && OpensBlocks(p, a) && a.Sound()
    requires |plain| == if size == 0 then 2 else size
    requires size == 0 ==> 0 < FromBigEndian16(plain) <= MAX_PAYLOAD
    ensures Drain(p, Ready(a, n, size), a.seal(n, plain) + rest, out)
         == if size == 0 then Drain(p, Ready(a, Incremented(n), FromBigEndian16(plain)), rest, out)
            else Drain(p, Ready(a, Incremented(n), 0), rest, out + [plain])
  {
    var block := a.seal(n, plain);
    assert (block + rest)[..|block|] == block;
    assert (block + rest)[|block|..] == rest;
    assert OpensBlock(p, a, n, size, block + rest, out);
  }

  /** Once the salt is out, a list of payloads is sealed like the list of all its chunks. */
  lemma {:induction false} SealedAfterSalt(w: WriterState, payloads: seq<Bytes>)
    requires w.saltSent
    ensures Wire(w, payloads) == SealChunks(w.aead, w.nonce, AllChunks(payloads))
    decreases |payloads|
  {
    if payloads != [] {
      var w1 := AfterSealing(w, payloads[0]);
      SealedAfterSalt(w1, payloads[1..]);
      SealChunksSplit(w.aead, w.nonce, Chunks(payloads[0]), AllChunks(payloads[1..]));
    }
  }

  lemma {:induction false} AllChunksSized(payloads: seq<Bytes>)
    ensures ChunkSized(AllChunks(payloads))
  {
    if payloads != [] {
      AllChunksSized(payloads[1..]);
    }
  }

  /** Skipping empty payloads changes neither the wire nor the chunks. */
  lemma {:induction false} EmptyPrefix(w: WriterState, payloads: seq<Bytes>) returns (k: nat)
    ensures k <= |payloads|
    ensures Wire(w, payloads) == Wire(w, payloads[k..]) && AllChunks(payloads) == AllChunks(payloads[k..])
    ensures k < |payloads| ==> payloads[k] != []
    decreases |payloads|
  {
    if payloads == [] || payloads[0] != [] {
      k := 0;
    } else {
      var j := EmptyPrefix(w, payloads[1..]);
      k := j + 1;
      assert payloads[1..][j..] == payloads[k..];
    }
  }

  /** The salt goes out once, in front of the first sealed payload. */
  lemma SaltFirst(w: WriterState, payloads: seq<Bytes>)
    requires !w.saltSent && payloads != [] && payloads[0] != []
    ensures Wire(w, payloads) == w.salt + Wire(w.(saltSent := true), payloads)
  {
    var sent := w.(saltSent := true);
    assert AfterSealing(w, payloads[0]) == AfterSealing(sent, payloads[0]);
    Assoc(w.salt, Sealed(sent, payloads[0]), Wire(AfterSealing(w, payloads[0]), payloads[1..]));
  }

  /** The bytes of all calls: the salt, if it has not been sent and there is anything to send, and the sealed chunks. */
  lemma WireIsSealedChunks(w: WriterState, payloads: seq<Bytes>)
    ensures var chunks := AllChunks(payloads);
      Wire(w, payloads) == (if w.saltSent || chunks == [] then [] else w.salt) + SealChunks(w.aead, w.nonce, chunks)
  {
    var chunks := AllChunks(payloads);
    var blocks := SealChunks(w.aead, w.nonce, chunks);
    assert [] + blocks == blocks;
    if w.saltSent {
      SealedAfterSalt(w, payloads);
    } else {
      var k := EmptyPrefix(w, payloads);
      if k < |payloads| {
        SaltFirst(w, payloads[k..]);
        SealedAfterSalt(w.(saltSent := true), payloads[k..]);
        assert Chunks(payloads[k..][0]) != [];
      }
    }
  }

  lemma StepsOverSalt(derive: Bytes -> Aead, salt: Bytes, rest: Bytes)
    requires |salt| > 0 && Stable(ReaderStep(|salt|, derive))
    ensures var p := ReaderStep(|salt|, derive);
      var none: seq<Bytes> := [];
      Drain(p, AwaitSalt, salt + rest, none) == Drain(p, Ready(derive(salt), derive(salt).FirstNonce(), 0), rest, none)
  {
    var none: seq<Bytes> := [];
    assert (salt + rest)[..|salt|] == salt;
    assert (salt + rest)[|salt|..] == rest;
    DrainAdvance(ReaderStep(|salt|, derive), AwaitSalt, salt + rest, none);
    assert none + [] == none;
  }

  /** What a reader that has seen every byte of the given payloads holds: nothing but the state after them. */
  ghost function AfterPayloads(derive: Bytes -> Aead, salt: Bytes, payloads: seq<Bytes>): Conf<ReaderState, Bytes> {
    var a, chunks := derive(salt), AllChunks(payloads);
    Conf(if chunks == [] then AwaitSalt else Ready(a, NonceAfter(a.FirstNonce(), 2 * |chunks|), 0), [], chunks, false)
  }

  lemma DrainAllBlocks(p: Parser<ReaderState, Bytes>, a: Aead, n: Bytes, chunks: seq<Bytes>)
    requires ChunkSized(chunks)
    requires Stable(p) && OpensBlocks(p, a) && a.Sound()
    ensures Drain(p, Ready(a, n, 0), SealChunks(a, n, chunks), [])
         == Conf(Ready(a, NonceAfter(n, 2 * |chunks|), 0), [], chunks, false)
  {
    var blocks := SealChunks(a, n, chunks);
    assert blocks + [] == blocks;
    assert [] + chunks == chunks;
    DrainSealed(p, a, n, chunks, [], []);
    assert OpensBlock(p, a, NonceAfter(n, 2 * |chunks|), 0, [], chunks);
  }

  lemma DrainWire(derive: Bytes -> Aead, salt: Bytes, payloads: seq<Bytes>)
    requires |salt| > 0 && derive(salt).Sound()
    requires payloads == [] || payloads[0] != []
    requires Stable(ReaderStep(|salt|, derive))
    ensures var w := WriterState(salt, derive(salt), derive(salt).FirstNonce(), false);
      Drain(ReaderStep(|salt|, derive), AwaitSalt, Wire(w, payloads), []) == AfterPayloads(derive, salt, payloads)
  {
    var p := ReaderStep(|salt|, derive);
    if payloads == [] {
      DrainOne(p, AwaitSalt, [], []);
    } else {
      var a := derive(salt);
      var w := WriterState(salt, a, a.FirstNonce(), false);
      var sent, chunks := w.(saltSent := true), AllChunks(payloads);
      var blocks := SealChunks(a, a.FirstNonce(), chunks);
      SaltFirst(w, payloads);
      SealedAfterSalt(sent, payloads);
      AllChunksSized(payloads);
      StepsOverSalt(derive, salt, blocks);
      ReaderOpensBlocks(|salt|, derive, a);
      DrainAllBlocks(p, a, a.FirstNonce(), chunks);
      assert Chunks(payloads[0]) != [];
    }
  }

  /**
   For every list of payloads and every cutting of the sealed bytes into reads, the reader puts out exactly the
   sealed chunks in order, their concatenation is the data, nothing is left over, and both ends agree on the nonce.
   */
  lemma EveryCuttingOpensTheSealedChunks(derive: Bytes -> Aead, salt: Bytes, payloads: seq<Bytes>, pieces: seq<Bytes>)
    requires |salt| > 0 && derive(salt).Sound()
    requires Concat(pieces) == Wire(WriterState(salt, derive(salt), derive(salt).FirstNonce(), false), payloads)
    ensures Stable(ReaderStep(|salt|, derive))
    ensures var a := derive(salt);
      var chunks := AllChunks(payloads);
      var c := FeedAll(ReaderStep(|salt|, derive), Conf(AwaitSalt, [], [], false), pieces);
      && !c.halted && c.buffer == []
      && c.out == chunks && Concat(c.out) == Concat(payloads)
      && c.state == if chunks == [] then AwaitSalt else Ready(a, NonceAfter(a.FirstNonce(), 2 * |chunks|), 0)
  {
    ReaderStepStable(|salt|, derive);
    var p := ReaderStep(|salt|, derive);
    var k := EmptyPrefix(WriterState(salt, derive(salt), derive(salt).FirstNonce(), false), payloads);
    AnyCutting(p, Conf(AwaitSalt, [], [], false), pieces);
    assert [] + Concat(pieces) == Concat(pieces);
    DrainWire(derive, salt, payloads[k..]);
  }

  /** The writer's nonce after the same payloads: what makes the next block open as well. */
  lemma {:induction false} WriterNonce(w: WriterState, payloads: seq<Bytes>)
    ensures AfterAll(w, payloads).nonce == NonceAfter(w.nonce, 2 * |AllChunks(payloads)|)
    decreases |payloads|
  {
    if payloads != [] {
      WriterNonce(AfterSealing(w, payloads[0]), payloads[1..]);
      NonceAfterAdds(w.nonce, 2 * |Chunks(payloads[0])|, 2 * |AllChunks(payloads[1..])|);
    }
  }

  function AfterAll(w: WriterState, payloads: seq<Bytes>): WriterState
    decreases |payloads|
  {
    if payloads == [] then w else AfterAll(AfterSealing(w, payloads[0]), payloads[1..])
  }
}
