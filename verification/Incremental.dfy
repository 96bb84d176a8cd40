/**
 Parsers that consume a stream as it arrives.

 The Shadowsocks reader, the SOCKS5 handshake and the control-frame reader are all loops of one shape: append the
 new bytes to a buffer, then take steps until a step needs bytes that have not arrived. This module proves once that
 such a loop gives the same result however the stream is cut; each parser then only shows that its step is Stable.
 */
module Incremental {
  import opened ByteStrings

  /** What one step does with a state and the bytes buffered so far. */
  datatype Step<S, O> =
    | Wait                                        // more bytes are needed
    | Halt(end: S, last: seq<O>)                  // the stream is over; later bytes are ignored
    | Advance(used: nat, next: S, out: seq<O>)    // consume a prefix of the buffer

  type Parser<!S, !O> = (S, Bytes) -> Step<S, O>

  /** A step that does something never changes its mind when more bytes follow, and it consumes something. */
  ghost predicate Stable<S(!new), O(!new)>(p: Parser<S, O>) {
    forall s: S, b: Bytes, more: Bytes :: StableAt(p, s, b, more)
  }

  ghost predicate StableAt<S, O>(p: Parser<S, O>, s: S, b: Bytes, more: Bytes) {
    p(s, b) != Wait ==>
      && p(s, b + more) == p(s, b)
      && (p(s, b).Advance? ==> 0 < p(s, b).used <= |b|)
  }

  /** A parser between two reads: its state, the bytes kept, everything it has put out. */
  datatype Conf<S, O> = Conf(state: S, buffer: Bytes, out: seq<O>, halted: bool)

  lemma StableUsed<S(!new), O(!new)>(p: Parser<S, O>, s: S, b: Bytes)
    requires Stable(p)
    ensures p(s, b).Advance? ==> 0 < p(s, b).used <= |b|
  {
    assert StableAt(p, s, b, []);
  }

  /** The loop of the source: step until a step waits. */
  ghost function Drain<S(!new), O(!new)>(p: Parser<S, O>, s: S, b: Bytes, out: seq<O>): (c: Conf<S, O>)
    requires Stable(p)
    ensures !c.halted ==> p(c.state, c.buffer) == Wait
    decreases |b|
  {
    StableUsed(p, s, b);
    match p(s, b)
    case Wait => Conf(s, b, out, false)
    case Halt(t, last) => Conf(t, [], out + last, true)
    case Advance(n, t, o) => Drain(p, t, b[n..], out + o)
  }

  lemma DrainAdvance<S(!new), O(!new)>(p: Parser<S, O>, s: S, b: Bytes, out: seq<O>)
    requires Stable(p) && p(s, b).Advance?
    ensures p(s, b).used <= |b|
    ensures Drain(p, s, b, out) == Drain(p, p(s, b).next, b[p(s, b).used..], out + p(s, b).out)
  {
    StableUsed(p, s, b);
  }

  /** One unfolding of Drain, whatever the step does. */
  lemma DrainOne<S(!new), O(!new)>(p: Parser<S, O>, s: S, b: Bytes, out: seq<O>)
    requires Stable(p)
    ensures p(s, b).Wait? ==> Drain(p, s, b, out) == Conf(s, b, out, false)
    ensures p(s, b).Halt? ==> Drain(p, s, b, out) == Conf(p(s, b).end, [], out + p(s, b).last, true)
    ensures p(s, b).Advance? ==>
      && p(s, b).used <= |b|
      && Drain(p, s, b, out) == Drain(p, p(s, b).next, b[p(s, b).used..], out + p(s, b).out)
  {
    StableUsed(p, s, b);
  }

  /** One read: append, then drain. */
  ghost function Feed<S(!new), O(!new)>(p: Parser<S, O>, c: Conf<S, O>, data: Bytes): (r: Conf<S, O>)
    requires Stable(p)
    ensures r.halted || p(r.state, r.buffer) == Wait
  {
    if c.halted then c else Drain(p, c.state, c.buffer + data, c.out)
  }

  ghost function FeedAll<S(!new), O(!new)>(p: Parser<S, O>, c: Conf<S, O>, pieces: seq<Bytes>): Conf<S, O>
    requires Stable(p)
    decreases |pieces|
  {
    if pieces == [] then c else FeedAll(p, Feed(p, c, pieces[0]), pieces[1..])
  }

  /** Draining a prefix first and then the rest is the same as draining everything at once. */
  lemma {:induction false} DrainSplit<S(!new), O(!new)>(p: Parser<S, O>, s: S, b: Bytes, more: Bytes, out: seq<O>)
    requires Stable(p)
    ensures Drain(p, s, b + more, out) == Feed(p, Drain(p, s, b, out), more)
    decreases |b|
  {
    StableUsed(p, s, b);
    match p(s, b)
    case Wait =>
    case Halt(_, last) =>
      assert StableAt(p, s, b, more);
    case Advance(n, t, o) =>
      assert StableAt(p, s, b, more);
      assert (b + more)[n..] == b[n..] + more;
      DrainSplit(p, t, b[n..], more, out + o);
  }

  /** The result of a run depends on the bytes that arrived, not on how they were cut. */
  lemma {:induction false} AnyCutting<S(!new), O(!new)>(p: Parser<S, O>, c: Conf<S, O>, pieces: seq<Bytes>)
    requires Stable(p)
    requires c.halted || p(c.state, c.buffer) == Wait
    ensures FeedAll(p, c, pieces) == Feed(p, c, Concat(pieces))
    decreases |pieces|
  {
    if pieces == [] {
      assert c.buffer + [] == c.buffer;
    } else {
      var first := Feed(p, c, pieces[0]);
      AnyCutting(p, first, pieces[1..]);
      if !c.halted {
        DrainSplit(p, c.state, c.buffer + pieces[0], Concat(pieces[1..]), c.out);
        assert c.buffer + pieces[0] + Concat(pieces[1..]) == c.buffer + Concat(pieces);
      }
    }
  }

  /** What was put out before is only ever extended. */
  lemma {:induction false} DrainExtends<S(!new), O(!new)>(p: Parser<S, O>, s: S, b: Bytes, out: seq<O>)
    requires Stable(p)
    ensures Drain(p, s, b, out) == var d := Drain(p, s, b, []); d.(out := out + d.out)
    decreases |b|
  {
    StableUsed(p, s, b);
    match p(s, b)
    case Wait => assert out + [] == out;
    case Halt(_, last) => assert [] + last == last;
    case Advance(n, t, o) =>
      DrainExtends(p, t, b[n..], out + o);
      DrainExtends(p, t, b[n..], [] + o);
      var d := Drain(p, t, b[n..], []);
      assert out + o + d.out == out + ([] + o + d.out);
  }

  /** A halted parser ignores everything that still arrives. */
  lemma {:induction false} HaltedStays<S(!new), O(!new)>(p: Parser<S, O>, c: Conf<S, O>, pieces: seq<Bytes>)
    requires Stable(p) && c.halted
    ensures FeedAll(p, c, pieces) == c
  {
    if pieces != [] {
      HaltedStays(p, c, pieces[1..]);
    }
  }
}
