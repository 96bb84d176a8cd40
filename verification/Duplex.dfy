/**
 Both directions of an open TCP session at once, as far as one can keep the other waiting: internal/proxy/inlet.go and
 internal/proxy/outlet.go over the windows of internal/proxy/common.go.

 The inlet handles what the peer sends and what the outlet sends under one mutex per session, and it holds that mutex
 while it waits for window space and while it writes to the peer. The outlet has no such mutex. Each end keeps what
 arrives in a queue of limited capacity; a message that finds it full closes the session. The peer is taken to read all
 the time. A polite target reads only while it is not kept waiting with what it sends, as a program does that
 copies what it reads; any other target reads all the time.
 */
module Duplex {
  import opened ByteStrings
  import Flow

  datatype Way = ToOutlet | ToInlet

  /**
   One direction: what its reader has read and wants window space for, the lengths on the way, those in the queue of
   the other end, the one that has been taken from it and whether it is being written already, and the
   acknowledgements on their way back.
   */
  datatype Half = Half(
    window: Flow.Controller,
    asking: Option<nat>,
    sent: seq<nat>,
    queue: seq<nat>,
    inHand: Option<nat>,
    writing: bool,
    acks: seq<nat>)

  datatype Link = Link(toOutlet: Half, toInlet: Half, open: bool) {
    function Of(w: Way): Half {
      if w.ToOutlet? then toOutlet else toInlet
    }

    function With(w: Way, h: Half): Link {
      if w.ToOutlet? then this.(toOutlet := h) else this.(toInlet := h)
    }
  }

  datatype Step =
    | Read(way: Way, size: nat)   // data arrives, and its reader asks for window space
    | Grant(way: Way)             // the space is there: the message is put out
    | Arrive(way: Way)            // the other end pushes the oldest of them onto its queue
    | Take(way: Way)              // it pops the oldest message
    | Write(way: Way)             // it starts to write that message, the inlet once it has the mutex
    | Written(way: Way)           // the write is done and acknowledged
    | Acknowledge(way: Way)       // the acknowledgement arrives and gives the space back

  const FRESH := Half(Flow.Controller(Flow.WINDOW, 0, false), None, [], [], None, false, [])
  const OPENED := Link(FRESH, FRESH, true)

  /** The inlet's mutex is held: by the reader that waits, or by the writer that writes. */
  predicate Locked(x: Link) {
    x.toOutlet.asking.Some? || x.toInlet.writing
  }

  predicate Enabled(polite: bool, x: Link, e: Step) {
    x.open && Possible(polite, x, e)
  }

  predicate Possible(polite: bool, x: Link, e: Step) {
    var h := x.Of(e.way);
    match e
    case Read(way, size) => size > 0 && h.asking.None? && (way.ToOutlet? ==> !Locked(x))
    case Grant(_) => h.asking.Some? && Flow.Acquire(h.window, h.asking.value).1 == Flow.Granted
    case Arrive(_) => h.sent != []
    case Take(_) => h.inHand.None? && h.queue != []
    case Write(way) => h.inHand.Some? && !h.writing && (way.ToInlet? ==> !Locked(x))
    case Written(way) => h.writing && (way.ToOutlet? && polite ==> x.toInlet.asking.None?)
    case Acknowledge(_) => h.acks != []
  }

  function After(h: Half, e: Step): Half {
    match e
    case Read(_, size) => h.(asking := Some(size))
    case Grant(_) =>
      if h.asking.None? then h
      else h.(window := Flow.Acquire(h.window, h.asking.value).0, asking := None, sent := h.sent + [h.asking.value])
    case Arrive(_) => if h.sent == [] then h else h.(sent := h.sent[1..], queue := h.queue + [h.sent[0]])
    case Take(_) => if h.queue == [] then h else h.(inHand := Some(h.queue[0]), queue := h.queue[1..])
    case Write(_) => h.(writing := true)
    case Written(_) =>
      if h.inHand.None? then h else h.(inHand := None, writing := false, acks := h.acks + [h.inHand.value])
    case Acknowledge(_) =>
      if h.acks == [] then h else h.(window := Flow.Release(h.window, h.acks[0]), acks := h.acks[1..])
  }

  predicate FindsQueueFull(x: Link, e: Step) {
    e.Arrive? && |x.Of(e.way).queue| >= Flow.QUEUE_CAPACITY
  }

  function Next(polite: bool, x: Link, e: Step): Link {
    if !Enabled(polite, x, e) then x
    else if FindsQueueFull(x, e) then x.(open := false)
    else x.With(e.way, After(x.Of(e.way), e))
  }

  function Run(polite: bool, x: Link, es: seq<Step>): Link
    decreases |es|
  {
    if es == [] then x else Run(polite, Next(polite, x, es[0]), es[1..])
  }

  /** A message that finds the queue of the other end full closes the session, and then nothing moves. */
  lemma OverflowCloses(polite: bool, x: Link, way: Way, e: Step)
    ensures x.open && x.Of(way).sent != [] ==>
      (Next(polite, x, Arrive(way)).open <==> |x.Of(way).queue| < 1024)
    ensures !x.open ==> Next(polite, x, e) == x
  {
  }

  // ---------------------------------------------------------------- the accounting of each direction

  function InHand(h: Half): seq<nat> {
    if h.inHand.Some? then [h.inHand.value] else []
  }

  /** Everything that holds window space, oldest first. */
  function Holding(h: Half): seq<nat> {
    h.acks + (InHand(h) + (h.queue + h.sent))
  }

  ghost predicate HalfSound(h: Half) {
    && !h.window.closed && Flow.Accounted(h.window, Holding(h))
    && |h.queue| <= Flow.QUEUE_CAPACITY && (h.asking.Some? ==> h.asking.value > 0) && (h.writing ==> h.inHand.Some?)
    && (forall i :: 0 <= i < |Holding(h)| ==> Holding(h)[i] > 0)
  }

  ghost predicate Sound(x: Link) {
    HalfSound(x.toOutlet) && HalfSound(x.toInlet) && !(x.toOutlet.asking.Some? && x.toInlet.writing)
  }

  /** Everything its reader has read and not seen acknowledged, oldest first. */
  function Pipeline(h: Half): seq<nat> {
    Holding(h) + (if h.asking.Some? then [h.asking.value] else [])
  }

  /** A step that can be taken changes something. */
  lemma EnabledMoves(polite: bool, x: Link, e: Step)
    requires Sound(x) && Enabled(polite, x, e)
    ensures Next(polite, x, e) != x
    ensures e.Written? ==> !Next(polite, x, e).Of(e.way).writing
  {
    if e.Acknowledge? {
      assert |After(x.Of(e.way), e).acks| < |x.Of(e.way).acks|;
    } else if e.Arrive? {
      assert |After(x.Of(e.way), e).sent| < |x.Of(e.way).sent|;
    } else if e.Take? {
      assert |After(x.Of(e.way), e).queue| < |x.Of(e.way).queue|;
    }
  }

  lemma GrantKeepsSound(h: Half)
    requires HalfSound(h) && h.asking.Some? && Flow.Acquire(h.window, h.asking.value).1 == Flow.Granted
    ensures HalfSound(After(h, Grant(ToOutlet)))
  {
    Flow.AcquireKeepsAccounted(h.window, Holding(h), h.asking.value);
    assert Holding(After(h, Grant(ToOutlet))) == Holding(h) + [h.asking.value];
  }

  lemma AcknowledgeKeepsSound(h: Half)
    requires HalfSound(h) && h.acks != []
    ensures HalfSound(After(h, Acknowledge(ToOutlet)))
  {
    Flow.ReleaseKeepsAccounted(h.window, Holding(h), 0);
    assert Holding(After(h, Acknowledge(ToOutlet))) == Flow.Without(Holding(h), 0);
  }

  lemma ArriveKeepsHolding(h: Half)
    requires h.sent != []
    ensures Holding(After(h, Arrive(ToOutlet))) == Holding(h)
  {
    assert h.sent == [h.sent[0]] + h.sent[1..];
    Assoc(h.queue, [h.sent[0]], h.sent[1..]);
  }

  lemma TakeKeepsHolding(h: Half)
    requires h.queue != [] && h.inHand.None?
    ensures Holding(After(h, Take(ToOutlet))) == Holding(h)
  {
    assert h.queue == [h.queue[0]] + h.queue[1..];
  }

  lemma WrittenKeepsHolding(h: Half)
    ensures Holding(After(h, Written(ToOutlet))) == Holding(h)
  {
  }

  /** What a step makes of the row: a read joins at the end, an acknowledgement leaves at the front. */
  function RowAfter(row: seq<nat>, e: Step): seq<nat> {
    match e
    case Read(_, size) => row + [size]
    case Acknowledge(_) => if row == [] then row else row[1..]
    case _ => row
  }

  lemma PassingKeepsRow(h: Half, e: Step)
    requires (e.Arrive? && h.sent != []) || (e.Take? && h.inHand.None? && h.queue != []) || e.Write? || e.Written?
    ensures Pipeline(After(h, e)) == Pipeline(h)
  {
    match e
    case Arrive(_) => ArriveKeepsHolding(h);
    case Take(_) => TakeKeepsHolding(h);
    case _ =>
  }

  lemma AskingKeepsRow(h: Half, e: Step)
    requires (e.Read? && h.asking.None?) || (e.Grant? && h.asking.Some?) || (e.Acknowledge? && h.acks != [])
    ensures Pipeline(After(h, e)) == RowAfter(Pipeline(h), e)
  {
    if e.Grant? {
      assert Holding(After(h, e)) == Holding(h) + [h.asking.value];
    } else if e.Read? {
      assert Holding(After(h, e)) == Holding(h);
      assert Holding(h) + [] == Holding(h);
    } else {
      assert Pipeline(After(h, e)) == Pipeline(h)[1..];
    }
  }

  /** Nothing is lost, doubled or overtaken on the way of either direction, while the session is open. */
  lemma NothingLost(polite: bool, x: Link, e: Step)
    requires Enabled(polite, x, e) && !FindsQueueFull(x, e)
    ensures var h, r := x.Of(e.way), Next(polite, x, e);
      r.open && Pipeline(r.Of(e.way)) == RowAfter(Pipeline(h), e) && r == x.With(e.way, r.Of(e.way))
  {
    var h := x.Of(e.way);
    if e.Read? || e.Grant? || e.Acknowledge? {
      AskingKeepsRow(h, e);
    } else {
      PassingKeepsRow(h, e);
    }
  }

  lemma AfterKeepsSound(h: Half, e: Step)
    requires HalfSound(h)
    requires e.Read? ==> e.size > 0
    requires e.Grant? ==> h.asking.Some? && Flow.Acquire(h.window, h.asking.value).1 == Flow.Granted
    requires e.Arrive? ==> |h.queue| < Flow.QUEUE_CAPACITY
    requires (e.Take? ==> h.inHand.None?) && (e.Write? ==> h.inHand.Some?)
    ensures HalfSound(After(h, e))
  {
    match e
    case Read(_, _) => assert Holding(After(h, e)) == Holding(h);
    case Grant(_) => GrantKeepsSound(h);
    case Arrive(_) =>
      if h.sent != [] {
        ArriveKeepsHolding(h);
      }
    case Take(_) =>
      if h.queue != [] {
        TakeKeepsHolding(h);
      }
    case Write(_) => assert Holding(After(h, e)) == Holding(h);
    case Written(_) => WrittenKeepsHolding(h);
    case Acknowledge(_) =>
      if h.acks != [] {
        AcknowledgeKeepsSound(h);
      }
  }

  lemma NextKeepsSound(polite: bool, x: Link, e: Step)
    requires Sound(x)
    ensures Sound(Next(polite, x, e))
  {
    if Enabled(polite, x, e) && !FindsQueueFull(x, e) {
      AfterKeepsSound(x.Of(e.way), e);
    }
  }

  lemma {:induction false} RunKeepsSound(polite: bool, x: Link, es: seq<Step>)
    requires Sound(x)
    ensures Sound(Run(polite, x, es))
    decreases |es|
  {
    if es != [] {
      NextKeepsSound(polite, x, es[0]);
      RunKeepsSound(polite, Next(polite, x, es[0]), es[1..]);
    }
  }

  // ---------------------------------------------------------------- when nothing can go on

  /** Nothing is under way in either direction. */
  predicate Drained(x: Link) {
    x.toOutlet.asking.None? && Holding(x.toOutlet) == [] && x.toInlet.asking.None? && Holding(x.toInlet) == []
  }

  /** Something is under way in an open session, and no step but the arrival of more data is possible. */
  ghost predicate Stuck(polite: bool, x: Link) {
    x.open && !Drained(x) && forall e: Step :: Enabled(polite, x, e) ==> e.Read?
  }

  /**
   Both windows are full, and both readers wait for space; the inlet's does so with the mutex in its hand. All that was
   sent has arrived, in queues that had room for it.
   */
  predicate FullBothWays(x: Link) {
    && x.toOutlet.asking.Some? && Flow.Acquire(x.toOutlet.window, x.toOutlet.asking.value).1 != Flow.Granted
    && x.toInlet.asking.Some? && Flow.Acquire(x.toInlet.window, x.toInlet.asking.value).1 != Flow.Granted
    && x.toOutlet.acks == [] && x.toInlet.acks == [] && x.toOutlet.sent == [] && x.toInlet.sent == []
    && x.toOutlet.writing && x.toInlet.inHand.Some? && x.open
  }

  lemma WaitingMeansHolding(h: Half)
    requires HalfSound(h) && h.asking.Some? && Flow.Acquire(h.window, h.asking.value).1 != Flow.Granted
    ensures Holding(h) != []
  {
    if Holding(h) == [] {
      Flow.NothingOutstandingGrants(h.window, [], h.asking.value);
    }
  }

  /**
   A session gets stuck exactly when its target is polite and both windows are full at once with both readers waiting:
   the inlet cannot write what the target sent, because its reader waits for space with the mutex in its hand, and the
   target does not read, because it is kept waiting with what it sends. With a target that reads on its own the session
   always goes on.
   */
  lemma StuckIff(polite: bool, x: Link)
    requires Sound(x)
    ensures Stuck(polite, x) <==> polite && FullBothWays(x)
  {
    if Stuck(polite, x) {
      StuckMeansFull(polite, x);
    } else if polite && FullBothWays(x) {
      FullMeansStuck(x);
    }
  }

  lemma StuckMeansFull(polite: bool, x: Link)
    requires Sound(x) && Stuck(polite, x)
    ensures polite && FullBothWays(x)
  {
    var a, b := x.toOutlet, x.toInlet;
    assert !Enabled(polite, x, Acknowledge(ToOutlet)) && !Enabled(polite, x, Acknowledge(ToInlet));
    assert !Enabled(polite, x, Write(ToInlet)) && !Enabled(polite, x, Write(ToOutlet));
    assert !Enabled(polite, x, Written(ToInlet)) && !Enabled(polite, x, Take(ToInlet));
    assert !Enabled(polite, x, Arrive(ToOutlet)) && !Enabled(polite, x, Arrive(ToInlet));
    assert !Enabled(polite, x, Grant(ToOutlet)) && !Enabled(polite, x, Grant(ToInlet));
    assert !Enabled(polite, x, Written(ToOutlet)) && !Enabled(polite, x, Take(ToOutlet));
    if b.asking.Some? {
      WaitingMeansHolding(b);
    }
    if a.asking.Some? {
      WaitingMeansHolding(a);
    }
  }

  lemma FullMeansStuck(x: Link)
    requires Sound(x) && FullBothWays(x)
    ensures Stuck(true, x)
  {
    forall e: Step | Enabled(true, x, e)
      ensures e.Read?
    {
    }
  }

  // ---------------------------------------------------------------- a run that gets stuck

  /** What one read of a socket brings at most. */
  const READ_SIZE := 65535

  function Filling(way: Way, n: nat): seq<Step> {
    if n == 0 then [] else [Read(way, READ_SIZE)] + ([Grant(way)] + ([Arrive(way)] + Filling(way, n - 1)))
  }

  function Fill(h: Half): Half {
    h.(window := h.window.(inflight := h.window.inflight + READ_SIZE), queue := h.queue + [READ_SIZE])
  }

  function Filled(h: Half, n: nat): Half
    decreases n
  {
    if n == 0 then h else Filled(Fill(h), n - 1)
  }

  lemma {:induction false} FilledHolds(h: Half, n: nat)
    ensures var r := Filled(h, n);
      && r.window == h.window.(inflight := h.window.inflight + n * READ_SIZE)
      && r.(window := h.window, queue := h.queue) == h && |r.queue| == |h.queue| + n
    decreases n
  {
    if n != 0 {
      FilledHolds(Fill(h), n - 1);
    }
  }

  lemma RunOne(polite: bool, x: Link, e: Step, es: seq<Step>)
    ensures Run(polite, x, [e] + es) == Run(polite, Next(polite, x, e), es)
  {
    assert ([e] + es)[1..] == es;
  }

  lemma RunThree(polite: bool, x: Link, a: Step, b: Step, c: Step, es: seq<Step>)
    ensures Run(polite, x, [a] + ([b] + ([c] + es)))
         == Run(polite, Next(polite, Next(polite, Next(polite, x, a), b), c), es)
  {
    RunOne(polite, x, a, [b] + ([c] + es));
    RunOne(polite, Next(polite, x, a), b, [c] + es);
    RunOne(polite, Next(polite, Next(polite, x, a), b), c, es);
  }

  /** A full-size read, when there is room for it in window and queue. */
  lemma OneFills(polite: bool, x: Link, way: Way)
    requires x.open && x.Of(way).asking.None? && !x.Of(way).window.closed && (way.ToOutlet? ==> !Locked(x))
    requires x.Of(way).sent == [] && |x.Of(way).queue| < Flow.QUEUE_CAPACITY
    requires x.Of(way).window.max == Flow.WINDOW && x.Of(way).window.inflight + READ_SIZE <= Flow.WINDOW
    ensures Next(polite, Next(polite, Next(polite, x, Read(way, READ_SIZE)), Grant(way)), Arrive(way))
         == x.With(way, Fill(x.Of(way)))
  {
    var y := Next(polite, Next(polite, x, Read(way, READ_SIZE)), Grant(way));
    assert y.Of(way).sent == [] + [READ_SIZE] && y.Of(way).queue == x.Of(way).queue;
  }

  lemma {:induction false} FillingFills(polite: bool, x: Link, way: Way, n: nat, es: seq<Step>)
    requires x.open && x.Of(way).asking.None? && !x.Of(way).window.closed && (way.ToOutlet? ==> !Locked(x))
    requires x.Of(way).sent == [] && |x.Of(way).queue| + n <= Flow.QUEUE_CAPACITY
    requires x.Of(way).window.max == Flow.WINDOW && x.Of(way).window.inflight + n * READ_SIZE <= Flow.WINDOW
    ensures Run(polite, x, Filling(way, n) + es) == Run(polite, x.With(way, Filled(x.Of(way), n)), es)
    decreases n
  {
    if n == 0 {
      assert Filling(way, n) + es == es;
    } else {
      var rest := Filling(way, n - 1) + es;
      var z := x.With(way, Fill(x.Of(way)));
      assert Filling(way, n) + es == [Read(way, READ_SIZE)] + ([Grant(way)] + ([Arrive(way)] + rest));
      RunThree(polite, x, Read(way, READ_SIZE), Grant(way), Arrive(way), rest);
      OneFills(polite, x, way);
      FillingFills(polite, z, way, n - 1, es);
    }
  }

  function Ending(): seq<Step> {
    [Take(ToOutlet)] + ([Write(ToOutlet)] + ([Take(ToInlet)] + Waiting()))
  }

  function Waiting(): seq<Step> {
    [Read(ToOutlet, READ_SIZE)] + ([Read(ToInlet, READ_SIZE)] + [])
  }

  lemma FillsBothWays(es: seq<Step>)
    ensures Run(true, OPENED, Filling(ToOutlet, 64) + (Filling(ToInlet, 64) + es))
         == Run(true, Link(Filled(FRESH, 64), Filled(FRESH, 64), true), es)
  {
    FillingFills(true, OPENED, ToOutlet, 64, Filling(ToInlet, 64) + es);
    var a := OPENED.With(ToOutlet, Filled(FRESH, 64));
    FilledHolds(FRESH, 64);
    FillingFills(true, a, ToInlet, 64, es);
  }

  /** Peer and target each send a window full and a little more before the peer's data has been written. */
  lemma PoliteSessionGetsStuck()
    ensures var x := Run(true, OPENED, Filling(ToOutlet, 64) + (Filling(ToInlet, 64) + Ending()));
      Sound(x) && Stuck(true, x)
  {
    var all := Filling(ToOutlet, 64) + (Filling(ToInlet, 64) + Ending());
    assert Holding(FRESH) == [];
    RunKeepsSound(true, OPENED, all);
    FillsBothWays(Ending());
    EndsFull(Link(Filled(FRESH, 64), Filled(FRESH, 64), true));
    FullMeansStuck(Run(true, OPENED, all));
  }

  lemma EndsFull(x: Link)
    requires x.open && forall way: Way :: x.Of(way) == Filled(FRESH, 64)
    ensures FullBothWays(Run(true, x, Ending()))
  {
    FilledHolds(FRESH, 64);
    assert x.Of(ToOutlet) == x.toOutlet && x.Of(ToInlet) == x.toInlet;
    RunThree(true, x, Take(ToOutlet), Write(ToOutlet), Take(ToInlet), Waiting());
    Taken(x);
    var y := Link(InWriting(x.toOutlet, true), InWriting(x.toInlet, false), true);
    RunOne(true, y, Read(ToOutlet, READ_SIZE), [Read(ToInlet, READ_SIZE)] + []);
    RunOne(true, Next(true, y, Read(ToOutlet, READ_SIZE)), Read(ToInlet, READ_SIZE), []);
  }

  function InWriting(h: Half, begun: bool): Half
    requires h.queue != []
  {
    h.(inHand := Some(h.queue[0]), queue := h.queue[1..], writing := begun)
  }

  predicate Idle(h: Half) {
    h.inHand.None? && !h.writing && h.queue != []
  }

  lemma Taken(x: Link)
    requires x.open && Idle(x.toOutlet) && Idle(x.toInlet)
    ensures Next(true, Next(true, Next(true, x, Take(ToOutlet)), Write(ToOutlet)), Take(ToInlet))
         == Link(InWriting(x.toOutlet, true), InWriting(x.toInlet, false), true)
  {
  }
}
