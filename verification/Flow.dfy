/**
 The window of unacknowledged data of a session: internal/proxy/common.go, and the messages that carry data from the
 inlet through the outlet's queue to the target and acknowledgements back (internal/proxy/context.go,
 internal/proxy/outlet.go, internal/proxy/inlet.go).
 */
module Flow {
  import opened ByteStrings

  const WINDOW: nat := 4 * 1024 * 1024
  const QUEUE_CAPACITY: nat := 1024

  datatype Controller = Controller(max: nat, inflight: nat, closed: bool)

  /** Blocked stands for a wait on the condition variable, after which the caller looks again. */
  datatype Grant = Granted | Blocked | Refused

  function Need(max: nat, size: nat): nat {
    if size > max then max else size
  }

  function Acquire(f: Controller, size: int): (Controller, Grant) {
    if size <= 0 then (f, Granted)
    else if f.closed then (f, Refused)
    else if f.inflight + Need(f.max, size) > f.max then (f, Blocked)
    else (f.(inflight := f.inflight + Need(f.max, size)), Granted)
  }

  function Release(f: Controller, size: int): Controller {
    if size <= 0 then f
    else if f.inflight < size then f.(inflight := 0)
    else f.(inflight := f.inflight - size)
  }

  class FlowController {
    const maxBytes: nat
    var inflight: int
    var closed: bool

    constructor (maxBytes: nat)
      ensures Valid() && View() == Controller(maxBytes, 0, false)
    {
      this.maxBytes := maxBytes;
      inflight, closed := 0, false;
    }

    ghost predicate Valid()
      reads this
    {
      inflight >= 0
    }

    ghost function View(): Controller
      requires Valid()
      reads this
    {
      Controller(maxBytes, inflight, closed)
    }

    /** One pass of Acquire under the lock. */
    method TryAcquire(size: int) returns (r: Grant)
      requires Valid()
      modifies this
      ensures Valid() && (View(), r) == Acquire(old(View()), size)
    {
      if size <= 0 {
        return Granted;
      }
      if closed {
        return Refused;
      }
      var need := size;
      if need > maxBytes {
        need := maxBytes;
      }
      if inflight + need > maxBytes {
        return Blocked;
      }
      inflight := inflight + need;
      r := Granted;
    }

    method ReleaseBytes(size: int)
      requires Valid()
      modifies this
      ensures Valid() && View() == Release(old(View()), size)
    {
      if size <= 0 {
        return;
      }
      inflight := inflight - size;
      if inflight < 0 {
        inflight := 0;
      }
    }

    method Close()
      requires Valid()
      modifies this
      ensures Valid() && View() == old(View()).(closed := true, inflight := 0)
    {
      closed := true;
      inflight := 0;
    }
  }

  // ---------------------------------------------------------------- what is held

  /** The window space of a list of outstanding acquires. */
  function Held(max: nat, out: seq<nat>): nat {
    if out == [] then 0 else Need(max, out[0]) + Held(max, out[1..])
  }

  lemma {:induction false} HeldSplit(max: nat, a: seq<nat>, b: seq<nat>)
    ensures Held(max, a + b) == Held(max, a) + Held(max, b)
  {
    if a == [] {
      assert a + b == b;
    } else {
      assert (a + b)[1..] == a[1..] + b;
      HeldSplit(max, a[1..], b);
    }
  }

  lemma HeldOne(max: nat, n: nat)
    ensures Held(max, [n]) == Need(max, n)
  {
    assert [n][1..] == [];
  }

  lemma {:induction false} HeldZero(max: nat, out: seq<nat>)
    requires max > 0 && Held(max, out) == 0
    ensures forall i :: 0 <= i < |out| ==> out[i] == 0
  {
    if out != [] {
      HeldZero(max, out[1..]);
    }
  }

  lemma {:induction false} HeldNothing(max: nat, out: seq<nat>)
    requires forall i :: 0 <= i < |out| ==> out[i] == 0
    ensures Held(max, out) == 0
  {
    if out != [] {
      HeldNothing(max, out[1..]);
    }
  }

  function Without(out: seq<nat>, i: nat): seq<nat>
    requires i < |out|
  {
    out[..i] + out[i + 1..]
  }

  lemma HeldWithout(max: nat, out: seq<nat>, i: nat)
    requires i < |out|
    ensures Held(max, out) == Held(max, Without(out, i)) + Need(max, out[i])
  {
    HeldSplit(max, out[..i], out[i + 1..]);
    HeldSplit(max, out[..i], [out[i]] + out[i + 1..]);
    HeldSplit(max, [out[i]], out[i + 1..]);
    HeldOne(max, out[i]);
    assert out == out[..i] + ([out[i]] + out[i + 1..]);
  }

  /** An acquire larger than the window is outstanding only alone, apart from acquires of nothing. */
  predicate OversizedAlone(max: nat, out: seq<nat>) {
    forall i, j :: 0 <= i < |out| && 0 <= j < |out| && i != j && out[i] > max ==> out[j] == 0
  }

  /** While open, inflight is exactly what the outstanding acquires hold, and it fits the window. */
  predicate Accounted(f: Controller, out: seq<nat>) {
    f.max > 0 && if f.closed then f.inflight == 0 else
      f.inflight == Held(f.max, out) <= f.max && OversizedAlone(f.max, out)
  }

  /** What an acquire does: nothing is free of charge, a closed window refuses, and it fits or has to wait. */
  lemma AcquireDecides(f: Controller, size: int)
    ensures var (g, r) := Acquire(f, size);
      var need := if size > f.max then f.max else size;
      && (r == Refused <==> size > 0 && f.closed)
      && (r == Granted <==> size <= 0 || (!f.closed && f.inflight + need <= f.max))
      && g == (if r == Granted && size > 0 then f.(inflight := f.inflight + need) else f)
  {
  }

  /** What a release does: it gives back what it names, never more than is out, and nothing for nothing. */
  lemma ReleaseDecides(f: Controller, size: int)
    ensures Release(f, size) == f.(inflight :=
      if size <= 0 then f.inflight else if size <= f.inflight then f.inflight - size else 0)
  {
  }

  datatype Event = AcquireOf(size: int) | ReleaseAt(index: nat) | CloseAll

  /** The controller together with its outstanding acquires; each is released once, with the size it asked for. */
  function Next(f: Controller, out: seq<nat>, e: Event): (Controller, seq<nat>) {
    match e
    case AcquireOf(size) =>
      var (g, r) := Acquire(f, size);
      if r == Granted && size > 0 then (g, out + [size]) else (g, out)
    case ReleaseAt(i) => if i < |out| then (Release(f, out[i]), Without(out, i)) else (f, out)
    case CloseAll => (f.(closed := true, inflight := 0), out)
  }

  function RunEvents(f: Controller, out: seq<nat>, es: seq<Event>): (Controller, seq<nat>)
    decreases |es|
  {
    if es == [] then (f, out) else var (g, o) := Next(f, out, es[0]); RunEvents(g, o, es[1..])
  }

  lemma AcquireKeepsAccounted(f: Controller, out: seq<nat>, size: nat)
    requires Accounted(f, out) && Acquire(f, size).1 == Granted && !f.closed
    ensures Accounted(Acquire(f, size).0, out + [size])
  {
    HeldSplit(f.max, out, [size]);
    HeldOne(f.max, size);
    if size > f.max {
      HeldZero(f.max, out);
    } else {
      forall i | 0 <= i < |out| && out[i] > f.max
        ensures size == 0
      {
        HeldWithout(f.max, out, i);
      }
    }
  }

  lemma ReleaseKeepsAccounted(f: Controller, out: seq<nat>, i: nat)
    requires Accounted(f, out) && i < |out|
    ensures Accounted(Release(f, out[i]), Without(out, i))
  {
    HeldWithout(f.max, out, i);
    if !f.closed && out[i] > f.max {
      forall j | 0 <= j < |Without(out, i)|
        ensures Without(out, i)[j] == 0
      {
        assert Without(out, i)[j] == if j < i then out[j] else out[j + 1];
      }
      HeldNothing(f.max, Without(out, i));
    }
  }

  /** Over every run, oversized acquires included, inflight is the sum of what is outstanding and fits the window. */
  lemma {:induction false} InflightIsWhatIsOutstanding(f: Controller, out: seq<nat>, es: seq<Event>)
    requires Accounted(f, out)
    ensures var (g, o) := RunEvents(f, out, es); Accounted(g, o) && g.max == f.max && g.inflight <= f.max
    decreases |es|
  {
    if es != [] {
      match es[0] {
        case AcquireOf(size) =>
          if Acquire(f, size).1 == Granted && size > 0 {
            AcquireKeepsAccounted(f, out, size);
          }
        case ReleaseAt(i) =>
          if i < |out| {
            ReleaseKeepsAccounted(f, out, i);
          }
        case CloseAll =>
      }
      var (g, o) := Next(f, out, es[0]);
      InflightIsWhatIsOutstanding(g, o, es[1..]);
    }
  }

  /** A waiter is stuck only while something is outstanding. */
  lemma NothingOutstandingGrants(f: Controller, out: seq<nat>, size: nat)
    requires Accounted(f, out) && !f.closed
    requires forall i :: 0 <= i < |out| ==> out[i] == 0
    ensures Acquire(f, size).1 == Granted
  {
    HeldNothing(f.max, out);
  }

  // ---------------------------------------------------------------- both ends of an open session

  /**
   One direction of an open TCP session. A message is encoded data; it is acquired for and then put out by the inlet
   (between the two it is staged), travels to the outlet, waits in the outlet session's queue, is taken out and
   written to the target, and its length travels back as the DataLen of an acknowledgement.
   */
  datatype Session = Session(
    window: Controller,
    staged: seq<Bytes>,
    link: seq<Bytes>,
    queue: seq<Bytes>,
    inHand: seq<Bytes>,
    acks: seq<nat>,
    open: bool,
    sent: seq<Bytes>,       // every message encoded so far
    written: seq<Bytes>,    // every message written to the target
    released: seq<nat>)     // every length released so far

  datatype Move =
    | Encode(data: Bytes)   // EncodeDataAndLimit got its window space
    | Output                // the message enters the link
    | Arrive                // Outlet.Input pushes it onto the session's queue
    | Take                  // the session's goroutine pops it
    | WriteDone             // the write succeeded and its hook put out the acknowledgement
    | Acknowledge           // Inlet.Input releases the acknowledged bytes
    | Lose                  // any failure: the session is torn down

  ghost function Lengths(ms: seq<Bytes>): (r: seq<nat>)
    ensures |r| == |ms|
  {
    seq(|ms|, i requires 0 <= i < |ms| => |ms[i]|)
  }

  /** Everything acquired and not yet released, oldest first. */
  ghost function Pending(s: Session): seq<nat> {
    s.acks + Lengths(s.inHand + s.queue + s.link + s.staged)
  }

  ghost function After(s: Session, m: Move): Session {
    if !s.open then s
    else
      match m
      case Encode(data) =>
        var (w, r) := Acquire(s.window, |data|);
        if r == Granted then s.(window := w, staged := s.staged + [data], sent := s.sent + [data]) else s
      case Output => if s.staged == [] then s else s.(staged := s.staged[1..], link := s.link + [s.staged[0]])
      case Arrive =>
        if s.link == [] then s
        else if |s.queue| >= QUEUE_CAPACITY then s.(open := false)
        else s.(link := s.link[1..], queue := s.queue + [s.link[0]])
      case Take =>
        if s.queue == [] || s.inHand != [] then s else s.(queue := s.queue[1..], inHand := [s.queue[0]])
      case WriteDone =>
        if s.inHand == [] then s
        else s.(inHand := s.inHand[1..], acks := s.acks + [|s.inHand[0]|], written := s.written + [s.inHand[0]])
      case Acknowledge =>
        if s.acks == [] then s
        else s.(window := Release(s.window, s.acks[0]), acks := s.acks[1..], released := s.released + [s.acks[0]])
      case Lose => s.(open := false)
  }

  ghost function Run(s: Session, ms: seq<Move>): Session
    decreases |ms|
  {
    if ms == [] then s else Run(After(s, ms[0]), ms[1..])
  }

  /**
   The accounting of an open session: the window's inflight is what the messages and acknowledgements under way hold;
   the target has been sent a prefix of what the inlet encoded; each byte is released once, in the order acquired.
   */
  ghost predicate Balanced(s: Session) {
    && !s.window.closed && Accounted(s.window, Pending(s))
    && s.sent == s.written + (s.inHand + s.queue + s.link + s.staged)
    && Lengths(s.written) == s.released + s.acks
    && |s.inHand| <= 1
  }

  lemma LengthsAppend(a: seq<Bytes>, b: seq<Bytes>)
    ensures Lengths(a + b) == Lengths(a) + Lengths(b)
  {
  }

  lemma EncodeKeepsBalanced(s: Session, data: Bytes)
    requires Balanced(s) && s.open
    ensures Balanced(After(s, Encode(data)))
  {
    var r := Acquire(s.window, |data|);
    if r.1 == Granted {
      var way := s.inHand + s.queue + s.link + s.staged;
      AcquireKeepsAccounted(s.window, Pending(s), |data|);
      LengthsAppend(way, [data]);
      assert s.inHand + s.queue + s.link + (s.staged + [data]) == way + [data];
      assert Pending(After(s, Encode(data))) == Pending(s) + [|data|];
      Assoc(s.written, way, [data]);
    }
  }

  lemma AcknowledgeKeepsBalanced(s: Session)
    requires Balanced(s) && s.open
    ensures Balanced(After(s, Acknowledge))
  {
    if s.acks != [] {
      ReleaseKeepsAccounted(s.window, Pending(s), 0);
      assert Without(Pending(s), 0) == Pending(After(s, Acknowledge));
      assert s.acks == [s.acks[0]] + s.acks[1..];
    }
  }

  /** The moves in between only pass messages on. */
  lemma PassingKeepsBalanced(s: Session, m: Move)
    requires Balanced(s) && s.open && (m.Output? || m.Arrive? || m.Take? || m.WriteDone?)
    ensures var t := After(s, m); t.open ==> Balanced(t)
  {
    var t := After(s, m);
    if t.open {
      match m
      case Output =>
        assert t.inHand + t.queue + t.link + t.staged == s.inHand + s.queue + s.link + s.staged;
      case Arrive =>
        assert t.inHand + t.queue + t.link + t.staged == s.inHand + s.queue + s.link + s.staged;
      case Take =>
        assert t.inHand + t.queue + t.link + t.staged == s.inHand + s.queue + s.link + s.staged;
      case WriteDone =>
        if s.inHand != [] {
          var way := t.queue + t.link + t.staged;
          assert s.inHand + s.queue + s.link + s.staged == [s.inHand[0]] + way;
          assert t.inHand + t.queue + t.link + t.staged == way;
          LengthsAppend([s.inHand[0]], way);
          assert Pending(t) == Pending(s);
          Assoc(s.written, [s.inHand[0]], way);
          LengthsAppend(s.written, [s.inHand[0]]);
        }
    }
  }

  /** In every run of an open session the window accounts for exactly the data and acknowledgements under way. */
  lemma {:induction false} OpenSessionBalanced(s: Session, ms: seq<Move>)
    requires s.open ==> Balanced(s)
    ensures Run(s, ms).open ==> Balanced(Run(s, ms))
    decreases |ms|
  {
    if ms != [] {
      if s.open {
        match ms[0]
        case Encode(data) => EncodeKeepsBalanced(s, data);
        case Acknowledge => AcknowledgeKeepsBalanced(s);
        case Lose =>
        case _ => PassingKeepsBalanced(s, ms[0]);
      }
      OpenSessionBalanced(After(s, ms[0]), ms[1..]);
    }
  }

  /** A message that finds the queue full ends the session, as does any failure; and then nothing moves. */
  lemma OverflowEnds(s: Session, m: Move)
    ensures s.open && s.link != [] && |s.queue| >= 1024 ==> !After(s, Arrive).open
    ensures s.open && |s.queue| < 1024 ==> After(s, Arrive).open
    ensures !After(s, Lose).open
    ensures !s.open ==> After(s, m) == s
  {
  }

  /** The move that is next for the oldest thing under way. */
  ghost function NextMove(s: Session): Move {
    if s.inHand != [] then WriteDone
    else if s.queue != [] then Take
    else if s.link != [] then Arrive
    else if s.staged != [] then Output
    else Acknowledge
  }

  ghost function StillToGo(s: Session): nat {
    5 * |s.staged| + 4 * |s.link| + 3 * |s.queue| + 2 * |s.inHand| + |s.acks|
  }

  lemma GoesOn(s: Session)
    requires Balanced(s) && s.open && StillToGo(s) > 0
    ensures var r := After(s, NextMove(s)); r.open && r.sent == s.sent && StillToGo(r) == StillToGo(s) - 1
  {
  }

  /**
   Nothing under way is ever lost to an open session: left to itself it can deliver everything that was encoded, after
   which the window is free again.
   */
  lemma {:induction false} Delivers(s: Session) returns (ms: seq<Move>)
    requires Balanced(s) && s.open
    ensures |ms| == StillToGo(s)
    ensures var r := Run(s, ms);
      r.open && r.written == s.sent && r.released == Lengths(s.sent) && r.window.inflight == 0
    decreases StillToGo(s)
  {
    if StillToGo(s) == 0 {
      assert Pending(s) == [];
      assert s.written + (s.inHand + s.queue + s.link + s.staged) == s.written;
      assert s.released + s.acks == s.released;
      return [];
    }
    var m := NextMove(s);
    GoesOn(s);
    if m.Acknowledge? {
      AcknowledgeKeepsBalanced(s);
    } else {
      PassingKeepsBalanced(s, m);
    }
    var later := Delivers(After(s, m));
    ms := [m] + later;
    assert ms[1..] == later;
  }

  function Sum(ns: seq<nat>): nat {
    if ns == [] then 0 else ns[0] + Sum(ns[1..])
  }

  lemma {:induction false} HeldIsSum(max: nat, out: seq<nat>)
    requires forall i :: 0 <= i < |out| ==> out[i] <= max
    ensures Held(max, out) == Sum(out)
  {
    if out != [] {
      HeldIsSum(max, out[1..]);
    }
  }

  lemma {:induction false} MaxHeld(max: nat, out: seq<nat>, i: nat)
    requires i < |out|
    ensures Need(max, out[i]) <= Held(max, out)
  {
    HeldWithout(max, out, i);
  }

  /** This one exceeds the window, and nothing else that is outstanding has any length. */
  predicate IsAloneOversized(out: seq<nat>, i: nat)
    requires i < |out|
  {
    out[i] > WINDOW && forall j :: 0 <= j < |out| && j != i ==> out[j] == 0
  }

  /**
   From a fresh session on: inflight never exceeds the 4 MiB window and is the plain sum of the bytes under way, except
   for a single message above the window, which is then alone; what reaches the target is what was encoded, in order.
   */
  lemma UnacknowledgedFitsTheWindow(ms: seq<Move>)
    ensures var s := Run(Session(Controller(WINDOW, 0, false), [], [], [], [], [], true, [], [], []), ms);
      s.open ==>
        && s.window.inflight <= WINDOW
        && s.written <= s.sent
        && (|| Sum(Pending(s)) == s.window.inflight
            || (s.window.inflight == WINDOW && exists i :: 0 <= i < |Pending(s)| && IsAloneOversized(Pending(s), i)))
  {
    var start := Session(Controller(WINDOW, 0, false), [], [], [], [], [], true, [], [], []);
    assert Pending(start) == [];
    OpenSessionBalanced(start, ms);
    RunKeepsMax(start, ms);
    var s := Run(start, ms);
    if s.open {
      var p := Pending(s);
      if i :| 0 <= i < |p| && p[i] > WINDOW {
        MaxHeld(WINDOW, p, i);
        assert IsAloneOversized(p, i);
      } else {
        HeldIsSum(WINDOW, p);
      }
    }
  }

  lemma {:induction false} RunKeepsMax(s: Session, ms: seq<Move>)
    ensures Run(s, ms).window.max == s.window.max
    decreases |ms|
  {
    if ms != [] {
      RunKeepsMax(After(s, ms[0]), ms[1..]);
    }
  }
}
