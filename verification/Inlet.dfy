/**
 Session slots, session ids and UDP peers of an inlet: internal/proxy/inlet.go.

 The buffered channel of slots is the number of slots taken. Nothing locks the two looks at the stop signal and the send
 on that channel between them, so each is a step. A looker is a goroutine between its first look and the send, a
 reservation one between the send and the moment its slot belongs to a session; a session removed from the table keeps
 its slot until it is shut down.
 */
module Inlet {
  import opened ByteStrings

  const MAX_SESSIONS: nat := 4096

  type Id = nat
  type Object = nat      // the identity of a session object
  type PeerKey = string

  datatype Entry = Entry(item: Object, peerKey: Option<PeerKey>)

  datatype Tables = Tables(
    sessions: map<Id, Entry>,
    udpPeers: map<PeerKey, Id>,
    slots: nat,
    stopSignalled: bool,
    stopped: bool)

  datatype Reserved = Taken | Full | Stopping

  predicate HasRoom(t: Tables) {
    t.slots < MAX_SESSIONS
  }

  /** The send on the channel of slots, which does not look at the stop signal. */
  function TakeSlot(t: Tables): Tables {
    if HasRoom(t) then t.(slots := t.slots + 1) else t
  }

  function ReleaseSlot(t: Tables): Tables {
    if t.slots > 0 then t.(slots := t.slots - 1) else t
  }

  function Register(t: Tables, id: Id, e: Entry): (Tables, bool) {
    if t.stopped || id in t.sessions then (t, false)
    else
      (t.(sessions := t.sessions[id := e],
          udpPeers := if e.peerKey.Some? then t.udpPeers[e.peerKey.value := id] else t.udpPeers), true)
  }

  function Removed(t: Tables, id: Id): Tables {
    if id !in t.sessions then t
    else
      var key := t.sessions[id].peerKey;
      t.(sessions := t.sessions - {id},
         udpPeers := if key.Some? && key.value in t.udpPeers && t.udpPeers[key.value] == id
                     then t.udpPeers - {key.value} else t.udpPeers)
  }

  class InletTables {
    var sessions: map<Id, Entry>
    var udpPeers: map<PeerKey, Id>
    var slots: nat
    var stopSignalled: bool
    var stopped: bool

    constructor ()
      ensures View() == Tables(map[], map[], 0, false, false)
    {
      sessions, udpPeers, slots, stopSignalled, stopped := map[], map[], 0, false, false;
    }

    ghost function View(): Tables
      reads this
    {
      Tables(sessions, udpPeers, slots, stopSignalled, stopped)
    }

    /** The first look of reserveSessionSlot. */
    method LookAtStop() returns (stopping: bool)
      ensures stopping == stopSignalled
    {
      stopping := stopSignalled;
    }

    /** Its send, by which time the stop signal may have come. */
    method TakeSessionSlot() returns (taken: bool)
      modifies this`slots
      ensures taken == HasRoom(old(View()))
      ensures View() == TakeSlot(old(View()))
    {
      taken := slots < MAX_SESSIONS;
      if taken {
        slots := slots + 1;
      }
    }

    /** The whole of it, when nothing comes between. */
    method ReserveSessionSlot() returns (r: Reserved)
      modifies this`slots
      ensures r == if stopSignalled then Stopping else if HasRoom(old(View())) then Taken else Full
      ensures View() == if r == Taken then TakeSlot(old(View())) else old(View())
    {
      var stopping := LookAtStop();
      if stopping {
        return Stopping;
      }
      var taken := TakeSessionSlot();
      if !taken {
        return Full;
      }
      var kept := KeepSessionSlot();
      r := if kept then Taken else Stopping;
    }

    /** The second look. */
    method KeepSessionSlot() returns (kept: bool)
      modifies this`slots
      ensures kept <==> !stopSignalled
      ensures View() == if stopSignalled then ReleaseSlot(old(View())) else old(View())
    {
      if stopSignalled {
        ReleaseSessionSlot();
        return false;
      }
      kept := true;
    }

    method ReleaseSessionSlot()
      modifies this`slots
      ensures View() == ReleaseSlot(old(View()))
    {
      if slots > 0 {
        slots := slots - 1;
      }
    }

    method RegisterSession(id: Id, e: Entry) returns (ok: bool)
      modifies this
      ensures (View(), ok) == Register(old(View()), id, e)
    {
      if stopped {
        return false;
      }
      if id in sessions {
        return false;
      }
      sessions := sessions[id := e];
      if e.peerKey.Some? {
        udpPeers := udpPeers[e.peerKey.value := id];
      }
      ok := true;
    }

    method RemoveSession(id: Id) returns (session: Option<Entry>)
      modifies this
      ensures View() == Removed(old(View()), id)
      ensures session == if id in old(sessions) then Some(old(sessions)[id]) else None
    {
      if id !in sessions {
        return None;
      }
      session := Some(sessions[id]);
      sessions := sessions - {id};
      var key := session.value.peerKey;
      if key.Some? {
        if key.value in udpPeers && udpPeers[key.value] == id {
          udpPeers := udpPeers - {key.value};
        }
      }
    }

    /** The locked part of Stop; the sessions returned are then shut down. */
    method StopTables() returns (shut: set<Entry>)
      requires stopSignalled
      modifies this
      ensures View() == old(View()).(sessions := map[], udpPeers := map[], stopped := true)
      ensures shut == old(sessions).Values
    {
      stopped := true;
      shut := sessions.Values;
      sessions := map[];
      udpPeers := map[];
    }
  }

  // ---------------------------------------------------------------- the goroutines around the tables

  type Worker = nat

  /** A slot taken for a TCP connection or for the peer the UDP loop is creating a session for. */
  datatype Reservation = Reservation(peerKey: Option<PeerKey>, checked: bool)

  /** The one UDP loop: free, or creating a session for a peer that has none, before and after its first look. */
  datatype UdpLoop = Free | Wants(key: PeerKey) | Reserving(key: PeerKey)

  datatype System = System(
    tables: Tables,
    lookers: map<Worker, Option<PeerKey>>,
    reservations: map<Worker, Reservation>,
    udp: UdpLoop,
    closing: set<Object>,            // sessions taken out of the table and not yet shut down
    nextWorker: Worker,
    nextObject: Object)

  datatype Step =
    | TcpLook                        // acceptTCP
    | UdpLookup(key: PeerKey)        // ensureUDPSession, read-locked part
    | UdpLook                        // runSession for that peer
    | Send(w: Worker)
    | Recheck(w: Worker)
    | Install(w: Worker, id: Id)     // the locked part of runSession
    | Abandon(w: Worker)             // the inlet would not start the goroutine
    | Close(id: Id)                  // any closeSession: failed start, idle, errors, disconnect
    | Shutdown(item: Object)
    | StopSignal
    | StopLocked

  const START := System(Tables(map[], map[], 0, false, false), map[], map[], Free, {}, 0, 0)

  /** The UDP loop goes on to the next datagram when its attempt ends. */
  function Freed(s: System, key: Option<PeerKey>): UdpLoop {
    if key.Some? then Free else s.udp
  }

  /** A looker for a TCP connection or for the peer of the UDP loop. */
  function Look(s: System, key: Option<PeerKey>): System {
    if s.tables.stopSignalled then s.(udp := Freed(s, key))
    else
      s.(lookers := s.lookers[s.nextWorker := key], nextWorker := s.nextWorker + 1,
         udp := if key.Some? then Reserving(key.value) else s.udp)
  }

  function Sent(s: System, w: Worker): System
    requires w in s.lookers
  {
    var key, rest := s.lookers[w], s.(lookers := s.lookers - {w});
    if HasRoom(s.tables) then
      rest.(tables := TakeSlot(s.tables), reservations := s.reservations[w := Reservation(key, false)])
    else rest.(udp := Freed(s, key))
  }

  function GiveUp(s: System, w: Worker): System
    requires w in s.reservations
  {
    var key := s.reservations[w].peerKey;
    s.(tables := ReleaseSlot(s.tables), reservations := s.reservations - {w}, udp := Freed(s, key))
  }

  function Next(s: System, e: Step): System {
    match e
    case TcpLook => Look(s, None)
    case UdpLookup(key) =>
      if !s.udp.Free? || key in s.tables.udpPeers then s else s.(udp := Wants(key))
    case UdpLook => if s.udp.Wants? then Look(s, Some(s.udp.key)) else s
    case Send(w) => if w in s.lookers then Sent(s, w) else s
    case Recheck(w) =>
      if w !in s.reservations || s.reservations[w].checked then s
      else if s.tables.stopSignalled then GiveUp(s, w)
      else s.(reservations := s.reservations[w := s.reservations[w].(checked := true)])
    case Install(w, id) =>
      if w !in s.reservations || !s.reservations[w].checked then s
      else
        var (t, ok) := Register(s.tables, id, Entry(s.nextObject, s.reservations[w].peerKey));
        if ok then
          s.(tables := t, reservations := s.reservations - {w}, udp := Freed(s, s.reservations[w].peerKey),
             nextObject := s.nextObject + 1)
        else GiveUp(s, w)
    case Abandon(w) => if w in s.reservations && s.reservations[w].checked then GiveUp(s, w) else s
    case Close(id) =>
      if id in s.tables.sessions then
        s.(tables := Removed(s.tables, id), closing := s.closing + {s.tables.sessions[id].item})
      else s
    case Shutdown(o) =>
      if o in s.closing then s.(tables := ReleaseSlot(s.tables), closing := s.closing - {o}) else s
    case StopSignal => s.(tables := s.tables.(stopSignalled := true))
    case StopLocked =>
      if !s.tables.stopSignalled then s
      else s.(tables := s.tables.(sessions := map[], udpPeers := map[], stopped := true),
              closing := s.closing + Objects(s.tables.sessions))
  }

  function Objects(m: map<Id, Entry>): set<Object> {
    set id | id in m :: m[id].item
  }

  function Run(s: System, es: seq<Step>): System
    decreases |es|
  {
    if es == [] then s else Run(Next(s, es[0]), es[1..])
  }

  // ---------------------------------------------------------------- the invariant

  /** Every slot taken belongs to a reservation, a session, or a session on its way out. */
  ghost predicate SlotsOk(s: System) {
    && s.tables.slots == |s.reservations| + |s.tables.sessions| + |s.closing|
    && s.tables.slots <= MAX_SESSIONS
  }

  ghost predicate ObjectsOk(s: System) {
    && (forall id :: id in s.tables.sessions ==> s.tables.sessions[id].item < s.nextObject)
    && (forall i, j :: i in s.tables.sessions && j in s.tables.sessions && i != j ==>
          s.tables.sessions[i].item != s.tables.sessions[j].item)
    && (forall id :: id in s.tables.sessions ==> s.tables.sessions[id].item !in s.closing)
    && (forall o :: o in s.closing ==> o < s.nextObject)
    && (forall w :: w in s.reservations || w in s.lookers ==> w < s.nextWorker)
    && (forall w :: w in s.reservations ==> w !in s.lookers)
  }

  /** udpPeers and the sessions that carry a peer key are two views of one bijection. */
  ghost predicate PeersOk(s: System) {
    var t := s.tables;
    && (forall k :: k in t.udpPeers ==> t.udpPeers[k] in t.sessions && t.sessions[t.udpPeers[k]].peerKey == Some(k))
    && (forall id :: id in t.sessions && t.sessions[id].peerKey.Some? ==>
          t.sessions[id].peerKey.value in t.udpPeers && t.udpPeers[t.sessions[id].peerKey.value] == id)
    && (!s.udp.Free? ==> s.udp.key !in t.udpPeers)
  }

  /** The peer a goroutine creates a session for. */
  function PeerOf(s: System, w: Worker): Option<PeerKey> {
    if w in s.lookers then s.lookers[w] else if w in s.reservations then s.reservations[w].peerKey else None
  }

  /** The UDP loop works on one peer at a time, and is the only one to create sessions for peers. */
  ghost predicate LoopOk(s: System) {
    && (forall w :: PeerOf(s, w).Some? ==> s.udp == Reserving(PeerOf(s, w).value))
    && (forall v, w :: PeerOf(s, v).Some? && PeerOf(s, w).Some? ==> v == w)
  }

  ghost predicate StopOk(s: System) {
    s.tables.stopped ==> s.tables.stopSignalled && s.tables.sessions == map[] && s.tables.udpPeers == map[]
  }

  ghost predicate Valid(s: System) {
    SlotsOk(s) && ObjectsOk(s) && PeersOk(s) && LoopOk(s) && StopOk(s)
  }

  predicate TakesSlot(e: Step) {
    e.TcpLook? || e.UdpLookup? || e.UdpLook? || e.Send?
  }

  predicate DropsSlot(e: Step) {
    e.Recheck? || e.Abandon?
  }

  predicate Leaves(e: Step) {
    e.Close? || e.Shutdown? || e.StopSignal? || e.StopLocked?
  }

  lemma ObjectsKeptByLooking(s: System, e: Step)
    requires Valid(s) && TakesSlot(e) && !e.Send?
    ensures ObjectsOk(Next(s, e)) && StopOk(Next(s, e))
  {
  }

  lemma ObjectsKeptBySend(s: System, w: Worker)
    requires Valid(s)
    ensures ObjectsOk(Next(s, Send(w))) && StopOk(Next(s, Send(w)))
  {
  }

  lemma ObjectsKeptByDropping(s: System, e: Step)
    requires Valid(s) && DropsSlot(e)
    ensures ObjectsOk(Next(s, e)) && StopOk(Next(s, e))
  {
  }

  lemma ObjectsKeptByInstall(s: System, e: Step)
    requires Valid(s) && e.Install?
    ensures ObjectsOk(Next(s, e)) && StopOk(Next(s, e))
  {
  }

  lemma ObjectsKeptByLeaving(s: System, e: Step)
    requires Valid(s) && Leaves(e)
    ensures ObjectsOk(Next(s, e)) && StopOk(Next(s, e))
  {
  }

  lemma ObjectsKept(s: System, e: Step)
    requires Valid(s)
    ensures ObjectsOk(Next(s, e)) && StopOk(Next(s, e))
  {
    if e.Send? {
      ObjectsKeptBySend(s, e.w);
    } else if TakesSlot(e) {
      ObjectsKeptByLooking(s, e);
    } else if DropsSlot(e) {
      ObjectsKeptByDropping(s, e);
    } else if e.Install? {
      ObjectsKeptByInstall(s, e);
    } else {
      ObjectsKeptByLeaving(s, e);
    }
  }

  lemma PeersKeptByTcpLook(s: System, e: Step)
    requires Valid(s) && e.TcpLook?
    ensures PeersOk(Next(s, e))
  {
  }

  lemma PeersKeptByUdpLook(s: System, e: Step)
    requires Valid(s) && e.UdpLook?
    ensures PeersOk(Next(s, e))
  {
  }

  lemma PeersKeptBySend(s: System, e: Step)
    requires Valid(s) && e.Send?
    ensures PeersOk(Next(s, e))
  {
  }

  lemma PeersKeptByLookup(s: System, e: Step)
    requires Valid(s) && e.UdpLookup?
    ensures PeersOk(Next(s, e))
  {
  }

  lemma PeersKeptByDropping(s: System, e: Step)
    requires Valid(s) && DropsSlot(e)
    ensures PeersOk(Next(s, e))
  {
  }

  lemma PeersKeptByInstall(s: System, w: Worker, id: Id)
    requires Valid(s)
    ensures PeersOk(Next(s, Install(w, id)))
  {
    if w in s.reservations && s.reservations[w].checked {
      var key := s.reservations[w].peerKey;
      if s.tables.stopped || id in s.tables.sessions {
        assert Next(s, Install(w, id)).udp == Freed(s, key);
      } else if key.Some? {
        assert PeerOf(s, w) == key;
        assert key.value !in s.tables.udpPeers;
      }
    }
  }

  lemma PeersKeptByLeaving(s: System, e: Step)
    requires Valid(s) && Leaves(e)
    ensures PeersOk(Next(s, e))
  {
  }

  lemma PeersKept(s: System, e: Step)
    requires Valid(s)
    ensures PeersOk(Next(s, e))
  {
    if TakesSlot(e) {
      if e.UdpLookup? {
        PeersKeptByLookup(s, e);
      } else if e.UdpLook? {
        PeersKeptByUdpLook(s, e);
      } else if e.Send? {
        PeersKeptBySend(s, e);
      } else {
        PeersKeptByTcpLook(s, e);
      }
    } else if DropsSlot(e) {
      PeersKeptByDropping(s, e);
    } else if e.Install? {
      PeersKeptByInstall(s, e.w, e.id);
    } else {
      PeersKeptByLeaving(s, e);
    }
  }

  /** Attempts that end for peers free the loop; the others stay as they are. */
  lemma LoopKeptIfFewer(s: System, r: System)
    requires LoopOk(s) && forall w :: PeerOf(r, w).Some? ==> PeerOf(r, w) == PeerOf(s, w)
    requires r.udp == s.udp || forall w :: PeerOf(r, w).None?
    ensures LoopOk(r)
  {
    forall w | PeerOf(r, w).Some?
      ensures r.udp == Reserving(PeerOf(r, w).value)
    {
      assert PeerOf(s, w).Some?;
    }
    forall v, w | PeerOf(r, v).Some? && PeerOf(r, w).Some?
      ensures v == w
    {
      assert PeerOf(s, v).Some? && PeerOf(s, w).Some?;
    }
  }

  lemma LoopKeptByLooking(s: System, e: Step)
    requires Valid(s) && (e.TcpLook? || e.UdpLookup? || e.UdpLook?)
    ensures LoopOk(Next(s, e))
  {
    var r := Next(s, e);
    forall w | w != s.nextWorker
      ensures PeerOf(r, w) == PeerOf(s, w)
    {
    }
    if e.UdpLook? && s.udp.Wants? {
      assert forall w :: PeerOf(s, w).None?;
      assert forall w :: PeerOf(r, w).Some? ==> w == s.nextWorker;
    } else {
      forall w
        ensures PeerOf(r, w) == PeerOf(s, w)
      {
      }
      assert r.udp != s.udp ==> forall w :: PeerOf(s, w).None?;
      LoopKeptIfFewer(s, r);
    }
  }

  lemma LoopKeptBySend(s: System, w: Worker)
    requires Valid(s)
    ensures LoopOk(Next(s, Send(w)))
  {
    var r := Next(s, Send(w));
    forall v
      ensures PeerOf(r, v) == if w in s.lookers && !HasRoom(s.tables) && v == w then None else PeerOf(s, v)
    {
    }
    if r.udp != s.udp {
      OnlyOneFrees(s, w, r);
    }
    LoopKeptIfFewer(s, r);
  }

  lemma OnlyOneFrees(s: System, w: Worker, r: System)
    requires LoopOk(s) && PeerOf(s, w).Some?
    requires forall v :: PeerOf(r, v) == if v == w then None else PeerOf(s, v)
    ensures forall v :: PeerOf(r, v).None?
  {
    forall v
      ensures PeerOf(r, v).None?
    {
      assert PeerOf(s, v).Some? ==> v == w;
    }
  }

  lemma LoopKeptByReservation(s: System, w: Worker, e: Step)
    requires Valid(s) && (e == Recheck(w) || e == Abandon(w) || (e.Install? && e.w == w))
    ensures LoopOk(Next(s, e))
  {
    var r := Next(s, e);
    forall v
      ensures PeerOf(r, v) == if w in s.reservations && w !in r.reservations && v == w then None else PeerOf(s, v)
    {
    }
    if r.udp != s.udp {
      assert PeerOf(s, w).Some?;
      OnlyOneFrees(s, w, r);
    }
    LoopKeptIfFewer(s, r);
  }

  lemma LoopKeptByLeaving(s: System, e: Step)
    requires LoopOk(s) && Leaves(e)
    ensures LoopOk(Next(s, e))
  {
    var r := Next(s, e);
    assert r.lookers == s.lookers && r.reservations == s.reservations && r.udp == s.udp;
    forall w
      ensures PeerOf(r, w) == PeerOf(s, w)
    {
    }
    LoopKeptIfFewer(s, r);
  }

  lemma LoopKept(s: System, e: Step)
    requires Valid(s)
    ensures LoopOk(Next(s, e))
  {
    if e.Send? {
      LoopKeptBySend(s, e.w);
    } else if TakesSlot(e) {
      LoopKeptByLooking(s, e);
    } else if DropsSlot(e) || e.Install? {
      LoopKeptByReservation(s, e.w, e);
    } else {
      LoopKeptByLeaving(s, e);
    }
  }

  lemma SizeWithout<K, V>(m: map<K, V>, k: K)
    requires k in m
    ensures |m - {k}| == |m| - 1
  {
    assert (m - {k}).Keys == m.Keys - {k};
    assert |(m - {k}).Keys| == |m - {k}| && |m.Keys| == |m|;
  }

  lemma SizeWith<K, V>(m: map<K, V>, k: K, v: V)
    ensures |m[k := v]| == if k in m then |m| else |m| + 1
  {
    assert m[k := v].Keys == m.Keys + {k};
    assert |m[k := v].Keys| == |m[k := v]| && |m.Keys| == |m|;
  }

  /** As many session objects as sessions. */
  lemma {:induction false} CountObjects(m: map<Id, Entry>)
    requires forall i, j :: i in m && j in m && i != j ==> m[i].item != m[j].item
    ensures |Objects(m)| == |m|
    decreases |m|
  {
    if m != map[] {
      var k :| k in m;
      var rest := m - {k};
      SizeWithout(m, k);
      CountObjects(rest);
      assert Objects(m) == Objects(rest) + {m[k].item} by {
        forall x | x in Objects(m) && x != m[k].item ensures x in Objects(rest) {
          var id :| id in m && m[id].item == x;
          assert id in rest && rest[id].item == x;
        }
      }
      assert m[k].item !in Objects(rest);
    }
  }

  lemma SlotsKeptByTaking(s: System, e: Step)
    requires Valid(s) && TakesSlot(e)
    ensures SlotsOk(Next(s, e))
  {
    if e.Send? && e.w in s.lookers {
      SizeWith(s.reservations, e.w, Reservation(s.lookers[e.w], false));
    }
  }

  lemma SlotsKeptByDropping(s: System, e: Step)
    requires Valid(s) && DropsSlot(e)
    ensures SlotsOk(Next(s, e))
  {
    var w := e.w;
    if w in s.reservations {
      SizeWithout(s.reservations, w);
      SizeWith(s.reservations, w, s.reservations[w].(checked := true));
    }
  }

  lemma SlotsKeptByInstall(s: System, w: Worker, id: Id)
    requires Valid(s)
    ensures SlotsOk(Next(s, Install(w, id)))
  {
    if w in s.reservations {
      SizeWithout(s.reservations, w);
      SizeWith(s.tables.sessions, id, Entry(s.nextObject, s.reservations[w].peerKey));
    }
  }

  lemma SlotsKeptByStop(s: System)
    requires Valid(s)
    ensures SlotsOk(Next(s, StopLocked))
  {
    CountObjects(s.tables.sessions);
    assert s.closing !! Objects(s.tables.sessions);
    assert |s.closing + Objects(s.tables.sessions)| == |s.closing| + |Objects(s.tables.sessions)|;
  }

  lemma SlotsKeptByLeaving(s: System, e: Step)
    requires Valid(s) && !TakesSlot(e) && !DropsSlot(e) && !e.Install? && !e.StopLocked?
    ensures SlotsOk(Next(s, e))
  {
    if e.Close? && e.id in s.tables.sessions {
      SizeWithout(s.tables.sessions, e.id);
    }
  }

  lemma SlotsKept(s: System, e: Step)
    requires Valid(s)
    ensures SlotsOk(Next(s, e))
  {
    if TakesSlot(e) {
      SlotsKeptByTaking(s, e);
    } else if DropsSlot(e) {
      SlotsKeptByDropping(s, e);
    } else if e.Install? {
      SlotsKeptByInstall(s, e.w, e.id);
    } else if e.StopLocked? {
      SlotsKeptByStop(s);
    } else {
      SlotsKeptByLeaving(s, e);
    }
  }

  lemma NextKeepsValid(s: System, e: Step)
    requires Valid(s)
    ensures Valid(Next(s, e))
  {
    ObjectsKept(s, e);
    PeersKept(s, e);
    LoopKept(s, e);
    SlotsKept(s, e);
  }

  lemma {:induction false} EveryRunValid(s: System, es: seq<Step>)
    requires Valid(s)
    ensures Valid(Run(s, es))
    decreases |es|
  {
    if es != [] {
      NextKeepsValid(s, es[0]);
      EveryRunValid(Next(s, es[0]), es[1..]);
    }
  }

  /** Over every interleaving: the slots taken are accounted for, never too many, and all returned in the end. */
  lemma InletRuns(es: seq<Step>)
    ensures var s := Run(START, es);
      && s.tables.slots == |s.reservations| + |s.tables.sessions| + |s.closing| <= MAX_SESSIONS
      && (s.tables.stopped && s.reservations == map[] && s.closing == {} ==> s.tables.slots == 0)
      && (forall k, id :: k in s.tables.udpPeers && s.tables.udpPeers[k] == id
            <==> id in s.tables.sessions && s.tables.sessions[id].peerKey == Some(k))
  {
    EveryRunValid(START, es);
  }

  predicate Checked(s: System, w: Worker) {
    w in s.reservations && s.reservations[w].checked
  }

  // ---------------------------------------------------------------- when a session comes and goes

  /** The looker gets the slot exactly when fewer than 4096 are taken. */
  lemma SlotTakenIff(s: System, w: Worker)
    requires Valid(s) && w in s.lookers
    ensures var r := Next(s, Send(w));
      && w !in r.lookers && (w in r.reservations <==> s.tables.slots < 4096)
      && r.tables == TakeSlot(s.tables)
      && r.tables == s.tables.(slots := if s.tables.slots < 4096 then s.tables.slots + 1 else s.tables.slots)
  {
  }

  /** Only a goroutine that looked again, and found no signal, installs a session or is turned away by the inlet. */
  lemma LooksAgainFirst(s: System, w: Worker, id: Id)
    ensures !Checked(s, w) ==> Next(s, Install(w, id)) == s && Next(s, Abandon(w)) == s
    ensures w in s.reservations && !Checked(s, w) ==> (Checked(Next(s, Recheck(w)), w) <==> !s.tables.stopSignalled)
    ensures Checked(s, w) ==> Next(s, Recheck(w)) == s
  {
  }

  /** An attempt that ends without a session returns its slot and leaves the tables alone. */
  predicate GaveUp(s: System, r: System, w: Worker) {
    w !in r.reservations && s.tables.slots > 0 && r.tables == s.tables.(slots := s.tables.slots - 1)
  }

  lemma AbandonedGivesUp(s: System, w: Worker)
    requires Valid(s) && Checked(s, w)
    ensures GaveUp(s, Next(s, Abandon(w)), w)
    ensures s.reservations[w].peerKey.Some? ==> Next(s, Abandon(w)).udp.Free?
  {
    SizeWithout(s.reservations, w);
  }

  /** The session is installed exactly when the inlet has not stopped and its id is free. */
  lemma InstalledIff(s: System, w: Worker, id: Id)
    requires Valid(s) && Checked(s, w)
    ensures var r, key := Next(s, Install(w, id)), s.reservations[w].peerKey;
      && (if s.tables.stopped || id in s.tables.sessions then GaveUp(s, r, w)
          else
            && w !in r.reservations && r.tables.slots == s.tables.slots
            && r.tables.sessions == s.tables.sessions[id := Entry(s.nextObject, key)]
            && r.tables.udpPeers == if key.Some? then s.tables.udpPeers[key.value := id] else s.tables.udpPeers)
      && (key.Some? ==> r.udp.Free?)
  {
    SizeWithout(s.reservations, w);
  }

  /** A session that is taken out takes only its own peer with it. */
  lemma OtherPeersStay(t: Tables, id: Id)
    ensures var r := Removed(t, id);
      && r.sessions == t.sessions - {id} && r.slots == t.slots
      && forall k :: k in t.udpPeers && t.udpPeers[k] != id ==> k in r.udpPeers && r.udpPeers[k] == t.udpPeers[k]
  {
  }

  /** The life of a TCP connection that nothing comes between. */
  function TcpRun(w: Worker, id: Id): seq<Step> {
    [TcpLook, Send(w), Recheck(w), Install(w, id)]
  }

  /** The same for a peer of the UDP loop. */
  function UdpRun(key: PeerKey, w: Worker, id: Id): seq<Step> {
    [UdpLookup(key), UdpLook, Send(w), Recheck(w), Install(w, id)]
  }

  /** What a new session asks of the inlet. */
  predicate MayBegin(t: Tables, id: Id) {
    !t.stopSignalled && t.slots < 4096 && id !in t.sessions
  }

  lemma RunsTwo(s: System, a: Step, b: Step)
    ensures Run(s, [a, b]) == Next(Next(s, a), b)
  {
    assert [a, b][1..] == [b] && [b][1..] == [];
    assert Run(Next(s, a), [b]) == Run(Next(Next(s, a), b), []);
  }

  /** The last three steps of an attempt. */
  function Attempt(s: System, w: Worker, id: Id): System {
    Next(Next(Next(s, Send(w)), Recheck(w)), Install(w, id))
  }

  lemma TcpRunIs(s: System, w: Worker, id: Id)
    ensures Run(s, TcpRun(w, id)) == Attempt(Next(s, TcpLook), w, id)
  {
    assert TcpRun(w, id)[1..] == [Send(w), Recheck(w), Install(w, id)];
    assert [Send(w), Recheck(w), Install(w, id)][1..] == [Recheck(w), Install(w, id)];
    RunsTwo(Next(Next(s, TcpLook), Send(w)), Recheck(w), Install(w, id));
  }

  lemma UdpRunIs(s: System, key: PeerKey, w: Worker, id: Id)
    ensures Run(s, UdpRun(key, w, id)) == Attempt(Next(Next(s, UdpLookup(key)), UdpLook), w, id)
  {
    var four, three := [UdpLook, Send(w), Recheck(w), Install(w, id)], [Send(w), Recheck(w), Install(w, id)];
    assert UdpRun(key, w, id)[1..] == four && four[1..] == three && three[1..] == [Recheck(w), Install(w, id)];
    var t := Next(Next(s, UdpLookup(key)), UdpLook);
    RunsTwo(Next(t, Send(w)), Recheck(w), Install(w, id));
    assert Run(t, three) == Attempt(t, w, id);
    assert Run(Next(s, UdpLookup(key)), four) == Run(t, three);
  }

  lemma NobodysAttempt(s: System, w: Worker, id: Id)
    requires w !in s.lookers && w !in s.reservations
    ensures Attempt(s, w, id) == s
  {
  }

  lemma FullAttempt(s: System, w: Worker, id: Id)
    requires Valid(s) && w in s.lookers && !HasRoom(s.tables)
    ensures Attempt(s, w, id).tables == s.tables && Attempt(s, w, id).udp == Freed(s, s.lookers[w])
  {
  }

  lemma StoppingAttempt(s: System, w: Worker, id: Id)
    requires Valid(s) && w in s.lookers && HasRoom(s.tables) && s.tables.stopSignalled
    ensures Attempt(s, w, id).tables == s.tables && Attempt(s, w, id).udp == Freed(s, s.lookers[w])
  {
    var t := Next(s, Send(w));
    assert Next(t, Recheck(w)) == GiveUp(t, w);
  }

  /** From a looker to the session: the tables are left as they were unless the session is in. */
  lemma CheckedAttempt(s: System, w: Worker, id: Id)
    requires Valid(s) && w in s.lookers && HasRoom(s.tables) && !s.tables.stopSignalled
    ensures var r, key := Attempt(s, w, id), s.lookers[w];
      && r.udp == Freed(s, key)
      && r.tables == if id in s.tables.sessions then s.tables
                     else Register(s.tables.(slots := s.tables.slots + 1), id, Entry(s.nextObject, key)).0
  {
    var t := Next(s, Send(w));
    assert t == s.(tables := s.tables.(slots := s.tables.slots + 1), lookers := s.lookers - {w},
                   reservations := s.reservations[w := Reservation(s.lookers[w], false)]);
    assert Checked(Next(t, Recheck(w)), w);
  }

  lemma LookerEnds(s: System, w: Worker, id: Id)
    requires Valid(s) && w in s.lookers
    ensures var r, key := Attempt(s, w, id), s.lookers[w];
      && r.udp == Freed(s, key)
      && r.tables == if MayBegin(s.tables, id)
                     then Register(s.tables.(slots := s.tables.slots + 1), id, Entry(s.nextObject, key)).0
                     else s.tables
  {
    if !HasRoom(s.tables) {
      FullAttempt(s, w, id);
    } else if s.tables.stopSignalled {
      StoppingAttempt(s, w, id);
    } else {
      CheckedAttempt(s, w, id);
    }
  }

  /** A TCP connection gets a session exactly when the inlet goes on, has a slot, and the id is free. */
  lemma TcpSessionIff(s: System, id: Id)
    requires Valid(s)
    ensures Run(s, TcpRun(s.nextWorker, id)).tables ==
            if MayBegin(s.tables, id)
            then s.tables.(slots := s.tables.slots + 1, sessions := s.tables.sessions[id := Entry(s.nextObject, None)])
            else s.tables
  {
    var t := Next(s, TcpLook);
    TcpRunIs(s, s.nextWorker, id);
    NextKeepsValid(s, TcpLook);
    if s.tables.stopSignalled {
      NobodysAttempt(t, s.nextWorker, id);
    } else {
      LookerEnds(t, s.nextWorker, id);
    }
  }

  /** A datagram of a new peer, too; and the loop is free again however the attempt ends. */
  lemma UdpSessionIff(s: System, key: PeerKey, id: Id)
    requires Valid(s) && s.udp.Free?
    ensures var r := Run(s, UdpRun(key, s.nextWorker, id));
      && r.udp.Free?
      && r.tables == if key !in s.tables.udpPeers && MayBegin(s.tables, id)
                     then s.tables.(slots := s.tables.slots + 1,
                                    sessions := s.tables.sessions[id := Entry(s.nextObject, Some(key))],
                                    udpPeers := s.tables.udpPeers[key := id])
                     else s.tables
  {
    var a := Next(s, UdpLookup(key));
    var b := Next(a, UdpLook);
    UdpRunIs(s, key, s.nextWorker, id);
    NextKeepsValid(s, UdpLookup(key));
    NextKeepsValid(a, UdpLook);
    if key in s.tables.udpPeers || s.tables.stopSignalled {
      NobodysAttempt(b, s.nextWorker, id);
    } else {
      LookerEnds(b, s.nextWorker, id);
    }
  }

  lemma SessionHoldsASlot(s: System, id: Id)
    requires Valid(s) && id in s.tables.sessions
    ensures s.tables.slots > 0 && s.tables.sessions[id].item !in s.closing
  {
    SizeWithout(s.tables.sessions, id);
  }

  lemma RemovesItsPeer(s: System, id: Id)
    requires Valid(s) && id in s.tables.sessions
    ensures var key := s.tables.sessions[id].peerKey;
      Removed(s.tables, id).udpPeers == if key.Some? then s.tables.udpPeers - {key.value} else s.tables.udpPeers
  {
  }

  /** A session that ends and is shut down gives its slot back, and its id and peer are free again. */
  lemma EndedSessionIsGone(s: System, id: Id)
    requires Valid(s) && id in s.tables.sessions
    ensures var e, t := s.tables.sessions[id], s.tables;
      var r := Run(s, [Close(id), Shutdown(e.item)]);
      && t.slots > 0 && r.closing == s.closing
      && r.tables == t.(slots := t.slots - 1, sessions := t.sessions - {id},
                        udpPeers := if e.peerKey.Some? then t.udpPeers - {e.peerKey.value} else t.udpPeers)
  {
    var o := s.tables.sessions[id].item;
    RunsTwo(s, Close(id), Shutdown(o));
    SessionHoldsASlot(s, id);
    RemovesItsPeer(s, id);
    assert s.closing + {o} - {o} == s.closing;
  }

  /** Stop hands over every session, and only those; the slots stay with them. */
  lemma StopHandsOver(s: System)
    requires Valid(s)
    ensures var r := Run(s, [StopSignal, StopLocked]);
      && r.tables == Tables(map[], map[], s.tables.slots, true, true)
      && (forall o :: o in r.closing <==>
            o in s.closing || exists id :: id in s.tables.sessions && s.tables.sessions[id].item == o)
      && r.reservations == s.reservations && r.lookers == s.lookers
    ensures !s.tables.stopSignalled ==> Next(s, StopLocked) == s
  {
    assert [StopSignal, StopLocked][1..] == [StopLocked];
  }

  /**
   What is left from s in r after Stop: no goroutine begins an attempt and no session is added. A goroutine that had
   looked before the signal may still take a slot, but what it holds is what it could have held.
   */
  ghost predicate RunDown(s: System, r: System) {
    && r.tables.stopped && r.tables.sessions == map[]
    && r.lookers.Keys <= s.lookers.Keys && r.closing <= s.closing
    && r.lookers.Keys + r.reservations.Keys <= s.lookers.Keys + s.reservations.Keys
    && (forall w :: Checked(r, w) ==> Checked(s, w))
    && r.tables.slots + |r.lookers| <= s.tables.slots + |s.lookers|
  }

  predicate Halted(t: Tables) {
    t.stopped && t.stopSignalled && t.sessions == map[] && t.udpPeers == map[]
  }

  lemma RunDownByLooking(s: System, e: Step)
    requires Halted(s.tables) && TakesSlot(e) && !e.Send?
    ensures RunDown(s, Next(s, e))
  {
  }

  lemma RunDownBySend(s: System, w: Worker)
    requires Halted(s.tables)
    ensures RunDown(s, Next(s, Send(w)))
  {
    if w in s.lookers {
      SizeWithout(s.lookers, w);
      var r := Sent(s, w);
      assert r.lookers.Keys == s.lookers.Keys - {w};
      assert r.reservations.Keys <= s.reservations.Keys + {w};
      assert forall v :: Checked(r, v) ==> Checked(s, v);
    }
  }

  lemma RunDownByGivingUp(s: System, w: Worker)
    requires Halted(s.tables) && w in s.reservations
    ensures RunDown(s, GiveUp(s, w))
  {
  }

  lemma RunDownByDropping(s: System, e: Step)
    requires Halted(s.tables) && (DropsSlot(e) || e.Install?)
    ensures RunDown(s, Next(s, e))
  {
    if Next(s, e) != s {
      assert Next(s, e) == GiveUp(s, e.w);
      RunDownByGivingUp(s, e.w);
    }
  }

  lemma RunDownByLeaving(s: System, e: Step)
    requires Halted(s.tables) && !TakesSlot(e) && !DropsSlot(e) && !e.Install?
    ensures RunDown(s, Next(s, e))
  {
    assert Objects(s.tables.sessions) == {};
  }

  lemma AfterStopOnlyLeaves(s: System, e: Step)
    requires Valid(s) && s.tables.stopped
    ensures RunDown(s, Next(s, e))
  {
    if e.Send? {
      RunDownBySend(s, e.w);
    } else if TakesSlot(e) {
      RunDownByLooking(s, e);
    } else if DropsSlot(e) || e.Install? {
      RunDownByDropping(s, e);
    } else {
      RunDownByLeaving(s, e);
    }
  }

  /** After Stop what is under way only runs out; and once no looker is left and no slot taken, none is ever again. */
  lemma {:induction false} AfterStopOnlyRunsOut(s: System, es: seq<Step>)
    requires Valid(s) && s.tables.stopped
    ensures RunDown(s, Run(s, es))
    ensures s.lookers == map[] ==> Run(s, es).lookers == map[] && Run(s, es).tables.slots <= s.tables.slots
    decreases |es|
  {
    if es != [] {
      AfterStopOnlyLeaves(s, es[0]);
      NextKeepsValid(s, es[0]);
      AfterStopOnlyRunsOut(Next(s, es[0]), es[1..]);
    }
  }

  /** That it waits for the lookers matters: one that looked before the signal takes a slot after Stop. */
  lemma LookerTakesASlotAfterStop()
    ensures var s := Run(START, [TcpLook, StopSignal, StopLocked]);
      && s.tables.stopped && s.tables.slots == 0
      && Next(s, Send(0)).tables.stopped && Next(s, Send(0)).tables.slots == 1
  {
    assert [TcpLook, StopSignal, StopLocked][1..] == [StopSignal, StopLocked];
    assert [StopSignal, StopLocked][1..] == [StopLocked];
  }

  /** After Stop every reservation that is left can take the step that returns its slot. */
  lemma AfterStopReservationLeaves(s: System, w: Worker)
    requires Valid(s) && s.tables.stopped && w in s.reservations
    ensures var t := Next(s, if s.reservations[w].checked then Install(w, 0) else Recheck(w));
      && t.reservations == s.reservations - {w} && t.tables.slots == s.tables.slots - 1
      && t.lookers == s.lookers
  {
    SizeWithout(s.reservations, w);
  }

  /** And so can every session that is on its way out. */
  lemma ClosingSessionLeaves(s: System, o: Object)
    requires Valid(s) && o in s.closing
    ensures var t := Next(s, Shutdown(o));
      t.closing == s.closing - {o} && t.tables.slots == s.tables.slots - 1 && t.lookers == s.lookers
  {
    assert |s.closing| == |s.closing - {o}| + 1;
  }

  lemma LookerSends(s: System, w: Worker)
    requires w in s.lookers && HasRoom(s.tables)
    ensures var t := Next(s, Send(w)); t.tables.slots == s.tables.slots + 1 && |t.lookers| == |s.lookers| - 1
  {
    SizeWithout(s.lookers, w);
  }

  /** What is left to do after Stop: one step for each slot taken, two for each looker. */
  function Left(s: System): nat {
    s.tables.slots + 2 * |s.lookers|
  }

  predicate Drains(s: System, e: Step) {
    Left(Next(s, e)) == Left(s) - 1
  }

  lemma SomethingDrains(s: System)
    requires Valid(s) && s.tables.stopped && Left(s) > 0
    ensures exists e :: Drains(s, e)
  {
    if s.reservations != map[] {
      var w :| w in s.reservations;
      AfterStopReservationLeaves(s, w);
      assert Drains(s, if s.reservations[w].checked then Install(w, 0) else Recheck(w));
    } else if s.closing != {} {
      var o :| o in s.closing;
      ClosingSessionLeaves(s, o);
      assert Drains(s, Shutdown(o));
    } else {
      assert s.tables.slots == 0;
      var w :| w in s.lookers;
      LookerSends(s, w);
      assert Drains(s, Send(w));
    }
  }

  /** So from Stop on all runs down to zero: one step for each slot taken, and two for each looker. */
  lemma {:induction false} StopDrainsToZero(s: System) returns (es: seq<Step>)
    requires Valid(s) && s.tables.stopped
    ensures |es| == s.tables.slots + 2 * |s.lookers|
    ensures Run(s, es).tables.slots == 0 && Run(s, es).lookers == map[]
    decreases Left(s)
  {
    if Left(s) == 0 {
      return [];
    }
    SomethingDrains(s);
    var e :| Drains(s, e);
    AfterStopOnlyLeaves(s, e);
    NextKeepsValid(s, e);
    var later := StopDrainsToZero(Next(s, e));
    es := [e] + later;
    assert es[1..] == later;
  }
}
