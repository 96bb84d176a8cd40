/**
 Connect attempts and sessions of an outlet: internal/proxy/outlet.go.

 The tables under the outlet's mutex are one datatype; every lock-held region is one function on it and one method of
 the class. Around them run the goroutines: one per connect attempt, which dials and then tries to install, and one
 per installed connection, which reads until the connection ends. Attempts and connections are numbered, since the
 source compares pointers.
 */
module Outlet {
  import opened ByteStrings

  type Id = nat
  type Attempt = nat
  type Conn = nat

  datatype Tables = Tables(sessions: map<Id, Conn>, connecting: map<Id, Attempt>, stopped: bool)

  datatype Started = Registered | Repeated | Ignored

  function StartConnect(t: Tables, id: Id, a: Attempt): (Tables, Started) {
    if t.stopped then (t, Ignored)
    else if id in t.sessions || id in t.connecting then (t, Repeated)
    else (t.(connecting := t.connecting[id := a]), Registered)
  }

  predicate Current(t: Tables, id: Id, a: Attempt) {
    id in t.connecting && t.connecting[id] == a
  }

  function Install(t: Tables, id: Id, a: Attempt, c: Conn): (Tables, bool) {
    if t.stopped || !Current(t, id, a) || id in t.sessions then (t, false)
    else (t.(connecting := t.connecting - {id}, sessions := t.sessions[id := c]), true)
  }

  function Finish(t: Tables, id: Id, a: Attempt): Tables {
    if Current(t, id, a) then t.(connecting := t.connecting - {id}) else t
  }

  function Disconnect(t: Tables, id: Id): Tables {
    t.(connecting := t.connecting - {id})
  }

  function Detach(t: Tables, id: Id): Tables {
    t.(sessions := t.sessions - {id})
  }

  function Stopped(t: Tables): Tables {
    Tables(map[], map[], true)
  }

  class OutletTables {
    var sessions: map<Id, Conn>
    var connecting: map<Id, Attempt>
    var stopped: bool

    constructor ()
      ensures View() == Tables(map[], map[], false)
    {
      sessions, connecting, stopped := map[], map[], false;
    }

    ghost function View(): Tables
      reads this
    {
      Tables(sessions, connecting, stopped)
    }

    method RegisterAttempt(id: Id, attempt: Attempt) returns (r: Started)
      modifies this
      ensures (View(), r) == StartConnect(old(View()), id, attempt)
    {
      if stopped {
        return Ignored;
      }
      if id in sessions {
        return Repeated;
      }
      if id in connecting {
        return Repeated;
      }
      connecting := connecting[id := attempt];
      r := Registered;
    }

    /** The check of failConnect: whether the failure is still worth reporting. */
    method StillActive(id: Id, attempt: Attempt) returns (active: bool)
      ensures active <==> Current(View(), id, attempt) && !stopped
    {
      active := id in connecting && connecting[id] == attempt && !stopped;
    }

    method InstallConnectedSession(id: Id, attempt: Attempt, session: Conn) returns (ok: bool)
      modifies this
      ensures (View(), ok) == Install(old(View()), id, attempt, session)
    {
      if stopped || id !in connecting || connecting[id] != attempt || id in sessions {
        return false;
      }
      connecting := connecting - {id};
      sessions := sessions[id := session];
      ok := true;
    }

    method FinishConnectAttempt(id: Id, attempt: Attempt)
      modifies this
      ensures View() == Finish(old(View()), id, attempt)
    {
      if id in connecting && connecting[id] == attempt {
        connecting := connecting - {id};
      }
    }

    /** Returns the attempt to cancel and the session to hand the message to. */
    method OnDisconnectInput(id: Id) returns (attempt: Option<Attempt>, session: Option<Conn>)
      modifies this
      ensures View() == Disconnect(old(View()), id)
      ensures attempt == if id in old(connecting) then Some(old(connecting)[id]) else None
      ensures session == if id in sessions then Some(sessions[id]) else None
    {
      session := if id in sessions then Some(sessions[id]) else None;
      attempt := if id in connecting then Some(connecting[id]) else None;
      connecting := connecting - {id};
    }

    method DetachSession(id: Id) returns (session: Option<Conn>)
      modifies this
      ensures View() == Detach(old(View()), id)
      ensures session == if id in old(sessions) then Some(old(sessions)[id]) else None
    {
      if id !in sessions {
        assert sessions - {id} == sessions;
        return None;
      }
      session := Some(sessions[id]);
      sessions := sessions - {id};
    }

    /** Returns what the rest of Stop cancels and closes after the lock is released. */
    method StopTables() returns (cancels: set<Attempt>, closes: set<Conn>)
      modifies this
      ensures View() == if old(stopped) then old(View()) else Stopped(old(View()))
      ensures cancels == if old(stopped) then {} else old(connecting).Values
      ensures closes == if old(stopped) then {} else old(sessions).Values
    {
      if stopped {
        return {}, {};
      }
      stopped := true;
      cancels := connecting.Values;
      connecting := map[];
      closes := sessions.Values;
      sessions := map[];
    }
  }

  // ---------------------------------------------------------------- the goroutines around the tables

  /** Where the goroutine of a connect attempt stands. */
  datatype Stage =
    | Dialing
    | Dialed(conn: Conn)      // the dial succeeded; the session is not installed yet
    | Rejected(conn: Conn)    // installing was refused; the connection is about to be closed
    | Finishing               // onConnect has returned

  datatype Goroutine = Goroutine(id: Id, stage: Stage)

  datatype System = System(
    tables: Tables,
    attempts: map<Attempt, Goroutine>,   // running connect attempts
    readers: map<Conn, Id>,              // running readers of installed connections
    open: set<Conn>,                     // connections not yet closed
    doomed: set<Conn>,                   // detached by Stop or a failure, close still to come
    cancelled: set<Attempt>,
    succeeded: set<Attempt>,             // attempts that installed a session
    dialler: map<Conn, Attempt>,         // the attempt whose dial returned each connection
    usedIds: set<Id>,
    nextAttempt: Attempt,
    nextConn: Conn)

  datatype Step =
    | Connect(id: Id)
    | DialSucceeds(a: Attempt)
    | DialFails(a: Attempt)
    | TryInstall(a: Attempt)
    | CloseRejected(a: Attempt)
    | FinishAttempt(a: Attempt)
    | DisconnectMessage(id: Id)
    | DetachById(id: Id)          // the queued disconnect was taken out, or writing to the target failed
    | CloseDoomed(c: Conn)
    | ReaderEnds(c: Conn)         // removeSession by id, then close
    | Stop

  const START := System(Tables(map[], map[], false), map[], map[], {}, {}, {}, {}, map[], {}, 0, 0)

  function Next(s: System, e: Step): System {
    match e
    case Connect(id) =>
      var (t, r) := StartConnect(s.tables, id, s.nextAttempt);
      if r == Registered then
        s.(tables := t, attempts := s.attempts[s.nextAttempt := Goroutine(id, Dialing)],
           nextAttempt := s.nextAttempt + 1, usedIds := s.usedIds + {id})
      else s
    case DialSucceeds(a) =>
      if a in s.attempts && s.attempts[a].stage.Dialing? then
        s.(attempts := s.attempts[a := s.attempts[a].(stage := Dialed(s.nextConn))],
           open := s.open + {s.nextConn}, dialler := s.dialler[s.nextConn := a], nextConn := s.nextConn + 1)
      else s
    case DialFails(a) =>
      if a in s.attempts && s.attempts[a].stage.Dialing? then
        s.(attempts := s.attempts[a := s.attempts[a].(stage := Finishing)])
      else s
    case TryInstall(a) =>
      if a in s.attempts && s.attempts[a].stage.Dialed? then
        var g := s.attempts[a];
        var (t, ok) := Install(s.tables, g.id, a, g.stage.conn);
        if ok then
          s.(tables := t, attempts := s.attempts[a := g.(stage := Finishing)],
             readers := s.readers[g.stage.conn := g.id], succeeded := s.succeeded + {a})
        else s.(attempts := s.attempts[a := g.(stage := Rejected(g.stage.conn))])
      else s
    case CloseRejected(a) =>
      if a in s.attempts && s.attempts[a].stage.Rejected? then
        s.(attempts := s.attempts[a := s.attempts[a].(stage := Finishing)], open := s.open - {s.attempts[a].stage.conn})
      else s
    case FinishAttempt(a) =>
      if a in s.attempts && s.attempts[a].stage.Finishing? then
        s.(tables := Finish(s.tables, s.attempts[a].id, a), attempts := s.attempts - {a})
      else s
    case DisconnectMessage(id) =>
      s.(tables := Disconnect(s.tables, id),
         cancelled := if id in s.tables.connecting then s.cancelled + {s.tables.connecting[id]} else s.cancelled)
    case DetachById(id) =>
      if id in s.tables.sessions then
        s.(tables := Detach(s.tables, id), doomed := s.doomed + {s.tables.sessions[id]})
      else s
    case CloseDoomed(c) => if c in s.doomed then s.(doomed := s.doomed - {c}, open := s.open - {c}) else s
    case ReaderEnds(c) =>
      if c in s.readers then
        s.(tables := Detach(s.tables, s.readers[c]), readers := s.readers - {c}, open := s.open - {c})
      else s
    case Stop =>
      if s.tables.stopped then s
      else s.(tables := Stopped(s.tables), doomed := s.doomed + s.tables.sessions.Values,
              cancelled := s.cancelled + s.tables.connecting.Values)
  }

  function Run(s: System, es: seq<Step>): System
    decreases |es|
  {
    if es == [] then s else Run(Next(s, es[0]), es[1..])
  }

  predicate Holding(g: Goroutine) {
    g.stage.Dialed? || g.stage.Rejected?
  }

  ghost predicate TablesOk(s: System) {
    var t := s.tables;
    // no id is connecting and connected
    && (forall id :: id in t.sessions ==> id !in t.connecting && id in s.usedIds)
    && (t.stopped ==> t.sessions == map[] && t.connecting == map[])
    // a registered attempt is a running one for that id
    && (forall id :: id in t.connecting ==> t.connecting[id] in s.attempts && s.attempts[t.connecting[id]].id == id)
  }

  ghost predicate AttemptsOk(s: System) {
    && (forall a :: a in s.attempts ==> a < s.nextAttempt && s.attempts[a].id in s.usedIds)
    && (forall a :: a in s.cancelled || a in s.succeeded ==> a < s.nextAttempt)
    && (forall a :: a in s.cancelled ==> a !in s.succeeded)
    // a registered attempt is neither cancelled nor successful
    && (forall id :: id in s.tables.connecting ==>
          s.tables.connecting[id] !in s.cancelled && s.tables.connecting[id] !in s.succeeded)
    && (forall a :: a in s.attempts && !s.attempts[a].stage.Finishing? ==> a !in s.succeeded)
  }

  ghost predicate ConnsOk(s: System) {
    // a session's connection has a reader of its own for that id
    && (forall id :: id in s.tables.sessions ==>
          s.tables.sessions[id] in s.readers && s.readers[s.tables.sessions[id]] == id)
    // a connection not yet installed or closed belongs to the attempt that dialled it, and to nobody else
    && (forall a :: a in s.attempts && Holding(s.attempts[a]) ==> var c := s.attempts[a].stage.conn;
          c in s.dialler && s.dialler[c] == a && c !in s.readers && c !in s.doomed)
    && (forall c :: c in s.dialler ==> c < s.nextConn)
    && (forall c :: c in s.readers ==> c in s.dialler && s.dialler[c] in s.succeeded)
    && (forall c :: c in s.doomed ==> c in s.dialler && s.dialler[c] in s.succeeded)
    // every open connection has a goroutine that is going to close it
    && (forall c :: c in s.open ==> c in s.dialler && (c in s.readers || HeldByDialler(s, c)))
  }

  predicate HeldByDialler(s: System, c: Conn)
    requires c in s.dialler
  {
    var a := s.dialler[c];
    a in s.attempts && Holding(s.attempts[a]) && s.attempts[a].stage.conn == c
  }

  ghost predicate Valid(s: System) {
    TablesOk(s) && AttemptsOk(s) && ConnsOk(s)
  }

  // ---------------------------------------------------------------- every step keeps the invariant

  lemma TablesKeptByAttempts(s: System, e: Step)
    requires Valid(s) && (e.Connect? || e.DialSucceeds? || e.DialFails? || e.FinishAttempt?)
    ensures TablesOk(Next(s, e))
  {
  }

  lemma TablesKeptByTheRest(s: System, e: Step)
    requires Valid(s) && !(e.Connect? || e.DialSucceeds? || e.DialFails? || e.FinishAttempt?)
    ensures TablesOk(Next(s, e))
  {
  }

  lemma TablesKept(s: System, e: Step)
    requires Valid(s)
    ensures TablesOk(Next(s, e))
  {
    if e.Connect? || e.DialSucceeds? || e.DialFails? || e.FinishAttempt? {
      TablesKeptByAttempts(s, e);
    } else {
      TablesKeptByTheRest(s, e);
    }
  }

  lemma AttemptsKeptByAttempts(s: System, e: Step)
    requires Valid(s) && (e.Connect? || e.DialSucceeds? || e.DialFails? || e.FinishAttempt?)
    ensures AttemptsOk(Next(s, e))
  {
  }

  lemma AttemptsKeptByTheRest(s: System, e: Step)
    requires Valid(s) && !(e.Connect? || e.DialSucceeds? || e.DialFails? || e.FinishAttempt?)
    ensures AttemptsOk(Next(s, e))
  {
  }

  lemma AttemptsKept(s: System, e: Step)
    requires Valid(s)
    ensures AttemptsOk(Next(s, e))
  {
    if e.Connect? || e.DialSucceeds? || e.DialFails? || e.FinishAttempt? {
      AttemptsKeptByAttempts(s, e);
    } else {
      AttemptsKeptByTheRest(s, e);
    }
  }

  lemma ConnsKeptByConnecting(s: System, e: Step)
    requires Valid(s) && (e.Connect? || e.DialFails?)
    ensures ConnsOk(Next(s, e))
  {
  }

  lemma ConnsKeptByDialling(s: System, e: Step)
    requires Valid(s) && e.DialSucceeds?
    ensures ConnsOk(Next(s, e))
  {
  }

  lemma ConnsKeptByFinishing(s: System, e: Step)
    requires Valid(s) && e.FinishAttempt?
    ensures ConnsOk(Next(s, e))
  {
  }

  lemma ConnsKeptByInstalling(s: System, e: Step)
    requires Valid(s) && (e.TryInstall? || e.CloseRejected?)
    ensures ConnsOk(Next(s, e))
  {
  }

  lemma ConnsKept(s: System, e: Step)
    requires Valid(s)
    ensures ConnsOk(Next(s, e))
  {
    if e.Connect? || e.DialFails? {
      ConnsKeptByConnecting(s, e);
    } else if e.DialSucceeds? {
      ConnsKeptByDialling(s, e);
    } else if e.FinishAttempt? {
      ConnsKeptByFinishing(s, e);
    } else if e.TryInstall? || e.CloseRejected? {
      ConnsKeptByInstalling(s, e);
    }
  }

  lemma NextKeepsValid(s: System, e: Step)
    requires Valid(s)
    ensures Valid(Next(s, e))
  {
    TablesKept(s, e);
    AttemptsKept(s, e);
    ConnsKept(s, e);
  }

  /** The invariant holds over every interleaving. */
  lemma {:induction false} EveryRunValid(s: System, es: seq<Step>)
    requires Valid(s)
    ensures Valid(Run(s, es))
    decreases |es|
  {
    if es != [] {
      NextKeepsValid(s, es[0]);
      EveryRunValid(Next(s, es[0]), es[1..]);
    }
  }

  // ---------------------------------------------------------------- what the invariant gives

  /** A session appears only through the attempt registered for its id at that time, with the connection it dialled. */
  lemma OnlyRegisteredAttemptInstalls(s: System, e: Step, id: Id)
    requires Valid(s)
    requires id in Next(s, e).tables.sessions
    requires id !in s.tables.sessions || s.tables.sessions[id] != Next(s, e).tables.sessions[id]
    ensures e.TryInstall? && Current(s.tables, id, e.a) && e.a !in s.cancelled
    ensures var c := Next(s, e).tables.sessions[id]; c in s.dialler && s.dialler[c] == e.a
  {
    SessionsOnlyGrowByInstall(s, e);
  }

  lemma SessionsOnlyGrowByInstall(s: System, e: Step)
    ensures !e.TryInstall? ==>
      var before, after := s.tables.sessions, Next(s, e).tables.sessions;
      forall id :: id in after ==> id in before && before[id] == after[id]
  {
  }

  /** From Stop on nothing connects and nothing is connected, whatever is still under way. */
  lemma {:induction false} AfterStopTablesStayEmpty(s: System, es: seq<Step>)
    requires Valid(s) && s.tables.stopped
    ensures Run(s, es).tables == Tables(map[], map[], true)
    decreases |es|
  {
    if es != [] {
      NextKeepsValid(s, es[0]);
      AfterStopTablesStayEmpty(Next(s, es[0]), es[1..]);
    }
  }

  /** Over every interleaving from a new outlet on. */
  lemma OutletRuns(es: seq<Step>)
    ensures var s := Run(START, es);
      // no id is both connecting and connected; a cancelled attempt never succeeds
      && s.tables.sessions.Keys !! s.tables.connecting.Keys
      && s.cancelled !! s.succeeded
      // the connection of an attempt that has ended without installing it is closed
      && (forall c :: c in s.dialler && s.dialler[c] !in s.attempts && s.dialler[c] !in s.succeeded ==> c !in s.open)
      // once the goroutines have ended no connection is left open
      && (s.attempts == map[] && s.readers == map[] ==> s.open == {})
  {
    EveryRunValid(START, es);
  }

  /** A connect message starts an attempt of its own, unless the id is taken or the outlet stopped. */
  lemma ConnectDecides(s: System, id: Id)
    ensures var t, r := s.tables, Next(s, Connect(id));
      if t.stopped || id in t.sessions || id in t.connecting then r == s
      else
        && r.tables == t.(connecting := t.connecting[id := s.nextAttempt])
        && r.attempts == s.attempts[s.nextAttempt := Goroutine(id, Dialing)]
        && r.open == s.open && r.readers == s.readers && r.cancelled == s.cancelled && r.succeeded == s.succeeded
  {
  }

  /** A session is installed exactly for the attempt that is registered, while not stopped and the id is free. */
  lemma InstallsIff(t: Tables, id: Id, a: Attempt, c: Conn)
    ensures var (r, ok) := Install(t, id, a, c);
      && (ok <==> !t.stopped && id in t.connecting && t.connecting[id] == a && id !in t.sessions)
      && (!ok ==> r == t)
      && (ok ==> r == t.(connecting := t.connecting - {id}, sessions := t.sessions[id := c]))
  {
  }

  /** Stop, the first time, empties both tables for good: sessions are to be closed, attempts cancelled. */
  lemma StopEmpties(s: System)
    ensures var t, r := s.tables, Next(s, Stop);
      && r.tables.stopped
      && (!t.stopped ==>
            && r.tables.connecting == map[] && r.tables.sessions == map[]
            && (forall id :: id in t.sessions ==> t.sessions[id] in r.doomed)
            && (forall id :: id in t.connecting ==> t.connecting[id] in r.cancelled))
  {
  }

  /** A connection that is to be closed is closed once. */
  lemma DoomedIsClosed(s: System, c: Conn)
    ensures var r := Next(s, CloseDoomed(c));
      && c !in r.doomed && (c in s.doomed ==> c !in r.open && r.open + {c} == s.open + {c})
      && (c !in s.doomed ==> r == s)
  {
  }

  /** Only a disconnect for its id, Stop, or its own success or end takes an attempt's registration away. */
  lemma RegistrationStays(s: System, e: Step, id: Id, a: Attempt)
    requires Valid(s) && Current(s.tables, id, a)
    requires e != DisconnectMessage(id) && e != Stop && e != TryInstall(a) && e != FinishAttempt(a)
    ensures Current(Next(s, e).tables, id, a)
  {
  }

  lemma {:induction false} CancelledStays(s: System, es: seq<Step>, a: Attempt)
    requires a in s.cancelled
    ensures a in Run(s, es).cancelled
    decreases |es|
  {
    if es != [] {
      CancelledStays(Next(s, es[0]), es[1..], a);
    }
  }

  /** A disconnect that meets a dialling attempt, or a Stop, ends it: whatever happens then, it installs nothing. */
  lemma DisconnectedNeverInstalls(s: System, id: Id, e: Step, es: seq<Step>)
    requires Valid(s) && id in s.tables.connecting && (e == DisconnectMessage(id) || (e == Stop && !s.tables.stopped))
    ensures var a, r := s.tables.connecting[id], Run(Next(s, e), es);
      && a in r.cancelled && a !in r.succeeded
      && forall c :: c in r.readers && c in r.dialler ==> r.dialler[c] != a
  {
    var a := s.tables.connecting[id];
    NextKeepsValid(s, e);
    EveryRunValid(Next(s, e), es);
    CancelledStays(Next(s, e), es, a);
  }

  function StepsLeft(stage: Stage): nat {
    match stage
    case Dialed(_) => 3
    case Finishing => 1
    case _ => 2
  }

  /** What an attempt does next, if its dial fails. */
  function NextOf(s: System, a: Attempt): Step
    requires a in s.attempts
  {
    match s.attempts[a].stage
    case Dialing => DialFails(a)
    case Dialed(_) => TryInstall(a)
    case Rejected(_) => CloseRejected(a)
    case Finishing => FinishAttempt(a)
  }

  lemma AttemptGoesOn(s: System, a: Attempt)
    requires Valid(s) && s.tables.stopped && a in s.attempts
    ensures var r := Next(s, NextOf(s, a));
      && r.tables.stopped && r.readers == s.readers && r.attempts - {a} == s.attempts - {a}
      && (a in r.attempts <==> !s.attempts[a].stage.Finishing?)
      && (a in r.attempts ==> StepsLeft(r.attempts[a].stage) < StepsLeft(s.attempts[a].stage))
  {
  }

  /** After Stop an attempt, however far it has come, ends in a few steps of its own. */
  lemma {:induction false} AttemptEnds(s: System, a: Attempt) returns (es: seq<Step>)
    requires Valid(s) && s.tables.stopped && a in s.attempts
    ensures |es| <= StepsLeft(s.attempts[a].stage)
    ensures Run(s, es).attempts == s.attempts - {a} && Run(s, es).readers == s.readers
    ensures Valid(Run(s, es)) && Run(s, es).tables.stopped
    decreases StepsLeft(s.attempts[a].stage)
  {
    var e := NextOf(s, a);
    AttemptGoesOn(s, a);
    NextKeepsValid(s, e);
    var later: seq<Step> := [];
    if a in Next(s, e).attempts {
      later := AttemptEnds(Next(s, e), a);
    } else {
      assert Next(s, e).attempts - {a} == Next(s, e).attempts;
    }
    es := [e] + later;
    assert es[1..] == later;
  }

  lemma {:induction false} RunSplit(s: System, a: seq<Step>, b: seq<Step>)
    ensures Run(s, a + b) == Run(Run(s, a), b)
    decreases |a|
  {
    if a == [] {
      assert a + b == b;
    } else {
      assert (a + b)[1..] == a[1..] + b;
      RunSplit(Next(s, a[0]), a[1..], b);
    }
  }

  /** So after Stop everything can come to its end, and then no connection is open. */
  lemma {:induction false} StopDrains(s: System) returns (es: seq<Step>)
    requires Valid(s) && s.tables.stopped
    ensures var r := Run(s, es); r.attempts == map[] && r.readers == map[] && r.open == {}
    decreases |s.attempts| + |s.readers|
  {
    if s.attempts != map[] {
      var a :| a in s.attempts;
      var first := AttemptEnds(s, a);
      FewerKeys(s.attempts, a);
      var later := StopDrains(Run(s, first));
      es := first + later;
      RunSplit(s, first, later);
    } else if s.readers != map[] {
      var c :| c in s.readers;
      NextKeepsValid(s, ReaderEnds(c));
      FewerKeys(s.readers, c);
      var later := StopDrains(Next(s, ReaderEnds(c)));
      es := [ReaderEnds(c)] + later;
      assert es[1..] == later;
    } else {
      es := [];
    }
  }

  lemma FewerKeys<K, V>(m: map<K, V>, k: K)
    requires k in m
    ensures |m - {k}| < |m|
  {
    assert (m - {k}).Keys == m.Keys - {k};
    assert |(m - {k}).Keys| == |m - {k}| && |m.Keys| == |m|;
  }

  // ---------------------------------------------------------------- session ids that are not reused

  ghost predicate FreshSteps(s: System, es: seq<Step>)
    decreases |es|
  {
    es == [] || ((es[0].Connect? ==> es[0].id !in s.usedIds) && FreshSteps(Next(s, es[0]), es[1..]))
  }

  /** With an id used once there is one attempt and one connection for it. */
  ghost predicate OneEach(s: System) {
    OneGoroutineEach(s) && ReadersAccounted(s)
  }

  ghost predicate OneGoroutineEach(s: System) {
    && (forall a, b :: a in s.attempts && b in s.attempts && s.attempts[a].id == s.attempts[b].id ==> a == b)
    && (forall c, d :: c in s.readers && d in s.readers && s.readers[c] == s.readers[d] ==> c == d)
    && (forall c, a :: c in s.readers && a in s.attempts && s.readers[c] == s.attempts[a].id ==>
          s.attempts[a].stage.Finishing?)
  }

  ghost predicate ReadersAccounted(s: System) {
    && (forall c :: c in s.readers ==> s.readers[c] in s.usedIds && s.readers[c] !in s.tables.connecting)
    // a connection still read from is in the table, or about to be closed, or closed
    && (forall c :: c in s.readers && c in s.open && c !in s.doomed ==>
          s.readers[c] in s.tables.sessions && s.tables.sessions[s.readers[c]] == c)
  }

  lemma OneGoroutineKeptByConnecting(s: System, e: Step)
    requires Valid(s) && OneEach(s) && e.Connect? && e.id !in s.usedIds
    ensures OneGoroutineEach(Next(s, e))
  {
  }

  lemma ReadersKeptByConnecting(s: System, e: Step)
    requires Valid(s) && OneEach(s) && e.Connect? && e.id !in s.usedIds
    ensures ReadersAccounted(Next(s, e))
  {
  }

  lemma OneEachKeptByDialling(s: System, e: Step)
    requires Valid(s) && OneEach(s) && (e.DialSucceeds? || e.DialFails?)
    ensures OneEach(Next(s, e))
  {
  }

  lemma OneEachKeptByFinishing(s: System, e: Step)
    requires Valid(s) && OneEach(s) && e.FinishAttempt?
    ensures OneEach(Next(s, e))
  {
  }

  lemma OneGoroutineKeptByInstalling(s: System, e: Step)
    requires Valid(s) && OneEach(s) && e.TryInstall?
    ensures OneGoroutineEach(Next(s, e))
  {
  }

  lemma ReadersKeptByInstalling(s: System, e: Step)
    requires Valid(s) && OneEach(s) && e.TryInstall?
    ensures ReadersAccounted(Next(s, e))
  {
  }

  lemma OneEachKeptByRejecting(s: System, e: Step)
    requires Valid(s) && OneEach(s) && e.CloseRejected?
    ensures OneEach(Next(s, e))
  {
  }

  lemma OneGoroutineKeptByTheRest(s: System, e: Step)
    requires Valid(s) && OneEach(s)
    requires e.DisconnectMessage? || e.DetachById? || e.CloseDoomed? || e.ReaderEnds? || e.Stop?
    ensures OneGoroutineEach(Next(s, e))
  {
  }

  lemma ReadersKeptByTheRest(s: System, e: Step)
    requires Valid(s) && OneEach(s)
    requires e.DisconnectMessage? || e.DetachById? || e.CloseDoomed? || e.ReaderEnds? || e.Stop?
    ensures ReadersAccounted(Next(s, e))
  {
  }

  lemma NextKeepsOneEach(s: System, e: Step)
    requires Valid(s) && OneEach(s)
    requires e.Connect? ==> e.id !in s.usedIds
    ensures OneEach(Next(s, e))
  {
    if e.Connect? {
      OneGoroutineKeptByConnecting(s, e);
      ReadersKeptByConnecting(s, e);
    } else if e.DialSucceeds? || e.DialFails? {
      OneEachKeptByDialling(s, e);
    } else if e.FinishAttempt? {
      OneEachKeptByFinishing(s, e);
    } else if e.TryInstall? {
      OneGoroutineKeptByInstalling(s, e);
      ReadersKeptByInstalling(s, e);
    } else if e.CloseRejected? {
      OneEachKeptByRejecting(s, e);
    } else {
      OneGoroutineKeptByTheRest(s, e);
      ReadersKeptByTheRest(s, e);
    }
  }

  lemma {:induction false} FreshRunOneEach(s: System, es: seq<Step>)
    requires Valid(s) && OneEach(s) && FreshSteps(s, es)
    ensures Valid(Run(s, es)) && OneEach(Run(s, es))
    decreases |es|
  {
    if es != [] {
      NextKeepsValid(s, es[0]);
      NextKeepsOneEach(s, es[0]);
      FreshRunOneEach(Next(s, es[0]), es[1..]);
    }
  }

  /** A reader that ends detaches another connection's session exactly when its id has come to mean that session. */
  ghost predicate DetachesAnother(s: System, c: Conn) {
    c in s.readers
    && var after := Next(s, ReaderEnds(c)).tables;
       exists d :: d != c && Serves(s.tables, s.readers[c], d) && !Serves(after, s.readers[c], d)
  }

  predicate Serves(t: Tables, id: Id, c: Conn) {
    id in t.sessions && t.sessions[id] == c
  }

  lemma ReaderDetachesAnotherIff(s: System, c: Conn)
    requires Valid(s) && c in s.readers
    ensures DetachesAnother(s, c) <==> s.readers[c] in s.tables.sessions && s.tables.sessions[s.readers[c]] != c
  {
    if s.readers[c] in s.tables.sessions && s.tables.sessions[s.readers[c]] != c {
      var d := s.tables.sessions[s.readers[c]];
      assert Serves(s.tables, s.readers[c], d) && !Serves(Next(s, ReaderEnds(c)).tables, s.readers[c], d);
    }
  }

  /** With fresh ids, as NextSessionID gives them, no reader ever does, and no connection is read from unlisted. */
  lemma FreshIdsKeepSessionsApart(es: seq<Step>)
    requires FreshSteps(START, es)
    ensures var s := Run(START, es);
      && (forall c :: c in s.readers ==> !DetachesAnother(s, c))
      && (forall c :: c in s.readers && c in s.open && c !in s.doomed ==> Serves(s.tables, s.readers[c], c))
  {
    FreshRunOneEach(START, es);
    var s := Run(START, es);
    forall c | c in s.readers ensures !DetachesAnother(s, c) {
      ReaderDetachesAnotherIff(s, c);
    }
  }

  lemma RunOf(s: System, e: Step, es: seq<Step>)
    ensures Run(s, [e] + es) == Run(Next(s, e), es)
  {
    assert ([e] + es)[1..] == es;
  }

  /** One connection dialled and installed for id 7. */
  lemma ConnectsSeven(s: System, a: Attempt, c: Conn, es: seq<Step>) returns (t: System)
    requires !s.tables.stopped && 7 !in s.tables.sessions && 7 !in s.tables.connecting
    requires s.nextAttempt == a && s.nextConn == c
    ensures t == s.(tables := Tables(s.tables.sessions[7 := c], s.tables.connecting - {7}, false),
                        attempts := s.attempts[a := Goroutine(7, Finishing)], readers := s.readers[c := 7],
                        open := s.open + {c}, succeeded := s.succeeded + {a}, dialler := s.dialler[c := a],
                        usedIds := s.usedIds + {7}, nextAttempt := a + 1, nextConn := c + 1)
    ensures Run(s, [Connect(7)] + ([DialSucceeds(a)] + ([TryInstall(a)] + es))) == Run(t, es)
  {
    var s1 := Next(s, Connect(7));
    var s2 := Next(s1, DialSucceeds(a));
    RunOf(s, Connect(7), [DialSucceeds(a)] + ([TryInstall(a)] + es));
    RunOf(s1, DialSucceeds(a), [TryInstall(a)] + es);
    RunOf(s2, TryInstall(a), es);
    assert s2.attempts[a := Goroutine(7, Finishing)] == s.attempts[a := Goroutine(7, Finishing)];
    assert s2.tables.connecting - {7} == s.tables.connecting - {7};
    t := Next(s2, TryInstall(a));
  }

  /** The first session of id 7, taken out of the table while its reader is still there. */
  lemma FirstSession(later: seq<Step>) returns (t: System)
    ensures Run(START, [Connect(7)] + ([DialSucceeds(0)] + ([TryInstall(0)] + ([DetachById(7)] + later))))
         == Run(t, later)
    ensures t.tables == Tables(map[], map[], false) && t.nextAttempt == 1 && t.nextConn == 1
    ensures 0 in t.readers && t.readers[0] == 7 && t.doomed == {0}
  {
    var first := ConnectsSeven(START, 0, 0, [DetachById(7)] + later);
    RunOf(first, DetachById(7), later);
    t := Next(first, DetachById(7));
    assert t.tables.sessions == map[];
  }

  lemma SecondSession(s: System)
    requires s.tables == Tables(map[], map[], false) && s.nextAttempt == 1 && s.nextConn == 1
    requires 0 in s.readers && s.readers[0] == 7 && s.doomed == {0}
    ensures var r := Run(s, [Connect(7)] + ([DialSucceeds(1)] + ([TryInstall(1)] + [ReaderEnds(0)])));
      r.tables.sessions == map[] && 1 in r.open && 1 in r.readers && 1 !in r.doomed
  {
    var second := ConnectsSeven(s, 1, 1, [ReaderEnds(0)]);
    RunOf(second, ReaderEnds(0), []);
    assert [ReaderEnds(0)] + [] == [ReaderEnds(0)];
    assert second.tables.sessions.Keys == {7};
  }

  /** With a reused id the reader of the old connection takes the new session out of the table and leaves it open. */
  lemma ReusedIdOrphansTheNewSession()
    ensures var es := [Connect(7)] + ([DialSucceeds(0)] + ([TryInstall(0)] + ([DetachById(7)]
                    + ([Connect(7)] + ([DialSucceeds(1)] + ([TryInstall(1)] + [ReaderEnds(0)]))))));
      var s := Run(START, es);
      s.tables.sessions == map[] && 1 in s.open && 1 in s.readers && 1 !in s.doomed
  {
    var t := FirstSession([Connect(7)] + ([DialSucceeds(1)] + ([TryInstall(1)] + [ReaderEnds(0)])));
    SecondSession(t);
  }
}
