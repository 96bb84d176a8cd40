/**
 Calls of the tunnel manager that overlap: internal/proxy/manager.go. The server calls UpdateTunnel from the goroutine
 of each session, so nothing keeps one call from starting while another is under way.

 Every lock-held region is one step, and so is every report. What a call still has to do after its first region is a
 list of acts; a worker is a goroutine in such a call.
 */
module TunnelSteps {
  import opened TunnelModel
  import opened TunnelSync

  datatype Act =
    | Tell(id: Id, k: Kind, running: bool)   // reportRuntime
    | Look(k: Kind, t: Tunnel)               // the first look of startInletIfNeeded or startOutletIfNeeded
    | Install(k: Kind, t: Tunnel)            // the second look, after the component was made and the inlet started
    | Check(id: Id)                          // the look of reaffirmRuntime

  /** The orders are those in which the maps are ranged over. */
  datatype Call = Modifying(t: Tunnel, isDelete: bool) | Resyncing(ts: seq<Tunnel>, outlets: seq<Id>, inlets: seq<Id>)

  type Worker = nat

  /** toldWhen: whether the component was installed at the moment of its last report. */
  datatype System = System(state: State, workers: map<Worker, seq<Act>>, toldWhen: map<(Id, Kind), bool>)

  datatype Step = Begin(w: Worker, call: Call) | Do(w: Worker, fails: bool)

  // ---------------------------------------------------------------- the first region of a call

  function TableOf(s: State, c: Call): State {
    match c
    case Modifying(t, isDelete) => Changed(s, t, isDelete)
    case Resyncing(ts, _, _) => s.(tunnels := WantedTable(ts))
  }

  function Minus(s: State, k: Kind, ids: set<Id>): State {
    s.WithRunning(k, s.Running(k) - ids)
  }

  /** The table changes and what is no longer wanted is taken out, all under the lock. */
  function FirstRegion(s: State, c: Call): State {
    var t := TableOf(s, c);
    Minus(Minus(t, Outlets, Stopped(s, c, Outlets)), Inlets, Stopped(s, c, Inlets))
  }

  function Stopped(s: State, c: Call, k: Kind): set<Id> {
    var t := TableOf(s, c);
    match c
    case Modifying(x, _) => if Unwanted(t, k, x.id) then {x.id} else {}
    case Resyncing(_, _, _) => AllUnwanted(t, k)
  }

  function StoppedTells(ids: seq<Id>, k: Kind): (r: seq<Act>)
    ensures |r| == |ids|
  {
    seq(|ids|, i requires 0 <= i < |ids| => Tell(ids[i], k, false))
  }

  function Looks(ts: seq<Tunnel>): seq<Act> {
    if ts == [] then [] else [Look(Outlets, ts[0]), Look(Inlets, ts[0])] + Looks(ts[1..])
  }

  function OneIf(id: Id, ids: set<Id>): seq<Id> {
    if id in ids then [id] else []
  }

  function LooksLeft(c: Call): seq<Act> {
    match c
    case Modifying(t, isDelete) => if isDelete then [] else [Look(Outlets, t), Look(Inlets, t), Check(t.id)]
    case Resyncing(ts, _, _) => Looks(ts)
  }

  /** The components the first region took out, in the order in which they are reported. */
  function Order(s: State, c: Call, k: Kind): seq<Id> {
    match c
    case Modifying(t, _) => OneIf(t.id, Stopped(s, c, k))
    case Resyncing(_, outlets, inlets) => if k.Outlets? then outlets else inlets
  }

  /** What is left to do after the first region. */
  function Program(s: State, c: Call): seq<Act> {
    StoppedTells(Order(s, c, Outlets), Outlets) + (StoppedTells(Order(s, c, Inlets), Inlets) + LooksLeft(c))
  }

  predicate Lists(ids: seq<Id>, s: set<Id>) {
    (forall i :: 0 <= i < |ids| ==> ids[i] in s) && (forall id :: id in s ==> id in ids)
  }

  predicate Ordered(s: State, c: Call) {
    Lists(Order(s, c, Outlets), Stopped(s, c, Outlets)) && Lists(Order(s, c, Inlets), Stopped(s, c, Inlets))
  }

  // ---------------------------------------------------------------- the other regions and the reports

  function StateAfter(s: State, a: Act, fails: bool): State {
    match a
    case Tell(id, k, running) => s.Report(id, k, running)
    case Install(k, t) => if !(k.Inlets? && fails) && Needed(s, k, t) then Installed(s, k, t) else s
    case _ => s
  }

  /** An inlet that does not start, or lost its place to another call, is reported as not running. */
  function ActsAfter(s: State, a: Act, fails: bool): seq<Act> {
    match a
    case Look(k, t) => if Needed(s, k, t) then [Install(k, t)] else []
    case Install(k, t) =>
      if !(k.Inlets? && fails) && Needed(s, k, t) then [Tell(t.id, k, true)]
      else if k.Inlets? then [Tell(t.id, k, false)] else []
    case Check(id) =>
      if id == 0 then []
      else
        (if id in s.outlets then [Tell(id, Outlets, true)] else [])
        + (if id in s.inlets then [Tell(id, Inlets, true)] else [])
    case Tell(_, _, _) => []
  }

  function Told(x: System, a: Act): map<(Id, Kind), bool> {
    if a.Tell? && a.id != 0 then x.toldWhen[(a.id, a.k) := a.id in x.state.Running(a.k)] else x.toldWhen
  }

  function Next(x: System, e: Step): System {
    match e
    case Begin(w, c) =>
      if (w in x.workers && x.workers[w] != []) || !Ordered(x.state, c) then x
      else System(FirstRegion(x.state, c), x.workers[w := Program(x.state, c)], x.toldWhen)
    case Do(w, fails) =>
      if w !in x.workers || x.workers[w] == [] then x
      else
        var a, rest := x.workers[w][0], x.workers[w][1..];
        System(StateAfter(x.state, a, fails), x.workers[w := ActsAfter(x.state, a, fails) + rest], Told(x, a))
  }

  function Run(x: System, es: seq<Step>): System {
    if es == [] then x else Next(Run(x, es[..|es| - 1]), es[|es| - 1])
  }

  predicate Quiet(x: System) {
    forall w :: w in x.workers ==> x.workers[w] == []
  }

  function Start(self: Player): System {
    System(State(self, map[], map[], map[], map[]), map[], map[])
  }

  lemma {:induction false} SomeList(ids: set<Id>) returns (l: seq<Id>)
    ensures Lists(l, ids)
  {
    l := [];
    if ids != {} {
      var id :| id in ids;
      var rest := SomeList(ids - {id});
      l := [id] + rest;
      assert l[0] == id && forall i :: 0 < i < |l| ==> l[i] == rest[i - 1];
      forall x | x in ids
        ensures x in l
      {
        if x != id {
          assert x in rest;
        }
      }
    }
  }

  /** Whatever the state, a call can begin: every update does, and every resync in some order of its reports. */
  lemma CallsCanBegin(x: System, w: Worker, t: Tunnel, isDelete: bool, ts: seq<Tunnel>)
    returns (outlets: seq<Id>, inlets: seq<Id>)
    requires w in x.workers ==> x.workers[w] == []
    ensures var c := Modifying(t, isDelete);
      Next(x, Begin(w, c)) == System(FirstRegion(x.state, c), x.workers[w := Program(x.state, c)], x.toldWhen)
    ensures var c := Resyncing(ts, outlets, inlets);
      Next(x, Begin(w, c)) == System(FirstRegion(x.state, c), x.workers[w := Program(x.state, c)], x.toldWhen)
    ensures Lists(outlets, Stopped(x.state, Resyncing(ts, [], []), Outlets))
    ensures Lists(inlets, Stopped(x.state, Resyncing(ts, [], []), Inlets))
  {
    outlets := SomeList(Stopped(x.state, Resyncing(ts, [], []), Outlets));
    inlets := SomeList(Stopped(x.state, Resyncing(ts, [], []), Inlets));
    assert Ordered(x.state, Modifying(t, isDelete));
    assert Ordered(x.state, Resyncing(ts, outlets, inlets));
  }

  // ---------------------------------------------------------------- nothing runs that is not wanted

  lemma FirstRegionTakesOut(s: State, c: Call, k: Kind)
    ensures var r := FirstRegion(s, c);
      && r.self == s.self && r.tunnels == TableOf(s, c).tunnels && r.runtime == s.runtime
      && r.Running(k) == s.Running(k) - Stopped(s, c, k)
  {
  }

  lemma FirstRegionKeyed(s: State, c: Call)
    requires Keyed(s.tunnels)
    ensures Keyed(FirstRegion(s, c).tunnels)
  {
    if c.Resyncing? {
      WantedTableKeyed(c.ts);
    }
  }

  lemma FirstRegionKeeps(s: State, c: Call, k: Kind)
    requires NoneUnwanted(s, k)
    ensures NoneUnwanted(FirstRegion(s, c), k)
  {
    FirstRegionTakesOut(s, c, k);
    var t, r := TableOf(s, c), FirstRegion(s, c);
    forall id | id in r.Running(k)
      ensures Wanted(r, k, id, r.Running(k)[id].description)
    {
      assert id in s.Running(k) && id !in Stopped(s, c, k);
      if c.Modifying? && id != c.t.id {
        assert Wanted(s, k, id, s.Running(k)[id].description);
      } else {
        assert !Unwanted(t, k, id);
      }
    }
  }

  lemma ActInstalls(s: State, a: Act, fails: bool, k: Kind)
    ensures var r := StateAfter(s, a, fails);
      && r.self == s.self && r.tunnels == s.tunnels
      && r.Running(k) == if a.Install? && a.k == k && !(k.Inlets? && fails) && Needed(s, k, a.t)
                         then s.Running(k)[a.t.id := Component(Description(k, a.t), a.t)] else s.Running(k)
  {
    if a.Install? {
      InstalledRuns(s, a.k, a.t, k);
    }
  }

  lemma ActKeeps(s: State, a: Act, fails: bool, k: Kind)
    requires NoneUnwanted(s, k)
    ensures NoneUnwanted(StateAfter(s, a, fails), k)
  {
    ActInstalls(s, a, fails, k);
    var r := StateAfter(s, a, fails);
    forall id | id in r.Running(k)
      ensures Wanted(r, k, id, r.Running(k)[id].description)
    {
      if id in s.Running(k) {
        assert Wanted(s, k, id, s.Running(k)[id].description);
      }
    }
  }

  /** Over every interleaving of calls, at every moment, nothing runs that the table does not ask for. */
  lemma {:induction false} NeverUnwanted(x: System, es: seq<Step>, k: Kind)
    requires Keyed(x.state.tunnels) && NoneUnwanted(x.state, k)
    ensures var r := Run(x, es).state;
      r.self == x.state.self && Keyed(r.tunnels) && NoneUnwanted(r, k)
  {
    if es != [] {
      NeverUnwanted(x, es[..|es| - 1], k);
      var m := Run(x, es[..|es| - 1]);
      match es[|es| - 1]
      case Begin(w, c) =>
        FirstRegionTakesOut(m.state, c, k);
        FirstRegionKeyed(m.state, c);
        FirstRegionKeeps(m.state, c, k);
      case Do(w, fails) =>
        if w in m.workers && m.workers[w] != [] {
          ActKeeps(m.state, m.workers[w][0], fails, k);
          ActInstalls(m.state, m.workers[w][0], fails, k);
        }
    }
  }

  // ---------------------------------------------------------------- nothing wanted is missing in the end

  /** Some call is still going to look for this tunnel's component, or to install it. */
  ghost predicate Promised(x: System, k: Kind, t: Tunnel) {
    exists w :: w in x.workers && (Look(k, t) in x.workers[w] || Install(k, t) in x.workers[w])
  }

  ghost predicate Owed(x: System, k: Kind) {
    var s := x.state;
    forall id :: id in s.tunnels && ShouldRun(s.self, k, s.tunnels[id]) && id !in s.Running(k) ==>
      Promised(x, k, s.tunnels[id])
  }

  lemma {:induction false} LooksForAll(ts: seq<Tunnel>, i: nat, k: Kind)
    requires i < |ts|
    ensures Look(k, ts[i]) in Looks(ts)
  {
    if i == 0 {
      assert Looks(ts)[if k.Outlets? then 0 else 1] == Look(k, ts[0]);
    } else {
      LooksForAll(ts[1..], i - 1, k);
      assert ts[1..][i - 1] == ts[i];
    }
  }

  /** The call that writes a tunnel into the table is going to look for its components. */
  lemma ProgramLooks(s: State, c: Call, k: Kind, id: Id)
    requires id in TableOf(s, c).tunnels && (c.Modifying? ==> id == c.t.id && !c.isDelete)
    ensures Look(k, TableOf(s, c).tunnels[id]) in Program(s, c)
  {
    var looks := LooksLeft(c);
    if c.Modifying? {
      assert looks[if k.Outlets? then 0 else 1] == Look(k, c.t);
    } else {
      WantedTableKeyed(c.ts);
      var i :| 0 <= i < |c.ts| && c.ts[i] == WantedTable(c.ts)[id];
      LooksForAll(c.ts, i, k);
    }
    assert Look(k, TableOf(s, c).tunnels[id]) in StoppedTells(Order(s, c, Inlets), Inlets) + looks;
  }

  lemma OldPromiseKept(x: System, w: Worker, c: Call, k: Kind, t: Tunnel)
    requires Promised(x, k, t) && Next(x, Begin(w, c)) != x
    ensures Promised(Next(x, Begin(w, c)), k, t)
  {
    var v :| v in x.workers && (Look(k, t) in x.workers[v] || Install(k, t) in x.workers[v]);
    assert v != w;
    assert Next(x, Begin(w, c)).workers[v] == x.workers[v];
  }

  lemma NewPromiseMade(x: System, w: Worker, c: Call, k: Kind, id: Id)
    requires Next(x, Begin(w, c)) != x
    requires id in TableOf(x.state, c).tunnels && (c.Modifying? ==> id == c.t.id && !c.isDelete)
    ensures Promised(Next(x, Begin(w, c)), k, TableOf(x.state, c).tunnels[id])
  {
    ProgramLooks(x.state, c, k, id);
    assert Next(x, Begin(w, c)).workers[w] == Program(x.state, c);
  }

  lemma BeginKeepsOwed(x: System, w: Worker, c: Call, k: Kind)
    requires Owed(x, k) && NoneUnwanted(x.state, k) && Keyed(x.state.tunnels)
    ensures Owed(Next(x, Begin(w, c)), k)
  {
    var y := Next(x, Begin(w, c));
    if y != x {
      FirstRegionTakesOut(x.state, c, k);
      forall id | id in y.state.tunnels && ShouldRun(y.state.self, k, y.state.tunnels[id]) && id !in y.state.Running(k)
        ensures Promised(y, k, y.state.tunnels[id])
      {
        if c.Modifying? && (id != c.t.id || c.isDelete) {
          assert id !in x.state.Running(k);
          OldPromiseKept(x, w, c, k, x.state.tunnels[id]);
        } else {
          NewPromiseMade(x, w, c, k, id);
        }
      }
    }
  }

  lemma DoKeepsOwed(x: System, w: Worker, fails: bool, k: Kind)
    requires Owed(x, k) && Keyed(x.state.tunnels) && (k.Outlets? || !fails)
    ensures Owed(Next(x, Do(w, fails)), k)
  {
    var y := Next(x, Do(w, fails));
    if w in x.workers && x.workers[w] != [] {
      ActInstalls(x.state, x.workers[w][0], fails, k);
      forall id | id in y.state.tunnels && ShouldRun(y.state.self, k, y.state.tunnels[id]) && id !in y.state.Running(k)
        ensures Promised(y, k, y.state.tunnels[id])
      {
        var t := x.state.tunnels[id];
        var v :| v in x.workers && (Look(k, t) in x.workers[v] || Install(k, t) in x.workers[v]);
        if v == w {
          PromiseKept(x, w, fails, k, t);
        } else {
          assert y.workers[v] == x.workers[v];
        }
      }
    }
  }

  lemma PromiseKept(x: System, w: Worker, fails: bool, k: Kind, t: Tunnel)
    requires w in x.workers && (Look(k, t) in x.workers[w] || Install(k, t) in x.workers[w])
    requires k.Outlets? || !fails
    requires Needed(x.state, k, t) && t.id !in Next(x, Do(w, fails)).state.Running(k)
    ensures Promised(Next(x, Do(w, fails)), k, t)
  {
    var y, a, rest := Next(x, Do(w, fails)), x.workers[w][0], x.workers[w][1..];
    ActInstalls(x.state, a, fails, k);
    assert x.workers[w] == [a] + rest;
    assert a != Install(k, t);
    if a == Look(k, t) {
      assert ActsAfter(x.state, a, fails) == [Install(k, t)];
      assert y.workers[w][0] == Install(k, t);
    } else {
      assert Look(k, t) in rest || Install(k, t) in rest;
      assert y.workers[w] == ActsAfter(x.state, a, fails) + rest;
    }
  }

  predicate NoStartFails(es: seq<Step>) {
    forall i :: 0 <= i < |es| && es[i].Do? ==> !es[i].fails
  }

  lemma {:induction false} AlwaysOwed(x: System, es: seq<Step>, k: Kind)
    requires Keyed(x.state.tunnels) && NoneUnwanted(x.state, k) && Owed(x, k) && (k.Outlets? || NoStartFails(es))
    ensures Owed(Run(x, es), k)
  {
    if es != [] {
      var before := es[..|es| - 1];
      AlwaysOwed(x, before, k);
      NeverUnwanted(x, before, k);
      match es[|es| - 1]
      case Begin(w, c) => BeginKeepsOwed(Run(x, before), w, c, k);
      case Do(w, fails) => DoKeepsOwed(Run(x, before), w, fails, k);
    }
  }

  /**
   When every call is done, however the calls overlapped and whatever inlets failed to start, nothing runs that is not
   wanted and no outlet is missing; nor is an inlet, if none failed.
   */
  lemma QuietMeansReconciled(self: Player, es: seq<Step>)
    requires Quiet(Run(Start(self), es))
    ensures var s := Run(Start(self), es).state;
      && s.self == self && Keyed(s.tunnels)
      && NoneUnwanted(s, Inlets) && NoneUnwanted(s, Outlets) && NoneMissing(s, Outlets)
    ensures NoStartFails(es) ==> Reconciled(Run(Start(self), es).state)
  {
    NeverUnwanted(Start(self), es, Inlets);
    NeverUnwanted(Start(self), es, Outlets);
    QuietMissesNone(self, es, Outlets);
    if NoStartFails(es) {
      QuietMissesNone(self, es, Inlets);
    }
  }

  lemma QuietMissesNone(self: Player, es: seq<Step>, k: Kind)
    requires Quiet(Run(Start(self), es)) && (k.Outlets? || NoStartFails(es))
    ensures NoneMissing(Run(Start(self), es).state, k)
  {
    AlwaysOwed(Start(self), es, k);
  }

  /** Said of the table alone: when every call is done, the components are where it says, inlets if no start failed. */
  lemma QuietWhereTheTableSays(self: Player, es: seq<Step>)
    requires Quiet(Run(Start(self), es))
    ensures var s := Run(Start(self), es).state;
      && s.self == self && OutletsAtTheSender(s) && InletsOnlyAtTheReceiver(s)
      && (NoStartFails(es) ==> InletsAtTheReceiver(s))
  {
    QuietMeansReconciled(self, es);
    WantedMeansHere(Run(Start(self), es).state);
  }

  /** At any moment, however calls overlap, nothing runs but at its end of an enabled tunnel. */
  lemma NeverElsewhere(self: Player, es: seq<Step>, id: Id)
    ensures var s := Run(Start(self), es).state;
      && (id in s.inlets ==> id in s.tunnels && s.tunnels[id].enabled && s.tunnels[id].receiver == self)
      && (id in s.outlets ==> id in s.tunnels && s.tunnels[id].enabled && s.tunnels[id].sender == self)
  {
    NeverUnwanted(Start(self), es, Inlets);
    NeverUnwanted(Start(self), es, Outlets);
    var s := Run(Start(self), es).state;
    assert id in s.Running(Inlets) ==> Wanted(s, Inlets, id, s.Running(Inlets)[id].description);
    assert id in s.Running(Outlets) ==> Wanted(s, Outlets, id, s.Running(Outlets)[id].description);
  }

  /**
   So overlapping calls end where one resync of the table they leave ends: same keys, same descriptions. For outlets
   whatever fails, for inlets if none failed to start.
   */
  lemma OverlappingCallsEqualOneResync(self: Player, es: seq<Step>, other: State, ts: seq<Tunnel>, k: Kind)
    requires Quiet(Run(Start(self), es)) && (k.Outlets? || NoStartFails(es)) && other.self == self
    requires WantedTable(ts) == Run(Start(self), es).state.tunnels
    ensures Descriptions(Run(Start(self), es).state, k) == Descriptions(Sync(other, ts, {}), k)
  {
    QuietMeansReconciled(self, es);
    SyncReconcilesKind(other, ts, {}, k);
    SameTableSameDescriptions(Run(Start(self), es).state, Sync(other, ts, {}), k);
  }

  // ---------------------------------------------------------------- the reports

  ghost predicate TellPending(x: System, id: Id, k: Kind) {
    exists w, running :: w in x.workers && Tell(id, k, running) in x.workers[w]
  }

  predicate InstalledWhenTold(x: System, id: Id, k: Kind) {
    (id, k) in x.toldWhen && x.toldWhen[(id, k)]
  }

  /** What has changed since its last report is still going to be reported. */
  ghost predicate ToldOrPending(x: System, k: Kind) {
    && x.toldWhen.Keys == x.state.runtime.Keys
    && forall id :: id != 0 ==> (id in x.state.Running(k) <==> InstalledWhenTold(x, id, k)) || TellPending(x, id, k)
  }

  lemma ProgramTells(s: State, c: Call, id: Id, k: Kind)
    requires Ordered(s, c) && id in Stopped(s, c, k)
    ensures Tell(id, k, false) in Program(s, c)
  {
    var ids := Order(s, c, k);
    assert id in ids;
    var i :| 0 <= i < |ids| && ids[i] == id;
    assert StoppedTells(ids, k)[i] == Tell(id, k, false);
    if k.Inlets? {
      assert Tell(id, k, false) in StoppedTells(ids, k) + LooksLeft(c);
    }
  }

  lemma BeginKeepsTold(x: System, w: Worker, c: Call, k: Kind)
    requires ToldOrPending(x, k)
    ensures ToldOrPending(Next(x, Begin(w, c)), k)
  {
    var y := Next(x, Begin(w, c));
    if y != x {
      FirstRegionTakesOut(x.state, c, k);
      forall id | id != 0
        ensures (id in y.state.Running(k) <==> InstalledWhenTold(y, id, k)) || TellPending(y, id, k)
      {
        if id in Stopped(x.state, c, k) {
          ProgramTells(x.state, c, id, k);
          assert y.workers[w] == Program(x.state, c);
        } else if TellPending(x, id, k) {
          var v, running :| v in x.workers && Tell(id, k, running) in x.workers[v];
          assert v != w;
          assert y.workers[v] == x.workers[v];
        }
      }
    }
  }

  lemma DoKeepsTold(x: System, w: Worker, fails: bool, k: Kind)
    requires ToldOrPending(x, k)
    ensures ToldOrPending(Next(x, Do(w, fails)), k)
  {
    var y := Next(x, Do(w, fails));
    if w in x.workers && x.workers[w] != [] {
      var a, rest := x.workers[w][0], x.workers[w][1..];
      ActInstalls(x.state, a, fails, k);
      forall id | id != 0
        ensures (id in y.state.Running(k) <==> InstalledWhenTold(y, id, k)) || TellPending(y, id, k)
      {
        DoKeepsToldOf(x, w, fails, id, k);
      }
    }
  }

  lemma DoKeepsToldOf(x: System, w: Worker, fails: bool, id: Id, k: Kind)
    requires w in x.workers && x.workers[w] != [] && id != 0
    requires (id in x.state.Running(k) <==> InstalledWhenTold(x, id, k)) || TellPending(x, id, k)
    ensures var y := Next(x, Do(w, fails));
      (id in y.state.Running(k) <==> InstalledWhenTold(y, id, k)) || TellPending(y, id, k)
  {
    var y, a, rest := Next(x, Do(w, fails)), x.workers[w][0], x.workers[w][1..];
    ActInstalls(x.state, a, fails, k);
    assert y.workers[w] == ActsAfter(x.state, a, fails) + rest;
    if a.Install? && a.k == k && a.t.id == id && id !in x.state.Running(k) && id in y.state.Running(k) {
      assert ActsAfter(x.state, a, fails) == [Tell(id, k, true)];
      assert y.workers[w][0] == Tell(id, k, true);
    } else if !(a.Tell? && a.id == id && a.k == k) && TellPending(x, id, k) {
      var v, running :| v in x.workers && Tell(id, k, running) in x.workers[v];
      if v == w {
        assert x.workers[w] == [a] + rest;
        assert Tell(id, k, running) in rest;
      } else {
        assert y.workers[v] == x.workers[v];
      }
    }
  }

  lemma {:induction false} AlwaysToldOrPending(x: System, es: seq<Step>, k: Kind)
    requires ToldOrPending(x, k)
    ensures ToldOrPending(Run(x, es), k)
  {
    if es != [] {
      var before := es[..|es| - 1];
      AlwaysToldOrPending(x, before, k);
      match es[|es| - 1]
      case Begin(w, c) => BeginKeepsTold(Run(x, before), w, c, k);
      case Do(w, fails) => DoKeepsTold(Run(x, before), w, fails, k);
    }
  }

  /** When the last report of a component was made, the component was no longer as it said. */
  predicate WrongWhenMade(x: System, id: Id, k: Kind) {
    (id, k) in x.state.runtime && x.state.runtime[(id, k)] != InstalledWhenTold(x, id, k)
  }

  /**
   When every call is done, the last report of a component says running exactly when it is installed, if and only if
   that report was right when it was made; whatever inlets failed to start and however the calls overlapped. What that
   means for the order of regions and reports is in TunnelReports.
   */
  lemma QuietReportsTrueIff(self: Player, es: seq<Step>, id: Id, k: Kind)
    requires Quiet(Run(Start(self), es)) && id != 0
    ensures var x := Run(Start(self), es);
      var right := id in x.state.Running(k) <==> (id, k) in x.state.runtime && x.state.runtime[(id, k)];
      right <==> !WrongWhenMade(x, id, k)
  {
    AlwaysToldOrPending(Start(self), es, k);
  }

  lemma RunOne(x: System, es: seq<Step>, e: Step)
    ensures Run(x, es + [e]) == Next(Run(x, es), e)
  {
    assert (es + [e])[..|es|] == es;
  }

  lemma DoStep(x: System, w: Worker, a: Act, acts: seq<Act>, rest: seq<Act>)
    requires w in x.workers && x.workers[w] == [a] + rest && ActsAfter(x.state, a, false) == acts
    ensures Next(x, Do(w, false)) == System(StateAfter(x.state, a, false), x.workers[w := acts + rest], Told(x, a))
  {
    assert x.workers[w][1..] == rest;
  }

  /** A call that updates a tunnel with an outlet, up to the moment before it reports the outlet it installed. */
  function Installing(t: Tunnel): seq<Step> {
    [Begin(0, Modifying(t, false))] + [Do(0, false)] + [Do(0, false)]
  }

  /** A call that deletes it meanwhile, to its end; and then the rest of the first. */
  function Overtaking(t: Tunnel): seq<Step> {
    Installing(t) + [Begin(1, Modifying(t, true))] + [Do(1, false)] + [Do(0, false)] + [Do(0, false)] + [Do(0, false)]
  }

  lemma AfterInstalling(self: Player, t: Tunnel)
    requires ShouldRun(self, Outlets, t) && t.receiver != self && t.id != 0
    ensures Run(Start(self), Installing(t)) ==
      System(State(self, map[t.id := t], map[], map[t.id := Component(OutletDescription(t), t)], map[]),
             map[0 := [Tell(t.id, Outlets, true)] + [Look(Inlets, t), Check(t.id)]], map[])
  {
    var begin := Begin(0, Modifying(t, false));
    RunOne(Start(self), [], begin);
    assert [] + [begin] == [begin];
    RunOne(Start(self), [begin], Do(0, false));
    RunOne(Start(self), [begin] + [Do(0, false)], Do(0, false));
    BeginsUndisturbed(self, t);
    InstallsUndisturbed(State(self, map[t.id := t], map[], map[], map[]), t, [Look(Inlets, t), Check(t.id)]);
  }

  lemma InstallsUndisturbed(s: State, t: Tunnel, rest: seq<Act>)
    requires s.outlets == map[] && t.id in s.tunnels && s.tunnels[t.id] == t && ShouldRun(s.self, Outlets, t)
    ensures var x := System(s, map[0 := [Look(Outlets, t)] + rest], map[]);
      Next(Next(x, Do(0, false)), Do(0, false)) ==
      System(s.(outlets := map[t.id := Component(OutletDescription(t), t)]),
             map[0 := [Tell(t.id, Outlets, true)] + rest], map[])
  {
    var x := System(s, map[0 := [Look(Outlets, t)] + rest], map[]);
    DoStep(x, 0, Look(Outlets, t), [Install(Outlets, t)], rest);
    var y := System(s, map[0 := [Install(Outlets, t)] + rest], map[]);
    assert Next(x, Do(0, false)) == y by {
      assert x.workers[0 := [Install(Outlets, t)] + rest] == y.workers;
    }
    DoStep(y, 0, Install(Outlets, t), [Tell(t.id, Outlets, true)], rest);
    assert y.workers[0 := [Tell(t.id, Outlets, true)] + rest] == map[0 := [Tell(t.id, Outlets, true)] + rest];
  }

  lemma BeginsUndisturbed(self: Player, t: Tunnel)
    ensures Next(Start(self), Begin(0, Modifying(t, false))) ==
      System(State(self, map[t.id := t], map[], map[], map[]),
             map[0 := [Look(Outlets, t)] + [Look(Inlets, t), Check(t.id)]], map[])
  {
    var s, c := Start(self).state, Modifying(t, false);
    assert Stopped(s, c, Outlets) == {} && Stopped(s, c, Inlets) == {};
    assert Program(s, c) == [Look(Outlets, t)] + [Look(Inlets, t), Check(t.id)];
    assert FirstRegion(s, c) == State(self, map[t.id := t], map[], map[], map[]);
  }

  /** The outlet goes while its installer has not reported it yet. */
  lemma BeginsDeleting(self: Player, t: Tunnel, w: seq<Act>)
    requires ShouldRun(self, Outlets, t) && t.receiver != self && t.id != 0
    ensures var x := System(
        State(self, map[t.id := t], map[], map[t.id := Component(OutletDescription(t), t)], map[]), map[0 := w], map[]);
      Next(x, Begin(1, Modifying(t, true))) ==
      System(State(self, map[], map[], map[], map[]), map[0 := w, 1 := [Tell(t.id, Outlets, false)] + []], map[])
  {
    var s := State(self, map[t.id := t], map[], map[t.id := Component(OutletDescription(t), t)], map[]);
    var c := Modifying(t, true);
    assert TableOf(s, c).tunnels == map[];
    assert Stopped(s, c, Outlets) == {t.id} && Stopped(s, c, Inlets) == {};
    assert StoppedTells([t.id], Outlets) == [Tell(t.id, Outlets, false)];
    assert Program(s, c) == [Tell(t.id, Outlets, false)] + [];
    assert s.outlets - {t.id} == map[] && s.tunnels - {t.id} == map[] && s.inlets - {} == map[];
    assert FirstRegion(s, c) == State(self, map[], map[], map[], map[]);
    assert map[0 := w][1 := Program(s, c)] == map[0 := w, 1 := [Tell(t.id, Outlets, false)] + []];
  }

  /** In that run the outlet of a deleted tunnel is reported as running for good. */
  lemma DeletedOutletReportedRunning(self: Player, t: Tunnel)
    requires ShouldRun(self, Outlets, t) && t.receiver != self && t.id != 0
    ensures var x := Run(Start(self), Overtaking(t));
      && Quiet(x) && x.state.tunnels == map[] && x.state.outlets == map[]
      && (t.id, Outlets) in x.state.runtime && x.state.runtime[(t.id, Outlets)]
  {
    var x := Start(self);
    var a := Installing(t);
    var b := a + [Begin(1, Modifying(t, true))];
    RunOne(x, a, Begin(1, Modifying(t, true)));
    RunOne(x, b, Do(1, false));
    RunOne(x, b + [Do(1, false)], Do(0, false));
    RunOne(x, b + [Do(1, false)] + [Do(0, false)], Do(0, false));
    RunOne(x, b + [Do(1, false)] + [Do(0, false)] + [Do(0, false)], Do(0, false));
    AfterInstalling(self, t);
    BeginsDeleting(self, t, [Tell(t.id, Outlets, true)] + [Look(Inlets, t), Check(t.id)]);
    Overtakes(self, t);
  }

  lemma Overtakes(self: Player, t: Tunnel)
    requires t.receiver != self && t.id != 0
    ensures var x := System(State(self, map[], map[], map[], map[]),
        map[0 := [Tell(t.id, Outlets, true)] + [Look(Inlets, t), Check(t.id)], 1 := [Tell(t.id, Outlets, false)] + []],
        map[]);
      var y := Next(Next(Next(Next(x, Do(1, false)), Do(0, false)), Do(0, false)), Do(0, false));
      && Quiet(y) && y.state.tunnels == map[] && y.state.outlets == map[]
      && (t.id, Outlets) in y.state.runtime && y.state.runtime[(t.id, Outlets)]
  {
    var x := System(State(self, map[], map[], map[], map[]),
      map[0 := [Tell(t.id, Outlets, true)] + [Look(Inlets, t), Check(t.id)], 1 := [Tell(t.id, Outlets, false)] + []],
      map[]);
    DoStep(x, 1, Tell(t.id, Outlets, false), [], []);
    var a := Next(x, Do(1, false));
    DoStep(a, 0, Tell(t.id, Outlets, true), [], [Look(Inlets, t), Check(t.id)]);
    var b := Next(a, Do(0, false));
    assert b.workers[0] == [Look(Inlets, t)] + [Check(t.id)];
    DoStep(b, 0, Look(Inlets, t), [], [Check(t.id)]);
    var c := Next(b, Do(0, false));
    assert c.workers[0] == [Check(t.id)] + [];
    DoStep(c, 0, Check(t.id), [], []);
  }

  // ---------------------------------------------------------------- a call that nothing disturbs

  function Weight(a: Act): nat {
    match a
    case Tell(_, _, _) => 1
    case Install(_, _) => 2
    case _ => 3
  }

  function TotalWeight(acts: seq<Act>): nat {
    if acts == [] then 0 else Weight(acts[0]) + TotalWeight(acts[1..])
  }

  lemma {:induction false} TotalWeightSplit(a: seq<Act>, b: seq<Act>)
    ensures TotalWeight(a + b) == TotalWeight(a) + TotalWeight(b)
  {
    if a == [] {
      assert a + b == b;
    } else {
      assert (a + b)[1..] == a[1..] + b;
      TotalWeightSplit(a[1..], b);
    }
  }

  lemma ActsAreLighter(s: State, a: Act, fails: bool)
    ensures TotalWeight(ActsAfter(s, a, fails)) < Weight(a)
  {
    var acts := ActsAfter(s, a, fails);
    if acts != [] {
      assert TotalWeight(acts) == Weight(acts[0]) + TotalWeight(acts[1..]);
      if |acts| == 2 {
        assert acts[1..] == [acts[1]];
      }
    }
  }

  predicate FailsIn(a: Act, failing: set<Id>) {
    a.Install? && a.t.id in failing
  }

  /** Where a call ends that no other overlaps, from the acts it has left. */
  function Alone(s: State, acts: seq<Act>, failing: set<Id>): State
    decreases TotalWeight(acts)
  {
    if acts == [] then s
    else
      var a := acts[0];
      var next := ActsAfter(s, a, FailsIn(a, failing));
      ActsAreLighter(s, a, FailsIn(a, failing));
      TotalWeightSplit(next, acts[1..]);
      Alone(StateAfter(s, a, FailsIn(a, failing)), next + acts[1..], failing)
  }

  lemma AloneOne(s: State, a: Act, rest: seq<Act>, failing: set<Id>)
    ensures Alone(s, [a] + rest, failing)
         == Alone(StateAfter(s, a, FailsIn(a, failing)), ActsAfter(s, a, FailsIn(a, failing)) + rest, failing)
  {
    assert ([a] + rest)[1..] == rest;
  }

  lemma RunFirst(x: System, e: Step, es: seq<Step>)
    ensures Run(x, [e] + es) == Run(Next(x, e), es)
    decreases |es|
  {
    if es == [] {
      assert [e] + es == [] + [e];
      RunOne(x, [], e);
    } else {
      var before, last := es[..|es| - 1], es[|es| - 1];
      assert es == before + [last];
      assert [e] + es == ([e] + before) + [last];
      RunFirst(x, e, before);
      RunOne(x, [e] + before, last);
      RunOne(Next(x, e), before, last);
    }
  }

  /** That is where the steps of its worker take it, one after the other. */
  lemma {:induction false} WorkerAlone(x: System, w: Worker, failing: set<Id>) returns (es: seq<Step>)
    requires w in x.workers
    ensures forall i :: 0 <= i < |es| ==> es[i].Do? && es[i].w == w
    ensures Run(x, es).state == Alone(x.state, x.workers[w], failing)
    ensures w in Run(x, es).workers && Run(x, es).workers[w] == []
    decreases TotalWeight(x.workers[w])
  {
    if x.workers[w] == [] {
      return [];
    }
    var a, rest := x.workers[w][0], x.workers[w][1..];
    var e := Do(w, FailsIn(a, failing));
    ActsAreLighter(x.state, a, FailsIn(a, failing));
    TotalWeightSplit(ActsAfter(x.state, a, FailsIn(a, failing)), rest);
    assert x.workers[w] == [a] + rest;
    AloneOne(x.state, a, rest, failing);
    var later := WorkerAlone(Next(x, e), w, failing);
    es := [e] + later;
    RunFirst(x, e, later);
  }

  lemma PairsUnion(a: set<Id>, b: set<Id>, k: Kind)
    ensures Pairs(a + b, k) == Pairs(a, k) + Pairs(b, k)
  {
  }

  lemma ReportedStoppedTwice(runtime: map<(Id, Kind), bool>, a: set<Id>, b: set<Id>, k: Kind)
    ensures ReportedStopped(ReportedStopped(runtime, a, k), b, k) == ReportedStopped(runtime, a + b, k)
  {
    assert a + b - {0} == (a - {0}) + (b - {0});
    PairsUnion(a - {0}, b - {0}, k);
    var once := ReportedStopped(runtime, a, k);
    var twice, both := ReportedStopped(once, b, k), ReportedStopped(runtime, a + b, k);
    forall p: (Id, Kind)
      ensures p in twice <==> p in both
      ensures p in twice ==> twice[p] == both[p]
    {
      ReportedAt(runtime, a, k, p);
      ReportedAt(once, b, k, p);
      ReportedAt(runtime, a + b, k, p);
    }
  }

  lemma ReportedAt(runtime: map<(Id, Kind), bool>, ids: set<Id>, k: Kind, p: (Id, Kind))
    ensures var r, told := ReportedStopped(runtime, ids, k), p in Pairs(ids - {0}, k);
      (p in r <==> p in runtime || told) && (p in r ==> r[p] == if told then false else runtime[p])
  {
  }

  lemma ReportedStoppedOne(s: State, id: Id, k: Kind)
    ensures s.Report(id, k, false) == s.(runtime := ReportedStopped(s.runtime, {id}, k))
  {
    if id == 0 {
      assert {id} - {0} == {};
      assert Pairs({}, k) == {};
    } else {
      assert {id} - {0} == {id};
      assert Pairs({id}, k) == {(id, k)};
    }
  }

  function Members(ids: seq<Id>): set<Id> {
    set i | 0 <= i < |ids| :: ids[i]
  }

  lemma {:induction false} AloneTells(s: State, ids: seq<Id>, k: Kind, rest: seq<Act>, failing: set<Id>)
    ensures Alone(s, StoppedTells(ids, k) + rest, failing)
         == Alone(s.(runtime := ReportedStopped(s.runtime, Members(ids), k)), rest, failing)
    decreases |ids|
  {
    if ids == [] {
      assert StoppedTells(ids, k) + rest == rest;
      assert Members(ids) == {};
      ReportedStoppedNone(s.runtime, k);
    } else {
      var a, later := Tell(ids[0], k, false), ids[1..];
      TellsFirst(ids, k, rest);
      AloneOne(s, a, StoppedTells(later, k) + rest, failing);
      assert [] + (StoppedTells(later, k) + rest) == StoppedTells(later, k) + rest;
      ReportedStoppedOne(s, ids[0], k);
      AloneTells(s.Report(ids[0], k, false), later, k, rest, failing);
      ReportedStoppedTwice(s.runtime, {ids[0]}, Members(later), k);
      MembersFirst(ids);
    }
  }

  lemma TellsFirst(ids: seq<Id>, k: Kind, rest: seq<Act>)
    requires ids != []
    ensures StoppedTells(ids, k) + rest == [Tell(ids[0], k, false)] + (StoppedTells(ids[1..], k) + rest)
  {
  }

  lemma MembersFirst(ids: seq<Id>)
    requires ids != []
    ensures Members(ids) == {ids[0]} + Members(ids[1..])
  {
    assert forall i :: 0 < i < |ids| ==> ids[i] == ids[1..][i - 1];
    assert forall i :: 0 <= i < |ids[1..]| ==> ids[1..][i] == ids[i + 1];
  }

  lemma AloneStarts(s: State, k: Kind, t: Tunnel, rest: seq<Act>, failing: set<Id>)
    ensures Alone(s, [Look(k, t)] + rest, failing) == Alone(StartIfNeeded(s, k, t, t.id in failing), rest, failing)
  {
    AloneOne(s, Look(k, t), rest, failing);
    assert [] + rest == rest;
    if Needed(s, k, t) {
      AloneInstalls(s, k, t, rest, failing);
    }
  }

  lemma AloneInstalls(s: State, k: Kind, t: Tunnel, rest: seq<Act>, failing: set<Id>)
    requires Needed(s, k, t)
    ensures Alone(s, [Install(k, t)] + rest, failing)
         == Alone(StartIfNeeded(s, k, t, t.id in failing), rest, failing)
  {
    assert [] + rest == rest;
    AloneOne(s, Install(k, t), rest, failing);
    if k.Inlets? && t.id in failing {
      AloneOne(s, Tell(t.id, k, false), rest, failing);
    } else {
      AloneOne(Installed(s, k, t), Tell(t.id, k, true), rest, failing);
    }
  }

  lemma AloneChecks(s: State, id: Id, failing: set<Id>)
    ensures Alone(s, [Check(id)], failing) == Reaffirm(s, id)
  {
    assert [Check(id)] + [] == [Check(id)];
    AloneOne(s, Check(id), [], failing);
    var acts := ActsAfter(s, Check(id), false);
    assert acts + [] == acts;
    var outlet, inlet := Tell(id, Outlets, true), Tell(id, Inlets, true);
    if id != 0 && id in s.outlets {
      assert acts == [outlet] + acts[1..];
      AloneOne(s, outlet, acts[1..], failing);
      assert [] + acts[1..] == acts[1..];
      if id in s.inlets {
        assert acts[1..] == [inlet] + [];
        AloneOne(s.Report(id, Outlets, true), inlet, [], failing);
      }
    } else if id != 0 && id in s.inlets {
      assert acts == [inlet] + [];
      AloneOne(s, inlet, [], failing);
    }
  }

  lemma {:induction false} AloneLooks(s: State, ts: seq<Tunnel>, failing: set<Id>)
    ensures Alone(s, Looks(ts), failing) == StartAll(s, ts, failing)
    decreases |ts|
  {
    if ts != [] {
      var t := ts[0];
      assert Looks(ts) == [Look(Outlets, t)] + ([Look(Inlets, t)] + Looks(ts[1..]));
      AloneStarts(s, Outlets, t, [Look(Inlets, t)] + Looks(ts[1..]), failing);
      var a := StartIfNeeded(s, Outlets, t, t.id in failing);
      AloneStarts(a, Inlets, t, Looks(ts[1..]), failing);
      AloneLooks(StartIfNeeded(a, Inlets, t, t.id in failing), ts[1..], failing);
    }
  }

  /** What the first region took out, once it has been reported. */
  function ReportedOut(s: State, c: Call): State {
    var r := FirstRegion(s, c);
    var outletsTold := ReportedStopped(s.runtime, Stopped(s, c, Outlets), Outlets);
    r.(runtime := ReportedStopped(outletsTold, Stopped(s, c, Inlets), Inlets))
  }

  lemma ListsMembers(ids: seq<Id>, s: set<Id>)
    requires Lists(ids, s)
    ensures Members(ids) == s
  {
  }

  lemma AloneFromTheStart(s: State, c: Call, failing: set<Id>)
    requires Ordered(s, c)
    ensures Alone(FirstRegion(s, c), Program(s, c), failing)
         == Alone(ReportedOut(s, c), LooksLeft(c), failing)
  {
    var outlets, inlets, rest := Order(s, c, Outlets), Order(s, c, Inlets), LooksLeft(c);
    FirstRegionTakesOut(s, c, Outlets);
    ListsMembers(outlets, Stopped(s, c, Outlets));
    ListsMembers(inlets, Stopped(s, c, Inlets));
    var r := FirstRegion(s, c);
    AloneTells(r, outlets, Outlets, StoppedTells(inlets, Inlets) + rest, failing);
    var told := r.(runtime := ReportedStopped(r.runtime, Stopped(s, c, Outlets), Outlets));
    AloneTells(told, inlets, Inlets, rest, failing);
  }

  lemma ReportedOutOfUpdate(s: State, t: Tunnel, isDelete: bool)
    ensures ReportedOut(s, Modifying(t, isDelete))
         == StopUnwanted(StopUnwanted(Changed(s, t, isDelete), Outlets, t.id), Inlets, t.id)
  {
    var c, a := Modifying(t, isDelete), Changed(s, t, isDelete);
    TakenOutTogether(a, t.id);
    ReportedStoppedNone(s.runtime, Outlets);
    var out := TakenOut(TakenOut(a, Outlets, t.id), Inlets, t.id);
    assert FirstRegion(s, c) == out;
    ReportedStoppedOne(out, t.id, Outlets);
    var told := if Unwanted(a, Outlets, t.id) then out.Report(t.id, Outlets, false) else out;
    ReportedStoppedOne(told, t.id, Inlets);
    ReportedStoppedNone(told.runtime, Inlets);
  }

  lemma ReportedStoppedNone(runtime: map<(Id, Kind), bool>, k: Kind)
    ensures ReportedStopped(runtime, {}, k) == runtime
  {
    assert Pairs({} - {0}, k) == {};
  }

  lemma ReportedOutOfResync(s: State, ts: seq<Tunnel>, outlets: seq<Id>, inlets: seq<Id>)
    ensures ReportedOut(s, Resyncing(ts, outlets, inlets))
         == StopAll(StopAll(s.(tunnels := WantedTable(ts)), Outlets), Inlets)
  {
    TakenOutAllTogether(s.(tunnels := WantedTable(ts)));
  }

  /** An update that nothing disturbs does what the manager's UpdateTunnel is specified to do. */
  lemma UpdateAlone(s: State, t: Tunnel, isDelete: bool, failing: set<Id>)
    ensures Alone(FirstRegion(s, Modifying(t, isDelete)), Program(s, Modifying(t, isDelete)), failing)
         == Update(s, t, isDelete, t.id in failing)
  {
    AloneFromTheStart(s, Modifying(t, isDelete), failing);
    ReportedOutOfUpdate(s, t, isDelete);
    if !isDelete {
      var b := StopUnwanted(StopUnwanted(Changed(s, t, isDelete), Outlets, t.id), Inlets, t.id);
      assert LooksLeft(Modifying(t, isDelete)) == [Look(Outlets, t)] + ([Look(Inlets, t)] + [Check(t.id)]);
      AloneStarts(b, Outlets, t, [Look(Inlets, t)] + [Check(t.id)], failing);
      var d := StartIfNeeded(b, Outlets, t, t.id in failing);
      AloneStarts(d, Inlets, t, [Check(t.id)], failing);
      AloneChecks(StartIfNeeded(d, Inlets, t, t.id in failing), t.id, failing);
    }
  }

  /** And so does a resync, in whatever order it reports what it stopped. */
  lemma ResyncAlone(s: State, ts: seq<Tunnel>, outlets: seq<Id>, inlets: seq<Id>, failing: set<Id>)
    requires Ordered(s, Resyncing(ts, outlets, inlets))
    ensures Alone(FirstRegion(s, Resyncing(ts, outlets, inlets)), Program(s, Resyncing(ts, outlets, inlets)), failing)
         == Sync(s, ts, failing)
  {
    AloneFromTheStart(s, Resyncing(ts, outlets, inlets), failing);
    ReportedOutOfResync(s, ts, outlets, inlets);
    AloneLooks(ReportedOut(s, Resyncing(ts, outlets, inlets)), ts, failing);
  }

  // ---------------------------------------------------------------- calls that leave one another's tunnels alone

  function About(a: Act): Id {
    match a
    case Tell(id, _, _) => id
    case Look(_, t) => t.id
    case Install(_, t) => t.id
    case Check(id) => id
  }

  predicate Mentions(acts: seq<Act>, id: Id) {
    exists i :: 0 <= i < |acts| && About(acts[i]) == id
  }

  /** A resync is about every tunnel. */
  predicate IsAbout(c: Call, id: Id) {
    c.Modifying? ==> c.t.id == id
  }

  /** No call under way is about a tunnel this one is about. */
  ghost predicate BeginsApart(x: System, e: Step) {
    e.Begin? ==> forall w, id :: w in x.workers && Mentions(x.workers[w], id) ==> !IsAbout(e.call, id)
  }

  predicate InstalledNow(x: System, id: Id, k: Kind) {
    id in x.state.Running(k)
  }

  predicate ToldRunning(s: State, id: Id, k: Kind) {
    (id, k) in s.runtime && s.runtime[(id, k)]
  }

  /** However the starts among these acts turn out, the last report is right after them; first it is told. */
  predicate Right(acts: seq<Act>, id: Id, k: Kind, installed: bool, told: bool) {
    if acts == [] then installed == told
    else
      var rest := acts[1..];
      match acts[0]
      case Tell(x, j, running) => Right(rest, id, k, installed, if x == id && j == k then running else told)
      case Look(j, t) =>
        if t.id != id || j != k || installed then Right(rest, id, k, installed, told)
        else
          && Right(rest, id, k, false, told) && Right(rest, id, k, true, true)
          && (k.Inlets? ==> Right(rest, id, k, false, false))
      case Install(j, t) =>
        if t.id != id || j != k then Right(rest, id, k, installed, told)
        else
          && !installed
          && Right(rest, id, k, true, true) && Right(rest, id, k, false, if k.Inlets? then false else told)
      case Check(x) => Right(rest, id, k, installed, if x == id && installed then true else told)
  }

  lemma {:induction false} RightWithoutMention(acts: seq<Act>, rest: seq<Act>, id: Id, k: Kind, installed: bool,
      told: bool)
    requires !Mentions(acts, id)
    ensures Right(acts + rest, id, k, installed, told) <==> Right(rest, id, k, installed, told)
    decreases |acts|
  {
    if acts == [] {
      assert acts + rest == rest;
    } else {
      assert About(acts[0]) != id;
      assert (acts + rest)[1..] == acts[1..] + rest;
      NoMentionInRest(acts, id);
      RightWithoutMention(acts[1..], rest, id, k, installed, told);
    }
  }

  lemma NoMentionInRest(acts: seq<Act>, id: Id)
    requires acts != [] && !Mentions(acts, id)
    ensures !Mentions(acts[1..], id)
  {
    forall i | 0 <= i < |acts[1..]|
      ensures About(acts[1..][i]) != id
    {
      assert acts[1..][i] == acts[i + 1];
    }
  }

  /** Whether it is installed or not, if it has been told so it will have been told so. */
  ghost predicate RightEitherWay(acts: seq<Act>, id: Id, k: Kind) {
    Right(acts, id, k, true, true) && Right(acts, id, k, false, false)
  }

  lemma RightLook(j: Kind, t: Tunnel, rest: seq<Act>, id: Id, k: Kind)
    requires RightEitherWay(rest, id, k)
    ensures RightEitherWay([Look(j, t)] + rest, id, k)
  {
    assert ([Look(j, t)] + rest)[1..] == rest;
  }

  lemma {:induction false} RightLooks(ts: seq<Tunnel>, id: Id, k: Kind)
    ensures RightEitherWay(Looks(ts), id, k)
    decreases |ts|
  {
    if ts != [] {
      RightLooks(ts[1..], id, k);
      RightLook(Inlets, ts[0], Looks(ts[1..]), id, k);
      RightLook(Outlets, ts[0], [Look(Inlets, ts[0])] + Looks(ts[1..]), id, k);
      assert Looks(ts) == [Look(Outlets, ts[0])] + ([Look(Inlets, ts[0])] + Looks(ts[1..]));
    }
  }

  lemma {:induction false} RightTells(ids: seq<Id>, j: Kind, rest: seq<Act>, id: Id, k: Kind, installed: bool,
      told: bool)
    requires Right(rest, id, k, installed, if j == k && id in ids then false else told)
    ensures Right(StoppedTells(ids, j) + rest, id, k, installed, told)
    decreases |ids|
  {
    if ids == [] {
      assert StoppedTells(ids, j) + rest == rest;
    } else {
      TellsFirst(ids, j, rest);
      assert id in ids <==> id == ids[0] || id in ids[1..];
      RightTells(ids[1..], j, rest, id, k, installed, if ids[0] == id && j == k then false else told);
    }
  }

  lemma RightUpdate(t: Tunnel, isDelete: bool, id: Id, k: Kind)
    ensures RightEitherWay(LooksLeft(Modifying(t, isDelete)), id, k)
  {
    if !isDelete {
      assert [Check(t.id)][1..] == [];
      RightLook(Inlets, t, [Check(t.id)], id, k);
      RightLook(Outlets, t, [Look(Inlets, t)] + [Check(t.id)], id, k);
      assert LooksLeft(Modifying(t, isDelete)) == [Look(Outlets, t)] + ([Look(Inlets, t)] + [Check(t.id)]);
    }
  }

  /** Nothing else changes a component of this tunnel or reports it, so what is left of the call will set it right. */
  ghost predicate Settling(x: System, id: Id, k: Kind) {
    && (forall v, w :: v in x.workers && w in x.workers && Mentions(x.workers[v], id) && Mentions(x.workers[w], id) ==>
          v == w)
    && (forall w :: w in x.workers && Mentions(x.workers[w], id) ==>
          Right(x.workers[w], id, k, InstalledNow(x, id, k), ToldRunning(x.state, id, k)))
    && ((forall w :: w in x.workers ==> !Mentions(x.workers[w], id)) ==>
          InstalledNow(x, id, k) == ToldRunning(x.state, id, k))
  }

  lemma ActsAreAboutTheSame(s: State, a: Act, fails: bool, id: Id, k: Kind)
    requires About(a) != id
    ensures !Mentions(ActsAfter(s, a, fails), id)
    ensures id in StateAfter(s, a, fails).Running(k) <==> id in s.Running(k)
    ensures ToldRunning(StateAfter(s, a, fails), id, k) <==> ToldRunning(s, id, k)
  {
    ActInstalls(s, a, fails, k);
  }

  lemma MentionsSplit(a: seq<Act>, b: seq<Act>, id: Id)
    ensures Mentions(a + b, id) <==> Mentions(a, id) || Mentions(b, id)
  {
    if i :| 0 <= i < |a + b| && About((a + b)[i]) == id {
      assert if i < |a| then About(a[i]) == id else About(b[i - |a|]) == id;
    }
    if i :| 0 <= i < |a| && About(a[i]) == id {
      assert About((a + b)[i]) == id;
    }
    if i :| 0 <= i < |b| && About(b[i]) == id {
      assert About((a + b)[|a| + i]) == id;
    }
  }

  lemma CheckKeepsRight(s: State, rest: seq<Act>, id: Id, k: Kind)
    requires id != 0 && Right([Check(id)] + rest, id, k, id in s.Running(k), ToldRunning(s, id, k))
    ensures Right(ActsAfter(s, Check(id), false) + rest, id, k, id in s.Running(k), ToldRunning(s, id, k))
  {
    assert ([Check(id)] + rest)[1..] == rest;
    var outlet := if id in s.outlets then [Tell(id, Outlets, true)] else [];
    var inlet := if id in s.inlets then [Tell(id, Inlets, true)] else [];
    var installed, told := id in s.Running(k), ToldRunning(s, id, k);
    assert ActsAfter(s, Check(id), false) + rest == outlet + (inlet + rest);
    var between := if k.Outlets? && installed then true else told;
    RightIfTold(id, Inlets, id in s.inlets, rest, id, k, installed, between);
    RightIfTold(id, Outlets, id in s.outlets, inlet + rest, id, k, installed, told);
  }

  lemma RightIfTold(x: Id, j: Kind, tell: bool, rest: seq<Act>, id: Id, k: Kind, installed: bool, told: bool)
    ensures Right((if tell then [Tell(x, j, true)] else []) + rest, id, k, installed, told)
         == Right(rest, id, k, installed, if tell && x == id && j == k then true else told)
  {
    assert ([Tell(x, j, true)] + rest)[1..] == rest;
    assert [] + rest == rest;
  }

  lemma LookKeepsRight(s: State, j: Kind, t: Tunnel, rest: seq<Act>, k: Kind)
    requires Right([Look(j, t)] + rest, t.id, k, t.id in s.Running(k), ToldRunning(s, t.id, k))
    ensures Right(ActsAfter(s, Look(j, t), false) + rest, t.id, k, t.id in s.Running(k), ToldRunning(s, t.id, k))
  {
    assert ([Look(j, t)] + rest)[1..] == rest;
    assert ([Install(j, t)] + rest)[1..] == rest;
    assert [] + rest == rest;
  }

  lemma InstallKeepsRight(s: State, j: Kind, t: Tunnel, rest: seq<Act>, fails: bool, k: Kind)
    requires Right([Install(j, t)] + rest, t.id, k, t.id in s.Running(k), ToldRunning(s, t.id, k))
    ensures var r := StateAfter(s, Install(j, t), fails);
      Right(ActsAfter(s, Install(j, t), fails) + rest, t.id, k, t.id in r.Running(k), ToldRunning(r, t.id, k))
  {
    assert ([Install(j, t)] + rest)[1..] == rest;
    assert ([Tell(t.id, j, true)] + rest)[1..] == rest && ([Tell(t.id, j, false)] + rest)[1..] == rest;
    assert [] + rest == rest;
    ActInstalls(s, Install(j, t), fails, k);
  }

  /** One act of the call that is about this tunnel. */
  lemma ActKeepsRight(s: State, a: Act, rest: seq<Act>, fails: bool, id: Id, k: Kind)
    requires About(a) == id != 0 && Right([a] + rest, id, k, id in s.Running(k), ToldRunning(s, id, k))
    ensures var r := StateAfter(s, a, fails);
      Right(ActsAfter(s, a, fails) + rest, id, k, id in r.Running(k), ToldRunning(r, id, k))
  {
    match a
    case Tell(_, _, _) =>
      assert ([a] + rest)[1..] == rest && [] + rest == rest;
    case Look(j, t) => LookKeepsRight(s, j, t, rest, k);
    case Install(j, t) => InstallKeepsRight(s, j, t, rest, fails, k);
    case Check(_) => CheckKeepsRight(s, rest, id, k);
  }

  lemma DoKeepsSettling(x: System, w: Worker, fails: bool, id: Id, k: Kind)
    requires Settling(x, id, k) && id != 0
    ensures Settling(Next(x, Do(w, fails)), id, k)
  {
    if w in x.workers && x.workers[w] != [] {
      var y, a, rest := Next(x, Do(w, fails)), x.workers[w][0], x.workers[w][1..];
      var acts := ActsAfter(x.state, a, fails);
      assert x.workers[w] == [a] + rest;
      MentionsSplit([a], rest, id);
      MentionsSplit(acts, rest, id);
      assert [a][0] == a;
      if About(a) == id {
        assert Mentions([a], id);
        ActKeepsRight(x.state, a, rest, fails, id, k);
      } else {
        ActsAreAboutTheSame(x.state, a, fails, id, k);
        RightWithoutMention([a], rest, id, k, InstalledNow(x, id, k), ToldRunning(x.state, id, k));
        RightWithoutMention(acts, rest, id, k, InstalledNow(x, id, k), ToldRunning(x.state, id, k));
      }
      SettledBy(x, y, w, id, k);
    }
  }

  /** If one worker took a step that kept its acts right, the others standing still, all is still settling. */
  lemma SettledBy(x: System, y: System, w: Worker, id: Id, k: Kind)
    requires Settling(x, id, k) && w in x.workers
    requires y.workers.Keys == x.workers.Keys && forall v :: v in x.workers && v != w ==> y.workers[v] == x.workers[v]
    requires Mentions(y.workers[w], id) ==> Mentions(x.workers[w], id)
    requires Mentions(x.workers[w], id) ==>
      Right(y.workers[w], id, k, InstalledNow(y, id, k), ToldRunning(y.state, id, k))
    requires !Mentions(x.workers[w], id) ==>
      InstalledNow(y, id, k) == InstalledNow(x, id, k) && ToldRunning(y.state, id, k) == ToldRunning(x.state, id, k)
    ensures Settling(y, id, k)
  {
    if forall v :: v in y.workers ==> !Mentions(y.workers[v], id) {
      if Mentions(x.workers[w], id) {
        assert y.workers[w] + [] == y.workers[w];
        RightWithoutMention(y.workers[w], [], id, k, InstalledNow(y, id, k), ToldRunning(y.state, id, k));
      } else {
        forall v | v in x.workers
          ensures !Mentions(x.workers[v], id)
        {
          assert v != w ==> y.workers[v] == x.workers[v];
        }
      }
    }
  }

  lemma ProgramMentions(s: State, c: Call, id: Id)
    requires Mentions(Program(s, c), id)
    ensures IsAbout(c, id)
  {
    if c.Modifying? {
      var i :| 0 <= i < |Program(s, c)| && About(Program(s, c)[i]) == id;
    }
  }

  lemma ProgramRight(s: State, c: Call, id: Id, k: Kind, installed: bool, told: bool)
    requires Ordered(s, c) && (if id in Stopped(s, c, k) then !installed else installed == told)
    ensures Right(Program(s, c), id, k, installed, told)
  {
    match c {
      case Modifying(t, isDelete) => RightUpdate(t, isDelete, id, k);
      case Resyncing(ts, _, _) => RightLooks(ts, id, k);
    }
    var outlets, inlets := Order(s, c, Outlets), Order(s, c, Inlets);
    assert id in Order(s, c, k) <==> id in Stopped(s, c, k);
    var between := if k.Outlets? && id in outlets then false else told;
    RightTells(inlets, Inlets, LooksLeft(c), id, k, installed, between);
    RightTells(outlets, Outlets, StoppedTells(inlets, Inlets) + LooksLeft(c), id, k, installed, told);
  }

  lemma BeginKeepsSettling(x: System, w: Worker, c: Call, id: Id, k: Kind)
    requires Settling(x, id, k) && BeginsApart(x, Begin(w, c))
    ensures Settling(Next(x, Begin(w, c)), id, k)
  {
    var y := Next(x, Begin(w, c));
    if y != x {
      FirstRegionTakesOut(x.state, c, k);
      if Mentions(y.workers[w], id) {
        ProgramMentions(x.state, c, id);
      }
      if IsAbout(c, id) {
        assert forall v :: v in x.workers ==> !Mentions(x.workers[v], id);
        ProgramRight(x.state, c, id, k, InstalledNow(y, id, k), ToldRunning(y.state, id, k));
        BegunSettles(x, y, w, id, k);
      } else {
        assert id !in Stopped(x.state, c, k);
        OthersSettle(x, y, w, id, k);
      }
    }
  }

  lemma BegunSettles(x: System, y: System, w: Worker, id: Id, k: Kind)
    requires forall v :: v in x.workers ==> !Mentions(x.workers[v], id)
    requires w in y.workers && forall v :: v in y.workers && v != w ==> v in x.workers && y.workers[v] == x.workers[v]
    requires Right(y.workers[w], id, k, InstalledNow(y, id, k), ToldRunning(y.state, id, k))
    ensures Settling(y, id, k)
  {
    if !Mentions(y.workers[w], id) {
      assert y.workers[w] + [] == y.workers[w];
      RightWithoutMention(y.workers[w], [], id, k, InstalledNow(y, id, k), ToldRunning(y.state, id, k));
    }
  }

  lemma OthersSettle(x: System, y: System, w: Worker, id: Id, k: Kind)
    requires Settling(x, id, k) && w in y.workers && !Mentions(y.workers[w], id)
    requires w in x.workers ==> x.workers[w] == []
    requires y.workers.Keys == x.workers.Keys + {w}
    requires forall v :: v in x.workers && v != w ==> y.workers[v] == x.workers[v]
    requires InstalledNow(y, id, k) == InstalledNow(x, id, k)
    requires ToldRunning(y.state, id, k) == ToldRunning(x.state, id, k)
    ensures Settling(y, id, k)
  {
    if forall v :: v in y.workers ==> !Mentions(y.workers[v], id) {
      forall v | v in x.workers
        ensures !Mentions(x.workers[v], id)
      {
        assert v != w ==> y.workers[v] == x.workers[v];
      }
    }
  }

  ghost predicate AllBeginApart(x: System, es: seq<Step>) {
    forall i :: 0 <= i < |es| ==> BeginsApart(Run(x, es[..i]), es[i])
  }

  lemma {:induction false} AlwaysSettling(x: System, es: seq<Step>, id: Id, k: Kind)
    requires Settling(x, id, k) && id != 0 && AllBeginApart(x, es)
    ensures Settling(Run(x, es), id, k)
  {
    if es != [] {
      var before := es[..|es| - 1];
      forall i | 0 <= i < |before|
        ensures BeginsApart(Run(x, before[..i]), before[i])
      {
        assert before[..i] == es[..i];
      }
      AlwaysSettling(x, before, id, k);
      assert BeginsApart(Run(x, before), es[|es| - 1]);
      match es[|es| - 1]
      case Begin(w, c) => BeginKeepsSettling(Run(x, before), w, c, id, k);
      case Do(w, fails) => DoKeepsSettling(Run(x, before), w, fails, id, k);
    }
  }

  /**
   As long as no call begins while another about the same tunnel is under way, the last report of a component is right
   whenever no call about its tunnel is under way; calls about other tunnels may overlap in any way.
   */
  lemma ApartCallsReportTrue(self: Player, es: seq<Step>, id: Id, k: Kind)
    requires AllBeginApart(Start(self), es) && id != 0
    requires var x := Run(Start(self), es); forall w :: w in x.workers ==> !Mentions(x.workers[w], id)
    ensures var x := Run(Start(self), es);
      id in x.state.Running(k) <==> (id, k) in x.state.runtime && x.state.runtime[(id, k)]
  {
    AlwaysSettling(Start(self), es, id, k);
  }
}
