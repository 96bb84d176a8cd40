/**
 Keeping inlets and outlets in step with the tunnel table, one call after the other: internal/proxy/manager.go. What
 calls that overlap do is in TunnelSteps, over the lock-held regions defined here.

 A component is what the manager holds of an inlet or outlet: its description and the tunnel its message callback
 captured. The runtime map is what a listener that keeps the last report of each component holds.
 */
module TunnelSync {
  import opened TunnelModel

  datatype Kind = Inlets | Outlets

  function Description(k: Kind, t: Tunnel): string {
    if k.Inlets? then InletDescription(t) else OutletDescription(t)
  }

  datatype Component = Component(description: string, captured: Tunnel)

  datatype State = State(
    self: Player,
    tunnels: map<Id, Tunnel>,
    inlets: map<Id, Component>,
    outlets: map<Id, Component>,
    runtime: map<(Id, Kind), bool>)
  {
    function Running(k: Kind): map<Id, Component> {
      if k.Inlets? then inlets else outlets
    }

    function WithRunning(k: Kind, m: map<Id, Component>): State {
      if k.Inlets? then this.(inlets := m) else this.(outlets := m)
    }

    /** reportRuntime: tunnel 0 is never reported. */
    function Report(id: Id, k: Kind, running: bool): State {
      if id == 0 then this else this.(runtime := runtime[(id, k) := running])
    }
  }

  predicate ShouldRun(self: Player, k: Kind, t: Tunnel) {
    t.enabled && (if k.Inlets? then t.receiver else t.sender) == self
  }

  /** The tunnel table asks for a component of this kind and description. */
  predicate Wanted(s: State, k: Kind, id: Id, description: string) {
    id in s.tunnels && ShouldRun(s.self, k, s.tunnels[id]) && Description(k, s.tunnels[id]) == description
  }

  /** shouldStopInlet and shouldStopOutlet: the table no longer asks for the component it has. */
  predicate Unwanted(s: State, k: Kind, id: Id) {
    id in s.Running(k) && !Wanted(s, k, id, s.Running(k)[id].description)
  }

  function TakenOut(s: State, k: Kind, id: Id): State {
    if Unwanted(s, k, id) then s.WithRunning(k, s.Running(k) - {id}) else s
  }

  /** Takes one component out if the table no longer asks for it, and reports that it stopped. */
  function StopUnwanted(s: State, k: Kind, id: Id): State {
    if Unwanted(s, k, id) then TakenOut(s, k, id).Report(id, k, false) else s
  }

  /** Taking both components out before reporting either leaves the same state. */
  lemma TakenOutTogether(s: State, id: Id)
    ensures var out := TakenOut(TakenOut(s, Outlets, id), Inlets, id);
      var reported := if Unwanted(s, Outlets, id) then out.Report(id, Outlets, false) else out;
      StopUnwanted(StopUnwanted(s, Outlets, id), Inlets, id)
      == if Unwanted(s, Inlets, id) then reported.Report(id, Inlets, false) else reported
  {
    var a, b := StopUnwanted(s, Outlets, id), TakenOut(s, Outlets, id);
    assert Unwanted(a, Inlets, id) == Unwanted(s, Inlets, id) == Unwanted(b, Inlets, id);
  }

  /** What both looks under the lock ask: the component is not there, and the table asks for one like this. */
  predicate Needed(s: State, k: Kind, t: Tunnel) {
    ShouldRun(s.self, k, t) && t.id !in s.Running(k) && Wanted(s, k, t.id, Description(k, t))
  }

  function Installed(s: State, k: Kind, t: Tunnel): State {
    s.WithRunning(k, s.Running(k)[t.id := Component(Description(k, t), t)])
  }

  /** startInletIfNeeded and startOutletIfNeeded, undisturbed; only starting an inlet can fail. */
  function StartIfNeeded(s: State, k: Kind, t: Tunnel, fails: bool): State {
    if !Needed(s, k, t) then s
    else if k.Inlets? && fails then s.Report(t.id, k, false)
    else Installed(s, k, t).Report(t.id, k, true)
  }

  function Reaffirm(s: State, id: Id): State {
    var a := if id in s.outlets then s.Report(id, Outlets, true) else s;
    if id in s.inlets then a.Report(id, Inlets, true) else a
  }

  // ---------------------------------------------------------------- one update

  function Changed(s: State, t: Tunnel, isDelete: bool): State {
    s.(tunnels := if isDelete then s.tunnels - {t.id} else s.tunnels[t.id := t])
  }

  function Update(s: State, t: Tunnel, isDelete: bool, fails: bool): State {
    var stopped := StopUnwanted(StopUnwanted(Changed(s, t, isDelete), Outlets, t.id), Inlets, t.id);
    if isDelete then stopped
    else Reaffirm(StartIfNeeded(StartIfNeeded(stopped, Outlets, t, fails), Inlets, t, fails), t.id)
  }

  // ---------------------------------------------------------------- a full resync

  function WantedTable(ts: seq<Tunnel>): map<Id, Tunnel> {
    if ts == [] then map[] else WantedTable(ts[..|ts| - 1])[ts[|ts| - 1].id := ts[|ts| - 1]]
  }

  function AllUnwanted(s: State, k: Kind): set<Id> {
    set id | id in s.Running(k) && Unwanted(s, k, id)
  }

  function Pairs(ids: set<Id>, k: Kind): set<(Id, Kind)> {
    set id | id in ids :: (id, k)
  }

  /** The last reports once each of these components has been reported as stopped. */
  function ReportedStopped(runtime: map<(Id, Kind), bool>, ids: set<Id>, k: Kind): map<(Id, Kind), bool> {
    runtime + map p: (Id, Kind) | p in Pairs(ids - {0}, k) :: false
  }

  lemma OneMoreReported(runtime: map<(Id, Kind), bool>, done: set<Id>, id: Id, k: Kind)
    ensures var r := ReportedStopped(runtime, done, k);
      ReportedStopped(runtime, done + {id}, k) == if id == 0 then r else r[(id, k) := false]
  {
    var before, now := Pairs(done - {0}, k), Pairs(done + {id} - {0}, k);
    if id == 0 {
      assert done + {id} - {0} == done - {0};
    } else {
      assert done + {id} - {0} == done - {0} + {id};
      assert now == before + {(id, k)};
    }
  }

  function StopAll(s: State, k: Kind): State {
    var gone := AllUnwanted(s, k);
    s.WithRunning(k, s.Running(k) - gone).(runtime := ReportedStopped(s.runtime, gone, k))
  }

  lemma TakenOutAllTogether(s: State)
    ensures var a := s.WithRunning(Outlets, s.outlets - AllUnwanted(s, Outlets));
      AllUnwanted(a, Inlets) == AllUnwanted(s, Inlets) == AllUnwanted(StopAll(s, Outlets), Inlets)
  {
    var a, b := s.WithRunning(Outlets, s.outlets - AllUnwanted(s, Outlets)), StopAll(s, Outlets);
    forall id
      ensures Unwanted(a, Inlets, id) == Unwanted(s, Inlets, id) == Unwanted(b, Inlets, id)
    {
    }
  }

  /** The loop over the list: for each tunnel the outlet, then the inlet. */
  function StartAll(s: State, ts: seq<Tunnel>, fails: set<Id>): State
    decreases |ts|
  {
    if ts == [] then s
    else
      var t := ts[0];
      StartAll(StartIfNeeded(StartIfNeeded(s, Outlets, t, t.id in fails), Inlets, t, t.id in fails), ts[1..], fails)
  }

  function Sync(s: State, ts: seq<Tunnel>, fails: set<Id>): State {
    StartAll(StopAll(StopAll(s.(tunnels := WantedTable(ts)), Outlets), Inlets), ts, fails)
  }

  // ---------------------------------------------------------------- reconciliation

  /** Every component of this kind is one the table asks for, with the description it asks for. */
  ghost predicate NoneUnwanted(s: State, k: Kind) {
    forall id :: id in s.Running(k) ==> Wanted(s, k, id, s.Running(k)[id].description)
  }

  /** Every component of this kind the table asks for is there. */
  ghost predicate NoneMissing(s: State, k: Kind) {
    forall id :: id in s.tunnels && ShouldRun(s.self, k, s.tunnels[id]) ==> id in s.Running(k)
  }

  ghost predicate Keyed(tunnels: map<Id, Tunnel>) {
    forall id :: id in tunnels ==> tunnels[id].id == id
  }

  ghost predicate Reconciled(s: State) {
    && Keyed(s.tunnels)
    && NoneUnwanted(s, Inlets) && NoneMissing(s, Inlets)
    && NoneUnwanted(s, Outlets) && NoneMissing(s, Outlets)
  }

  /** The keys and descriptions of the components of one kind. */
  function Descriptions(s: State, k: Kind): map<Id, string> {
    map id | id in s.Running(k) :: s.Running(k)[id].description
  }

  function WantedDescriptions(self: Player, tunnels: map<Id, Tunnel>, k: Kind): map<Id, string> {
    map id | id in tunnels && ShouldRun(self, k, tunnels[id]) :: Description(k, tunnels[id])
  }

  lemma DescriptionsAsWanted(s: State, k: Kind)
    requires NoneUnwanted(s, k) && NoneMissing(s, k)
    ensures Descriptions(s, k) == WantedDescriptions(s.self, s.tunnels, k)
  {
    var d, w := Descriptions(s, k), WantedDescriptions(s.self, s.tunnels, k);
    forall id
      ensures id in d <==> id in w
      ensures id in d ==> d[id] == w[id]
    {
      if id in s.Running(k) {
        assert Wanted(s, k, id, s.Running(k)[id].description);
      }
    }
  }

  lemma SameTableSameDescriptions(a: State, b: State, k: Kind)
    requires a.self == b.self && a.tunnels == b.tunnels
    requires NoneUnwanted(a, k) && NoneMissing(a, k) && NoneUnwanted(b, k) && NoneMissing(b, k)
    ensures Descriptions(a, k) == Descriptions(b, k)
  {
    DescriptionsAsWanted(a, k);
    DescriptionsAsWanted(b, k);
  }

  /** The steps after an update touch only the component with its id. */
  lemma UpdateAt(s: State, t: Tunnel, isDelete: bool, fails: bool, k: Kind)
    ensures var r := Update(s, t, isDelete, fails);
      && r.self == s.self && r.tunnels == Changed(s, t, isDelete).tunnels
      && r.Running(k) - {t.id} == s.Running(k) - {t.id}
      && (t.id in r.Running(k) ==> Wanted(r, k, t.id, r.Running(k)[t.id].description))
      && (!isDelete && ShouldRun(s.self, k, t) && !(k.Inlets? && fails) ==> t.id in r.Running(k))
  {
    var c := Changed(s, t, isDelete);
    var a := StopUnwanted(c, Outlets, t.id);
    var b := StopUnwanted(a, Inlets, t.id);
    OneStop(c, Outlets, t.id, k);
    OneStop(a, Inlets, t.id, k);
    if !isDelete {
      BothStarts(b, t, fails, k);
      ReaffirmRuns(StartIfNeeded(StartIfNeeded(b, Outlets, t, fails), Inlets, t, fails), t.id, k);
    }
  }

  lemma ReaffirmRuns(s: State, id: Id, k: Kind)
    ensures var r := Reaffirm(s, id); r.self == s.self && r.tunnels == s.tunnels && r.Running(k) == s.Running(k)
  {
  }

  lemma BothStarts(s: State, t: Tunnel, fails: bool, k: Kind)
    requires t.id in s.tunnels && s.tunnels[t.id] == t
    requires t.id in s.Running(k) ==> Wanted(s, k, t.id, s.Running(k)[t.id].description)
    ensures var r := StartIfNeeded(StartIfNeeded(s, Outlets, t, fails), Inlets, t, fails);
      && r.self == s.self && r.tunnels == s.tunnels && r.Running(k) - {t.id} == s.Running(k) - {t.id}
      && (t.id in r.Running(k) ==> Wanted(r, k, t.id, r.Running(k)[t.id].description))
      && (ShouldRun(s.self, k, t) && !(k.Inlets? && fails) ==> t.id in r.Running(k))
  {
    OneStart(s, Outlets, t, fails, k);
    OneStart(StartIfNeeded(s, Outlets, t, fails), Inlets, t, fails, k);
  }

  lemma OneStop(s: State, j: Kind, id: Id, k: Kind)
    ensures var r := StopUnwanted(s, j, id);
      && r.self == s.self && r.tunnels == s.tunnels
      && (j != k ==> r.Running(k) == s.Running(k))
      && (j == k ==> r.Running(k) - {id} == s.Running(k) - {id})
      && (j == k && id in r.Running(k) ==> Wanted(r, k, id, r.Running(k)[id].description))
  {
  }

  lemma InstalledRuns(s: State, k: Kind, t: Tunnel, j: Kind)
    ensures var r := Installed(s, k, t);
      && r.self == s.self && r.tunnels == s.tunnels && r.runtime == s.runtime
      && r.Running(j) == if j == k then s.Running(k)[t.id := Component(Description(k, t), t)] else s.Running(j)
  {
  }

  lemma OneStart(s: State, j: Kind, t: Tunnel, fails: bool, k: Kind)
    ensures var r := StartIfNeeded(s, j, t, fails);
      && r.self == s.self && r.tunnels == s.tunnels
      && (j != k ==> r.Running(k) == s.Running(k))
      && (j == k ==> r.Running(k) - {t.id} == s.Running(k) - {t.id})
      && (j == k && t.id in r.Running(k) && t.id !in s.Running(k) ==>
            Wanted(r, k, t.id, r.Running(k)[t.id].description))
      && (j == k && t.id in s.Running(k) ==> r.Running(k) == s.Running(k))
      && (j == k && Wanted(s, k, t.id, Description(k, t)) && ShouldRun(s.self, k, t) && !(k.Inlets? && fails) ==>
            t.id in r.Running(k))
  {
    if Needed(s, j, t) {
      InstalledRuns(s, j, t, k);
      ReportRuns(Installed(s, j, t), t.id, j, true, k);
      ReportRuns(s, t.id, j, false, k);
      PutAway(s.Running(k), t.id, Component(Description(k, t), t));
    }
  }

  lemma ReportRuns(s: State, id: Id, j: Kind, running: bool, k: Kind)
    ensures var r := s.Report(id, j, running);
      r.self == s.self && r.tunnels == s.tunnels && r.Running(k) == s.Running(k)
  {
  }

  lemma PutAway(m: map<Id, Component>, id: Id, c: Component)
    ensures m[id := c] - {id} == m - {id}
  {
  }

  lemma UpdateKeepsKind(s: State, t: Tunnel, isDelete: bool, fails: bool, k: Kind)
    requires NoneUnwanted(s, k)
    ensures NoneUnwanted(Update(s, t, isDelete, fails), k)
    ensures NoneMissing(s, k) && !(k.Inlets? && fails) ==> NoneMissing(Update(s, t, isDelete, fails), k)
  {
    var r := Update(s, t, isDelete, fails);
    UpdateAt(s, t, isDelete, fails, k);
    forall id | id in r.Running(k)
      ensures Wanted(r, k, id, r.Running(k)[id].description)
    {
      if id != t.id {
        SameElsewhere(s.Running(k), r.Running(k), t.id, id);
        assert Wanted(s, k, id, s.Running(k)[id].description);
      }
    }
    if NoneMissing(s, k) && !(k.Inlets? && fails) {
      forall id | id in r.tunnels && ShouldRun(r.self, k, r.tunnels[id])
        ensures id in r.Running(k)
      {
        if id != t.id {
          SameElsewhere(s.Running(k), r.Running(k), t.id, id);
        }
      }
    }
  }

  lemma SameElsewhere(a: map<Id, Component>, b: map<Id, Component>, id: Id, x: Id)
    requires a - {id} == b - {id} && x != id
    ensures x in a <==> x in b
    ensures x in a ==> a[x] == b[x]
  {
    assert x in a <==> x in a - {id};
    assert x in b <==> x in b - {id};
    assert x in a ==> (a - {id})[x] == a[x];
    assert x in b ==> (b - {id})[x] == b[x];
  }

  // ---------------------------------------------------------------- what a resync leaves

  lemma WantedTableKeyed(ts: seq<Tunnel>)
    ensures Keyed(WantedTable(ts))
    ensures forall id :: id in WantedTable(ts) ==> exists i :: 0 <= i < |ts| && ts[i] == WantedTable(ts)[id]
  {
    if ts != [] {
      WantedTableKeyed(ts[..|ts| - 1]);
      var last := ts[|ts| - 1];
      forall id | id in WantedTable(ts)
        ensures exists i :: 0 <= i < |ts| && ts[i] == WantedTable(ts)[id]
      {
        if id == last.id {
          assert ts[|ts| - 1] == last;
        } else {
          var i :| 0 <= i < |ts| - 1 && ts[..|ts| - 1][i] == WantedTable(ts[..|ts| - 1])[id];
          assert ts[i] == WantedTable(ts)[id];
        }
      }
    }
  }

  lemma StopAllLeavesWanted(s: State, j: Kind, k: Kind)
    requires j == k || NoneUnwanted(s, k)
    ensures NoneUnwanted(StopAll(s, j), k)
    ensures StopAll(s, j).self == s.self && StopAll(s, j).tunnels == s.tunnels
  {
    var r := StopAll(s, j);
    if j == k {
      forall id | id in r.Running(k)
        ensures Wanted(r, k, id, r.Running(k)[id].description)
      {
        assert id !in AllUnwanted(s, k);
      }
    } else {
      assert r.Running(k) == s.Running(k);
    }
  }

  /** Started(s, k, ts): each tunnel of the list that is the table's own has its component. */
  ghost predicate Started(s: State, k: Kind, ts: seq<Tunnel>) {
    forall i :: 0 <= i < |ts| ==>
      ts[i].id in s.tunnels && s.tunnels[ts[i].id] == ts[i] && ShouldRun(s.self, k, ts[i]) ==> ts[i].id in s.Running(k)
  }

  lemma StartBoth(s: State, t: Tunnel, fails: bool, k: Kind)
    requires NoneUnwanted(s, k)
    ensures var r := StartIfNeeded(StartIfNeeded(s, Outlets, t, fails), Inlets, t, fails);
      && r.self == s.self && r.tunnels == s.tunnels
      && NoneUnwanted(r, k) && s.Running(k).Keys <= r.Running(k).Keys
      && (t.id in s.tunnels && s.tunnels[t.id] == t && ShouldRun(s.self, k, t) && !(k.Inlets? && fails) ==>
            t.id in r.Running(k))
  {
    var a := StartIfNeeded(s, Outlets, t, fails);
    StartKeepsWanted(s, Outlets, t, fails, k);
    StartKeepsWanted(a, Inlets, t, fails, k);
    OneStart(s, Outlets, t, fails, k);
    OneStart(a, Inlets, t, fails, k);
  }

  lemma StartKeepsWanted(s: State, j: Kind, t: Tunnel, fails: bool, k: Kind)
    requires NoneUnwanted(s, k)
    ensures NoneUnwanted(StartIfNeeded(s, j, t, fails), k)
    ensures s.Running(k).Keys <= StartIfNeeded(s, j, t, fails).Running(k).Keys
  {
    OneStart(s, j, t, fails, k);
    var r := StartIfNeeded(s, j, t, fails);
    forall id | id in r.Running(k) && id != t.id
      ensures Wanted(r, k, id, r.Running(k)[id].description)
    {
      assert id in r.Running(k) - {t.id} <==> id in s.Running(k) - {t.id};
    }
  }

  lemma {:induction false} StartAllStarts(s: State, ts: seq<Tunnel>, fails: set<Id>, k: Kind)
    requires NoneUnwanted(s, k)
    ensures var r := StartAll(s, ts, fails);
      && r.self == s.self && r.tunnels == s.tunnels
      && NoneUnwanted(r, k) && s.Running(k).Keys <= r.Running(k).Keys
      && (k.Outlets? || fails == {} ==> Started(r, k, ts))
    decreases |ts|
  {
    if ts != [] {
      var t, failed := ts[0], ts[0].id in fails;
      StartBoth(s, t, failed, k);
      var a := StartIfNeeded(StartIfNeeded(s, Outlets, t, failed), Inlets, t, failed);
      StartAllStarts(a, ts[1..], fails, k);
      var r := StartAll(s, ts, fails);
      if k.Outlets? || fails == {} {
        forall i | 0 <= i < |ts| && ts[i].id in r.tunnels && r.tunnels[ts[i].id] == ts[i] && ShouldRun(r.self, k, ts[i])
          ensures ts[i].id in r.Running(k)
        {
          if i > 0 {
            assert ts[i] == ts[1..][i - 1];
          }
        }
      }
    }
  }

  lemma SyncReconcilesKind(s: State, ts: seq<Tunnel>, fails: set<Id>, k: Kind)
    ensures var r := Sync(s, ts, fails);
      && r.self == s.self && r.tunnels == WantedTable(ts) && Keyed(r.tunnels) && NoneUnwanted(r, k)
      && (k.Outlets? || fails == {} ==> NoneMissing(r, k))
  {
    var a := s.(tunnels := WantedTable(ts));
    var b := StopAll(a, Outlets);
    var c := StopAll(b, Inlets);
    if k.Outlets? {
      StopAllLeavesWanted(a, Outlets, k);
    }
    StopAllLeavesWanted(b, Inlets, k);
    StartAllStarts(c, ts, fails, k);
    WantedTableKeyed(ts);
    var r := Sync(s, ts, fails);
    if k.Outlets? || fails == {} {
      forall id | id in r.tunnels && ShouldRun(r.self, k, r.tunnels[id])
        ensures id in r.Running(k)
      {
        var i :| 0 <= i < |ts| && ts[i] == WantedTable(ts)[id];
        assert ts[i].id == id;
      }
    }
  }

  // ---------------------------------------------------------------- every run of updates and resyncs

  datatype Command = Modify(tunnel: Tunnel, isDelete: bool, fails: bool) | Resync(list: seq<Tunnel>, failing: set<Id>)

  function After(s: State, c: Command): State {
    match c
    case Modify(t, isDelete, fails) => Update(s, t, isDelete, fails)
    case Resync(ts, fails) => Sync(s, ts, fails)
  }

  function Run(s: State, cs: seq<Command>): State {
    if cs == [] then s else After(Run(s, cs[..|cs| - 1]), cs[|cs| - 1])
  }

  predicate EveryStartSucceeds(c: Command) {
    match c
    case Modify(_, _, fails) => !fails
    case Resync(_, fails) => fails == {}
  }

  lemma UpdateKeepsKeyed(s: State, t: Tunnel, isDelete: bool, fails: bool)
    requires Keyed(s.tunnels)
    ensures Update(s, t, isDelete, fails).self == s.self && Keyed(Update(s, t, isDelete, fails).tunnels)
  {
    UpdateAt(s, t, isDelete, fails, Inlets);
  }

  lemma AfterKeepsKind(s: State, c: Command, k: Kind)
    requires Keyed(s.tunnels) && NoneUnwanted(s, k)
    ensures var r := After(s, c);
      && r.self == s.self && Keyed(r.tunnels) && NoneUnwanted(r, k)
      && (NoneMissing(s, k) && (k.Outlets? || EveryStartSucceeds(c)) ==> NoneMissing(r, k))
  {
    match c
    case Modify(t, isDelete, fails) =>
      UpdateKeepsKind(s, t, isDelete, fails, k);
      UpdateKeepsKeyed(s, t, isDelete, fails);
    case Resync(ts, fails) =>
      SyncReconcilesKind(s, ts, fails, k);
  }

  lemma {:induction false} EveryRunKeepsKind(s: State, cs: seq<Command>, k: Kind)
    requires Keyed(s.tunnels) && NoneUnwanted(s, k) && NoneMissing(s, k)
    ensures var r := Run(s, cs);
      && r.self == s.self && Keyed(r.tunnels) && NoneUnwanted(r, k)
      && (k.Outlets? || (forall i :: 0 <= i < |cs| ==> EveryStartSucceeds(cs[i])) ==> NoneMissing(r, k))
  {
    if cs != [] {
      var before, c := cs[..|cs| - 1], cs[|cs| - 1];
      EveryRunKeepsKind(s, before, k);
      AfterKeepsKind(Run(s, before), c, k);
      if forall i :: 0 <= i < |cs| ==> EveryStartSucceeds(cs[i]) {
        assert forall i :: 0 <= i < |before| ==> EveryStartSucceeds(before[i]);
      }
    }
  }

  /**
   Whatever inlets fail to start: no component runs that the table does not ask for, and no outlet is missing.
   When every start succeeds no inlet is missing either.
   */
  lemma EveryRunReconciled(s: State, cs: seq<Command>)
    requires Reconciled(s)
    ensures var r := Run(s, cs);
      && r.self == s.self && Keyed(r.tunnels)
      && NoneUnwanted(r, Inlets) && NoneUnwanted(r, Outlets) && NoneMissing(r, Outlets)
    ensures (forall i :: 0 <= i < |cs| ==> EveryStartSucceeds(cs[i])) ==> Reconciled(Run(s, cs))
  {
    EveryRunKeepsKind(s, cs, Inlets);
    EveryRunKeepsKind(s, cs, Outlets);
  }

  // ---------------------------------------------------------------- said of the table alone

  /** Outlets run exactly for the enabled tunnels this player sends through, each as its tunnel is described. */
  ghost predicate OutletsAtTheSender(s: State) {
    forall id ::
      && (id in s.outlets <==> id in s.tunnels && s.tunnels[id].enabled && s.tunnels[id].sender == s.self)
      && (id in s.outlets ==> s.outlets[id].description == OutletDescription(s.tunnels[id]))
  }

  /** Inlets run only for the enabled tunnels this player receives from, each as its tunnel is described. */
  ghost predicate InletsOnlyAtTheReceiver(s: State) {
    forall id :: id in s.inlets ==>
      && id in s.tunnels && s.tunnels[id].enabled && s.tunnels[id].receiver == s.self
      && s.inlets[id].description == InletDescription(s.tunnels[id])
  }

  ghost predicate InletsAtTheReceiver(s: State) {
    InletsOnlyAtTheReceiver(s)
    && forall id :: id in s.tunnels && s.tunnels[id].enabled && s.tunnels[id].receiver == s.self ==> id in s.inlets
  }

  lemma WantedMeansHere(s: State)
    ensures NoneUnwanted(s, Outlets) && NoneMissing(s, Outlets) ==> OutletsAtTheSender(s)
    ensures NoneUnwanted(s, Inlets) ==> InletsOnlyAtTheReceiver(s)
    ensures NoneUnwanted(s, Inlets) && NoneMissing(s, Inlets) ==> InletsAtTheReceiver(s)
  {
    forall k: Kind, id | NoneUnwanted(s, k) && id in s.Running(k)
      ensures Wanted(s, k, id, s.Running(k)[id].description)
    {
    }
    assert s.Running(Outlets) == s.outlets && s.Running(Inlets) == s.inlets;
  }

  /** After every run of whole calls the components are where the table says, inlets if no start fails. */
  lemma EveryRunWhereTheTableSays(s: State, cs: seq<Command>)
    requires Reconciled(s)
    ensures OutletsAtTheSender(Run(s, cs)) && InletsOnlyAtTheReceiver(Run(s, cs))
    ensures (forall i :: 0 <= i < |cs| ==> EveryStartSucceeds(cs[i])) ==> InletsAtTheReceiver(Run(s, cs))
  {
    EveryRunReconciled(s, cs);
    WantedMeansHere(Run(s, cs));
  }

  /** This is the last tunnel with this id in the list. */
  predicate LastWith(ts: seq<Tunnel>, id: Id, i: nat) {
    i < |ts| && ts[i].id == id && forall j :: i < j < |ts| ==> ts[j].id != id
  }

  /** And the table is what the calls said: an update writes or takes out one entry, a resync leaves its list. */
  lemma TableAfter(s: State, c: Command, id: Id)
    ensures var r := After(s, c).tunnels;
      match c
      case Modify(t, isDelete, _) =>
        && (id in r <==> if id == t.id then !isDelete else id in s.tunnels)
        && (id in r ==> r[id] == if id == t.id then t else s.tunnels[id])
      case Resync(ts, _) =>
        && (id in r <==> exists i: nat :: LastWith(ts, id, i))
        && (forall i: nat :: LastWith(ts, id, i) ==> id in r && r[id] == ts[i])
  {
    match c
    case Modify(t, isDelete, fails) => UpdateAt(s, t, isDelete, fails, Outlets);
    case Resync(ts, fails) =>
      SyncReconcilesKind(s, ts, fails, Outlets);
      LastInTheTable(ts, id);
  }

  lemma {:induction false} LastInTheTable(ts: seq<Tunnel>, id: Id)
    ensures id in WantedTable(ts) <==> exists i: nat :: LastWith(ts, id, i)
    ensures forall i: nat :: LastWith(ts, id, i) ==> id in WantedTable(ts) && WantedTable(ts)[id] == ts[i]
  {
    if ts != [] {
      var before, last := ts[..|ts| - 1], |ts| - 1;
      LastInTheTable(before, id);
      if ts[last].id == id {
        assert LastWith(ts, id, last);
        assert forall i: nat :: LastWith(ts, id, i) ==> i == last;
      } else {
        forall i: nat
          ensures LastWith(ts, id, i) <==> LastWith(before, id, i)
        {
          assert LastWith(ts, id, i) ==> i != last && before[i].id == id;
          assert LastWith(before, id, i) ==> ts[i].id == id;
        }
      }
    }
  }

  /**
   Incremental updates end where one resync of the resulting table ends, whatever the resynced manager held before:
   same keys, same descriptions. For outlets whatever fails, for inlets if none failed to start.
   */
  lemma UpdatesEqualOneResync(s: State, cs: seq<Command>, other: State, ts: seq<Tunnel>, k: Kind)
    requires Reconciled(s) && other.self == s.self
    requires k.Outlets? || forall i :: 0 <= i < |cs| ==> EveryStartSucceeds(cs[i])
    requires WantedTable(ts) == Run(s, cs).tunnels
    ensures Descriptions(Run(s, cs), k) == Descriptions(Sync(other, ts, {}), k)
  {
    EveryRunKeepsKind(s, cs, k);
    SyncReconcilesKind(other, ts, {}, k);
    SameTableSameDescriptions(Run(s, cs), Sync(other, ts, {}), k);
  }

  // ---------------------------------------------------------------- what the reports say

  /** For every reported tunnel the last report of a component says running exactly when it is installed. */
  ghost predicate ReportsTrue(s: State, k: Kind) {
    forall id :: id != 0 ==> (id in s.Running(k) <==> (id, k) in s.runtime && s.runtime[(id, k)])
  }

  lemma StopReportsTrue(s: State, j: Kind, id: Id, k: Kind)
    requires ReportsTrue(s, k)
    ensures ReportsTrue(StopUnwanted(s, j, id), k)
  {
  }

  lemma StartReportsTrue(s: State, j: Kind, t: Tunnel, fails: bool, k: Kind)
    requires ReportsTrue(s, k)
    ensures ReportsTrue(StartIfNeeded(s, j, t, fails), k)
  {
  }

  lemma StopAllReportsTrue(s: State, j: Kind, k: Kind)
    requires ReportsTrue(s, k)
    ensures ReportsTrue(StopAll(s, j), k)
  {
    var r, gone := StopAll(s, j), AllUnwanted(s, j);
    forall id | id != 0
      ensures (id, k) in Pairs(gone - {0}, j) <==> j == k && id in gone
    {
    }
  }

  lemma {:induction false} StartAllReportsTrue(s: State, ts: seq<Tunnel>, fails: set<Id>, k: Kind)
    requires ReportsTrue(s, k)
    ensures ReportsTrue(StartAll(s, ts, fails), k)
    decreases |ts|
  {
    if ts != [] {
      var t, failed := ts[0], ts[0].id in fails;
      var a := StartIfNeeded(s, Outlets, t, failed);
      StartReportsTrue(s, Outlets, t, failed, k);
      StartReportsTrue(a, Inlets, t, failed, k);
      StartAllReportsTrue(StartIfNeeded(a, Inlets, t, failed), ts[1..], fails, k);
    }
  }

  lemma UpdateReportsTrue(s: State, t: Tunnel, isDelete: bool, fails: bool, k: Kind)
    requires ReportsTrue(s, k)
    ensures ReportsTrue(Update(s, t, isDelete, fails), k)
  {
    var a := Changed(s, t, isDelete);
    assert ReportsTrue(a, k);
    var b := StopUnwanted(a, Outlets, t.id);
    StopReportsTrue(a, Outlets, t.id, k);
    var c := StopUnwanted(b, Inlets, t.id);
    StopReportsTrue(b, Inlets, t.id, k);
    if !isDelete {
      var d := StartIfNeeded(c, Outlets, t, fails);
      StartReportsTrue(c, Outlets, t, fails, k);
      var e := StartIfNeeded(d, Inlets, t, fails);
      StartReportsTrue(d, Inlets, t, fails, k);
      ReaffirmReportsTrue(e, t.id, k);
      assert Update(s, t, isDelete, fails) == Reaffirm(e, t.id);
    }
  }

  lemma ReaffirmReportsTrue(s: State, id: Id, k: Kind)
    requires ReportsTrue(s, k)
    ensures ReportsTrue(Reaffirm(s, id), k)
  {
  }

  lemma SyncReportsTrue(s: State, ts: seq<Tunnel>, fails: set<Id>, k: Kind)
    requires ReportsTrue(s, k)
    ensures ReportsTrue(Sync(s, ts, fails), k)
  {
    var a := s.(tunnels := WantedTable(ts));
    assert ReportsTrue(a, k);
    StopAllReportsTrue(a, Outlets, k);
    StopAllReportsTrue(StopAll(a, Outlets), Inlets, k);
    StartAllReportsTrue(StopAll(StopAll(a, Outlets), Inlets), ts, fails, k);
  }

  /** The reports stay true over every run, failing starts included. */
  lemma {:induction false} EveryRunReportsTrue(s: State, cs: seq<Command>, k: Kind)
    requires ReportsTrue(s, k)
    ensures ReportsTrue(Run(s, cs), k)
  {
    if cs != [] {
      EveryRunReportsTrue(s, cs[..|cs| - 1], k);
      match cs[|cs| - 1]
      case Modify(t, isDelete, fails) =>
        UpdateReportsTrue(Run(s, cs[..|cs| - 1]), t, isDelete, fails, k);
      case Resync(ts, fails) =>
        SyncReportsTrue(Run(s, cs[..|cs| - 1]), ts, fails, k);
    }
  }

  predicate NeverToldOfZero(s: State) {
    (0, Inlets) !in s.runtime && (0, Outlets) !in s.runtime
  }

  lemma StartNeverTellsOfZero(s: State, k: Kind, t: Tunnel, fails: bool)
    requires NeverToldOfZero(s)
    ensures NeverToldOfZero(StartIfNeeded(s, k, t, fails))
  {
    InstalledRuns(s, k, t, k);
  }

  lemma StopNeverTellsOfZero(s: State, k: Kind, id: Id)
    requires NeverToldOfZero(s)
    ensures NeverToldOfZero(StopUnwanted(s, k, id))
  {
  }

  lemma UpdateNeverTellsOfZero(s: State, t: Tunnel, isDelete: bool, fails: bool)
    requires NeverToldOfZero(s)
    ensures NeverToldOfZero(Update(s, t, isDelete, fails))
  {
    var a := StopUnwanted(Changed(s, t, isDelete), Outlets, t.id);
    StopNeverTellsOfZero(Changed(s, t, isDelete), Outlets, t.id);
    StopNeverTellsOfZero(a, Inlets, t.id);
    var b := StopUnwanted(a, Inlets, t.id);
    StartNeverTellsOfZero(b, Outlets, t, fails);
    StartNeverTellsOfZero(StartIfNeeded(b, Outlets, t, fails), Inlets, t, fails);
  }

  lemma {:induction false} StartAllNeverTellsOfZero(s: State, ts: seq<Tunnel>, fails: set<Id>)
    requires NeverToldOfZero(s)
    ensures NeverToldOfZero(StartAll(s, ts, fails))
    decreases |ts|
  {
    if ts != [] {
      var t, failed := ts[0], ts[0].id in fails;
      var a := StartIfNeeded(s, Outlets, t, failed);
      StartNeverTellsOfZero(s, Outlets, t, failed);
      StartNeverTellsOfZero(a, Inlets, t, failed);
      StartAllNeverTellsOfZero(StartIfNeeded(a, Inlets, t, failed), ts[1..], fails);
    }
  }

  lemma StopAllNeverTellsOfZero(s: State, k: Kind)
    requires NeverToldOfZero(s)
    ensures NeverToldOfZero(StopAll(s, k))
  {
    assert (0, Inlets) !in Pairs(AllUnwanted(s, k) - {0}, k) && (0, Outlets) !in Pairs(AllUnwanted(s, k) - {0}, k);
  }

  lemma ReaffirmTells(s: State, id: Id, k: Kind)
    requires id != 0
    ensures var r := Reaffirm(s, id);
      r.Running(k) == s.Running(k) && (id in s.Running(k) ==> (id, k) in r.runtime && r.runtime[(id, k)])
  {
  }

  /** After an update that does not delete, what is there has been reported as running, whatever was said before. */
  lemma UpdateTells(s: State, t: Tunnel, fails: bool, k: Kind)
    requires t.id != 0
    ensures var r := Update(s, t, false, fails);
      t.id in r.Running(k) ==> (t.id, k) in r.runtime && r.runtime[(t.id, k)]
  {
    var stopped := StopUnwanted(StopUnwanted(Changed(s, t, false), Outlets, t.id), Inlets, t.id);
    ReaffirmTells(StartIfNeeded(StartIfNeeded(stopped, Outlets, t, fails), Inlets, t, fails), t.id, k);
  }

  /** Tunnel 0 is never reported, whatever is done with it. */
  lemma {:induction false} EveryRunNeverTellsOfZero(s: State, cs: seq<Command>)
    requires NeverToldOfZero(s)
    ensures NeverToldOfZero(Run(s, cs))
  {
    if cs != [] {
      EveryRunNeverTellsOfZero(s, cs[..|cs| - 1]);
      var m := Run(s, cs[..|cs| - 1]);
      match cs[|cs| - 1]
      case Modify(t, isDelete, fails) => UpdateNeverTellsOfZero(m, t, isDelete, fails);
      case Resync(ts, fails) =>
        var a := m.(tunnels := WantedTable(ts));
        StopAllNeverTellsOfZero(a, Outlets);
        StopAllNeverTellsOfZero(StopAll(a, Outlets), Inlets);
        StartAllNeverTellsOfZero(StopAll(StopAll(a, Outlets), Inlets), ts, fails);
    }
  }

  // ---------------------------------------------------------------- the tunnel an outlet captured

  lemma OutletsOfUpdate(s: State, t: Tunnel, fails: bool)
    ensures var stopped := StopUnwanted(StopUnwanted(Changed(s, t, false), Outlets, t.id), Inlets, t.id);
      Update(s, t, false, fails).outlets == StartIfNeeded(stopped, Outlets, t, fails).outlets
  {
    var stopped := StopUnwanted(StopUnwanted(Changed(s, t, false), Outlets, t.id), Inlets, t.id);
    OneStart(StartIfNeeded(stopped, Outlets, t, fails), Inlets, t, fails, Outlets);
  }

  /** The outlet an update leaves is the one it found, when the description has not changed, and a new one otherwise. */
  lemma OutletAfterUpdate(s: State, t: Tunnel, fails: bool)
    requires ShouldRun(s.self, Outlets, t)
    ensures t.id in Update(s, t, false, fails).outlets
    ensures Update(s, t, false, fails).outlets[t.id] ==
      if t.id in s.outlets && s.outlets[t.id].description == OutletDescription(t) then s.outlets[t.id]
      else Component(OutletDescription(t), t)
  {
    OutletsOfUpdate(s, t, fails);
    var c := Changed(s, t, false);
    var d := StopUnwanted(c, Outlets, t.id);
    OneStop(d, Inlets, t.id, Outlets);
    OutletOf(c, t);
    StartedOutlet(StopUnwanted(d, Inlets, t.id), t, fails);
  }

  lemma OutletOf(s: State, t: Tunnel)
    requires t.id in s.tunnels && s.tunnels[t.id] == t && ShouldRun(s.self, Outlets, t)
    ensures var r := StopUnwanted(s, Outlets, t.id);
      && r.self == s.self && r.tunnels == s.tunnels
      && (t.id in r.outlets <==> t.id in s.outlets && s.outlets[t.id].description == OutletDescription(t))
      && (t.id in r.outlets ==> r.outlets[t.id] == s.outlets[t.id])
  {
  }

  lemma StartedOutlet(s: State, t: Tunnel, fails: bool)
    requires t.id in s.tunnels && s.tunnels[t.id] == t && ShouldRun(s.self, Outlets, t)
    ensures StartIfNeeded(s, Outlets, t, fails).outlets
         == if t.id in s.outlets then s.outlets else s.outlets[t.id := Component(OutletDescription(t), t)]
  {
  }

  /**
   An outlet that should still run is never replaced by an update, because its description names neither the receiver
   nor anything else that may change while it runs. Its replies therefore go to the current receiver exactly when it
   is a new outlet or already answered to that receiver.
   */
  lemma RepliesReachTheReceiverIff(s: State, t: Tunnel, fails: bool)
    requires Keyed(s.tunnels) && NoneUnwanted(s, Outlets) && ShouldRun(s.self, Outlets, t)
    ensures t.id in Update(s, t, false, fails).outlets
    ensures Update(s, t, false, fails).outlets[t.id].captured.receiver == t.receiver
       <==> t.id !in s.outlets || s.outlets[t.id].captured.receiver == t.receiver
  {
    OutletAfterUpdate(s, t, fails);
    if t.id in s.outlets {
      assert Wanted(s, Outlets, t.id, s.Running(Outlets)[t.id].description);
      SameOutletDescription(s.tunnels[t.id], t, s.self);
    }
  }

  lemma SameOutletDescription(a: Tunnel, b: Tunnel, self: Player)
    requires a.id == b.id && ShouldRun(self, Outlets, a) && ShouldRun(self, Outlets, b)
    ensures OutletDescription(a) == OutletDescription(b)
  {
  }

  predicate AnswersTo(s: State, id: Id, receiver: Player) {
    id in s.outlets && s.outlets[id].captured.receiver == receiver
  }

  /** The outlet of a tunnel moved from receiver 2 to receiver 3 still answers to 2; after a resync it answers to 3. */
  lemma StaleReceiver(t: Tunnel, empty: State)
    requires empty == State(1, map[], map[], map[], map[])
    requires t.enabled && t.sender == 1 && t.receiver == 2
    ensures var moved := t.(receiver := 3);
      var r := Update(Update(empty, t, false, false), moved, false, false);
      AnswersTo(r, t.id, 2) && AnswersTo(Sync(empty, [moved], {}), t.id, 3)
      && t.id in r.tunnels && r.tunnels[t.id].receiver == 3
  {
    var moved := t.(receiver := 3);
    var a := Update(empty, t, false, false);
    OutletAfterUpdate(empty, t, false);
    OutletAfterUpdate(a, moved, false);
    SameOutletDescription(t, moved, 1);
    UpdateAt(a, moved, false, false, Outlets);
    var wanted := empty.(tunnels := WantedTable([moved]));
    assert [moved][..0] == [];
    assert WantedTable([moved]) == map[t.id := moved];
    assert StopAll(StopAll(wanted, Outlets), Inlets).outlets == map[];
    StartsFirst(StopAll(StopAll(wanted, Outlets), Inlets), moved);
  }

  lemma StartsFirst(s: State, t: Tunnel)
    requires s.outlets == map[] && t.id in s.tunnels && s.tunnels[t.id] == t && ShouldRun(s.self, Outlets, t)
    ensures t.id in StartAll(s, [t], {}).outlets && StartAll(s, [t], {}).outlets[t.id].captured == t
  {
    var a := StartIfNeeded(s, Outlets, t, false);
    var b := StartIfNeeded(a, Inlets, t, false);
    assert b.outlets == a.outlets;
    assert [t][1..] == [];
    assert StartAll(b, [], {}) == b;
  }

  // ---------------------------------------------------------------- tunnels that are described alike

  /** The inlet an update leaves is the one it found, when the description has not changed, and a new one otherwise. */
  lemma InletAfterUpdate(s: State, t: Tunnel)
    requires ShouldRun(s.self, Inlets, t)
    ensures t.id in Update(s, t, false, false).inlets
    ensures Update(s, t, false, false).inlets[t.id] ==
      if t.id in s.inlets && s.inlets[t.id].description == InletDescription(t) then s.inlets[t.id]
      else Component(InletDescription(t), t)
  {
    var c := Changed(s, t, false);
    var d := StopUnwanted(c, Outlets, t.id);
    OneStop(c, Outlets, t.id, Inlets);
    InletOf(d, t);
    var e := StopUnwanted(d, Inlets, t.id);
    var f := StartIfNeeded(e, Outlets, t, false);
    OneStart(e, Outlets, t, false, Inlets);
    StartedInlet(f, t);
  }

  lemma InletOf(s: State, t: Tunnel)
    requires t.id in s.tunnels && s.tunnels[t.id] == t && ShouldRun(s.self, Inlets, t)
    ensures var r := StopUnwanted(s, Inlets, t.id);
      && r.self == s.self && r.tunnels == s.tunnels
      && (t.id in r.inlets <==> t.id in s.inlets && s.inlets[t.id].description == InletDescription(t))
      && (t.id in r.inlets ==> r.inlets[t.id] == s.inlets[t.id])
  {
  }

  lemma StartedInlet(s: State, t: Tunnel)
    requires t.id in s.tunnels && s.tunnels[t.id] == t && ShouldRun(s.self, Inlets, t)
    ensures StartIfNeeded(s, Inlets, t, false).inlets
         == if t.id in s.inlets then s.inlets else s.inlets[t.id := Component(InletDescription(t), t)]
  {
  }

  /**
   Where texts are ambiguous, an update that changes username and password may be taken for no change: the inlet of the
   old tunnel goes on, with the old credentials.
   */
  lemma CollidingUpdateKeepsTheInlet(s: State, t: Tunnel, user: string, more: string)
    requires ShouldRun(s.self, Inlets, t) && t.username == user + LabelText(PasswordIs) + more
    requires t.id in s.inlets && s.inlets[t.id] == Component(InletDescription(t), t)
    ensures var u := Shifted(t, user, more);
      && u.username != t.username
      && t.id in Update(s, u, false, false).inlets && Update(s, u, false, false).inlets[t.id].captured == t
  {
    UsernamesCollide(t, user, more);
    InletAfterUpdate(s, Shifted(t, user, more));
    assert |user| < |t.username|;
  }

  // ---------------------------------------------------------------- the manager

  class Manager {
    const self: Player
    var tunnels: map<Id, Tunnel>
    var inlets: map<Id, Component>
    var outlets: map<Id, Component>
    var runtime: map<(Id, Kind), bool>

    constructor (self: Player)
      ensures View() == State(self, map[], map[], map[], map[])
    {
      this.self := self;
      tunnels, inlets, outlets, runtime := map[], map[], map[], map[];
    }

    ghost function View(): State
      reads this
    {
      State(self, tunnels, inlets, outlets, runtime)
    }

    method ReportRuntime(id: Id, k: Kind, running: bool)
      modifies this`runtime
      ensures View() == old(View()).Report(id, k, running)
    {
      if id == 0 {
        return;
      }
      runtime := runtime[(id, k) := running];
    }

    /** The first look under the lock. */
    method LookOutlet(t: Tunnel) returns (start: bool)
      ensures start == Needed(View(), Outlets, t)
    {
      if !ShouldRun(self, Outlets, t) {
        return false;
      }
      return !(t.id in outlets || t.id !in tunnels || !ShouldRun(self, Outlets, tunnels[t.id])
        || OutletDescription(tunnels[t.id]) != OutletDescription(t));
    }

    /** The second look, which installs. */
    method InstallOutlet(t: Tunnel) returns (installed: bool)
      requires ShouldRun(self, Outlets, t)
      modifies this`outlets
      ensures installed == Needed(old(View()), Outlets, t)
      ensures View() == if installed then Installed(old(View()), Outlets, t) else old(View())
    {
      installed := false;
      if t.id !in outlets && t.id in tunnels && ShouldRun(self, Outlets, tunnels[t.id])
        && OutletDescription(tunnels[t.id]) == OutletDescription(t) {
        outlets := outlets[t.id := Component(OutletDescription(t), t)];
        installed := true;
      }
    }

    method StartOutletIfNeeded(t: Tunnel)
      modifies this`outlets, this`runtime
      ensures View() == StartIfNeeded(old(View()), Outlets, t, false)
    {
      var start := LookOutlet(t);
      if !start {
        return;
      }
      var installed := InstallOutlet(t);
      assert installed;   // with no other call in between
      ReportRuntime(t.id, Outlets, true);
    }

    method LookInlet(t: Tunnel) returns (start: bool)
      ensures start == Needed(View(), Inlets, t)
    {
      if !ShouldRun(self, Inlets, t) {
        return false;
      }
      return !(t.id in inlets || t.id !in tunnels || !ShouldRun(self, Inlets, tunnels[t.id])
        || InletDescription(tunnels[t.id]) != InletDescription(t));
    }

    method InstallInlet(t: Tunnel) returns (installed: bool)
      requires ShouldRun(self, Inlets, t)
      modifies this`inlets
      ensures installed == Needed(old(View()), Inlets, t)
      ensures View() == if installed then Installed(old(View()), Inlets, t) else old(View())
    {
      installed := false;
      if t.id !in inlets && t.id in tunnels && ShouldRun(self, Inlets, tunnels[t.id])
        && InletDescription(tunnels[t.id]) == InletDescription(t) {
        inlets := inlets[t.id := Component(InletDescription(t), t)];
        installed := true;
      }
    }

    method StartInletIfNeeded(t: Tunnel, fails: bool)
      modifies this`inlets, this`runtime
      ensures View() == StartIfNeeded(old(View()), Inlets, t, fails)
    {
      var start := LookInlet(t);
      if !start {
        return;
      }
      if fails {
        ReportRuntime(t.id, Inlets, false);
        return;
      }
      var installed := InstallInlet(t);
      assert installed;   // with no other call in between
      ReportRuntime(t.id, Inlets, true);
    }

    method TakeOutOutlet(id: Id) returns (stop: bool)
      modifies this`outlets
      ensures stop == Unwanted(old(View()), Outlets, id)
      ensures View() == TakenOut(old(View()), Outlets, id)
    {
      stop := id in outlets && (id !in tunnels || !ShouldRun(self, Outlets, tunnels[id])
        || outlets[id].description != OutletDescription(tunnels[id]));
      if stop {
        outlets := outlets - {id};
      }
    }

    method TakeOutInlet(id: Id) returns (stop: bool)
      modifies this`inlets
      ensures stop == Unwanted(old(View()), Inlets, id)
      ensures View() == TakenOut(old(View()), Inlets, id)
    {
      stop := id in inlets && (id !in tunnels || !ShouldRun(self, Inlets, tunnels[id])
        || inlets[id].description != InletDescription(tunnels[id]));
      if stop {
        inlets := inlets - {id};
      }
    }

    method UpdateTunnel(t: Tunnel, isDelete: bool, fails: bool)
      modifies this
      ensures View() == Update(old(View()), t, isDelete, fails)
    {
      if isDelete {
        tunnels := tunnels - {t.id};
      } else {
        tunnels := tunnels[t.id := t];
      }
      ghost var changed := View();
      TakenOutTogether(changed, t.id);
      var stopOutlet := TakeOutOutlet(t.id);
      var stopInlet := TakeOutInlet(t.id);
      if stopOutlet {
        ReportRuntime(t.id, Outlets, false);
      }
      if stopInlet {
        ReportRuntime(t.id, Inlets, false);
      }
      if isDelete {
        return;
      }
      StartOutletIfNeeded(t);
      StartInletIfNeeded(t, fails);
      ReaffirmRuntime(t.id);
    }

    method ReaffirmRuntime(id: Id)
      modifies this`runtime
      ensures View() == Reaffirm(old(View()), id)
    {
      if id == 0 {
        return;
      }
      var hasOutlet, hasInlet := id in outlets, id in inlets;
      if hasOutlet {
        ReportRuntime(id, Outlets, true);
      }
      if hasInlet {
        ReportRuntime(id, Inlets, true);
      }
    }

    method ReportAllStopped(k: Kind, gone: set<Id>)
      modifies this`runtime
      ensures runtime == ReportedStopped(old(runtime), gone, k)
    {
      var left := gone;
      while left != {}
        invariant left <= gone
        invariant runtime == ReportedStopped(old(runtime), gone - left, k)
        decreases left
      {
        var id :| id in left;
        OneMoreReported(old(runtime), gone - left, id, k);
        assert gone - (left - {id}) == (gone - left) + {id};
        left := left - {id};
        ReportRuntime(id, k, false);
      }
      assert gone - {} == gone;
    }

    method TakeOutUnwanted(k: Kind) returns (gone: set<Id>)
      modifies this`inlets, this`outlets
      ensures gone == AllUnwanted(old(View()), k)
      ensures View() == old(View()).WithRunning(k, old(View()).Running(k) - gone)
    {
      if k.Inlets? {
        gone := set id | id in inlets && (id !in tunnels || !ShouldRun(self, Inlets, tunnels[id])
          || inlets[id].description != InletDescription(tunnels[id]));
        assert gone == AllUnwanted(View(), Inlets);
        inlets := inlets - gone;
      } else {
        gone := set id | id in outlets && (id !in tunnels || !ShouldRun(self, Outlets, tunnels[id])
          || outlets[id].description != OutletDescription(tunnels[id]));
        assert gone == AllUnwanted(View(), Outlets);
        outlets := outlets - gone;
      }
    }

    /** A nil entry of the list is skipped by the source; the list here has none. */
    method SyncTunnels(ts: seq<Tunnel>, fails: set<Id>)
      modifies this
      ensures View() == Sync(old(View()), ts, fails)
    {
      var want: map<Id, Tunnel> := map[];
      for i := 0 to |ts|
        invariant want == WantedTable(ts[..i])
      {
        assert ts[..i + 1][..i] == ts[..i];
        want := want[ts[i].id := ts[i]];
      }
      assert ts[..|ts|] == ts;
      tunnels := want;
      ghost var s := View();
      TakenOutAllTogether(s);
      var goneOutlets := TakeOutUnwanted(Outlets);
      var goneInlets := TakeOutUnwanted(Inlets);
      ReportAllStopped(Outlets, goneOutlets);
      ReportAllStopped(Inlets, goneInlets);
      assert View() == StopAll(StopAll(s, Outlets), Inlets);
      ghost var goal := StartAll(View(), ts, fails);
      var i := 0;
      while i < |ts|
        invariant 0 <= i <= |ts|
        invariant goal == StartAll(View(), ts[i..], fails)
      {
        assert ts[i..][1..] == ts[i + 1..];
        StartOutletIfNeeded(ts[i]);
        StartInletIfNeeded(ts[i], ts[i].id in fails);
        i := i + 1;
      }
    }
  }
}
