/**
 Which region each report of the tunnel manager speaks of, and when the last report of a component is wrong:
 internal/proxy/manager.go. The runs are those of TunnelSteps.
 */
module TunnelReports {
  import opened TunnelModel
  import opened TunnelSync
  import opened TunnelSteps

  /**
   For every act a worker has left, the number of the step that put it there; and for every component that has been
   reported, the number of the step its last report speaks of.
   */
  datatype History = History(put: map<Worker, seq<nat>>, spoken: map<(Id, Kind), nat>)

  function Stamps(acts: seq<Act>, now: nat): seq<nat> {
    seq(|acts|, _ => now)
  }

  function Remember(x: System, h: History, e: Step, now: nat): History {
    match e
    case Begin(w, c) =>
      if (w in x.workers && x.workers[w] != []) || !Ordered(x.state, c) then h
      else h.(put := h.put[w := Stamps(Program(x.state, c), now)])
    case Do(w, fails) =>
      if w !in x.workers || x.workers[w] == [] || w !in h.put || h.put[w] == [] then h
      else
        var a := x.workers[w][0];
        History(h.put[w := Stamps(ActsAfter(x.state, a, fails), now) + h.put[w][1..]],
                if a.Tell? && a.id != 0 then h.spoken[(a.id, a.k) := h.put[w][0]] else h.spoken)
  }

  function After(self: Player, es: seq<Step>): System {
    TunnelSteps.Run(Start(self), es)
  }

  function Remembered(self: Player, es: seq<Step>): History {
    if es == [] then History(map[], map[])
    else
      var before := es[..|es| - 1];
      Remember(After(self, before), Remembered(self, before), es[|es| - 1], |es|)
  }

  // ---------------------------------------------------------------- what a region finds and leaves

  predicate InstalledAfter(self: Player, es: seq<Step>, n: nat, id: Id, k: Kind)
    requires n <= |es|
  {
    InstalledNow(After(self, es[..n]), id, k)
  }

  /** This step is the second look of a start, and finds another's component in its place. */
  predicate FindsTaken(x: System, e: Step, id: Id, k: Kind) {
    && e.Do? && e.w in x.workers && x.workers[e.w] != [] && x.workers[e.w][0].Install?
    && x.workers[e.w][0].k == k && x.workers[e.w][0].t.id == id && InstalledNow(x, id, k)
  }

  predicate FoundTaken(self: Player, es: seq<Step>, n: nat, id: Id, k: Kind)
    requires n <= |es|
  {
    n > 0 && FindsTaken(After(self, es[..n - 1]), es[n - 1], id, k)
  }

  /** What a region has reported: what it left, but for a start that reports its own failure. */
  predicate Claimed(self: Player, es: seq<Step>, n: nat, id: Id, k: Kind)
    requires n <= |es|
  {
    InstalledAfter(self, es, n, id, k) && !FoundTaken(self, es, n, id, k)
  }

  predicate Truthful(self: Player, es: seq<Step>, a: Act, n: nat) {
    a.Tell? ==> n <= |es| && a.running == Claimed(self, es, n, a.id, a.k)
  }

  lemma ClaimedStays(self: Player, es: seq<Step>, n: nat, id: Id, k: Kind)
    requires es != [] && n <= |es| - 1
    ensures Claimed(self, es, n, id, k) == Claimed(self, es[..|es| - 1], n, id, k)
  {
    var before := es[..|es| - 1];
    assert es[..n] == before[..n];
    assert n > 0 ==> es[..n - 1] == before[..n - 1];
  }

  lemma ClaimedNow(self: Player, es: seq<Step>, id: Id, k: Kind)
    requires es != []
    ensures Claimed(self, es, |es|, id, k)
        <==> InstalledNow(After(self, es), id, k) && !FindsTaken(After(self, es[..|es| - 1]), es[|es| - 1], id, k)
  {
    assert es[..|es|] == es;
  }

  lemma ProgramTellsStopped(s: State, c: Call, i: nat)
    requires Ordered(s, c) && i < |Program(s, c)| && Program(s, c)[i].Tell?
    ensures var a := Program(s, c)[i]; !a.running && a.id in Stopped(s, c, a.k)
  {
    var outlets, inlets := Order(s, c, Outlets), Order(s, c, Inlets);
    var told := |outlets| + |inlets|;
    assert i >= told ==> Program(s, c)[i] == LooksLeft(c)[i - told];
    LooksTellNothing(c);
    if i < |outlets| {
      assert Program(s, c)[i] == StoppedTells(outlets, Outlets)[i] == Tell(outlets[i], Outlets, false);
    } else {
      var j := i - |outlets|;
      assert Program(s, c)[i] == StoppedTells(inlets, Inlets)[j] == Tell(inlets[j], Inlets, false);
    }
  }

  lemma LooksTellNothing(c: Call)
    ensures forall i :: 0 <= i < |LooksLeft(c)| ==> !LooksLeft(c)[i].Tell?
  {
    if c.Resyncing? {
      LooksAreLooks(c.ts);
    }
  }

  lemma {:induction false} LooksAreLooks(ts: seq<Tunnel>)
    ensures forall i :: 0 <= i < |Looks(ts)| ==> Looks(ts)[i].Look?
  {
    if ts != [] {
      LooksAreLooks(ts[1..]);
    }
  }

  /** What a call reports as stopped is gone after its first region. */
  lemma BeginTruthful(self: Player, es: seq<Step>, w: Worker, c: Call, i: nat)
    requires es != [] && es[|es| - 1] == Begin(w, c)
    requires var s := After(self, es[..|es| - 1]).state;
      After(self, es).state == FirstRegion(s, c) && Ordered(s, c) && i < |Program(s, c)|
    ensures Truthful(self, es, Program(After(self, es[..|es| - 1]).state, c)[i], |es|)
  {
    var s := After(self, es[..|es| - 1]).state;
    var a := Program(s, c)[i];
    if a.Tell? {
      ProgramTellsStopped(s, c, i);
      FirstRegionTakesOut(s, c, a.k);
      ClaimedNow(self, es, a.id, a.k);
    }
  }

  lemma ActTells(s: State, a: Act, fails: bool, b: Act)
    requires b.Tell? && b in ActsAfter(s, a, fails)
    ensures !a.Tell? && !a.Look? && b.id == About(a)
    ensures a.Install? ==> b.k == a.k
    ensures b.running <==>
      b.id in StateAfter(s, a, fails).Running(b.k) && !(a.Install? && b.id in s.Running(b.k))
  {
    ActInstalls(s, a, fails, b.k);
  }

  /** What a look reports is what it leaves, unless it is a start that found its place taken. */
  lemma DoTruthful(self: Player, es: seq<Step>, w: Worker, fails: bool, b: Act)
    requires es != [] && es[|es| - 1] == Do(w, fails)
    requires var x := After(self, es[..|es| - 1]); w in x.workers && x.workers[w] != []
    requires var x := After(self, es[..|es| - 1]); b in ActsAfter(x.state, x.workers[w][0], fails)
    ensures Truthful(self, es, b, |es|)
  {
    var x := After(self, es[..|es| - 1]);
    if b.Tell? {
      ActTells(x.state, x.workers[w][0], fails, b);
      ClaimedNow(self, es, b.id, b.k);
    }
  }

  // ---------------------------------------------------------------- every report says what its region left

  ghost predicate Aligned(x: System, h: History) {
    h.put.Keys == x.workers.Keys && forall w :: w in x.workers ==> |h.put[w]| == |x.workers[w]|
  }

  ghost predicate PendingTruthful(self: Player, es: seq<Step>, x: System, h: History)
    requires Aligned(x, h)
  {
    forall w, i :: w in x.workers && 0 <= i < |x.workers[w]| ==> Truthful(self, es, x.workers[w][i], h.put[w][i])
  }

  ghost predicate ToldTruthful(self: Player, es: seq<Step>, s: State, h: History) {
    && h.spoken.Keys == s.runtime.Keys
    && forall id, k :: (id, k) in s.runtime ==> Truthful(self, es, Tell(id, k, s.runtime[(id, k)]), h.spoken[(id, k)])
  }

  ghost predicate Kept(self: Player, es: seq<Step>, x: System, h: History) {
    Aligned(x, h) && PendingTruthful(self, es, x, h) && ToldTruthful(self, es, x.state, h)
  }

  lemma TruthfulStays(self: Player, es: seq<Step>, a: Act, n: nat)
    requires es != [] && Truthful(self, es[..|es| - 1], a, n)
    ensures Truthful(self, es, a, n)
  {
    if a.Tell? {
      ClaimedStays(self, es, n, a.id, a.k);
    }
  }

  /** One more step, as far as nothing is added, leaves everything as true as it was. */
  lemma KeptStays(self: Player, es: seq<Step>, x: System, h: History)
    requires es != [] && Kept(self, es[..|es| - 1], x, h)
    ensures Kept(self, es, x, h)
  {
    forall w, i | w in x.workers && 0 <= i < |x.workers[w]|
      ensures Truthful(self, es, x.workers[w][i], h.put[w][i])
    {
      TruthfulStays(self, es, x.workers[w][i], h.put[w][i]);
    }
    forall id, k | (id, k) in x.state.runtime
      ensures Truthful(self, es, Tell(id, k, x.state.runtime[(id, k)]), h.spoken[(id, k)])
    {
      TruthfulStays(self, es, Tell(id, k, x.state.runtime[(id, k)]), h.spoken[(id, k)]);
    }
  }

  lemma BeginKept(self: Player, es: seq<Step>, w: Worker, c: Call)
    requires es != [] && es[|es| - 1] == Begin(w, c)
    requires var before := es[..|es| - 1]; Kept(self, es, After(self, before), Remembered(self, before))
    ensures Kept(self, es, After(self, es), Remembered(self, es))
  {
    var before := es[..|es| - 1];
    var x, h := After(self, before), Remembered(self, before);
    var y, g := After(self, es), Remembered(self, es);
    if y != x {
      FirstRegionTakesOut(x.state, c, Inlets);
      var acts := Program(x.state, c);
      assert g.put[w] == Stamps(acts, |es|);
      forall v, i | v in y.workers && 0 <= i < |y.workers[v]|
        ensures Truthful(self, es, y.workers[v][i], g.put[v][i])
      {
        if v == w {
          BeginTruthful(self, es, w, c, i);
        } else {
          assert y.workers[v] == x.workers[v] && g.put[v] == h.put[v];
        }
      }
    }
  }

  /** The acts of the worker that took a step: new ones, and those it had left. */
  lemma ActsKept(self: Player, es: seq<Step>, w: Worker, fails: bool, i: nat)
    requires es != [] && es[|es| - 1] == Do(w, fails)
    requires var before := es[..|es| - 1]; Kept(self, es, After(self, before), Remembered(self, before))
    requires w in After(self, es[..|es| - 1]).workers && After(self, es[..|es| - 1]).workers[w] != []
    ensures var h := Remembered(self, es);
      && w in After(self, es).workers && w in h.put && |h.put[w]| == |After(self, es).workers[w]|
      && (i < |After(self, es).workers[w]| ==> Truthful(self, es, After(self, es).workers[w][i], h.put[w][i]))
  {
    var x, h := After(self, es[..|es| - 1]), Remembered(self, es[..|es| - 1]);
    var acts := ActsAfter(x.state, x.workers[w][0], fails);
    var all, stamps := acts + x.workers[w][1..], Stamps(acts, |es|) + h.put[w][1..];
    assert After(self, es).workers[w] == all && Remembered(self, es).put[w] == stamps;
    if i < |acts| {
      assert all[i] == acts[i] && stamps[i] == |es|;
      DoTruthful(self, es, w, fails, acts[i]);
    } else if i < |all| {
      var j := i - |acts| + 1;
      assert all[i] == x.workers[w][j] && stamps[i] == h.put[w][j];
    }
  }

  lemma DoKept(self: Player, es: seq<Step>, w: Worker, fails: bool)
    requires es != [] && es[|es| - 1] == Do(w, fails)
    requires var before := es[..|es| - 1]; Kept(self, es, After(self, before), Remembered(self, before))
    ensures Kept(self, es, After(self, es), Remembered(self, es))
  {
    var before := es[..|es| - 1];
    var x, h := After(self, before), Remembered(self, before);
    var y, g := After(self, es), Remembered(self, es);
    if w in x.workers && x.workers[w] != [] {
      ActsKept(self, es, w, fails, 0);
      forall v, i | v in y.workers && 0 <= i < |y.workers[v]|
        ensures Truthful(self, es, y.workers[v][i], g.put[v][i])
      {
        if v == w {
          ActsKept(self, es, w, fails, i);
        } else {
          assert y.workers[v] == x.workers[v] && g.put[v] == h.put[v];
        }
      }
      TellKept(self, es, x, h, w);
    }
  }

  lemma TellKept(self: Player, es: seq<Step>, x: System, h: History, w: Worker)
    requires Kept(self, es, x, h) && w in x.workers && x.workers[w] != []
    ensures var a := x.workers[w][0];
      var spoken := if a.Tell? && a.id != 0 then h.spoken[(a.id, a.k) := h.put[w][0]] else h.spoken;
      forall fails :: ToldTruthful(self, es, StateAfter(x.state, a, fails), h.(spoken := spoken))
  {
    var a := x.workers[w][0];
    assert Truthful(self, es, a, h.put[w][0]);
  }

  lemma {:induction false} AlwaysKept(self: Player, es: seq<Step>)
    ensures Kept(self, es, After(self, es), Remembered(self, es))
  {
    if es != [] {
      var before := es[..|es| - 1];
      AlwaysKept(self, before);
      KeptStays(self, es, After(self, before), Remembered(self, before));
      match es[|es| - 1]
      case Begin(w, c) => BeginKept(self, es, w, c);
      case Do(w, fails) => DoKept(self, es, w, fails);
    }
  }

  // ---------------------------------------------------------------- when the last report is wrong

  /** Whether a component is installed, from the start to the end of a run. */
  function Presence(self: Player, es: seq<Step>, id: Id, k: Kind): seq<bool> {
    seq(|es| + 1, n requires 0 <= n <= |es| => InstalledAfter(self, es, n, id, k))
  }

  function Flips(p: seq<bool>): nat {
    if |p| < 2 then 0 else Flips(p[1..]) + if p[0] == p[1] then 0 else 1
  }

  lemma {:induction false} FlipsAlternate(p: seq<bool>)
    requires p != []
    ensures Flips(p) % 2 == 0 <==> p[0] == p[|p| - 1]
  {
    if |p| > 1 {
      FlipsAlternate(p[1..]);
    }
  }

  /** How often a component was installed or taken out after this step. */
  function ChangesSince(self: Player, es: seq<Step>, n: nat, id: Id, k: Kind): nat
    requires n <= |es|
  {
    Flips(Presence(self, es, id, k)[n..])
  }

  lemma TakenStays(self: Player, es: seq<Step>, n: nat, id: Id, k: Kind)
    requires n <= |es| && FoundTaken(self, es, n, id, k)
    ensures InstalledAfter(self, es, n, id, k)
  {
    var x, e := After(self, es[..n - 1]), es[n - 1];
    assert es[..n][..n - 1] == es[..n - 1];
    ActInstalls(x.state, x.workers[e.w][0], e.fails, k);
  }

  lemma ChangesAlternate(self: Player, es: seq<Step>, n: nat, id: Id, k: Kind)
    requires n <= |es|
    ensures var even := ChangesSince(self, es, n, id, k) % 2 == 0;
      even <==> InstalledAfter(self, es, n, id, k) == InstalledAfter(self, es, |es|, id, k)
  {
    var p := Presence(self, es, id, k)[n..];
    FlipsAlternate(p);
    assert p[0] == InstalledAfter(self, es, n, id, k);
    assert p[|p| - 1] == InstalledAfter(self, es, |es|, id, k);
  }

  /**
   The last report of a component was overtaken by regions that came later and reported earlier: they changed the
   component an odd number of times. If the last report is that of a start that found its place taken, then it is wrong
   from the first, and right only if such regions follow.
   */
  predicate Overtaken(self: Player, es: seq<Step>, id: Id, k: Kind) {
    var spoken := Remembered(self, es).spoken;
    (id, k) in spoken && spoken[(id, k)] <= |es| &&
    (ChangesSince(self, es, spoken[(id, k)], id, k) % 2 == 1) != FoundTaken(self, es, spoken[(id, k)], id, k)
  }

  /** When every call is done, the last report of a component is wrong exactly when it was overtaken. */
  lemma LastReportWrongIff(self: Player, es: seq<Step>, id: Id, k: Kind)
    requires Quiet(After(self, es)) && id != 0
    ensures var x := After(self, es);
      (InstalledNow(x, id, k) != ToldRunning(x.state, id, k)) <==> Overtaken(self, es, id, k)
  {
    var x, h := After(self, es), Remembered(self, es);
    AlwaysKept(self, es);
    if (id, k) in x.state.runtime {
      var n := h.spoken[(id, k)];
      assert Truthful(self, es, Tell(id, k, x.state.runtime[(id, k)]), n);
      ChangesAlternate(self, es, n, id, k);
      assert es[..|es|] == es;
      if FoundTaken(self, es, n, id, k) {
        TakenStays(self, es, n, id, k);
      }
    } else {
      AlwaysToldOrPending(Start(self), es, k);
    }
  }
}
