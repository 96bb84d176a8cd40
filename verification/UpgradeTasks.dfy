/**
 The server side of an upgrade: internal/manager/upgrade_manager.go.

 Clock readings are inputs, in nanoseconds. The staged artifacts are the files the manager created; removing one always
 works here.
 */
module UpgradeTasks {
  import opened ByteStrings
  import opened UpgradeMessages

  const CHUNK := 128 * 1024
  const MINUTE := 60_000_000_000
  const TASK_TTL := 45 * MINUTE
  const APPLY_TTL := 5 * MINUTE
  const MAX_ARTIFACT := 256 * 1024 * 1024

  type Player = nat

  /** path is empty once the staged artifact has been removed. */
  datatype Task = Task(offer: Offer, path: string, state: string, offset: int, err: string, updated: int)

  datatype State = State(tasks: map<Player, Task>, files: map<string, Bytes>)

  datatype Answer = Nothing | Refused | Send(chunk: Chunk)

  predicate Terminal(state: string) {
    state == "succeeded" || state == "failed" || state == "rolled_back"
  }

  function Ttl(state: string): int {
    if state == "applying" then APPLY_TTL else TASK_TTL
  }

  predicate Expired(t: Task, now: int) {
    now - t.updated >= Ttl(t.state)
  }

  predicate Active(s: State, p: Player) {
    p in s.tasks && !Terminal(s.tasks[p].state)
  }

  // ---------------------------------------------------------------- expiry

  function TimedOut(t: Task, now: int): Task {
    t.(state := "failed", path := "", updated := now,
       err := if t.state == "applying" then "upgrade apply timed out waiting for the client to restart"
              else "upgrade task expired")
  }

  /** What expiry makes of the tasks of some of the players: none of it, a failed task, or no task. */
  function TasksPruned(tasks: map<Player, Task>, who: set<Player>, now: int): map<Player, Task> {
    map p | p in tasks && !(p in who && Expired(tasks[p], now) && Terminal(tasks[p].state)) ::
      if p in who && Expired(tasks[p], now) then TimedOut(tasks[p], now) else tasks[p]
  }

  function PathsPruned(tasks: map<Player, Task>, who: set<Player>, now: int): set<string> {
    set p | p in tasks && p in who && Expired(tasks[p], now) :: tasks[p].path
  }

  function PrunedFor(s: State, who: set<Player>, now: int): State {
    State(TasksPruned(s.tasks, who, now), s.files - PathsPruned(s.tasks, who, now))
  }

  function Pruned(s: State, now: int): State {
    PrunedFor(s, s.tasks.Keys, now)
  }

  /** removeArtifactLocked. */
  function WithoutArtifact(s: State, p: Player): State
    requires p in s.tasks
  {
    State(s.tasks[p := s.tasks[p].(path := "")], s.files - {s.tasks[p].path})
  }

  // ---------------------------------------------------------------- starting a task

  function OfferFor(taskID: string, version: string, platform: string, key: string, data: Bytes, sha: Digest,
      sign: (string, Offer) -> string): Offer
  {
    var unsigned := Offer(taskID, version, platform, |data|, sha(data), CHUNK, "");
    unsigned.(signature := sign(key, unsigned))
  }

  /** staged: the path of the temporary file that holds the artifact, unless staging failed. */
  function AfterStart(s: State, p: Player, offer: Offer, data: Bytes, staged: Option<string>, now: int)
      : (State, Option<Offer>)
  {
    if p == 0 || data == [] || |data| > MAX_ARTIFACT || staged.None? then (s, None)
    else
      var q := Pruned(s.(files := s.files[staged.value := data]), now);
      if Active(q, p) && now - q.tasks[p].updated < TASK_TTL then (q.(files := q.files - {staged.value}), None)
      else (q.(tasks := q.tasks[p := Task(offer, staged.value, "offered", 0, "", now)]), Some(offer))
  }

  function AfterOffer(s: State, p: Player, now: int): (State, Option<Offer>) {
    var q := Pruned(s, now);
    (q, if Active(q, p) then Some(q.tasks[p].offer) else None)
  }

  // ---------------------------------------------------------------- a status report

  /** Only a report that changes something renews the deadline; an offset out of range is not stored. */
  function Noted(t: Task, r: Status, now: int): Task {
    var offset := if 0 <= r.offset <= t.offer.size then r.offset else t.offset;
    t.(state := r.state, err := r.error, offset := offset,
       updated := if r.state != t.state || offset != t.offset || r.error != t.err then now else t.updated)
  }

  predicate CanRead(files: map<string, Bytes>, path: string, start: int, end: int) {
    path != "" && 0 <= start < end && end - start <= CHUNK && path in files && end <= |files[path]|
  }

  function ChunkEnd(t: Task, offset: int): int {
    if offset + t.offer.chunkSize > t.offer.size then t.offer.size else offset + t.offer.chunkSize
  }

  function Served(s: State, p: Player, r: Status, now: int, readFails: bool, sha: Digest): (State, Answer)
    requires p in s.tasks
  {
    var t := s.tasks[p];
    var end := ChunkEnd(t, r.offset);
    if readFails || !CanRead(s.files, t.path, r.offset, end) then
      var failed := t.(state := "failed", err := "read staged upgrade artifact", updated := now);
      (WithoutArtifact(s.(tasks := s.tasks[p := failed]), p), Refused)
    else
      var data := s.files[t.path][r.offset..end];
      (s, Send(Chunk(r.taskID, r.offset, data, sha(data), end == t.offer.size)))
  }

  function Reported(s: State, p: Player, r: Status, now: int, readFails: bool, sha: Digest): (State, Answer)
    requires p in s.tasks
  {
    var size := s.tasks[p].offer.size;
    var n := s.(tasks := s.tasks[p := Noted(s.tasks[p], r, now)]);
    if r.state == "failed" || r.state == "rolled_back" then (WithoutArtifact(n, p), Nothing)
    else if r.state != "accepted" && r.state != "downloading" then (n, Nothing)
    else if r.offset < 0 || r.offset > size then (n, Refused)
    else if r.offset == size then (n, Nothing)
    else Served(n, p, r, now, readFails, sha)
  }

  /** The report is about the task the player has, and that task is still under way. */
  predicate Concerns(s: State, p: Player, r: Option<Status>) {
    r.Some? && Active(s, p) && s.tasks[p].offer.taskID == r.value.taskID
  }

  function AfterStatus(s: State, p: Player, r: Option<Status>, now: int, readFails: bool, sha: Digest)
      : (State, Answer)
  {
    if r.None? then (s, Refused)
    else
      var q := Pruned(s, now);
      if p !in q.tasks || q.tasks[p].offer.taskID != r.value.taskID then (q, Refused)
      else if Terminal(q.tasks[p].state) then (q, if q.tasks[p].err != "" then Refused else Nothing)
      else Reported(q, p, r.value, now, readFails, sha)
  }

  // ---------------------------------------------------------------- the other endings

  function AfterLogin(s: State, p: Player, version: string, now: int): State {
    if p !in s.tasks || s.tasks[p].offer.version != version then s
    else
      var t := s.tasks[p];
      var done := t.(state := "succeeded", offset := t.offer.size, err := "", updated := now);
      WithoutArtifact(s.(tasks := s.tasks[p := done]), p)
  }

  function AfterFail(s: State, p: Player, taskID: string, err: Option<string>, now: int): State {
    if p !in s.tasks || (taskID != "" && s.tasks[p].offer.taskID != taskID) then s
    else
      var t := s.tasks[p];
      var failed := t.(state := "failed", updated := now, err := if err.Some? then err.value else t.err);
      WithoutArtifact(s.(tasks := s.tasks[p := failed]), p)
  }

  function AfterRemove(s: State, p: Player): State {
    if p !in s.tasks then s else State(s.tasks - {p}, s.files - {s.tasks[p].path})
  }

  // ---------------------------------------------------------------- the staged files

  /** The file a task still under way serves from. */
  predicate Staged(s: State, t: Task, sha: Digest) {
    t.path != "" && t.path in s.files
    && |s.files[t.path]| == t.offer.size && sha(s.files[t.path]) == t.offer.sha256 && t.offer.chunkSize == CHUNK
  }

  predicate Owns(s: State, p: Player, path: string) {
    Active(s, p) && s.tasks[p].path == path
  }

  ghost predicate TasksStaged(s: State, sha: Digest) {
    forall p :: p in s.tasks ==>
      if Terminal(s.tasks[p].state) then s.tasks[p].path == "" else Staged(s, s.tasks[p], sha)
  }

  ghost predicate OnePathEach(s: State) {
    forall p, q :: Active(s, p) && Active(s, q) && s.tasks[p].path == s.tasks[q].path ==> p == q
  }

  ghost predicate NoLeak(s: State) {
    "" !in s.files && forall path :: path in s.files ==> exists p :: Owns(s, p, path)
  }

  /** The staged files are exactly one per task under way, and each holds the artifact its offer describes. */
  ghost predicate FilesMatch(s: State, sha: Digest) {
    TasksStaged(s, sha) && OnePathEach(s) && NoLeak(s)
  }

  predicate SameService(s: State, r: State, p: Player)
    requires p in s.tasks && p in r.tasks
  {
    r.tasks[p].path == s.tasks[p].path && r.tasks[p].offer == s.tasks[p].offer && (Active(r, p) <==> Active(s, p))
  }

  /** From s to r some tasks ended, and exactly their files went; the other tasks serve from the files they had. */
  ghost predicate OnlyEnded(s: State, r: State, ended: set<Player>) {
    && r.tasks.Keys <= s.tasks.Keys
    && (forall p :: p in ended ==> p in s.tasks && !Active(r, p) && (p in r.tasks ==> r.tasks[p].path == ""))
    && (forall p :: p in s.tasks && p !in ended ==> p in r.tasks && SameService(s, r, p))
    && r.files == s.files - set p | p in ended :: s.tasks[p].path
  }

  lemma EndedKeepFilesMatch(s: State, r: State, ended: set<Player>, sha: Digest)
    requires FilesMatch(s, sha) && OnlyEnded(s, r, ended)
    ensures FilesMatch(r, sha)
  {
    forall p | Active(r, p)
      ensures Staged(r, r.tasks[p], sha)
    {
      assert p !in ended && Active(s, p);
      forall q | q in ended
        ensures s.tasks[q].path != s.tasks[p].path
      {
        assert Active(s, q) || s.tasks[q].path == "";
      }
    }
    forall path | path in r.files
      ensures exists p :: Owns(r, p, path)
    {
      var p :| Owns(s, p, path);
      assert p !in ended;
      assert Owns(r, p, path);
    }
  }

  lemma PruneKeepsFilesMatch(s: State, now: int, sha: Digest)
    requires FilesMatch(s, sha)
    ensures FilesMatch(Pruned(s, now), sha)
  {
    var ended := set p | p in s.tasks && Expired(s.tasks[p], now);
    assert PathsPruned(s.tasks, s.tasks.Keys, now) == set p | p in ended :: s.tasks[p].path;
    EndedKeepFilesMatch(s, Pruned(s, now), ended, sha);
  }

  /** One task changed, kept its offer and path, and is under way afterwards if and only if it was. */
  lemma ChangeKeepsFilesMatch(s: State, p: Player, t: Task, sha: Digest)
    requires FilesMatch(s, sha) && p in s.tasks
    requires t.offer == s.tasks[p].offer && t.path == s.tasks[p].path && Terminal(t.state) == Terminal(s.tasks[p].state)
    ensures FilesMatch(s.(tasks := s.tasks[p := t]), sha)
  {
    EndedKeepFilesMatch(s, s.(tasks := s.tasks[p := t]), {}, sha);
  }

  lemma EndKeepsFilesMatch(s: State, p: Player, t: Task, sha: Digest)
    requires FilesMatch(s, sha) && p in s.tasks
    requires Terminal(t.state) && t.path == s.tasks[p].path
    ensures FilesMatch(WithoutArtifact(s.(tasks := s.tasks[p := t]), p), sha)
  {
    var r := WithoutArtifact(s.(tasks := s.tasks[p := t]), p);
    assert (set x | x in {p} :: s.tasks[x].path) == {s.tasks[p].path};
    assert forall q :: q in s.tasks && q != p ==> SameService(s, r, q);
    EndedKeepFilesMatch(s, r, {p}, sha);
  }

  predicate Describes(offer: Offer, data: Bytes, sha: Digest) {
    offer.size == |data| && offer.sha256 == sha(data) && offer.chunkSize == CHUNK
  }

  lemma PruneIgnoresANewFile(s: State, path: string, data: Bytes, now: int, sha: Digest)
    requires FilesMatch(s, sha) && path != "" && path !in s.files
    ensures Pruned(s.(files := s.files[path := data]), now)
         == Pruned(s, now).(files := Pruned(s, now).files[path := data])
    ensures path !in Pruned(s, now).files
  {
    forall p | p in s.tasks
      ensures s.tasks[p].path != path
    {
      assert Active(s, p) || s.tasks[p].path == "";
    }
  }

  lemma StartKeepsFilesMatch(s: State, p: Player, offer: Offer, data: Bytes, staged: Option<string>, now: int,
      sha: Digest)
    requires FilesMatch(s, sha) && Describes(offer, data, sha)
    requires staged.Some? ==> staged.value != "" && staged.value !in s.files
    ensures FilesMatch(AfterStart(s, p, offer, data, staged, now).0, sha)
  {
    if !(p == 0 || data == [] || |data| > MAX_ARTIFACT || staged.None?) {
      var path, q := staged.value, Pruned(s, now);
      PruneKeepsFilesMatch(s, now, sha);
      PruneIgnoresANewFile(s, path, data, now, sha);
      var staging := q.(files := q.files[path := data]);
      assert Active(staging, p) <==> Active(q, p);
      if Active(q, p) {
        PrunedAreFresh(s, p, now);
        assert staging.files - {path} == q.files;
        assert AfterStart(s, p, offer, data, staged, now).0 == q;
      } else {
        StartedMatches(q, p, Task(offer, path, "offered", 0, "", now), data, sha);
      }
    }
  }

  /** What is still under way after expiry has a deadline ahead of it. */
  lemma PrunedAreFresh(s: State, p: Player, now: int)
    requires Active(Pruned(s, now), p)
    ensures now - Pruned(s, now).tasks[p].updated < Ttl(Pruned(s, now).tasks[p].state) <= TASK_TTL
    ensures Active(s, p) && Pruned(s, now).tasks[p] == s.tasks[p]
  {
  }

  lemma StartedMatches(q: State, p: Player, t: Task, data: Bytes, sha: Digest)
    requires FilesMatch(q, sha) && !Active(q, p) && t.path != "" && t.path !in q.files
    requires !Terminal(t.state) && Describes(t.offer, data, sha)
    ensures FilesMatch(State(q.tasks[p := t], q.files[t.path := data]), sha)
  {
    var r := State(q.tasks[p := t], q.files[t.path := data]);
    forall x | x in r.tasks
      ensures if Terminal(r.tasks[x].state) then r.tasks[x].path == "" else Staged(r, r.tasks[x], sha)
    {
      if x != p {
        assert Active(q, x) ==> Staged(q, q.tasks[x], sha);
      }
    }
    forall path | path in r.files
      ensures exists x :: Owns(r, x, path)
    {
      if path == t.path {
        assert Owns(r, p, path);
      } else {
        var x :| Owns(q, x, path);
        assert Owns(r, x, path);
      }
    }
    forall x, y | Active(r, x) && Active(r, y) && r.tasks[x].path == r.tasks[y].path
      ensures x == y
    {
      assert x != p ==> Active(q, x) && Staged(q, q.tasks[x], sha);
      assert y != p ==> Active(q, y) && Staged(q, q.tasks[y], sha);
    }
  }

  /** A report that says succeeded is the only one that ends a task and leaves its file; no client sends it. */
  lemma StatusKeepsFilesMatchIff(s: State, p: Player, r: Option<Status>, now: int, readFails: bool, sha: Digest)
    requires FilesMatch(s, sha)
    ensures FilesMatch(AfterStatus(s, p, r, now, readFails, sha).0, sha)
       <==> !(Concerns(Pruned(s, now), p, r) && r.value.state == "succeeded")
  {
    if r.Some? {
      PruneKeepsFilesMatch(s, now, sha);
      var q := Pruned(s, now);
      if Concerns(q, p, r) {
        ReportKeepsFilesMatchIff(q, p, r.value, now, readFails, sha);
      }
    }
  }

  lemma ReportKeepsFilesMatchIff(s: State, p: Player, r: Status, now: int, readFails: bool, sha: Digest)
    requires FilesMatch(s, sha) && Active(s, p)
    ensures FilesMatch(Reported(s, p, r, now, readFails, sha).0, sha) <==> r.state != "succeeded"
  {
    var noted := Noted(s.tasks[p], r, now);
    var n := s.(tasks := s.tasks[p := noted]);
    if r.state == "succeeded" {
      assert Staged(s, s.tasks[p], sha);
      assert n.tasks[p].path != "" && Terminal(n.tasks[p].state);
    } else if Terminal(r.state) {
      EndKeepsFilesMatch(s, p, noted, sha);
    } else {
      ChangeKeepsFilesMatch(s, p, noted, sha);
      var failed := noted.(state := "failed", err := "read staged upgrade artifact", updated := now);
      EndKeepsFilesMatch(n, p, failed, sha);
    }
  }

  /** Why that matters: once the player has a new task, nobody owns the old file and nothing will remove it. */
  lemma SucceededReportLeaks(s: State, p: Player, r: Status, now: int, offer: Offer, data: Bytes, path: string,
      later: int, sha: Digest)
    requires FilesMatch(s, sha) && Concerns(Pruned(s, now), p, Some(r)) && r.state == "succeeded"
    requires p != 0 && 0 < |data| <= MAX_ARTIFACT && path != "" && path !in s.files
    requires later < now + TASK_TTL && now - s.tasks[p].updated < TASK_TTL && later - s.tasks[p].updated < TASK_TTL
    ensures var a := AfterStatus(s, p, Some(r), now, false, sha).0;
      var b := AfterStart(a, p, offer, data, Some(path), later);
      && b.1 == Some(offer)
      && s.tasks[p].path in b.0.files && b.0.tasks[p].path != s.tasks[p].path
      && forall x :: !Owns(b.0, x, s.tasks[p].path)
  {
    var q := Pruned(s, now);
    PruneKeepsFilesMatch(s, now, sha);
    PrunedAreFresh(s, p, now);
    var t := Noted(q.tasks[p], r, now);
    var a := q.(tasks := q.tasks[p := t]);
    assert AfterStatus(s, p, Some(r), now, false, sha).0 == a;
    OthersServeElsewhere(q, p, sha);
    LeftAlone(a, p, path, data, later);
    StartOver(a, p, offer, data, path, later);
  }

  lemma OthersServeElsewhere(q: State, p: Player, sha: Digest)
    requires FilesMatch(q, sha) && Active(q, p)
    ensures q.tasks[p].path in q.files
    ensures forall x :: x in q.tasks && x != p ==> q.tasks[x].path != q.tasks[p].path
  {
    forall x | x in q.tasks && x != p
      ensures q.tasks[x].path != q.tasks[p].path
    {
      assert Active(q, x) || q.tasks[x].path == "";
    }
  }

  lemma StartOver(a: State, p: Player, offer: Offer, data: Bytes, path: string, later: int)
    requires p in a.tasks && Terminal(a.tasks[p].state) && !Expired(a.tasks[p], later) && path != a.tasks[p].path
    requires p != 0 && 0 < |data| <= MAX_ARTIFACT
    requires forall x :: x in a.tasks && x != p ==> a.tasks[x].path != a.tasks[p].path
    ensures var b := AfterStart(a, p, offer, data, Some(path), later);
      var q := Pruned(a.(files := a.files[path := data]), later);
      && b == (q.(tasks := q.tasks[p := Task(offer, path, "offered", 0, "", later)]), Some(offer))
      && forall x :: !Owns(b.0, x, a.tasks[p].path)
  {
    var q := Pruned(a.(files := a.files[path := data]), later);
    assert !Active(q, p);
    var b := AfterStart(a, p, offer, data, Some(path), later).0;
    forall x
      ensures !Owns(b, x, a.tasks[p].path)
    {
      if x != p && Active(b, x) {
        assert b.tasks[x] == q.tasks[x] == a.tasks[x];
      }
    }
  }

  lemma LeftAlone(a: State, p: Player, path: string, data: Bytes, later: int)
    requires p in a.tasks && !Expired(a.tasks[p], later) && a.tasks[p].path in a.files && path !in a.files
    requires forall x :: x in a.tasks && x != p ==> a.tasks[x].path != a.tasks[p].path
    requires Terminal(a.tasks[p].state)
    ensures var q := Pruned(a.(files := a.files[path := data]), later);
      p in q.tasks && q.tasks[p] == a.tasks[p] && a.tasks[p].path in q.files
  {
  }

  // ---------------------------------------------------------------- every run

  datatype Event =
    | Starting(p: Player, offer: Offer, data: Bytes, staged: Option<string>, at: int)
    | Offering(p: Player, at: int)
    | Looking(p: Player, at: int)
    | Reporting(p: Player, report: Option<Status>, at: int, readFails: bool)
    | LoggingIn(p: Player, version: string, at: int)
    | Failing(p: Player, taskID: string, err: Option<string>, at: int)
    | Removing(p: Player)

  function After(s: State, e: Event, sha: Digest): State {
    match e
    case Starting(p, offer, data, staged, at) => AfterStart(s, p, offer, data, staged, at).0
    case Offering(p, at) => AfterOffer(s, p, at).0
    case Looking(p, at) => Pruned(s, at)
    case Reporting(p, r, at, readFails) => AfterStatus(s, p, r, at, readFails, sha).0
    case LoggingIn(p, version, at) => AfterLogin(s, p, version, at)
    case Failing(p, taskID, err, at) => AfterFail(s, p, taskID, err, at)
    case Removing(p) => AfterRemove(s, p)
  }

  function Run(s: State, es: seq<Event>, sha: Digest): State {
    if es == [] then s else After(Run(s, es[..|es| - 1], sha), es[|es| - 1], sha)
  }

  /** An event as the server and the client code produce it: a fresh temporary file, and no report of success. */
  predicate Expected(s: State, e: Event, sha: Digest) {
    match e
    case Starting(_, offer, data, staged, _) =>
      Describes(offer, data, sha) && (staged.Some? ==> staged.value != "" && staged.value !in s.files)
    case Reporting(_, r, _, _) => r.Some? ==> r.value.state != "succeeded"
    case _ => true
  }

  lemma AfterKeepsFilesMatch(s: State, e: Event, sha: Digest)
    requires FilesMatch(s, sha) && Expected(s, e, sha)
    ensures FilesMatch(After(s, e, sha), sha)
  {
    match e
    case Starting(p, offer, data, staged, at) => StartKeepsFilesMatch(s, p, offer, data, staged, at, sha);
    case Offering(p, at) => PruneKeepsFilesMatch(s, at, sha);
    case Looking(p, at) => PruneKeepsFilesMatch(s, at, sha);
    case Reporting(p, r, at, readFails) => StatusKeepsFilesMatchIff(s, p, r, at, readFails, sha);
    case LoggingIn(p, version, at) => LoginKeepsFilesMatch(s, p, version, at, sha);
    case Failing(p, taskID, err, at) => FailKeepsFilesMatch(s, p, taskID, err, at, sha);
    case Removing(p) => RemoveKeepsFilesMatch(s, p, sha);
  }

  lemma LoginKeepsFilesMatch(s: State, p: Player, version: string, at: int, sha: Digest)
    requires FilesMatch(s, sha)
    ensures FilesMatch(AfterLogin(s, p, version, at), sha)
  {
    if p in s.tasks {
      var t := s.tasks[p];
      EndKeepsFilesMatch(s, p, t.(state := "succeeded", offset := t.offer.size, err := "", updated := at), sha);
    }
  }

  lemma FailKeepsFilesMatch(s: State, p: Player, taskID: string, err: Option<string>, at: int, sha: Digest)
    requires FilesMatch(s, sha)
    ensures FilesMatch(AfterFail(s, p, taskID, err, at), sha)
  {
    if p in s.tasks {
      EndKeepsFilesMatch(s, p,
        s.tasks[p].(state := "failed", updated := at, err := if err.Some? then err.value else s.tasks[p].err), sha);
    }
  }

  lemma RemoveKeepsFilesMatch(s: State, p: Player, sha: Digest)
    requires FilesMatch(s, sha)
    ensures FilesMatch(AfterRemove(s, p), sha)
  {
    if p in s.tasks {
      assert (set x | x in {p} :: s.tasks[x].path) == {s.tasks[p].path};
      EndedKeepFilesMatch(s, AfterRemove(s, p), {p}, sha);
    }
  }

  /** No file leaks, and none that a task still serves from goes, over every run. */
  lemma {:induction false} EveryRunFilesMatch(s: State, es: seq<Event>, sha: Digest)
    requires FilesMatch(s, sha)
    requires forall i :: 0 <= i < |es| ==> Expected(Run(s, es[..i], sha), es[i], sha)
    ensures FilesMatch(Run(s, es, sha), sha)
  {
    if es != [] {
      var before := es[..|es| - 1];
      forall i | 0 <= i < |before|
        ensures Expected(Run(s, before[..i], sha), before[i], sha)
      {
        assert before[..i] == es[..i];
      }
      EveryRunFilesMatch(s, before, sha);
      AfterKeepsFilesMatch(Run(s, before, sha), es[|es| - 1], sha);
    }
  }

  // ---------------------------------------------------------------- starting, and progress

  /**
   A start is refused exactly for a request that is invalid or while a task of the player is under way after expiry;
   the age the source compares once more is then always below the limit.
   */
  lemma StartRefusedIff(s: State, p: Player, offer: Offer, data: Bytes, staged: Option<string>, now: int)
    ensures AfterStart(s, p, offer, data, staged, now).1 == None
       <==> p == 0 || data == [] || |data| > MAX_ARTIFACT || staged.None? || Active(Pruned(s, now), p)
  {
    if staged.Some? {
      var staging := s.(files := s.files[staged.value := data]);
      assert Pruned(staging, now).tasks == Pruned(s, now).tasks;
      if Active(Pruned(s, now), p) {
        PrunedAreFresh(s, p, now);
      }
    }
  }

  /** Not at an end, and the deadline of its state still ahead: five minutes while applying, else forty-five. */
  predicate StillOn(t: Task, at: int) {
    && t.state != "succeeded" && t.state != "failed" && t.state != "rolled_back"
    && at - t.updated < (if t.state == "applying" then 5 else 45) * MINUTE
  }

  /** An offer is made exactly for a task that is not at an end and whose deadline is still ahead. */
  lemma OfferedIff(s: State, p: Player, at: int, o: Offer)
    ensures AfterOffer(s, p, at).1 == Some(o) <==> p in s.tasks && s.tasks[p].offer == o && StillOn(s.tasks[p], at)
  {
  }

  /** So a new upgrade is offered until its deadline, for whoever asks first in the meantime. */
  lemma StartedIsOffered(s: State, p: Player, offer: Offer, data: Bytes, staged: Option<string>, now: int, at: int)
    requires AfterStart(s, p, offer, data, staged, now).1.Some?
    ensures AfterStart(s, p, offer, data, staged, now).1 == Some(offer)
    ensures AfterOffer(AfterStart(s, p, offer, data, staged, now).0, p, at).1 == Some(offer)
       <==> at - now < 45 * MINUTE
  {
    OfferedIff(AfterStart(s, p, offer, data, staged, now).0, p, at, offer);
  }

  /** Expiry makes a failure of what was under way, with the reason, forgets what was over, and leaves the rest. */
  lemma ExpiredBecomes(s: State, p: Player, now: int)
    requires p in s.tasks
    ensures var t, r := s.tasks[p], Pruned(s, now);
      var late := now - t.updated >= (if t.state == "applying" then 5 else 45) * MINUTE;
      && (!late ==> p in r.tasks && r.tasks[p] == t)
      && (late ==> (p in r.tasks <==> t.state !in {"succeeded", "failed", "rolled_back"}))
      && (late && p in r.tasks ==>
            && r.tasks[p].state == "failed" && r.tasks[p].offer == t.offer && r.tasks[p].offset == t.offset
            && r.tasks[p].path == "" && r.tasks[p].updated == now
            && r.tasks[p].err == (if t.state == "applying"
                                  then "upgrade apply timed out waiting for the client to restart"
                                  else "upgrade task expired"))
  {
  }

  /** A login with the offered version ends the player's task well, at full progress; any other changes nothing. */
  lemma LoginEnds(s: State, p: Player, version: string, at: int)
    ensures var r := AfterLogin(s, p, version, at);
      if p in s.tasks && s.tasks[p].offer.version == version then
        var t := s.tasks[p];
        && r.tasks == s.tasks[p := Task(t.offer, "", "succeeded", t.offer.size, "", at)]
        && r.files == s.files - {t.path}
        && AfterOffer(r, p, at).1 == None
      else r == s
  {
  }

  /** A failure of this task, or of whatever the player has, ends it with the error. */
  lemma FailEnds(s: State, p: Player, taskID: string, err: Option<string>, at: int)
    ensures var r := AfterFail(s, p, taskID, err, at);
      if p in s.tasks && (taskID == "" || s.tasks[p].offer.taskID == taskID) then
        var t := s.tasks[p];
        && r.tasks == s.tasks[p := Task(t.offer, "", "failed", t.offset, if err.Some? then err.value else t.err, at)]
        && r.files == s.files - {t.path}
        && AfterOffer(r, p, at).1 == None
      else r == s
  {
  }

  /** A removed player has no task and is offered nothing; the others keep what they have. */
  lemma RemoveForgets(s: State, p: Player, at: int)
    ensures var r := AfterRemove(s, p);
      && r.tasks == s.tasks - {p} && AfterOffer(r, p, at).1 == None
      && r.files == if p in s.tasks then s.files - {s.tasks[p].path} else s.files
  {
    if p !in s.tasks {
      assert s.tasks - {p} == s.tasks;
    }
  }

  // ---------------------------------------------------------------- what a report does

  /** The offer describes its artifact, and its signature is that of the offer without it. */
  lemma OfferIsSigned(taskID: string, version: string, platform: string, key: string, data: Bytes, sha: Digest,
      sign: (string, Offer) -> string)
    ensures var o := OfferFor(taskID, version, platform, key, data, sha, sign);
      && o.taskID == taskID && o.version == version && o.platform == platform
      && o.size == |data| && o.sha256 == sha(data) && o.chunkSize == 131072
      && o.signature == sign(key, o.(signature := ""))
  {
  }

  /** A report for no task, or for another, is refused; one for a task that is over is told why it failed. */
  lemma StrayReportAnswered(s: State, p: Player, r: Status, now: int, readFails: bool, sha: Digest)
    requires !Concerns(Pruned(s, now), p, Some(r))
    ensures var q, (n, answer) := Pruned(s, now), AfterStatus(s, p, Some(r), now, readFails, sha);
      && n == q && !answer.Send?
      && (answer == Nothing <==> p in q.tasks && q.tasks[p].offer.taskID == r.taskID && q.tasks[p].err == "")
  {
  }

  /** The end of the piece a report asks for. */
  function PieceEnd(t: Task, offset: int): (end: int)
    ensures end <= offset + t.offer.chunkSize && end <= t.offer.size
    ensures end == offset + t.offer.chunkSize || end == t.offer.size
  {
    if t.offer.size < offset + t.offer.chunkSize then t.offer.size else offset + t.offer.chunkSize
  }

  predicate AsksForMore(r: Status) {
    r.state == "accepted" || r.state == "downloading"
  }

  /** The staged file holds the piece, and it is one of at most 128 KiB. */
  predicate HoldsPiece(s: State, t: Task, offset: int) {
    && t.path != "" && t.path in s.files
    && 0 <= offset < PieceEnd(t, offset) <= |s.files[t.path]| && PieceEnd(t, offset) - offset <= 131072
  }

  /** A report that asks for nothing, or has it all, gets nothing; one out of range is refused. */
  lemma ReportAnswered(s: State, p: Player, r: Status, now: int, readFails: bool, sha: Digest)
    requires Concerns(Pruned(s, now), p, Some(r))
    ensures var t, answer := Pruned(s, now).tasks[p], AfterStatus(s, p, Some(r), now, readFails, sha).1;
      && (answer == Nothing <==> !AsksForMore(r) || 0 <= r.offset == t.offer.size)
      && (answer.Send? <==> AsksForMore(r) && 0 <= r.offset < t.offer.size && !readFails
                            && HoldsPiece(Pruned(s, now), t, r.offset))
  {
    assert ChunkEnd(Pruned(s, now).tasks[p], r.offset) == PieceEnd(Pruned(s, now).tasks[p], r.offset);
  }

  /** And the piece is the one asked for. */
  lemma PieceSent(s: State, p: Player, r: Status, now: int, readFails: bool, sha: Digest)
    requires Concerns(Pruned(s, now), p, Some(r)) && AfterStatus(s, p, Some(r), now, readFails, sha).1.Send?
    ensures var q, c := Pruned(s, now), AfterStatus(s, p, Some(r), now, readFails, sha).1.chunk;
      var t := q.tasks[p];
      var end := PieceEnd(t, r.offset);
      && HoldsPiece(q, t, r.offset)
      && c == Chunk(t.offer.taskID, r.offset, q.files[t.path][r.offset..end], sha(q.files[t.path][r.offset..end]),
                    end == t.offer.size)
  {
    ReportAnswered(s, p, r, now, readFails, sha);
    assert ChunkEnd(Pruned(s, now).tasks[p], r.offset) == PieceEnd(Pruned(s, now).tasks[p], r.offset);
  }

  /** What it notes: state, error and, if in range, offset of the report; or that the artifact cannot be read. */
  lemma ReportStored(s: State, p: Player, r: Status, now: int, readFails: bool, sha: Digest)
    requires Concerns(Pruned(s, now), p, Some(r))
    ensures var q, (n, answer) := Pruned(s, now), AfterStatus(s, p, Some(r), now, readFails, sha);
      && p in n.tasks
      && var was, t := q.tasks[p], n.tasks[p];
      && n.tasks == q.tasks[p := t] && t.offer == was.offer
      && t.offset == (if 0 <= r.offset <= was.offer.size then r.offset else was.offset)
      && (if answer == Refused && 0 <= r.offset <= was.offer.size
          then t.state == "failed" && t.err == "read staged upgrade artifact"
          else t.state == r.state && t.err == r.error)
      && (t.state in {"failed", "rolled_back"} ==> t.path == "" && n.files == q.files - {was.path})
      && (t.state !in {"failed", "rolled_back"} ==> t.path == was.path && n.files == q.files)
  {
  }

  /** The percentage a snapshot shows. */
  function Progress(t: Task): int {
    if t.state == "succeeded" then 100 else if t.offer.size > 0 then t.offset * 100 / t.offer.size else 0
  }

  /** Everything of a task that succeeded, nothing of an empty one, and else the whole percents that are there. */
  lemma ProgressShown(t: Task)
    requires 0 <= t.offset <= t.offer.size
    ensures t.state == "succeeded" ==> Progress(t) == 100
    ensures t.state != "succeeded" && t.offer.size == 0 ==> Progress(t) == 0
    ensures t.state != "succeeded" && t.offer.size > 0 ==>
      Progress(t) * t.offer.size <= t.offset * 100 < (Progress(t) + 1) * t.offer.size
  {
  }

  predicate InRange(t: Task) {
    0 <= t.offset <= t.offer.size
  }

  ghost predicate AllInRange(s: State) {
    forall p :: p in s.tasks ==> InRange(s.tasks[p])
  }

  lemma AfterKeepsInRange(s: State, e: Event, sha: Digest)
    requires AllInRange(s) && (e.Starting? ==> e.offer.size >= 0)
    ensures AllInRange(After(s, e, sha))
  {
    match e
    case Starting(p, offer, data, staged, at) =>
      if staged.Some? {
        assert AllInRange(Pruned(s.(files := s.files[staged.value := data]), at));
      }
    case Offering(p, at) =>
    case Looking(p, at) =>
    case Reporting(p, r, at, readFails) =>
      assert AllInRange(Pruned(s, at));
      if Concerns(Pruned(s, at), p, r) {
        ReportKeepsInRange(Pruned(s, at), p, r.value, at, readFails, sha);
      }
    case LoggingIn(p, version, at) =>
    case Failing(p, taskID, err, at) =>
    case Removing(p) =>
  }

  lemma ReportKeepsInRange(s: State, p: Player, r: Status, at: int, readFails: bool, sha: Digest)
    requires AllInRange(s) && p in s.tasks
    ensures AllInRange(Reported(s, p, r, at, readFails, sha).0)
  {
    assert InRange(Noted(s.tasks[p], r, at));
  }

  /** Whatever offsets clients report, the progress shown stays between 0 and 100, and is 100 only at the end. */
  lemma {:induction false} EveryRunShowsProgress(s: State, es: seq<Event>, sha: Digest)
    requires AllInRange(s)
    requires forall i :: 0 <= i < |es| ==> es[i].Starting? ==> es[i].offer.size >= 0
    ensures var r := Run(s, es, sha);
      AllInRange(r)
      && forall p :: p in r.tasks ==>
           var t := r.tasks[p];
           && 0 <= Progress(t) <= 100
           && (Progress(t) == 100 <==> t.state == "succeeded" || (t.offer.size > 0 && t.offset == t.offer.size))
  {
    if es != [] {
      EveryRunShowsProgress(s, es[..|es| - 1], sha);
      AfterKeepsInRange(Run(s, es[..|es| - 1], sha), es[|es| - 1], sha);
    }
    var r := Run(s, es, sha);
    forall p | p in r.tasks
      ensures var t := r.tasks[p];
        && 0 <= Progress(t) <= 100
        && (Progress(t) == 100 <==> t.state == "succeeded" || (t.offer.size > 0 && t.offset == t.offer.size))
    {
      assert InRange(r.tasks[p]);
      ProgressInRange(r.tasks[p]);
    }
  }

  lemma ProgressInRange(t: Task)
    requires InRange(t)
    ensures 0 <= Progress(t) <= 100
    ensures Progress(t) == 100 <==> t.state == "succeeded" || (t.offer.size > 0 && t.offset == t.offer.size)
  {
    if t.offer.size > 0 {
      Percentage(t.offset, t.offer.size);
    }
  }

  lemma Percentage(part: int, whole: int)
    requires 0 <= part <= whole && whole > 0
    ensures 0 <= part * 100 / whole <= 100
    ensures part * 100 / whole == 100 <==> part == whole
  {
    var q, r := part * 100 / whole, part * 100 % whole;
    assert part * 100 == q * whole + r && 0 <= r < whole;
    Monotone(q, -1, whole);
    Monotone(q, 99, whole);
    Monotone(100, q, whole);
    Monotone(101, q, whole);
  }

  lemma Monotone(a: int, b: int, k: int)
    requires k > 0
    ensures a <= b ==> a * k <= b * k
  {
  }

  // ---------------------------------------------------------------- the deadline

  /** The upgrade with this id is the player's, and under way. */
  predicate UnderWay(s: State, p: Player, id: string) {
    Active(s, p) && s.tasks[p].offer.taskID == id
  }

  /** The task already says what this report says. */
  predicate Settled(s: State, p: Player, r: Status) {
    && UnderWay(s, p, r.taskID)
    && s.tasks[p].state == r.state && s.tasks[p].err == r.error
    && (0 <= r.offset <= s.tasks[p].offer.size ==> s.tasks[p].offset == r.offset)
  }

  /** A report that does not end its task renews the deadline exactly when it says something new. */
  lemma RenewsUnlessSettled(s: State, p: Player, r: Status, now: int, readFails: bool, sha: Digest)
    requires Concerns(Pruned(s, now), p, Some(r)) && !Terminal(r.state) && now != s.tasks[p].updated
    requires Active(AfterStatus(s, p, Some(r), now, readFails, sha).0, p)
    ensures AfterStatus(s, p, Some(r), now, readFails, sha).0.tasks[p].updated
         == if Settled(s, p, r) then s.tasks[p].updated else now
  {
    PruneKeepsOrEnds(s, p, now);
    ReportNotes(Pruned(s, now), p, r, now, readFails, sha);
  }

  lemma ReportNotes(s: State, p: Player, r: Status, now: int, readFails: bool, sha: Digest)
    requires p in s.tasks && Active(Reported(s, p, r, now, readFails, sha).0, p)
    ensures Reported(s, p, r, now, readFails, sha).0.tasks[p] == Noted(s.tasks[p], r, now)
  {
  }

  lemma PruneKeepsOrEnds(s: State, p: Player, now: int)
    ensures var q := Pruned(s, now);
      && (!Active(s, p) ==> !Active(q, p))
      && (Active(s, p) ==>
            if Expired(s.tasks[p], now) then !Active(q, p) else Active(q, p) && q.tasks[p] == s.tasks[p])
  {
  }

  /** Whatever is under way with this id afterwards is exactly what it was. */
  predicate KeepsOrEnds(s: State, r: State, p: Player, id: string) {
    UnderWay(r, p, id) ==> UnderWay(s, p, id) && r.tasks[p] == s.tasks[p]
  }

  /**
   What may happen while a client replays a report: anything, logins, failures, removals and other upgrades of the
   player included, but no other report about this upgrade. The id of an upgrade is drawn anew for every start.
   */
  predicate Replay(e: Event, p: Player, r: Status) {
    match e
    case Starting(q, offer, _, _, _) => q == p ==> offer.taskID != r.taskID
    case Reporting(q, report, _, _) => q == p && report.Some? && report.value.taskID == r.taskID ==> report.value == r
    case _ => true
  }

  lemma StartKeepsOrEnds(s: State, q: Player, offer: Offer, data: Bytes, staged: Option<string>, at: int, p: Player,
      id: string)
    requires q == p ==> offer.taskID != id
    ensures KeepsOrEnds(s, AfterStart(s, q, offer, data, staged, at).0, p, id)
  {
    if staged.Some? {
      var staging := s.(files := s.files[staged.value := data]);
      PruneKeepsOrEnds(staging, p, at);
    }
  }

  lemma ReplayKeepsOrEnds(s: State, p: Player, r: Status, at: int, readFails: bool, sha: Digest)
    requires Settled(s, p, r) || !UnderWay(s, p, r.taskID)
    ensures KeepsOrEnds(s, AfterStatus(s, p, Some(r), at, readFails, sha).0, p, r.taskID)
  {
    PruneKeepsOrEnds(s, p, at);
    var q := Pruned(s, at);
    if Concerns(q, p, Some(r)) {
      assert Noted(s.tasks[p], r, at) == s.tasks[p];
      if Active(Reported(q, p, r, at, readFails, sha).0, p) {
        ReportNotes(q, p, r, at, readFails, sha);
      }
    }
  }

  lemma OtherReportKeepsOrEnds(s: State, q: Player, r: Option<Status>, at: int, readFails: bool, sha: Digest, p: Player,
      id: string)
    requires q != p || r.None? || r.value.taskID != id
    ensures KeepsOrEnds(s, AfterStatus(s, q, r, at, readFails, sha).0, p, id)
  {
    PruneKeepsOrEnds(s, p, at);
    var a := Pruned(s, at);
    if Concerns(a, q, r) {
      ReportKeepsOffers(a, q, r.value, at, readFails, sha, p);
    }
  }

  lemma ReportKeepsOffers(s: State, q: Player, r: Status, at: int, readFails: bool, sha: Digest, p: Player)
    requires q in s.tasks
    ensures var t := Reported(s, q, r, at, readFails, sha).0.tasks;
      && (p in t <==> p in s.tasks) && (p in t ==> t[p].offer == s.tasks[p].offer)
      && (p in t && p != q ==> t[p] == s.tasks[p])
  {
  }

  lemma EventKeepsOrEnds(s: State, e: Event, p: Player, r: Status, sha: Digest)
    requires Settled(s, p, r) || !UnderWay(s, p, r.taskID)
    requires Replay(e, p, r)
    ensures KeepsOrEnds(s, After(s, e, sha), p, r.taskID)
  {
    match e
    case Starting(q, offer, data, staged, at) => StartKeepsOrEnds(s, q, offer, data, staged, at, p, r.taskID);
    case Offering(_, at) => PruneKeepsOrEnds(s, p, at);
    case Looking(_, at) => PruneKeepsOrEnds(s, p, at);
    case Reporting(q, report, at, readFails) =>
      if q == p && report == Some(r) {
        ReplayKeepsOrEnds(s, p, r, at, readFails, sha);
      } else {
        OtherReportKeepsOrEnds(s, q, report, at, readFails, sha, p, r.taskID);
      }
    case _ =>
  }

  /** However often the same report is replayed, the task is either over or exactly what it was: no deadline moves. */
  lemma {:induction false} ReplaysDoNotRenew(s: State, es: seq<Event>, p: Player, r: Status, sha: Digest)
    requires Settled(s, p, r) || !UnderWay(s, p, r.taskID)
    requires forall i :: 0 <= i < |es| ==> Replay(es[i], p, r)
    ensures KeepsOrEnds(s, Run(s, es, sha), p, r.taskID)
  {
    if es != [] {
      var before := es[..|es| - 1];
      ReplaysDoNotRenew(s, before, p, r, sha);
      var m := Run(s, before, sha);
      assert Settled(m, p, r) || !UnderWay(m, p, r.taskID);
      EventKeepsOrEnds(m, es[|es| - 1], p, r, sha);
    }
  }

  /** An operation that looks for expired tasks at this moment, whichever player it is for. */
  predicate Prunes(e: Event, now: int) {
    match e
    case Starting(q, _, data, staged, at) => at == now && q != 0 && 0 < |data| <= MAX_ARTIFACT && staged.Some?
    case Offering(_, at) => at == now
    case Looking(_, at) => at == now
    case Reporting(_, report, at, _) => at == now && report.Some?
    case _ => false
  }

  lemma PruningEnds(s: State, e: Event, p: Player, r: Status, now: int, sha: Digest)
    requires Prunes(e, now) && Replay(e, p, r) && (UnderWay(s, p, r.taskID) ==> Expired(s.tasks[p], now))
    ensures !UnderWay(After(s, e, sha), p, r.taskID)
  {
    PruneKeepsOrEnds(s, p, now);
    match e
    case Starting(q, offer, data, staged, at) =>
      PruneKeepsOrEnds(s.(files := s.files[staged.value := data]), p, at);
    case Reporting(q, report, at, readFails) =>
      if Concerns(Pruned(s, now), q, report) {
        ReportKeepsOffers(Pruned(s, now), q, report.value, at, readFails, sha, p);
      }
    case _ =>
  }

  /**
   So the first operation that prunes at or after the deadline ends the task, whether it is a start, an offer, a report
   or a snapshot, and however the same report is replayed after that, the task is not offered again.
   */
  lemma ReplayedTaskExpires(s: State, es: seq<Event>, p: Player, r: Status, e: Event, now: int, later: seq<Event>,
      at: int, sha: Digest)
    requires Settled(s, p, r) && Replay(e, p, r) && Prunes(e, now)
    requires forall i :: 0 <= i < |es| ==> Replay(es[i], p, r)
    requires forall i :: 0 <= i < |later| ==> Replay(later[i], p, r)
    requires now >= s.tasks[p].updated + Ttl(s.tasks[p].state)
    ensures var ended := After(Run(s, es, sha), e, sha);
      && !UnderWay(ended, p, r.taskID)
      && var offered := AfterOffer(Run(ended, later, sha), p, at).1;
         offered.Some? ==> offered.value.taskID != r.taskID
  {
    ReplaysDoNotRenew(s, es, p, r, sha);
    PruningEnds(Run(s, es, sha), e, p, r, now, sha);
    var ended := After(Run(s, es, sha), e, sha);
    ReplaysDoNotRenew(ended, later, p, r, sha);
    PruneKeepsOrEnds(Run(ended, later, sha), p, at);
  }

  // ---------------------------------------------------------------- a client that keeps reconnecting

  /** The clock readings of one reconnection. */
  datatype Visit = Visit(login: int, offered: int, verifying: int, applying: int)

  /**
   What a client whose download is complete does on every reconnection: it logs in with its old version, is offered the
   artifact, and answers verifying and then applying.
   */
  function Reconnected(s: State, p: Player, version: string, v: Visit, sha: Digest): State {
    var (a, o) := AfterOffer(AfterLogin(s, p, version, v.login), p, v.offered);
    if o.None? then a
    else
      var verifying := Some(Status(o.value.taskID, "verifying", o.value.size, ""));
      var applying := Some(Status(o.value.taskID, "applying", o.value.size, ""));
      AfterStatus(AfterStatus(a, p, verifying, v.verifying, false, sha).0, p, applying, v.applying, false, sha).0
  }

  predicate Applying(s: State, p: Player, o: Offer, since: int) {
    Active(s, p) && s.tasks[p].offer == o && s.tasks[p].state == "applying" && s.tasks[p].updated == since
  }

  /** The reconnection comes before the deadline of the last applying report, and finishes before its own. */
  predicate OnTime(since: int, v: Visit) {
    v.offered - since < APPLY_TTL && v.verifying - since < APPLY_TTL && v.applying - v.verifying < TASK_TTL
  }

  lemma NewStateNoted(s: State, p: Player, r: Status, at: int, sha: Digest)
    requires UnderWay(s, p, r.taskID) && r.state != s.tasks[p].state
    requires r.state == "verifying" || r.state == "applying"
    ensures var q := AfterStatus(s, p, Some(r), at, false, sha).0;
      if Expired(s.tasks[p], at) then !Active(q, p)
      else
        && Active(q, p) && q.tasks[p].offer == s.tasks[p].offer
        && q.tasks[p].state == r.state && q.tasks[p].updated == at
  {
    PruneKeepsOrEnds(s, p, at);
  }

  lemma OverStaysOver(s: State, p: Player, r: Status, at: int, sha: Digest)
    requires !Active(s, p)
    ensures !Active(AfterStatus(s, p, Some(r), at, false, sha).0, p)
  {
    PruneKeepsOrEnds(s, p, at);
  }

  /** One reconnection renews the deadline if it is on time, and finds or leaves the upgrade over if it is not. */
  lemma ReconnectionRenewsIff(s: State, p: Player, version: string, o: Offer, since: int, v: Visit, sha: Digest)
    requires Applying(s, p, o, since) && o.version != version
    ensures var r := Reconnected(s, p, version, v, sha);
      if OnTime(since, v) then Applying(r, p, o, v.applying) else !Active(r, p)
  {
    assert AfterLogin(s, p, version, v.login) == s;
    PruneKeepsOrEnds(s, p, v.offered);
    var a := AfterOffer(s, p, v.offered).0;
    if Active(a, p) {
      var verifying := Status(o.taskID, "verifying", o.size, "");
      var applying := Status(o.taskID, "applying", o.size, "");
      NewStateNoted(a, p, verifying, v.verifying, sha);
      var b := AfterStatus(a, p, Some(verifying), v.verifying, false, sha).0;
      if Active(b, p) {
        NewStateNoted(b, p, applying, v.applying, sha);
      } else {
        OverStaysOver(b, p, applying, v.applying, sha);
      }
    }
  }

  lemma ReconnectionRevivesNothing(s: State, p: Player, version: string, v: Visit, sha: Digest)
    requires !Active(s, p)
    ensures !Active(Reconnected(s, p, version, v, sha), p)
  {
    PruneKeepsOrEnds(AfterLogin(s, p, version, v.login), p, v.offered);
  }

  /** One step after another. */
  function Repeated(step: (State, Visit) -> State, s: State, vs: seq<Visit>): State
    decreases |vs|
  {
    if vs == [] then s else Repeated(step, step(s, vs[0]), vs[1..])
  }

  predicate AllOnTime(since: int, vs: seq<Visit>)
    decreases |vs|
  {
    vs == [] || (OnTime(since, vs[0]) && AllOnTime(vs[0].applying, vs[1..]))
  }

  function LastSeen(since: int, vs: seq<Visit>): int {
    if vs == [] then since else vs[|vs| - 1].applying
  }

  ghost predicate RenewsIff(step: (State, Visit) -> State, p: Player, o: Offer) {
    && (forall s: State, v: Visit, since: int {:trigger step(s, v), Applying(s, p, o, since)} ::
          Applying(s, p, o, since) ==>
            if OnTime(since, v) then Applying(step(s, v), p, o, v.applying) else !Active(step(s, v), p))
    && (forall s: State, v: Visit :: !Active(s, p) ==> !Active(step(s, v), p))
  }

  lemma {:induction false} RepeatedRenewsIff(step: (State, Visit) -> State, s: State, p: Player, o: Offer, since: int,
      vs: seq<Visit>)
    requires RenewsIff(step, p, o) && (Applying(s, p, o, since) || !Active(s, p))
    ensures var r := Repeated(step, s, vs);
      if Active(s, p) && AllOnTime(since, vs) then Applying(r, p, o, LastSeen(since, vs)) else !Active(r, p)
    decreases |vs|
  {
    if vs != [] {
      RepeatedRenewsIff(step, step(s, vs[0]), p, o, vs[0].applying, vs[1..]);
    }
  }

  /**
   For any list of reconnections: the upgrade is still offered after all of them if and only if each came in time for
   the one before, that is, within five minutes of its applying report.
   */
  lemma ReconnectingIsOfferedIff(s: State, p: Player, version: string, o: Offer, since: int, vs: seq<Visit>, at: int,
      sha: Digest)
    requires Applying(s, p, o, since) && o.version != version
    ensures var r := Repeated((x, v) => Reconnected(x, p, version, v, sha), s, vs);
      AfterOffer(r, p, at).1 == Some(o) <==> AllOnTime(since, vs) && at - LastSeen(since, vs) < APPLY_TTL
  {
    var step := (x, v) => Reconnected(x, p, version, v, sha);
    forall x: State, v: Visit, from: int {:trigger step(x, v), Applying(x, p, o, from)} | Applying(x, p, o, from)
      ensures if OnTime(from, v) then Applying(step(x, v), p, o, v.applying) else !Active(step(x, v), p)
    {
      ReconnectionRenewsIff(x, p, version, o, from, v, sha);
    }
    forall x: State, v: Visit | !Active(x, p)
      ensures !Active(step(x, v), p)
    {
      ReconnectionRevivesNothing(x, p, version, v, sha);
    }
    RepeatedRenewsIff(step, s, p, o, since, vs);
    PruneKeepsOrEnds(Repeated(step, s, vs), p, at);
  }

  /** n reconnections, each at one moment, four minutes apart. */
  function EveryFourMinutes(since: int, n: nat): (vs: seq<Visit>)
    ensures |vs| == n
    decreases n
  {
    if n == 0 then []
    else var t := since + 4 * MINUTE; [Visit(t, t, t, t)] + EveryFourMinutes(t, n - 1)
  }

  lemma {:induction false} FourMinutesAreInTime(since: int, n: nat)
    ensures AllOnTime(since, EveryFourMinutes(since, n))
    ensures LastSeen(since, EveryFourMinutes(since, n)) == since + 4 * n * MINUTE
    decreases n
  {
    if n != 0 {
      var t := since + 4 * MINUTE;
      FourMinutesAreInTime(t, n - 1);
      var later := EveryFourMinutes(t, n - 1);
      assert EveryFourMinutes(since, n)[1..] == later;
    }
  }

  /** So a client that reconnects every four minutes is offered the same upgrade for as long as one likes. */
  lemma ReconnectingIsOfferedForever(s: State, p: Player, version: string, o: Offer, since: int, n: nat, sha: Digest)
    requires Applying(s, p, o, since) && o.version != version
    ensures var r := Repeated((x, v) => Reconnected(x, p, version, v, sha), s, EveryFourMinutes(since, n));
      AfterOffer(r, p, since + 4 * n * MINUTE + 4 * MINUTE).1 == Some(o)
  {
    FourMinutesAreInTime(since, n);
    var at := since + 4 * n * MINUTE + 4 * MINUTE;
    ReconnectingIsOfferedIff(s, p, version, o, since, EveryFourMinutes(since, n), at, sha);
  }

  // ---------------------------------------------------------------- the manager

  class UpgradeManager {
    const sha: Digest
    const sign: (string, Offer) -> string
    var tasks: map<Player, Task>
    var files: map<string, Bytes>

    constructor (sha: Digest, sign: (string, Offer) -> string)
      ensures View() == State(map[], map[]) && this.sha == sha && this.sign == sign
    {
      this.sha, this.sign := sha, sign;
      tasks, files := map[], map[];
    }

    ghost function View(): State
      reads this
    {
      State(tasks, files)
    }

    method RemoveArtifact(p: Player)
      requires p in tasks && "" !in files
      modifies this
      ensures View() == WithoutArtifact(old(View()), p)
    {
      if tasks[p].path == "" {
        assert tasks[p].(path := "") == tasks[p];
        return;
      }
      files := files - {tasks[p].path};
      tasks := tasks[p := tasks[p].(path := "")];
    }

    method PruneOne(p: Player, now: int)
      requires p in tasks && "" !in files
      modifies this
      ensures View() == PrunedFor(old(View()), {p}, now)
    {
      var t := tasks[p];
      if now - t.updated < Ttl(t.state) {
        return;
      }
      if Terminal(t.state) {
        RemoveArtifact(p);
        tasks := tasks - {p};
        return;
      }
      tasks := tasks[p := t.(state := "failed", updated := now,
        err := if t.state == "applying" then "upgrade apply timed out waiting for the client to restart"
               else "upgrade task expired")];
      RemoveArtifact(p);
    }

    /** The tasks may be visited in any order. */
    method PruneExpired(now: int)
      requires "" !in files
      modifies this
      ensures View() == Pruned(old(View()), now)
    {
      var left := tasks.Keys;
      ghost var s := View();
      PrunedForNone(s, now);
      while left != {}
        invariant left <= s.tasks.Keys && "" !in files
        invariant View() == PrunedFor(s, s.tasks.Keys - left, now)
        decreases left
      {
        var p :| p in left;
        PrunedForOneMore(s, s.tasks.Keys - left, p, now);
        assert s.tasks.Keys - (left - {p}) == (s.tasks.Keys - left) + {p};
        left := left - {p};
        PruneOne(p, now);
      }
      assert s.tasks.Keys - {} == s.tasks.Keys;
    }

    /** taskID: the random task id, unless none could be drawn. */
    method Start(p: Player, version: string, platform: string, key: string, data: Bytes, taskID: Option<string>,
        staged: Option<string>, now: int)
      returns (r: Option<Offer>)
      requires "" !in files && (staged.Some? ==> staged.value != "" && staged.value !in files)
      modifies this
      ensures taskID.None? ==> r == None && View() == old(View())
      ensures taskID.Some? ==>
        var offer := OfferFor(taskID.value, version, platform, key, data, sha, sign);
        (View(), r) == AfterStart(old(View()), p, offer, data, staged, now)
    {
      if p == 0 || |data| == 0 || |data| > MAX_ARTIFACT || taskID.None? {
        return None;
      }
      var offer := Offer(taskID.value, version, platform, |data|, sha(data), CHUNK, "");
      offer := offer.(signature := sign(key, offer));
      if staged.None? {
        return None;
      }
      files := files[staged.value := data];
      PruneExpired(now);
      if p in tasks && !Terminal(tasks[p].state) && now - tasks[p].updated < TASK_TTL {
        files := files - {staged.value};
        return None;
      }
      tasks := tasks[p := Task(offer, staged.value, "offered", 0, "", now)];
      return Some(offer);
    }

    method OfferTo(p: Player, now: int) returns (r: Option<Offer>)
      requires "" !in files
      modifies this
      ensures (View(), r) == AfterOffer(old(View()), p, now)
    {
      PruneExpired(now);
      if p !in tasks || Terminal(tasks[p].state) {
        return None;
      }
      return Some(tasks[p].offer);
    }

    method Snapshot(p: Player, now: int) returns (task: Option<Task>, progress: int)
      requires "" !in files
      modifies this
      ensures View() == Pruned(old(View()), now)
      ensures task == if p in tasks then Some(tasks[p]) else None
      ensures progress == if task.Some? then Progress(task.value) else 0
    {
      PruneExpired(now);
      if p !in tasks {
        return None, 0;
      }
      progress := 0;
      if tasks[p].offer.size > 0 {
        progress := tasks[p].offset * 100 / tasks[p].offer.size;
      }
      if tasks[p].state == "succeeded" {
        progress := 100;
      }
      return Some(tasks[p]), progress;
    }

    method HandleStatus(p: Player, r: Option<Status>, now: int, readFails: bool) returns (answer: Answer)
      requires "" !in files
      modifies this
      ensures (View(), answer) == AfterStatus(old(View()), p, r, now, readFails, sha)
    {
      if r.None? {
        return Refused;
      }
      PruneExpired(now);
      if p !in tasks || tasks[p].offer.taskID != r.value.taskID {
        return Refused;
      }
      if Terminal(tasks[p].state) {
        return if tasks[p].err != "" then Refused else Nothing;
      }
      answer := Report(p, r.value, now, readFails);
    }

    method Report(p: Player, r: Status, now: int, readFails: bool) returns (answer: Answer)
      requires p in tasks && "" !in files
      modifies this
      ensures (View(), answer) == Reported(old(View()), p, r, now, readFails, sha)
    {
      var before := tasks[p];
      var task := before.(state := r.state, err := r.error);
      if r.offset >= 0 && r.offset <= task.offer.size {
        task := task.(offset := r.offset);
      }
      if task.state != before.state || task.offset != before.offset || task.err != before.err {
        task := task.(updated := now);
      }
      tasks := tasks[p := task];
      if r.state == "failed" || r.state == "rolled_back" {
        RemoveArtifact(p);
        return Nothing;
      }
      if r.state != "accepted" && r.state != "downloading" {
        return Nothing;
      }
      if r.offset < 0 || r.offset > task.offer.size {
        return Refused;
      }
      if r.offset == task.offer.size {
        return Nothing;
      }
      answer := Serve(p, r, now, readFails);
    }

    method Serve(p: Player, r: Status, now: int, readFails: bool) returns (answer: Answer)
      requires p in tasks && "" !in files
      modifies this
      ensures (View(), answer) == Served(old(View()), p, r, now, readFails, sha)
    {
      var task := tasks[p];
      var end := r.offset + task.offer.chunkSize;
      if end > task.offer.size {
        end := task.offer.size;
      }
      if readFails || !CanRead(files, task.path, r.offset, end) {
        tasks := tasks[p := task.(state := "failed", err := "read staged upgrade artifact", updated := now)];
        RemoveArtifact(p);
        return Refused;
      }
      var data := files[task.path][r.offset..end];
      return Send(Chunk(r.taskID, r.offset, data, sha(data), end == task.offer.size));
    }

    method CompleteOnLogin(p: Player, version: string, now: int)
      requires "" !in files
      modifies this
      ensures View() == AfterLogin(old(View()), p, version, now)
    {
      if p !in tasks || tasks[p].offer.version != version {
        return;
      }
      var t := tasks[p];
      tasks := tasks[p := t.(state := "succeeded", offset := t.offer.size, err := "", updated := now)];
      RemoveArtifact(p);
    }

    method Fail(p: Player, taskID: string, err: Option<string>, now: int)
      requires "" !in files
      modifies this
      ensures View() == AfterFail(old(View()), p, taskID, err, now)
    {
      if p !in tasks || (taskID != "" && tasks[p].offer.taskID != taskID) {
        return;
      }
      tasks := tasks[p := tasks[p].(state := "failed", updated := now)];
      RemoveArtifact(p);
      if err.Some? {
        tasks := tasks[p := tasks[p].(err := err.value)];
      }
    }

    method Remove(p: Player)
      requires "" !in files
      modifies this
      ensures View() == AfterRemove(old(View()), p)
    {
      if p in tasks {
        RemoveArtifact(p);
        tasks := tasks - {p};
      }
    }
  }

  lemma PrunedForNone(s: State, now: int)
    ensures PrunedFor(s, {}, now) == s
  {
    assert PathsPruned(s.tasks, {}, now) == {};
  }

  lemma PrunedForOneMore(s: State, done: set<Player>, p: Player, now: int)
    requires p in s.tasks && p !in done
    ensures PrunedFor(PrunedFor(s, done, now), {p}, now) == PrunedFor(s, done + {p}, now)
    ensures p in PrunedFor(s, done, now).tasks
  {
    var a, b := PrunedFor(s, done, now), PrunedFor(s, done + {p}, now);
    assert a.tasks[p] == s.tasks[p];
    assert PathsPruned(s.tasks, done + {p}, now) == PathsPruned(s.tasks, done, now) + PathsPruned(a.tasks, {p}, now);
    assert PrunedFor(a, {p}, now).tasks == b.tasks;
  }
}
