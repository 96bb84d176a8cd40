/**
 The helper that switches binaries: internal/upgrade/apply.go.

 A run of the helper is the list of states its disk goes through, so a crash at any moment leaves one of them. The
 outcome of every file, service and process operation is an input. A copy that is under way when the helper crashes has
 written any part of its source.
 */
module Apply {
  import opened ByteStrings
  import opened UpgradeMessages

  /** The files next to the target, by what they are for. */
  datatype Place = Target | Candidate | Backup | Installing | Failed

  /** pending and download: the two JSON files of the update; health: the file a healthy new client writes. */
  datatype Disk = Disk(files: map<Place, Bytes>, pending: bool, download: bool, health: bool)

  /** What the disk goes through, oldest first, without the state it starts from. */
  type Trace = seq<Disk>

  function End(d: Disk, t: Trace): Disk {
    if t == [] then d else t[|t| - 1]
  }

  /** written: how much of the source a failing or interrupted copy has written. */
  datatype Copying = Copying(cannotOpen: bool, written: nat, fails: bool, cannotRemove: bool)

  datatype Attempt = Attempt(stopFails: bool, renameFails: bool)

  datatype Isolation = Isolated | HandOff | CannotIsolate

  /** attempts: what each try within the deadline meets, in order. */
  datatype Faults = Faults(
    unreadable: bool, isolation: Isolation, digestUnreadable: bool, parentStays: bool, stopFails: bool,
    recoverParentStays: bool, recoverStartFails: bool,
    backup: Copying, backupSyncFails: bool, cannotRemoveBackup: bool,
    installing: Copying, activation: seq<Attempt>, cannotRemoveInstalling: bool,
    activationSyncFails: bool, keepFailed: Copying, reactivation: seq<Attempt>,
    startFails: bool, clientHealthy: bool,
    rollbackStopFails: bool, keepRolledBack: Copying, rollback: seq<Attempt>, restartFails: bool,
    cannotRemovePending: bool, cannotRemoveDownload: bool)

  /** expected: the digest of the artifact, in either case; valid: no field of the state is missing. */
  datatype Update = Update(valid: bool, service: bool, expected: string)

  datatype Ending =
    | Unread | Invalid | HandedOff | NotSwitched | ReplaceFailed
    | StartFailed(rolledBack: bool) | Unhealthy(rolledBack: bool) | Healthy

  /** RunApplyHelper returns nil. */
  predicate ReturnsNil(e: Ending) {
    e.HandedOff? || e.Healthy?
  }

  // ---------------------------------------------------------------- single operations

  function Without(d: Disk, place: Place, cannotRemove: bool): Disk {
    if cannotRemove then d else d.(files := d.files - {place})
  }

  function Part(data: Bytes, n: nat): Bytes {
    if n <= |data| then data[..n] else data
  }

  /** copyFileSync: the destination must not exist, and a copy that fails is removed. */
  function Copied(d: Disk, from: Place, to: Place, f: Copying): (Trace, bool) {
    if f.cannotOpen || from !in d.files || to in d.files then ([], false)
    else
      var partial := d.(files := d.files[to := Part(d.files[from], f.written)]);
      if f.fails then ([partial, Without(partial, to, f.cannotRemove)], false)
      else ([partial, d.(files := d.files[to := d.files[from]])], true)
  }

  function Renamed(d: Disk, from: Place, to: Place): Disk
    requires from in d.files
  {
    d.(files := d.files[to := d.files[from]] - {from})
  }

  predicate Succeeds(a: Attempt, service: bool) {
    !(service && a.stopFails) && !a.renameFails
  }

  /** retryRenameForState: the service is stopped before every try, and a try whose stop fails does not rename. */
  function Retried(d: Disk, from: Place, to: Place, service: bool, attempts: seq<Attempt>): (Trace, bool) {
    if attempts == [] then ([], false)
    else if Succeeds(attempts[0], service) && from in d.files then ([Renamed(d, from, to)], true)
    else Retried(d, from, to, service, attempts[1..])
  }

  // ---------------------------------------------------------------- replacing and rolling back

  function Activated(d: Disk, u: Update, f: Faults): (Trace, bool) {
    var (a, ok) := Retried(d, Installing, Target, u.service, f.activation);
    if !ok then (a + [Without(End(d, a), Installing, f.cannotRemoveInstalling)], false)
    else if !f.activationSyncFails then (a, true)
    else
      var b := Copied(End(d, a), Target, Failed, f.keepFailed).0;
      (a + (b + Retried(End(End(d, a), b), Backup, Target, u.service, f.reactivation).0), false)
  }

  function Staged(d: Disk, u: Update, f: Faults): (Trace, bool) {
    var (a, ok) := Copied(d, Candidate, Installing, f.installing);
    if !ok then (a, false)
    else
      var (b, done) := Activated(End(d, a), u, f);
      (a + b, done)
  }

  function Replaced(d: Disk, u: Update, f: Faults): (Trace, bool) {
    var (a, ok) := Copied(d, Target, Backup, f.backup);
    if !ok then (a, false)
    else if f.backupSyncFails then (a + [Without(End(d, a), Backup, f.cannotRemoveBackup)], false)
    else
      var (b, done) := Staged(End(d, a), u, f);
      (a + b, done)
  }

  function RolledBack(d: Disk, u: Update, f: Faults): (Trace, bool) {
    if u.service && f.rollbackStopFails then ([], false)
    else
      var a := Copied(d, Target, Failed, f.keepRolledBack).0;
      var (b, ok) := Retried(End(d, a), Backup, Target, u.service, f.rollback);
      (a + b, ok && !f.restartFails)
  }

  // ---------------------------------------------------------------- the helper

  function Cleared(d: Disk, f: Faults): Trace {
    var a := if f.cannotRemovePending then d else d.(pending := false);
    [a, if f.cannotRemoveDownload then a else a.(download := false)]
  }

  function Recovered(d: Disk, u: Update, f: Faults): Trace {
    if f.recoverParentStays || f.recoverStartFails then [] else Cleared(d, f)
  }

  predicate Verified(d: Disk, u: Update, f: Faults, sha: Digest) {
    !f.digestUnreadable && Candidate in d.files && Lower(sha(d.files[Candidate])) == Lower(u.expected)
  }

  function UndoneAndCleared(d: Disk, u: Update, f: Faults): (Trace, bool) {
    var (a, ok) := RolledBack(d, u, f);
    (a + Cleared(End(d, a), f), ok)
  }

  /** From the moment the target is the new binary. */
  function Finished(d: Disk, u: Update, f: Faults): (Trace, Ending) {
    if f.startFails then
      var (a, ok) := UndoneAndCleared(d, u, f);
      (a, StartFailed(ok))
    else
      var waited := d.(health := d.health || f.clientHealthy);
      if waited.health then
        var a := Without(waited, Backup, f.cannotRemoveBackup);
        ([waited, a] + Cleared(a, f), Healthy)
      else
        var (a, ok) := UndoneAndCleared(d, u, f);
        (a, Unhealthy(ok))
  }

  function Switched(d: Disk, u: Update, f: Faults): (Trace, Ending) {
    var (a, ok) := Replaced(d, u, f);
    if !ok then (a + Cleared(End(d, a), f), ReplaceFailed)
    else
      var (b, ending) := Finished(End(d, a), u, f);
      (a + b, ending)
  }

  function Helped(d: Disk, u: Update, f: Faults, sha: Digest): (Trace, Ending) {
    if f.unreadable || !d.pending then ([], Unread)
    else if !u.valid then ([], Invalid)
    else if f.isolation.CannotIsolate? then (Recovered(d, u, f), NotSwitched)
    else if f.isolation.HandOff? then ([], HandedOff)
    else if !Verified(d, u, f, sha) then (Recovered(d, u, f), NotSwitched)
    else if f.parentStays then ([], NotSwitched)
    else if u.service && f.stopFails then (Recovered(d, u, f), NotSwitched)
    else Switched(d, u, f)
  }

  // ---------------------------------------------------------------- what the target holds

  /** The target is one of two whole files, never a missing or a partial one. */
  predicate Whole(d: Disk, before: Bytes, artifact: Bytes) {
    Target in d.files && (d.files[Target] == before || d.files[Target] == artifact)
  }

  predicate TargetIs(d: Disk, data: Bytes) {
    Target in d.files && d.files[Target] == data
  }

  ghost predicate AllWhole(t: Trace, before: Bytes, artifact: Bytes) {
    forall i :: 0 <= i < |t| ==> Whole(t[i], before, artifact)
  }

  lemma EndOfConcat(d: Disk, a: Trace, b: Trace)
    ensures End(d, a + b) == End(End(d, a), b)
  {
  }

  lemma AllWholeConcat(a: Trace, b: Trace, before: Bytes, artifact: Bytes)
    requires AllWhole(a, before, artifact) && AllWhole(b, before, artifact)
    ensures AllWhole(a + b, before, artifact)
  {
  }

  lemma CopyKeepsTheRest(d: Disk, from: Place, to: Place, f: Copying)
    requires to != Target
    ensures var (t, ok) := Copied(d, from, to, f);
      && (forall i :: 0 <= i < |t| ==> t[i].files - {to} == d.files - {to})
      && End(d, t).files - {to} == d.files - {to}
      && (ok ==> from in d.files && to !in d.files && to in End(d, t).files && End(d, t).files[to] == d.files[from])
      && (forall i :: 0 <= i < |t| ==> t[i].pending == d.pending && t[i].health == d.health)
      && End(d, t).pending == d.pending && End(d, t).health == d.health
  {
  }

  lemma OtherFile(a: map<Place, Bytes>, b: map<Place, Bytes>, away: Place, x: Place)
    requires a - {away} == b - {away} && x != away
    ensures x in a <==> x in b
    ensures x in a ==> a[x] == b[x]
  {
    assert x in a <==> x in a - {away};
    assert x in b <==> x in b - {away};
    assert x in a ==> (a - {away})[x] == a[x];
    assert x in b ==> (b - {away})[x] == b[x];
  }

  /** A copy to any other place leaves the target as it is throughout. */
  lemma CopyKeepsTarget(d: Disk, from: Place, to: Place, f: Copying, before: Bytes, artifact: Bytes)
    requires to != Target && Whole(d, before, artifact)
    ensures var t := Copied(d, from, to, f).0;
      AllWhole(t, before, artifact) && Target in End(d, t).files && End(d, t).files[Target] == d.files[Target]
  {
    var t := Copied(d, from, to, f).0;
    CopyKeepsTheRest(d, from, to, f);
    forall i | 0 <= i < |t|
      ensures Whole(t[i], before, artifact)
    {
      OtherFile(t[i].files, d.files, to, Target);
    }
    OtherFile(End(d, t).files, d.files, to, Target);
  }

  /** A rename happens exactly when the source is there and some try meets a stopped service and a rename that works. */
  lemma {:induction false} RetrySucceedsIff(d: Disk, from: Place, to: Place, service: bool, attempts: seq<Attempt>)
    ensures var (t, ok) := Retried(d, from, to, service, attempts);
      && (ok <==> from in d.files && exists i :: 0 <= i < |attempts| && Succeeds(attempts[i], service))
      && (if ok then t == [Renamed(d, from, to)] else t == [])
    ensures forall i :: 0 <= i < |attempts| ==>
      (Succeeds(attempts[i], service) <==> !attempts[i].renameFails && (service ==> !attempts[i].stopFails))
  {
    if attempts != [] {
      RetrySucceedsIff(d, from, to, service, attempts[1..]);
      if i :| 0 <= i < |attempts[1..]| && Succeeds(attempts[1..][i], service) {
        assert Succeeds(attempts[i + 1], service);
      }
      if i :| 0 <= i < |attempts| && Succeeds(attempts[i], service) {
        assert i > 0 ==> Succeeds(attempts[1..][i - 1], service);
      }
    }
  }

  /** A copy that fails leaves its destination only where it cannot remove it; one that cannot begin touches nothing. */
  lemma FailedCopyLeaves(d: Disk, from: Place, to: Place, f: Copying)
    requires !Copied(d, from, to, f).1
    ensures var e := End(d, Copied(d, from, to, f).0);
      if f.cannotOpen || from !in d.files || to in d.files then e == d
      else (to in e.files <==> f.cannotRemove) && e == d.(files := e.files) && e.files - {to} == d.files
  {
    assert d.files - {to} == if to in d.files then d.files - {to} else d.files;
  }

  /** A replacement that fails leaves no half-installed file, as far as it can remove it, and no unsynced backup. */
  lemma FailedReplacementCleansUp(d: Disk, u: Update, f: Faults)
    requires Installing !in d.files && !f.installing.cannotRemove && !f.cannotRemoveInstalling
    ensures Installing !in End(d, Replaced(d, u, f).0).files
    ensures Copied(d, Target, Backup, f.backup).1 && f.backupSyncFails ==>
      (Backup in End(d, Replaced(d, u, f).0).files <==> f.cannotRemoveBackup)
  {
    var a := Copied(d, Target, Backup, f.backup).0;
    CopyKeepsTheRest(d, Target, Backup, f.backup);
    OtherFile(End(d, a).files, d.files, Backup, Installing);
    if Copied(d, Target, Backup, f.backup).1 {
      if !f.backupSyncFails {
        FailedStagingCleansUp(End(d, a), u, f);
        EndOfConcat(d, a, Staged(End(d, a), u, f).0);
      }
    }
  }

  lemma FailedStagingCleansUp(d: Disk, u: Update, f: Faults)
    requires Installing !in d.files && !f.installing.cannotRemove && !f.cannotRemoveInstalling
    ensures Installing !in End(d, Staged(d, u, f).0).files
  {
    var (a, ok) := Copied(d, Candidate, Installing, f.installing);
    if ok {
      ActivationLeavesNone(End(d, a), u, f);
      EndOfConcat(d, a, Activated(End(d, a), u, f).0);
    }
  }

  lemma ActivationLeavesNone(d: Disk, u: Update, f: Faults)
    requires Installing in d.files && !f.cannotRemoveInstalling
    ensures Installing !in End(d, Activated(d, u, f).0).files
  {
    var (a, ok) := Retried(d, Installing, Target, u.service, f.activation);
    RetrySucceedsIff(d, Installing, Target, u.service, f.activation);
    if ok && f.activationSyncFails {
      var x := End(d, a);
      var b := Copied(x, Target, Failed, f.keepFailed).0;
      CopyKeepsTheRest(x, Target, Failed, f.keepFailed);
      OtherFile(End(x, b).files, x.files, Failed, Installing);
      RetrySucceedsIff(End(x, b), Backup, Target, u.service, f.reactivation);
      EndOfConcat(d, a, b + Retried(End(x, b), Backup, Target, u.service, f.reactivation).0);
      EndOfConcat(x, b, Retried(End(x, b), Backup, Target, u.service, f.reactivation).0);
    }
  }

  predicate TryWorks(attempts: seq<Attempt>, service: bool) {
    exists i :: 0 <= i < |attempts| && Succeeds(attempts[i], service)
  }

  /** Some try activates the new binary, and none moves the old one back. */
  predicate StaysActivated(u: Update, f: Faults) {
    TryWorks(f.activation, u.service) && !TryWorks(f.reactivation, u.service)
  }

  predicate CanInstall(d: Disk, f: Faults) {
    Installing !in d.files && !f.installing.cannotOpen && !f.installing.fails
  }

  /** The new binary was activated, that could not be made durable, and the old one could not be moved back. */
  predicate LeftActivated(d: Disk, u: Update, f: Faults) {
    && Backup !in d.files && !f.backup.cannotOpen && !f.backup.fails && !f.backupSyncFails
    && CanInstall(d, f)
    && TryWorks(f.activation, u.service) && f.activationSyncFails && !TryWorks(f.reactivation, u.service)
  }

  lemma ActivatedEnds(d: Disk, u: Update, f: Faults, before: Bytes, artifact: Bytes)
    requires TargetIs(d, before) && Installing in d.files && d.files[Installing] == artifact
    requires Backup in d.files && d.files[Backup] == before
    ensures var (t, ok) := Activated(d, u, f);
      var e := End(d, t);
      && AllWhole(t, before, artifact)
      && (ok ==> TargetIs(e, artifact) && Backup in e.files && e.files[Backup] == before)
      && (ok <==> TryWorks(f.activation, u.service) && !f.activationSyncFails)
      && (!ok ==> TargetIs(e, if StaysActivated(u, f) then artifact else before))
  {
    var (a, ok) := Retried(d, Installing, Target, u.service, f.activation);
    RetrySucceedsIff(d, Installing, Target, u.service, f.activation);
    if ok && f.activationSyncFails {
      var x := End(d, a);
      MovedBack(x, u, f, before, artifact);
      var b := Copied(x, Target, Failed, f.keepFailed).0;
      var c := Retried(End(x, b), Backup, Target, u.service, f.reactivation).0;
      AllWholeConcat(b, c, before, artifact);
      AllWholeConcat(a, b + c, before, artifact);
      EndOfConcat(d, a, b + c);
      EndOfConcat(x, b, c);
    }
  }

  lemma MovedBack(x: Disk, u: Update, f: Faults, before: Bytes, artifact: Bytes)
    requires TargetIs(x, artifact) && Backup in x.files && x.files[Backup] == before
    ensures var b := Copied(x, Target, Failed, f.keepFailed).0;
      var c := Retried(End(x, b), Backup, Target, u.service, f.reactivation).0;
      && AllWhole(b, before, artifact) && AllWhole(c, before, artifact)
      && TargetIs(End(End(x, b), c), if TryWorks(f.reactivation, u.service) then before else artifact)
  {
    var b := Copied(x, Target, Failed, f.keepFailed).0;
    CopyKeepsTarget(x, Target, Failed, f.keepFailed, before, artifact);
    CopyKeepsTheRest(x, Target, Failed, f.keepFailed);
    OtherFile(End(x, b).files, x.files, Failed, Backup);
    RetrySucceedsIff(End(x, b), Backup, Target, u.service, f.reactivation);
  }

  lemma StagedEnds(d: Disk, u: Update, f: Faults, before: Bytes, artifact: Bytes)
    requires TargetIs(d, before) && Candidate in d.files && d.files[Candidate] == artifact
    requires Backup in d.files && d.files[Backup] == before
    ensures var (t, ok) := Staged(d, u, f);
      var e := End(d, t);
      && AllWhole(t, before, artifact)
      && (ok ==> TargetIs(e, artifact) && Backup in e.files && e.files[Backup] == before)
      && (ok <==> CanInstall(d, f) && TryWorks(f.activation, u.service) && !f.activationSyncFails)
      && (!ok ==> TargetIs(e, if CanInstall(d, f) && StaysActivated(u, f) then artifact else before))
  {
    var (a, ok) := Copied(d, Candidate, Installing, f.installing);
    CopyKeepsTarget(d, Candidate, Installing, f.installing, before, artifact);
    CopyKeepsTheRest(d, Candidate, Installing, f.installing);
    if ok {
      var x := End(d, a);
      OtherFile(x.files, d.files, Installing, Backup);
      ActivatedEnds(x, u, f, before, artifact);
      var b := Activated(x, u, f).0;
      AllWholeConcat(a, b, before, artifact);
      EndOfConcat(d, a, b);
    }
  }

  lemma ReplacedEnds(d: Disk, u: Update, f: Faults, before: Bytes, artifact: Bytes)
    requires TargetIs(d, before) && Candidate in d.files && d.files[Candidate] == artifact
    ensures var (t, ok) := Replaced(d, u, f);
      var e := End(d, t);
      && AllWhole(t, before, artifact)
      && (ok ==> TargetIs(e, artifact) && Backup in e.files && e.files[Backup] == before)
      && (!ok ==> TargetIs(e, if LeftActivated(d, u, f) then artifact else before))
  {
    var (a, ok) := Copied(d, Target, Backup, f.backup);
    CopyKeepsTarget(d, Target, Backup, f.backup, before, artifact);
    CopyKeepsTheRest(d, Target, Backup, f.backup);
    if ok {
      var x := End(d, a);
      if f.backupSyncFails {
        assert Whole(Without(x, Backup, f.cannotRemoveBackup), before, artifact);
      } else {
        OtherFile(x.files, d.files, Backup, Candidate);
        OtherFile(x.files, d.files, Backup, Installing);
        StagedEnds(x, u, f, before, artifact);
        var b := Staged(x, u, f).0;
        AllWholeConcat(a, b, before, artifact);
        EndOfConcat(d, a, b);
      }
    }
  }

  /** Rolling back can move the backup in place. */
  predicate CanMoveBack(u: Update, f: Faults) {
    !(u.service && f.rollbackStopFails) && TryWorks(f.rollback, u.service)
  }

  lemma RolledBackEnds(d: Disk, u: Update, f: Faults, before: Bytes, artifact: Bytes)
    requires TargetIs(d, artifact) && Backup in d.files && d.files[Backup] == before
    ensures var (t, ok) := RolledBack(d, u, f);
      && AllWhole(t, before, artifact)
      && (ok <==> CanMoveBack(u, f) && !f.restartFails)
      && TargetIs(End(d, t), if CanMoveBack(u, f) then before else artifact)
  {
    if !(u.service && f.rollbackStopFails) {
      var a := Copied(d, Target, Failed, f.keepRolledBack).0;
      CopyKeepsTarget(d, Target, Failed, f.keepRolledBack, before, artifact);
      CopyKeepsTheRest(d, Target, Failed, f.keepRolledBack);
      var x := End(d, a);
      OtherFile(x.files, d.files, Failed, Backup);
      RetrySucceedsIff(x, Backup, Target, u.service, f.rollback);
      var b := Retried(x, Backup, Target, u.service, f.rollback).0;
      AllWholeConcat(a, b, before, artifact);
      EndOfConcat(d, a, b);
    }
  }

  lemma ClearedKeepsFiles(d: Disk, f: Faults, before: Bytes, artifact: Bytes)
    requires Whole(d, before, artifact)
    ensures AllWhole(Cleared(d, f), before, artifact)
    ensures End(d, Cleared(d, f)).files == d.files && End(d, Cleared(d, f)).health == d.health
  {
  }

  lemma UndoneEnds(d: Disk, u: Update, f: Faults, before: Bytes, artifact: Bytes)
    requires TargetIs(d, artifact) && Backup in d.files && d.files[Backup] == before
    ensures var (t, ok) := UndoneAndCleared(d, u, f);
      && AllWhole(t, before, artifact)
      && (ok <==> CanMoveBack(u, f) && !f.restartFails)
      && TargetIs(End(d, t), if CanMoveBack(u, f) then before else artifact)
  {
    RolledBackEnds(d, u, f, before, artifact);
    var a := RolledBack(d, u, f).0;
    var x := End(d, a);
    ClearedKeepsFiles(x, f, before, artifact);
    AllWholeConcat(a, Cleared(x, f), before, artifact);
    EndOfConcat(d, a, Cleared(x, f));
  }

  /** What the target holds once a run has ended this way. */
  function TargetAfter(e: Ending, d: Disk, u: Update, f: Faults, before: Bytes, artifact: Bytes): Bytes {
    match e
    case Healthy => artifact
    case StartFailed(_) => if CanMoveBack(u, f) then before else artifact
    case Unhealthy(_) => if CanMoveBack(u, f) then before else artifact
    case ReplaceFailed => if LeftActivated(d, u, f) then artifact else before
    case _ => before
  }

  lemma FinishedEnds(d: Disk, u: Update, f: Faults, before: Bytes, artifact: Bytes)
    requires TargetIs(d, artifact) && Backup in d.files && d.files[Backup] == before
    ensures var (t, e) := Finished(d, u, f);
      && AllWhole(t, before, artifact)
      && (e.Healthy? || e.StartFailed? || e.Unhealthy?)
      && TargetIs(End(d, t), TargetAfter(e, d, u, f, before, artifact))
      && (e.Healthy? ==> End(d, t).health)
      && (e == StartFailed(true) || e == Unhealthy(true) ==> CanMoveBack(u, f))
  {
    UndoneEnds(d, u, f, before, artifact);
    var waited := d.(health := d.health || f.clientHealthy);
    if !f.startFails && waited.health {
      var a := Without(waited, Backup, f.cannotRemoveBackup);
      ClearedKeepsFiles(a, f, before, artifact);
      AllWholeConcat([waited, a], Cleared(a, f), before, artifact);
      EndOfConcat(d, [waited, a], Cleared(a, f));
    }
  }

  lemma SwitchedEnds(d: Disk, u: Update, f: Faults, before: Bytes, artifact: Bytes)
    requires TargetIs(d, before) && Candidate in d.files && d.files[Candidate] == artifact
    ensures var (t, e) := Switched(d, u, f);
      && AllWhole(t, before, artifact)
      && TargetIs(End(d, t), TargetAfter(e, d, u, f, before, artifact))
      && (e.Healthy? || e.StartFailed? || e.Unhealthy? || e.ReplaceFailed?)
      && (e.Healthy? ==> End(d, t).health)
      && (e == StartFailed(true) || e == Unhealthy(true) ==> CanMoveBack(u, f))
  {
    ReplacedEnds(d, u, f, before, artifact);
    var (a, ok) := Replaced(d, u, f);
    var x := End(d, a);
    if ok {
      FinishedEnds(x, u, f, before, artifact);
      var b := Finished(x, u, f).0;
      AllWholeConcat(a, b, before, artifact);
      EndOfConcat(d, a, b);
    } else {
      ClearedKeepsFiles(x, f, before, artifact);
      AllWholeConcat(a, Cleared(x, f), before, artifact);
      EndOfConcat(d, a, Cleared(x, f));
    }
  }

  ghost predicate TellsApart(sha: Digest) {
    forall a: Bytes, b: Bytes :: Lower(sha(a)) == Lower(sha(b)) ==> a == b
  }

  predicate Expects(u: Update, artifact: Bytes, sha: Digest) {
    Lower(u.expected) == Lower(sha(artifact))
  }

  /**
   Whatever fails, and wherever the helper crashes, the target is the whole binary it found or the whole verified
   artifact; which of the two it is at the end depends on how the run ended.
   */
  lemma HelperKeepsTargetWhole(d: Disk, u: Update, f: Faults, sha: Digest, before: Bytes, artifact: Bytes)
    requires TellsApart(sha) && Expects(u, artifact, sha) && TargetIs(d, before)
    ensures var (t, e) := Helped(d, u, f, sha);
      && AllWhole(t, before, artifact)
      && TargetIs(End(d, t), TargetAfter(e, d, u, f, before, artifact))
      && (e.Healthy? ==> End(d, t).health)
      && (e == StartFailed(true) || e == Unhealthy(true) ==> CanMoveBack(u, f))
  {
    RecoveredKeepsFiles(d, u, f, before, artifact);
    if Verified(d, u, f, sha) {
      assert d.files[Candidate] == artifact;
      SwitchedEnds(d, u, f, before, artifact);
    }
  }

  lemma RecoveredKeepsFiles(d: Disk, u: Update, f: Faults, before: Bytes, artifact: Bytes)
    requires Whole(d, before, artifact)
    ensures AllWhole(Recovered(d, u, f), before, artifact)
    ensures End(d, Recovered(d, u, f)).files == d.files
  {
    ClearedKeepsFiles(d, f, before, artifact);
  }

  /** A nil return means the artifact is in place and its health file was seen, or nothing was done but the hand-off. */
  lemma NilMeansHealthy(d: Disk, u: Update, f: Faults, sha: Digest, before: Bytes, artifact: Bytes)
    requires TellsApart(sha) && Expects(u, artifact, sha) && TargetIs(d, before)
    requires ReturnsNil(Helped(d, u, f, sha).1)
    ensures var (t, e) := Helped(d, u, f, sha);
      if e.HandedOff? then t == [] && f.isolation.HandOff?
      else TargetIs(End(d, t), artifact) && End(d, t).health && Verified(d, u, f, sha)
  {
    HelperKeepsTargetWhole(d, u, f, sha, before, artifact);
  }

  // ---------------------------------------------------------------- when it switches, and what becomes of its state

  /** The guards of the helper, in its own order, down to the first change of a file. */
  predicate GetsToSwitch(d: Disk, u: Update, f: Faults, sha: Digest) {
    && !f.unreadable && d.pending && u.valid && f.isolation == Isolated
    && !f.digestUnreadable && Candidate in d.files && Lower(sha(d.files[Candidate])) == Lower(u.expected)
    && !f.parentStays && !(u.service && f.stopFails)
  }

  predicate SwitchEnding(e: Ending) {
    e.ReplaceFailed? || e.StartFailed? || e.Unhealthy? || e.Healthy?
  }

  ghost predicate FilesStay(d: Disk, t: Trace) {
    forall i :: 0 <= i < |t| ==> t[i].files == d.files && t[i].health == d.health
  }

  /** It switches exactly when every guard lets it; otherwise it says which did not, and touches no binary. */
  lemma SwitchesIff(d: Disk, u: Update, f: Faults, sha: Digest)
    ensures var (t, e) := Helped(d, u, f, sha);
      && (SwitchEnding(e) <==> GetsToSwitch(d, u, f, sha))
      && (!GetsToSwitch(d, u, f, sha) ==> FilesStay(d, t))
      && (e.Unread? <==> f.unreadable || !d.pending)
      && (e.Invalid? <==> !f.unreadable && d.pending && !u.valid)
      && (e.HandedOff? <==> !f.unreadable && d.pending && u.valid && f.isolation.HandOff?)
  {
    if GetsToSwitch(d, u, f, sha) {
      assert Helped(d, u, f, sha) == Switched(d, u, f);
    }
  }

  /** So a run whose parent stays, or whose service cannot be stopped, changes no binary. */
  lemma WaitsForTheOldProcess(d: Disk, u: Update, f: Faults, sha: Digest)
    requires f.parentStays || (u.service && f.stopFails)
    ensures FilesStay(d, Helped(d, u, f, sha).0) && !SwitchEnding(Helped(d, u, f, sha).1)
  {
    SwitchesIff(d, u, f, sha);
  }

  /** Neither JSON file of the update nor the health file is touched. */
  ghost predicate StateStays(d: Disk, t: Trace) {
    forall i :: 0 <= i < |t| ==> t[i].pending == d.pending && t[i].download == d.download && t[i].health == d.health
  }

  lemma StateStaysThrough(d: Disk, a: Trace, b: Trace)
    requires StateStays(d, a) && StateStays(End(d, a), b)
    ensures StateStays(d, a + b)
  {
    forall i | 0 <= i < |a + b|
      ensures (a + b)[i].pending == d.pending && (a + b)[i].download == d.download && (a + b)[i].health == d.health
    {
      assert (a + b)[i] == if i < |a| then a[i] else b[i - |a|];
    }
  }

  lemma RetryKeepsState(d: Disk, from: Place, to: Place, service: bool, attempts: seq<Attempt>)
    ensures StateStays(d, Retried(d, from, to, service, attempts).0)
  {
    RetrySucceedsIff(d, from, to, service, attempts);
  }

  lemma ActivatedKeepsState(d: Disk, u: Update, f: Faults)
    ensures StateStays(d, Activated(d, u, f).0)
  {
    var (a, ok) := Retried(d, Installing, Target, u.service, f.activation);
    RetryKeepsState(d, Installing, Target, u.service, f.activation);
    if !ok {
      StateStaysThrough(d, a, [Without(End(d, a), Installing, f.cannotRemoveInstalling)]);
    } else if f.activationSyncFails {
      var x := End(d, a);
      var b := Copied(x, Target, Failed, f.keepFailed).0;
      var c := Retried(End(x, b), Backup, Target, u.service, f.reactivation).0;
      RetryKeepsState(End(x, b), Backup, Target, u.service, f.reactivation);
      StateStaysThrough(x, b, c);
      StateStaysThrough(d, a, b + c);
    }
  }

  lemma ReplacedKeepsState(d: Disk, u: Update, f: Faults)
    ensures StateStays(d, Replaced(d, u, f).0)
  {
    var (a, ok) := Copied(d, Target, Backup, f.backup);
    var x := End(d, a);
    if ok && f.backupSyncFails {
      StateStaysThrough(d, a, [Without(x, Backup, f.cannotRemoveBackup)]);
    } else if ok {
      var (b, staged) := Copied(x, Candidate, Installing, f.installing);
      if staged {
        ActivatedKeepsState(End(x, b), u, f);
        StateStaysThrough(x, b, Activated(End(x, b), u, f).0);
      }
      StateStaysThrough(d, a, Staged(x, u, f).0);
    }
  }

  lemma RolledBackKeepsState(d: Disk, u: Update, f: Faults)
    ensures StateStays(d, RolledBack(d, u, f).0)
  {
    var a := Copied(d, Target, Failed, f.keepRolledBack).0;
    RetryKeepsState(End(d, a), Backup, Target, u.service, f.rollback);
    StateStaysThrough(d, a, Retried(End(d, a), Backup, Target, u.service, f.rollback).0);
  }

  /** Once pending.json is gone, the binaries are already as the run leaves them. */
  ghost predicate StateGoesLast(d: Disk, t: Trace) {
    forall i :: 0 <= i < |t| ==> t[i].pending || t[i].files == End(d, t).files
  }

  /** Both JSON files are gone, but for what could not be removed. */
  predicate StateGone(d: Disk, after: Disk, f: Faults) {
    after.pending == f.cannotRemovePending && after.download == (d.download && f.cannotRemoveDownload)
  }

  lemma ClearedLast(d: Disk, a: Trace, f: Faults)
    requires d.pending && forall i :: 0 <= i < |a| ==> a[i].pending && a[i].download == d.download
    ensures var t := a + Cleared(End(d, a), f); StateGoesLast(d, t) && StateGone(d, End(d, t), f)
  {
    var c := Cleared(End(d, a), f);
    EndOfConcat(d, a, c);
    forall i | 0 <= i < |a + c|
      ensures (a + c)[i].pending || (a + c)[i].files == End(d, a + c).files
    {
      assert (a + c)[i] == if i < |a| then a[i] else c[i - |a|];
    }
  }

  lemma FinishedClears(d: Disk, u: Update, f: Faults)
    requires d.pending
    ensures var t := Finished(d, u, f).0; StateGoesLast(d, t) && StateGone(d, End(d, t), f)
  {
    RolledBackKeepsState(d, u, f);
    ClearedLast(d, RolledBack(d, u, f).0, f);
    var waited := d.(health := d.health || f.clientHealthy);
    var kept := [waited, Without(waited, Backup, f.cannotRemoveBackup)];
    ClearedLast(d, kept, f);
    assert Cleared(End(d, kept), f) == Cleared(kept[1], f);
  }

  lemma SwitchedClears(d: Disk, u: Update, f: Faults)
    requires d.pending
    ensures var t := Switched(d, u, f).0; StateGoesLast(d, t) && StateGone(d, End(d, t), f)
  {
    ReplacedKeepsState(d, u, f);
    var (a, ok) := Replaced(d, u, f);
    if ok {
      var x := End(d, a);
      var b := Finished(x, u, f).0;
      FinishedClears(x, u, f);
      EndOfConcat(d, a, b);
      forall i | 0 <= i < |a + b|
        ensures (a + b)[i].pending || (a + b)[i].files == End(d, a + b).files
      {
        assert (a + b)[i] == if i < |a| then a[i] else b[i - |a|];
      }
    } else {
      ClearedLast(d, a, f);
    }
  }

  /** A run that did not switch has seen the old process go and has started the old client again. */
  predicate OldClientBack(d: Disk, u: Update, f: Faults, sha: Digest) {
    var waitedInVain := f.isolation.Isolated? && Verified(d, u, f, sha) && f.parentStays;
    !waitedInVain && !f.recoverParentStays && !f.recoverStartFails
  }

  /**
   However a switch ends, pending.json and download.json go, and only when the binaries are in their final state. A run
   that did not switch removes them exactly when the old process is gone and its client was started again; one that
   cannot read its state, or hands off, leaves them.
   */
  lemma StateGoesExactlyWhen(d: Disk, u: Update, f: Faults, sha: Digest)
    ensures var (t, e) := Helped(d, u, f, sha);
      var after := End(d, t);
      && (SwitchEnding(e) ==> StateGone(d, after, f))
      && (e.NotSwitched? ==>
            if OldClientBack(d, u, f, sha) then StateGone(d, after, f)
            else after.pending == d.pending && after.download == d.download)
      && (e.Unread? || e.Invalid? || e.HandedOff? ==> after == d)
      && (d.pending ==> StateGoesLast(d, t))
  {
    if d.pending {
      SwitchedClears(d, u, f);
      ClearedLast(d, [], f);
      assert [] + Cleared(d, f) == Cleared(d, f);
    }
  }

  // ---------------------------------------------------------------- several runs, each crashing anywhere

  /** A run of the helper, how many of its states it reached, and the disk the next run finds. */
  datatype Run = Run(update: Update, faults: Faults, reached: nat, next: Disk)

  function StateAt(d: Disk, t: Trace, reached: nat): Disk {
    if reached == 0 || t == [] then d else if reached <= |t| then t[reached - 1] else t[|t| - 1]
  }

  predicate SameTarget(a: Disk, b: Disk) {
    Target in a.files && Target in b.files && a.files[Target] == b.files[Target]
  }

  /** Between two runs anything but the target may change. */
  predicate Chained(d: Disk, runs: seq<Run>, sha: Digest)
    decreases |runs|
  {
    runs != [] ==>
      var t := Helped(d, runs[0].update, runs[0].faults, sha).0;
      SameTarget(runs[0].next, StateAt(d, t, runs[0].reached)) && Chained(runs[0].next, runs[1..], sha)
  }

  function DiskBefore(d: Disk, runs: seq<Run>, i: nat): Disk
    requires i <= |runs|
  {
    if i == 0 then d else runs[i - 1].next
  }

  lemma {:induction false} EveryRunTargetWhole(d: Disk, runs: seq<Run>, sha: Digest, oldBinary: Bytes, artifact: Bytes)
    requires TellsApart(sha) && Whole(d, oldBinary, artifact) && Chained(d, runs, sha)
    requires forall i :: 0 <= i < |runs| ==> Expects(runs[i].update, artifact, sha)
    ensures forall i :: 0 <= i < |runs| ==>
      Whole(DiskBefore(d, runs, i), oldBinary, artifact)
      && AllWhole(Helped(DiskBefore(d, runs, i), runs[i].update, runs[i].faults, sha).0, oldBinary, artifact)
    decreases |runs|
  {
    if runs != [] {
      var r := runs[0];
      HelperKeepsTargetWhole(d, r.update, r.faults, sha, d.files[Target], artifact);
      var t := Helped(d, r.update, r.faults, sha).0;
      assert AllWhole(t, oldBinary, artifact);
      assert Whole(r.next, oldBinary, artifact);
      EveryRunTargetWhole(r.next, runs[1..], sha, oldBinary, artifact);
      forall i | 0 <= i < |runs|
        ensures Whole(DiskBefore(d, runs, i), oldBinary, artifact)
        ensures AllWhole(Helped(DiskBefore(d, runs, i), runs[i].update, runs[i].faults, sha).0, oldBinary, artifact)
      {
        if i > 0 {
          assert runs[i] == runs[1..][i - 1];
          assert DiskBefore(d, runs, i) == DiskBefore(r.next, runs[1..], i - 1);
        }
      }
    }
  }

  predicate RolledBackWithoutError(e: Ending) {
    (e.StartFailed? || e.Unhealthy?) && e.rolledBack
  }

  /** A rollback without error brings back the old binary exactly when the run began with it. */
  lemma RollbackRestoresTheOldIff(d: Disk, u: Update, f: Faults, sha: Digest, oldBinary: Bytes, artifact: Bytes)
    requires TellsApart(sha) && Expects(u, artifact, sha) && Whole(d, oldBinary, artifact)
    requires RolledBackWithoutError(Helped(d, u, f, sha).1)
    ensures TargetIs(End(d, Helped(d, u, f, sha).0), oldBinary) <==> TargetIs(d, oldBinary)
  {
    HelperKeepsTargetWhole(d, u, f, sha, d.files[Target], artifact);
  }

  // ---------------------------------------------------------------- a rerun that rolls back to the new binary

  const COPIES := Copying(false, 0, false, false)
  const WORKS: seq<Attempt> := [Attempt(false, false)]

  const NO_FAULT := Faults(
    false, Isolated, false, false, false, false, false,
    COPIES, false, false, COPIES, WORKS, false, false, COPIES, WORKS,
    false, true, false, COPIES, WORKS, false, false, false)

  lemma WorksAtOnce(d: Disk, from: Place, to: Place, service: bool)
    requires from in d.files
    ensures Retried(d, from, to, service, WORKS) == ([Renamed(d, from, to)], true)
  {
  }

  /** The state a healthy run is in when it has removed the backup and not yet the two JSON files. */
  lemma CrashAfterRemovingTheBackup(d: Disk, u: Update, oldBinary: Bytes, artifact: Bytes)
    requires d.files == map[Target := oldBinary, Candidate := artifact] && d.pending
    ensures var (t, e) := Switched(d, u, NO_FAULT);
      && e == Healthy && |t| > 2
      && t[|t| - 3].files == map[Target := artifact, Candidate := artifact]
      && t[|t| - 3].pending && t[|t| - 3].health
  {
    var (a, ok) := Replaced(d, u, NO_FAULT);
    ReplacedAtOnce(d, u, oldBinary, artifact);
    var x := End(d, a);
    var (b, e) := Finished(x, u, NO_FAULT);
    assert x.files - {Backup} == map[Target := artifact, Candidate := artifact];
    assert (a + b)[|a| + 1] == b[1] == x.(health := true, files := x.files - {Backup});
  }

  lemma StagedAtOnce(x: Disk, u: Update, oldBinary: Bytes, artifact: Bytes)
    requires x.files == map[Target := oldBinary, Candidate := artifact, Backup := oldBinary]
    ensures var (t, ok) := Staged(x, u, NO_FAULT);
      && ok
      && End(x, t) == x.(files := map[Target := artifact, Candidate := artifact, Backup := oldBinary])
  {
    var b := Copied(x, Candidate, Installing, COPIES).0;
    var y := End(x, b);
    assert y == x.(files :=
      map[Target := oldBinary, Candidate := artifact, Backup := oldBinary, Installing := artifact]);
    WorksAtOnce(y, Installing, Target, u.service);
    var c := Activated(y, u, NO_FAULT).0;
    assert End(y, c) == x.(files := map[Target := artifact, Candidate := artifact, Backup := oldBinary]);
    EndOfConcat(x, b, c);
  }

  lemma ReplacedAtOnce(d: Disk, u: Update, oldBinary: Bytes, artifact: Bytes)
    requires d.files == map[Target := oldBinary, Candidate := artifact]
    ensures var (t, ok) := Replaced(d, u, NO_FAULT);
      && ok
      && End(d, t) == d.(files := map[Target := artifact, Candidate := artifact, Backup := oldBinary])
  {
    var a := Copied(d, Target, Backup, COPIES).0;
    var x := End(d, a);
    assert x == d.(files := map[Target := oldBinary, Candidate := artifact, Backup := oldBinary]);
    StagedAtOnce(x, u, oldBinary, artifact);
    EndOfConcat(d, a, Staged(x, u, NO_FAULT).0);
  }

  /**
   A helper that crashes there is run again on the new binary: it backs that one up, and when the client does not start,
   its rollback without error leaves the new binary, not the old.
   */
  lemma RerunRollsBackToTheNew(d: Disk, u: Update, sha: Digest, oldBinary: Bytes, artifact: Bytes)
    requires TellsApart(sha) && Expects(u, artifact, sha) && u.valid && oldBinary != artifact
    requires d.files == map[Target := oldBinary, Candidate := artifact] && d.pending
    ensures var t := Helped(d, u, NO_FAULT, sha).0;
      && |t| > 2
      && var crashed := t[|t| - 3];
         var again := Helped(crashed, u, NO_FAULT.(startFails := true), sha);
         RolledBackWithoutError(again.1) && TargetIs(End(crashed, again.0), artifact)
  {
    assert Verified(d, u, NO_FAULT, sha);
    CrashAfterRemovingTheBackup(d, u, oldBinary, artifact);
    var t := Helped(d, u, NO_FAULT, sha).0;
    var crashed, g := t[|t| - 3], NO_FAULT.(startFails := true);
    assert Verified(crashed, u, g, sha);
    ReplacedAtOnceWith(crashed, u, artifact);
    RollsBackAfterAFailedStart(crashed, u, artifact);
    HelperKeepsTargetWhole(crashed, u, g, sha, artifact, artifact);
  }

  lemma ReplacedAtOnceWith(d: Disk, u: Update, artifact: Bytes)
    requires d.files == map[Target := artifact, Candidate := artifact]
    ensures Replaced(d, u, NO_FAULT.(startFails := true)) == Replaced(d, u, NO_FAULT)
  {
  }

  lemma RollsBackAfterAFailedStart(d: Disk, u: Update, artifact: Bytes)
    requires d.files == map[Target := artifact, Candidate := artifact]
    requires Replaced(d, u, NO_FAULT.(startFails := true)) == Replaced(d, u, NO_FAULT)
    ensures Switched(d, u, NO_FAULT.(startFails := true)).1 == StartFailed(true)
  {
    var g := NO_FAULT.(startFails := true);
    ReplacedAtOnce(d, u, artifact, artifact);
    var x := End(d, Replaced(d, u, g).0);
    RolledBackEnds(x, u, g, artifact, artifact);
    assert Succeeds(WORKS[0], u.service);
    assert TryWorks(g.rollback, u.service);
  }

  // ---------------------------------------------------------------- the helper, step by step

  class ApplyHelper {
    const sha: Digest
    var files: map<Place, Bytes>
    var pending: bool
    var download: bool
    var health: bool
    ghost var history: Trace     // every state the disk has been in since the helper started

    constructor (sha: Digest, d: Disk)
      ensures View() == d && history == [] && this.sha == sha
    {
      this.sha := sha;
      files, pending, download, health := d.files, d.pending, d.download, d.health;
      history := [];
    }

    ghost function View(): Disk
      reads this
    {
      Disk(files, pending, download, health)
    }

    /** Since it was d, with this history, the disk has gone through t. */
    ghost predicate Went(d: Disk, before: Trace, t: Trace)
      reads this
    {
      View() == End(d, t) && history == before + t
    }

    method RemoveFile(place: Place, cannotRemove: bool)
      modifies this`files, this`history
      ensures Went(old(View()), old(history), [Without(old(View()), place, cannotRemove)])
    {
      if !cannotRemove {
        files := files - {place};
      }
      history := history + [View()];
    }

    method CopyFileSync(from: Place, to: Place, f: Copying) returns (ok: bool)
      modifies this`files, this`history
      ensures var (t, done) := Copied(old(View()), from, to, f);
        Went(old(View()), old(history), t) && ok == done
    {
      if f.cannotOpen || from !in files || to in files {
        return false;
      }
      var source := files[from];
      files := files[to := Part(source, f.written)];
      history := history + [View()];
      if f.fails {
        RemoveFile(to, f.cannotRemove);
        return false;
      }
      files := files[to := source];
      history := history + [View()];
      return true;
    }

    method RetryRename(from: Place, to: Place, service: bool, attempts: seq<Attempt>) returns (ok: bool)
      modifies this`files, this`history
      ensures var (t, done) := Retried(old(View()), from, to, service, attempts);
        Went(old(View()), old(history), t) && ok == done
    {
      for i := 0 to |attempts|
        invariant files == old(files) && history == old(history)
        invariant Retried(View(), from, to, service, attempts) == Retried(View(), from, to, service, attempts[i..])
      {
        assert attempts[i..][0] == attempts[i] && attempts[i..][1..] == attempts[i + 1..];
        if service && attempts[i].stopFails {
          continue;
        }
        if !attempts[i].renameFails && from in files {
          files := files[to := files[from]] - {from};
          history := history + [View()];
          return true;
        }
      }
      return false;
    }

    method ReplaceTarget(u: Update, f: Faults) returns (ok: bool)
      modifies this`files, this`history
      ensures var (t, done) := Replaced(old(View()), u, f);
        Went(old(View()), old(history), t) && ok == done
    {
      var copied := CopyFileSync(Target, Backup, f.backup);
      if !copied {
        return false;
      }
      if f.backupSyncFails {
        RemoveFile(Backup, f.cannotRemoveBackup);
        return false;
      }
      ok := StageTarget(u, f);
    }

    method StageTarget(u: Update, f: Faults) returns (ok: bool)
      modifies this`files, this`history
      ensures var (t, done) := Staged(old(View()), u, f);
        Went(old(View()), old(history), t) && ok == done
    {
      var staged := CopyFileSync(Candidate, Installing, f.installing);
      if !staged {
        return false;
      }
      ok := ActivateTarget(u, f);
    }

    method ActivateTarget(u: Update, f: Faults) returns (ok: bool)
      modifies this`files, this`history
      ensures var (t, done) := Activated(old(View()), u, f);
        Went(old(View()), old(history), t) && ok == done
    {
      var activated := RetryRename(Installing, Target, u.service, f.activation);
      if !activated {
        RemoveFile(Installing, f.cannotRemoveInstalling);
        return false;
      }
      if !f.activationSyncFails {
        return true;
      }
      var _ := CopyFileSync(Target, Failed, f.keepFailed);
      var _ := RetryRename(Backup, Target, u.service, f.reactivation);
      return false;
    }

    method RollbackTarget(u: Update, f: Faults) returns (ok: bool)
      modifies this`files, this`history
      ensures var (t, done) := RolledBack(old(View()), u, f);
        Went(old(View()), old(history), t) && ok == done
    {
      if u.service && f.rollbackStopFails {
        return false;
      }
      var _ := CopyFileSync(Target, Failed, f.keepRolledBack);
      var moved := RetryRename(Backup, Target, u.service, f.rollback);
      if !moved {
        return false;
      }
      return !f.restartFails;
    }

    method ClearPendingState(f: Faults)
      modifies this`pending, this`download, this`history
      ensures Went(old(View()), old(history), Cleared(old(View()), f))
    {
      if !f.cannotRemovePending {
        pending := false;
      }
      history := history + [View()];
      if !f.cannotRemoveDownload {
        download := false;
      }
      history := history + [View()];
    }

    method RecoverBeforeSwitch(u: Update, f: Faults)
      modifies this`pending, this`download, this`history
      ensures Went(old(View()), old(history), Recovered(old(View()), u, f))
    {
      if f.recoverParentStays || f.recoverStartFails {
        return;
      }
      ClearPendingState(f);
    }

    method RunApplyHelper(u: Update, f: Faults) returns (e: Ending)
      modifies this
      ensures var (t, ending) := Helped(old(View()), u, f, sha);
        Went(old(View()), old(history), t) && e == ending
    {
      if f.unreadable || !pending {
        return Unread;
      }
      if !u.valid {
        return Invalid;
      }
      if f.isolation.CannotIsolate? {
        RecoverBeforeSwitch(u, f);
        return NotSwitched;
      }
      if f.isolation.HandOff? {
        return HandedOff;
      }
      if f.digestUnreadable || Candidate !in files || Lower(sha(files[Candidate])) != Lower(u.expected) {
        RecoverBeforeSwitch(u, f);
        return NotSwitched;
      }
      if f.parentStays {
        return NotSwitched;
      }
      if u.service && f.stopFails {
        RecoverBeforeSwitch(u, f);
        return NotSwitched;
      }
      e := SwitchTarget(u, f);
    }

    method SwitchTarget(u: Update, f: Faults) returns (e: Ending)
      modifies this
      ensures var (t, ending) := Switched(old(View()), u, f);
        Went(old(View()), old(history), t) && e == ending
    {
      var replaced := ReplaceTarget(u, f);
      if !replaced {
        ClearPendingState(f);
        return ReplaceFailed;
      }
      e := FinishSwitch(u, f);
    }

    method UndoSwitch(u: Update, f: Faults) returns (ok: bool)
      modifies this
      ensures var (t, done) := UndoneAndCleared(old(View()), u, f);
        Went(old(View()), old(history), t) && ok == done
    {
      ok := RollbackTarget(u, f);
      ClearPendingState(f);
    }

    method FinishSwitch(u: Update, f: Faults) returns (e: Ending)
      modifies this
      ensures var (t, ending) := Finished(old(View()), u, f);
        Went(old(View()), old(history), t) && e == ending
    {
      if f.startFails {
        var restored := UndoSwitch(u, f);
        return StartFailed(restored);
      }
      if f.clientHealthy || health {
        health := true;
        history := history + [View()];
        RemoveFile(Backup, f.cannotRemoveBackup);
        ClearPendingState(f);
        return Healthy;
      }
      var restored := UndoSwitch(u, f);
      return Unhealthy(restored);
    }
  }
}
