/**
 The client side of a resumable upgrade: internal/upgrade/receiver.go.

 The receiver's memory and what lies in its update directory (the candidate files, download.json, pending.json and
 last-result.json) are one state. Each call takes the outcome of every file operation it may perform. A crash between
 two disk steps leaves the disk that a failure of the second one leaves, so a process that dies inside a call leaves
 what some failing call leaves, less its memory.
 */
module Receiver {
  import opened ByteStrings
  import opened UpgradeMessages
  import Versions

  const MAX_ARTIFACT := 256 * 1024 * 1024
  const MAX_CHUNK := 1024 * 1024

  datatype DownloadState = DownloadState(
    taskID: string, version: string, platform: string, size: int, sha256: string, candidate: string, offset: nat)

  datatype Reason =
    | Disabled | InvalidTask | WrongPlatform | NotNewer | InvalidSize | InvalidChunkSize | InvalidDigest | BadSignature
    | FileFailed | UnexpectedChunk | UnexpectedOffset | InvalidChunkLength | BadChunkDigest | ExceedsSize | EndedEarly
    | BadArtifactDigest

  datatype Report =
    | Accepted(taskID: string, offset: nat)
    | Downloading(taskID: string, offset: nat)
    | Verifying(taskID: string, offset: nat)
    | Failed(taskID: string, offset: nat, reason: Reason)

  /** sha is the lower-case hex digest of a byte string, verify the check of an offer's signature. */
  datatype Config = Config(
    enabled: bool, version: string, platform: string, dir: string, ext: string,
    sha: Digest, verify: Offer -> bool)

  /** What StartApply writes to pending.json for the helper, of the fields the switch depends on. */
  datatype ApplyState = ApplyState(taskID: string, candidate: string, expectedSHA256: string, expectedVersion: string)

  /**
   files: the candidate-* files. pending: pending.json, unless it is missing or unreadable. result: last-result.json,
   unless it is missing; one that cannot be read has an empty task id.
   */
  datatype State = State(
    offer: Option<Offer>, candidate: string, offset: nat,
    files: map<string, Bytes>, download: Option<DownloadState>, pending: Option<ApplyState>, result: Option<Status>)

  const INITIAL: State := State(None, "", 0, map[], None, None, None)

  /** writeJSONAtomic: the replaced file is in place even when syncing its directory fails afterwards. */
  datatype Save = Saved | NotSaved | SavedThenFailed

  datatype AcceptFaults = AcceptFaults(
    mkdirFails: bool, stateUnreadable: bool, statFails: bool, prepareFails: bool, syncFails: bool, save: Save,
    digestUnreadable: bool, reopenFails: bool, resyncFails: bool, resave: Save)

  /** stops: how many bytes of the chunk reached the file before the write failed, if it failed. */
  datatype ChunkFaults = ChunkFaults(
    openFails: bool, stops: Option<nat>, syncFails: bool, save: Save, digestUnreadable: bool, chmodFails: bool)

  /** stuck: the files that cannot be removed. */
  datatype TidyFaults = TidyFaults(pendingUnreadable: bool, resultUnknown: bool, listFails: bool, stuck: set<string>)

  datatype HandOverFaults = HandOverFaults(cannotRemoveResult: bool, save: Save, startFails: bool)

  const NO_TIDY_FAULT := TidyFaults(false, false, false, {})
  const NO_ACCEPT_FAULT := AcceptFaults(false, false, false, false, false, Saved, false, false, false, Saved)
  const NO_CHUNK_FAULT := ChunkFaults(false, None, false, Saved, false, false)

  predicate IsTaskChar(c: char) {
    'a' <= c <= 'f' || '0' <= c <= '9'
  }

  predicate IsTaskID(s: string) {
    |s| == 32 && forall i :: 0 <= i < |s| ==> IsTaskChar(s[i])
  }

  function CandidatePath(c: Config, taskID: string): string {
    c.dir + ("/candidate-" + (taskID + c.ext))
  }

  predicate IsNewer(mine: string, offered: string) {
    var a, b := Versions.Parsed(mine), Versions.Parsed(offered);
    a.Some? && b.Some? && Versions.Compare(a.value, b.value) < 0
  }

  // ---------------------------------------------------------------- accepting an offer

  /** Why an offer is turned down before anything is touched; the first failing guard answers. */
  function Refusal(c: Config, o: Option<Offer>): Option<Reason> {
    if !c.enabled then Some(Disabled)
    else if o.None? || !IsTaskID(o.value.taskID) then Some(InvalidTask)
    else if o.value.platform != c.platform then Some(WrongPlatform)
    else if !IsNewer(c.version, o.value.version) then Some(NotNewer)
    else if o.value.size <= 0 || o.value.size > MAX_ARTIFACT then Some(InvalidSize)
    else if o.value.chunkSize == 0 || o.value.chunkSize > MAX_CHUNK then Some(InvalidChunkSize)
    else if |o.value.sha256| != 64 then Some(InvalidDigest)
    else if !c.verify(o.value) then Some(BadSignature)
    else None
  }

  function TaskOf(o: Option<Offer>): string {
    if o.Some? then o.value.taskID else ""
  }

  predicate SameDownload(d: DownloadState, o: Offer, path: string) {
    d.taskID == o.taskID && d.sha256 == o.sha256 && d.size == o.size && d.candidate == path
  }

  /** Where the download goes on: the stored offset, if the stored state and the file agree on it, else 0. */
  function Resumed(s: State, o: Offer, path: string, f: AcceptFaults): nat {
    if !f.stateUnreadable && s.download.Some? && SameDownload(s.download.value, o, path)
       && !f.statFails && path in s.files && |s.files[path]| == s.download.value.offset
       && s.download.value.offset <= o.size
    then s.download.value.offset
    else 0
  }

  function Stored(s: State, o: Offer, outcome: Save): State {
    if outcome.NotSaved? then s
    else s.(download := Some(DownloadState(o.taskID, o.version, o.platform, o.size, o.sha256, s.candidate, s.offset)))
  }

  function Truncated(s: State, path: string): State {
    s.(files := s.files[path := []])
  }

  /** A file opened with O_TRUNC is empty from then on, whether or not it could be synced. */
  function Prepared(s: State, o: Offer, path: string, f: AcceptFaults): State {
    if Resumed(s, o, path, f) != 0 || f.prepareFails then s else Truncated(s, path)
  }

  predicate PrepareFails(s: State, o: Offer, path: string, f: AcceptFaults) {
    Resumed(s, o, path, f) == 0 && (f.prepareFails || f.syncFails)
  }

  predicate IsWhole(c: Config, s: State, path: string, digest: string) {
    path in s.files && c.sha(s.files[path]) == Lower(digest)
  }

  /** A download that was already complete: checked again, or started over if the check fails. */
  function Rechecked(c: Config, s: State, o: Offer, f: AcceptFaults): (State, Report) {
    if !f.digestUnreadable && IsWhole(c, s, s.candidate, o.sha256) then (s, Verifying(o.taskID, s.offset))
    else if f.reopenFails then (s, Failed(o.taskID, 0, FileFailed))
    else if f.resyncFails then (Truncated(s, s.candidate), Failed(o.taskID, 0, FileFailed))
    else
      (Stored(Truncated(s, s.candidate).(offset := 0), o, f.resave),
       if f.resave.Saved? then Accepted(o.taskID, 0) else Failed(o.taskID, 0, FileFailed))
  }

  function Taken(s: State, o: Offer, path: string, f: AcceptFaults): State {
    Stored(Prepared(s, o, path, f).(offer := Some(o), candidate := path, offset := Resumed(s, o, path, f)), o, f.save)
  }

  function AfterAccept(c: Config, s: State, o: Option<Offer>, f: AcceptFaults): (State, Report) {
    if Refusal(c, o).Some? then (s, Failed(TaskOf(o), 0, Refusal(c, o).value))
    else if f.mkdirFails then (s, Failed(o.value.taskID, 0, FileFailed))
    else AfterOffer(c, s, o.value, f)
  }

  function AfterOffer(c: Config, s: State, o: Offer, f: AcceptFaults): (State, Report) {
    var path := CandidatePath(c, o.taskID);
    if PrepareFails(s, o, path, f) then (Prepared(s, o, path, f), Failed(o.taskID, 0, FileFailed))
    else
      var t := Taken(s, o, path, f);
      if !f.save.Saved? then (t, Failed(o.taskID, 0, FileFailed))
      else if t.offset == o.size then Rechecked(c, t, o, f)
      else (t, Accepted(o.taskID, t.offset))
  }

  // ---------------------------------------------------------------- a chunk

  /** Writing at an offset past the end of a file leaves a gap of zeros. */
  function WrittenAt(file: Bytes, offset: nat, data: Bytes): Bytes {
    if data == [] then file
    else
      var before := if offset <= |file| then file[..offset] else file + seq(offset - |file|, _ => 0);
      before + data + (if offset + |data| <= |file| then file[offset + |data|..] else [])
  }

  function ChunkRefusal(c: Config, s: State, ch: Option<Chunk>): Option<Reason> {
    if s.offer.None? || ch.None? || ch.value.taskID != s.offer.value.taskID then Some(UnexpectedChunk)
    else if ch.value.offset != s.offset then Some(UnexpectedOffset)
    else if |ch.value.data| == 0 || |ch.value.data| > s.offer.value.chunkSize then Some(InvalidChunkLength)
    else if c.sha(ch.value.data) != Lower(ch.value.sha256) then Some(BadChunkDigest)
    else if s.offset + |ch.value.data| > s.offer.value.size then Some(ExceedsSize)
    else None
  }

  /** What the write leaves in the file: all of the chunk, or as much of it as was written before the failure. */
  function Landed(data: Bytes, f: ChunkFaults): Bytes {
    if f.stops.Some? && f.stops.value < |data| then data[..f.stops.value] else data
  }

  function Written(s: State, data: Bytes, f: ChunkFaults): State
    requires s.candidate in s.files
  {
    s.(files := s.files[s.candidate := WrittenAt(s.files[s.candidate], s.offset, Landed(data, f))])
  }

  function AfterChunk(c: Config, s: State, ch: Option<Chunk>, f: ChunkFaults): (State, Report) {
    var refusal := ChunkRefusal(c, s, ch);
    if refusal.Some? then (s, Failed(TaskOf(s.offer), s.offset, refusal.value))
    else if f.openFails || s.candidate !in s.files then (s, Failed(TaskOf(s.offer), s.offset, FileFailed))
    else
      var w := Written(s, ch.value.data, f);
      if f.stops.Some? || f.syncFails then (w, Failed(TaskOf(s.offer), s.offset, FileFailed))
      else
        var t := Stored(w.(offset := s.offset + |ch.value.data|), s.offer.value, f.save);
        (t, ChunkReport(c, t, s.offer.value, ch.value.eof, f))
  }

  function ChunkReport(c: Config, s: State, o: Offer, eof: bool, f: ChunkFaults): Report {
    if !f.save.Saved? then Failed(o.taskID, s.offset, FileFailed)
    else if !eof then Downloading(o.taskID, s.offset)
    else if s.offset != o.size then Failed(o.taskID, s.offset, EndedEarly)
    else if f.digestUnreadable then Failed(o.taskID, s.offset, FileFailed)
    else if !IsWhole(c, s, s.candidate, o.sha256) then Failed(o.taskID, s.offset, BadArtifactDigest)
    else if f.chmodFails then Failed(o.taskID, s.offset, FileFailed)
    else Verifying(o.taskID, s.offset)
  }

  // ---------------------------------------------------------------- tidying and restarting

  /** While pending.json is there and last-result.json is not, the helper still needs the candidate it names. */
  predicate Protected(s: State, path: string) {
    s.pending.Some? && s.result.None? && s.pending.value.candidate == path
  }

  /** cleanupStaleUpdateFiles leaves the candidate at hand, the protected one, and what it cannot remove. */
  predicate Spared(s: State, path: string, g: TidyFaults) {
    || (s.offer.Some? && s.candidate != "" && path == s.candidate)
    || (Protected(s, path) && !g.pendingUnreadable && !g.resultUnknown)
    || g.listFails || path in g.stuck
  }

  function Tidied(s: State, g: TidyFaults): State {
    s.(files := map path | path in s.files && Spared(s, path, g) :: s.files[path])
  }

  function Forgotten(s: State): State {
    s.(offer := None, candidate := "", offset := 0)
  }

  /** A new process: the memory is gone, and NewReceiver tidies. */
  function Restarted(s: State, g: TidyFaults): State {
    Tidied(Forgotten(s), g)
  }

  // ---------------------------------------------------------------- handing over to the helper

  /** Nothing is handed over before the download is complete. */
  function HandedOver(s: State): Option<ApplyState> {
    if s.offer.None? || s.candidate == "" || s.offset != s.offer.value.size then None
    else Some(ApplyState(s.offer.value.taskID, s.candidate, s.offer.value.sha256, s.offer.value.version))
  }

  /** An older result goes first, so that the new pending.json protects the candidate. */
  function AfterStartApply(s: State, f: HandOverFaults): (State, bool) {
    if HandedOver(s).None? then (s, false)
    else
      var t := if f.cannotRemoveResult then s else s.(result := None);
      (if f.save.NotSaved? then t else t.(pending := HandedOver(s)), f.save.Saved? && !f.startFails)
  }

  /** PendingResult. */
  function ResultAtHand(s: State): Option<Status> {
    if s.result.Some? && s.result.value.taskID != "" then s.result else None
  }

  function Acknowledged(s: State, taskID: string, cannotRemove: bool): State {
    if ResultAtHand(s).None? || s.result.value.taskID != taskID || cannotRemove then s else s.(result := None)
  }

  /** What the helper does in the update directory: it may clear its own state and download.json and leave a result. */
  function Helped(s: State, clearsPending: bool, clearsDownload: bool, outcome: Option<Status>): State {
    s.(pending := if clearsPending then None else s.pending, download := if clearsDownload then None else s.download,
       result := if outcome.Some? then outcome else s.result)
  }

  // ---------------------------------------------------------------- what is taken, and what changes nothing

  predicate ReadablePrerelease(v: Versions.Version) {
    forall i :: 0 <= i < |Versions.Split(v.pre)| ==> Versions.Readable(Versions.Split(v.pre)[i])
  }

  /** Both are versions and the offered one comes strictly later: in the order of the standard, where it reads both. */
  ghost predicate Later(mine: string, offered: string) {
    var a, b := Versions.Parsed(mine), Versions.Parsed(offered);
    && a.Some? && b.Some?
    && if ReadablePrerelease(a.value) && ReadablePrerelease(b.value)
       then Versions.Precedes(a.value, b.value) else Versions.Compare(a.value, b.value) < 0
  }

  predicate IsHexID(id: string) {
    |id| == 32 && forall i :: 0 <= i < 32 ==> id[i] in "0123456789abcdef"
  }

  /** What the client demands of an offer. */
  ghost predicate Proper(c: Config, o: Offer) {
    && IsHexID(o.taskID) && o.platform == c.platform && Later(c.version, o.version)
    && 0 < o.size <= 256 * 1024 * 1024 && 0 < o.chunkSize <= 1024 * 1024
    && |o.sha256| == 64 && c.verify(o)
  }

  lemma NewerIffLater(mine: string, offered: string)
    ensures IsNewer(mine, offered) <==> Later(mine, offered)
  {
    var a, b := Versions.Parsed(mine), Versions.Parsed(offered);
    if a.Some? && b.Some? && ReadablePrerelease(a.value) && ReadablePrerelease(b.value) {
      Versions.AgreesWithSemver(a.value, b.value);
    }
  }

  predicate PassesGuards(c: Config, o: Offer) {
    && c.enabled && IsTaskID(o.taskID) && o.platform == c.platform && IsNewer(c.version, o.version)
    && 0 < o.size <= MAX_ARTIFACT && 0 < o.chunkSize <= MAX_CHUNK && |o.sha256| == 64 && c.verify(o)
  }

  lemma GuardsPassed(c: Config, o: Offer)
    ensures Refusal(c, Some(o)).None? <==> PassesGuards(c, o)
  {
  }

  lemma GuardsAreProper(c: Config, o: Offer)
    requires IsTaskID(o.taskID) <==> IsHexID(o.taskID)
    requires IsNewer(c.version, o.version) <==> Later(c.version, o.version)
    ensures PassesGuards(c, o) <==> c.enabled && Proper(c, o)
  {
  }

  lemma ProperIffNotRefused(c: Config, o: Option<Offer>)
    ensures Refusal(c, o).None? <==> c.enabled && o.Some? && Proper(c, o.value)
  {
    if o.Some? {
      NewerIffLater(c.version, o.value.version);
      TaskIDChars(o.value.taskID);
      GuardsPassed(c, o.value);
      GuardsAreProper(c, o.value);
      assert o == Some(o.value);
    }
  }

  lemma TaskIDChars(id: string)
    ensures IsTaskID(id) <==> IsHexID(id)
  {
    forall c: char
      ensures IsTaskChar(c) <==> c in "0123456789abcdef"
    {
      TaskChar(c);
    }
  }

  lemma TaskChar(c: char)
    ensures IsTaskChar(c) <==> c in "0123456789abcdef"
  {
    var all := "0123456789abcdef";
    if IsTaskChar(c) {
      assert all[if c <= '9' then c as int - '0' as int else c as int - 'a' as int + 10] == c;
    }
  }

  /**
   An offer is only taken by a client that may be upgraded, and only if it is proper, whatever fails; if nothing fails
   every proper offer is taken. What is not proper changes nothing.
   */
  lemma OfferTakenIff(c: Config, s: State, o: Option<Offer>, f: AcceptFaults)
    ensures !AfterAccept(c, s, o, f).1.Failed? ==> c.enabled && o.Some? && Proper(c, o.value)
    ensures !AfterAccept(c, s, o, NO_ACCEPT_FAULT).1.Failed? <==> c.enabled && o.Some? && Proper(c, o.value)
    ensures !(c.enabled && o.Some? && Proper(c, o.value)) ==>
      var (t, report) := AfterAccept(c, s, o, f);
      t == s && report.Failed? && report.taskID == TaskOf(o) && report.offset == 0
  {
    ProperIffNotRefused(c, o);
  }

  /** download.json is about this very offer and this file, and the file is as long as it says. */
  predicate Resumable(s: State, o: Offer, path: string, offset: int) {
    && s.download.Some? && s.download.value.taskID == o.taskID && s.download.value.sha256 == o.sha256
    && s.download.value.size == o.size && s.download.value.candidate == path && s.download.value.offset == offset
    && path in s.files && |s.files[path]| == offset && 0 < offset <= o.size
  }

  /** An offer that is taken goes on at an offset above 0 only where there is a download of the same to go on with. */
  lemma ResumesOnlyTheSame(c: Config, s: State, o: Offer, f: AcceptFaults)
    requires !AfterAccept(c, s, Some(o), f).1.Failed?
    ensures var report := AfterAccept(c, s, Some(o), f).1;
      report.offset > 0 ==>
        !f.stateUnreadable && !f.statFails && Resumable(s, o, CandidatePath(c, o.taskID), report.offset)
  {
  }

  /** And if nothing fails, it does go on there, unless a complete file has the wrong digest. */
  lemma ResumesTheSame(c: Config, s: State, o: Offer, offset: nat)
    requires c.enabled && Proper(c, o) && Resumable(s, o, CandidatePath(c, o.taskID), offset)
    ensures var (t, report) := AfterAccept(c, s, Some(o), NO_ACCEPT_FAULT);
      var whole := c.sha(s.files[CandidatePath(c, o.taskID)]) == Lower(o.sha256);
      report == if offset < o.size then Accepted(o.taskID, offset)
                else if whole then Verifying(o.taskID, offset) else Accepted(o.taskID, 0)
  {
    ProperIffNotRefused(c, Some(o));
    var path := CandidatePath(c, o.taskID);
    assert Resumed(s, o, path, NO_ACCEPT_FAULT) == offset;
    assert Taken(s, o, path, NO_ACCEPT_FAULT).files == s.files;
  }

  /** Memory, file and download.json stand at one offset of one offer. */
  predicate StandsAt(s: State, o: Offer, path: string, offset: nat) {
    && s.offer == Some(o) && s.offset == offset && s.candidate == path && path in s.files && |s.files[path]| == offset
    && s.download == Some(DownloadState(o.taskID, o.version, o.platform, o.size, o.sha256, path, offset))
  }

  /** What the report on an offer says, whatever failed. */
  predicate SaysOf(s: State, report: Report, o: Offer, path: string) {
    && report.taskID == o.taskID && (report.Failed? ==> report.offset == 0)
    && (!report.Failed? ==> StandsAt(s, o, path, report.offset))
  }

  lemma TakenStands(s: State, o: Offer, path: string, f: AcceptFaults)
    requires !PrepareFails(s, o, path, f) && f.save.Saved?
    ensures StandsAt(Taken(s, o, path, f), o, path, Taken(s, o, path, f).offset)
  {
  }

  lemma RecheckedSays(c: Config, s: State, o: Offer, path: string, f: AcceptFaults)
    requires StandsAt(s, o, path, s.offset)
    ensures SaysOf(Rechecked(c, s, o, f).0, Rechecked(c, s, o, f).1, o, path)
  {
  }

  /** Whatever fails, a report names its offer; after one of success memory and download.json stand where it says. */
  lemma AcceptSays(c: Config, s: State, o: Offer, f: AcceptFaults)
    ensures AfterAccept(c, s, None, f).1.Failed? && AfterAccept(c, s, None, f).1.taskID == ""
    ensures AfterAccept(c, s, None, f).1.offset == 0
    ensures var (t, report) := AfterAccept(c, s, Some(o), f);
      SaysOf(t, report, o, CandidatePath(c, o.taskID))
  {
    var path := CandidatePath(c, o.taskID);
    if Refusal(c, Some(o)).None? && !f.mkdirFails && !PrepareFails(s, o, path, f) && f.save.Saved? {
      TakenStands(s, o, path, f);
      RecheckedSays(c, Taken(s, o, path, f), o, path, f);
    }
  }

  /** A download.json that could not be replaced is the old one. */
  lemma UnsavedStaysAsItWas(c: Config, s: State, o: Option<Offer>, f: AcceptFaults, ch: Option<Chunk>, g: ChunkFaults)
    ensures f.save.NotSaved? ==> AfterAccept(c, s, o, f).0.download == s.download
    ensures g.save.NotSaved? ==> AfterChunk(c, s, ch, g).0.download == s.download
  {
  }

  /** What the client demands of a chunk. */
  predicate Fits(c: Config, s: State, ch: Chunk) {
    && s.offer.Some? && ch.taskID == s.offer.value.taskID && ch.offset == s.offset
    && 0 < |ch.data| <= s.offer.value.chunkSize && s.offset + |ch.data| <= s.offer.value.size
    && c.sha(ch.data) == Lower(ch.sha256)
  }

  /** Byte by byte: the data where it is written, the file elsewhere, zeros in a gap. */
  lemma WrittenBytes(file: Bytes, offset: nat, data: Bytes, i: nat)
    requires i < |WrittenAt(file, offset, data)|
    ensures |WrittenAt(file, offset, data)| ==
      if data == [] || offset + |data| <= |file| then |file| else offset + |data|
    ensures WrittenAt(file, offset, data)[i] ==
      if offset <= i < offset + |data| then data[i - offset] else if i < |file| then file[i] else 0
  {
  }

  /** What a write leaves that stops short is no more than the part of the chunk that was written. */
  lemma StoppedWrite(c: Config, s: State, ch: Chunk, f: ChunkFaults)
    requires s.candidate in s.files && !f.openFails && f.stops.Some? && f.stops.value <= |ch.data| && Fits(c, s, ch)
    ensures var (t, report) := AfterChunk(c, s, Some(ch), f);
      && report.Failed? && t.offset == s.offset && t.download == s.download
      && t.files == s.files[s.candidate := WrittenAt(s.files[s.candidate], s.offset, ch.data[..f.stops.value])]
  {
    assert ch.data[..|ch.data|] == ch.data;
  }

  /** A chunk that does not fit changes nothing; if nothing fails one that fits is written and counted. */
  lemma ChunkTakenIff(c: Config, s: State, ch: Option<Chunk>, f: ChunkFaults)
    requires s.offer.Some? ==> s.candidate in s.files
    ensures !(ch.Some? && Fits(c, s, ch.value)) ==>
      AfterChunk(c, s, ch, f).0 == s && AfterChunk(c, s, ch, f).1.Failed?
    ensures AfterChunk(c, s, ch, NO_CHUNK_FAULT).0.offset > s.offset <==> ch.Some? && Fits(c, s, ch.value)
  {
  }

  /** When nothing fails, a chunk that fits is answered by how far it brings the file. */
  lemma ChunkAnswered(c: Config, s: State, ch: Chunk)
    requires s.offer.Some? && s.candidate in s.files && Fits(c, s, ch)
    ensures var (t, report) := AfterChunk(c, s, Some(ch), NO_CHUNK_FAULT);
      var o, offset := s.offer.value, s.offset + |ch.data|;
      var whole := offset == o.size && c.sha(t.files[t.candidate]) == Lower(o.sha256);
      && t.offset == offset && t.candidate in t.files
      && (report == Downloading(o.taskID, offset) <==> !ch.eof)
      && (report == Verifying(o.taskID, offset) <==> ch.eof && whole)
      && (report.Failed? <==> ch.eof && !whole)
  {
  }

  /** A report on a chunk names the offer at hand and says how far the receiver stands. */
  lemma ChunkSays(c: Config, s: State, ch: Option<Chunk>, f: ChunkFaults)
    ensures var (t, report) := AfterChunk(c, s, ch, f);
      && report.taskID == (if s.offer.Some? then s.offer.value.taskID else "") && report.offset == t.offset
      && t.offer == s.offer && t.candidate == s.candidate && t.offset >= s.offset
  {
  }

  /** A result goes exactly when it is the one acknowledged and can be removed; nothing else changes. */
  lemma AcknowledgedIff(s: State, taskID: string, cannotRemove: bool)
    ensures var r := Acknowledged(s, taskID, cannotRemove);
      && r == s.(result := r.result)
      && (r.result == s.result || r.result.None?)
      && (s.result.Some? ==>
            (r.result.None? <==> s.result.value.taskID == taskID && taskID != "" && !cannotRemove))
  {
  }

  /**
   The helper is started only for a complete download whose pending.json could be written; that names the candidate, and
   no older result is left that could be removed.
   */
  lemma HandedOverIff(s: State, f: HandOverFaults)
    ensures var (t, started) := AfterStartApply(s, f);
      var ready := s.offer.Some? && s.candidate != "" && s.offset == s.offer.value.size;
      && (started <==> ready && f.save.Saved? && !f.startFails)
      && (!ready ==> t == s)
      && (ready ==>
            && t == s.(pending := t.pending, result := t.result)
            && t.result == (if f.cannotRemoveResult then s.result else None)
            && (f.save.NotSaved? ==> t.pending == s.pending)
            && (!f.save.NotSaved? ==>
                  var o := s.offer.value;
                  t.pending == Some(ApplyState(o.taskID, s.candidate, o.sha256, o.version))))
  {
  }

  /** A positive answer to a chunk means that every step it took succeeded. */
  lemma ChunkSucceeded(c: Config, s: State, ch: Option<Chunk>, f: ChunkFaults)
    requires !AfterChunk(c, s, ch, f).1.Failed?
    ensures !f.openFails && f.stops.None? && !f.syncFails && f.save.Saved?
    ensures AfterChunk(c, s, ch, f).1.Verifying? ==> !f.digestUnreadable && !f.chmodFails
  {
  }

  /** So does one to an offer: of the file that was emptied, if it starts over, of the digest, if it is complete. */
  lemma AcceptSucceeded(c: Config, s: State, o: Offer, f: AcceptFaults)
    requires !AfterAccept(c, s, Some(o), f).1.Failed?
    ensures var report := AfterAccept(c, s, Some(o), f).1;
      && !f.mkdirFails && f.save.Saved?
      && (report.Verifying? ==> !f.digestUnreadable)
      && (report.offset == 0 ==>
            (!f.prepareFails && !f.syncFails) || (!f.reopenFails && !f.resyncFails && f.resave.Saved?))
      && (report.offset == 0 && s.download.None? ==> !f.prepareFails && !f.syncFails)
  {
  }

  /** A clean-up leaves the candidate at hand, the one pending.json names while there is no result, and what it must. */
  lemma CleanUpLeaves(s: State, g: TidyFaults, path: string)
    requires path in s.files
    ensures var r := Tidied(s, g);
      var atHand := s.offer.Some? && s.candidate != "" && path == s.candidate;
      var named := s.pending.Some? && s.pending.value.candidate == path && !g.pendingUnreadable;
      && r == s.(files := r.files) && (path in r.files ==> r.files[path] == s.files[path])
      && (path in r.files <==>
            atHand || (named && s.result.None? && !g.resultUnknown) || g.listFails || path in g.stuck)
  {
  }

  /** A new process knows of no offer, and adds no file. */
  lemma RestartForgets(s: State, g: TidyFaults)
    ensures var r := Restarted(s, g);
      && r == State(None, "", 0, r.files, s.download, s.pending, s.result) && r.files.Keys <= s.files.Keys
  {
  }

  // ---------------------------------------------------------------- genuine offers and chunks

  /** The artifact the server serves under each task id. */
  type Artifacts = string -> Bytes

  ghost predicate Injective(sha: Digest) {
    forall a: Bytes, b: Bytes :: sha(a) == sha(b) ==> a == b
  }

  predicate GenuineOffer(c: Config, art: Artifacts, o: Offer) {
    o.size == |art(o.taskID)| && Lower(o.sha256) == c.sha(art(o.taskID))
  }

  predicate GenuineChunk(art: Artifacts, ch: Chunk) {
    0 <= ch.offset && ch.offset + |ch.data| <= |art(ch.taskID)|
    && ch.data == art(ch.taskID)[ch.offset..ch.offset + |ch.data|]
  }

  /** Dying: the process dies inside the call, at the point where the faults would make it fail, and is restarted. */
  datatype Event =
    | Offered(offer: Option<Offer>, acceptFaults: AcceptFaults)
    | DyingInAccept(offer: Option<Offer>, acceptFaults: AcceptFaults, tidyFaults: TidyFaults)
    | Arrived(chunk: Option<Chunk>, chunkFaults: ChunkFaults)
    | DyingInChunk(chunk: Option<Chunk>, chunkFaults: ChunkFaults, tidyFaults: TidyFaults)
    | Tidying(tidyFaults: TidyFaults)
    | Restarting(tidyFaults: TidyFaults)
    | Applying(handOverFaults: HandOverFaults)
    | Helping(clearsPending: bool, clearsDownload: bool, outcome: Option<Status>)
    | Acknowledging(taskID: string, cannotRemove: bool)

  function After(c: Config, s: State, e: Event): State {
    match e
    case Offered(o, f) => AfterAccept(c, s, o, f).0
    case DyingInAccept(o, f, g) => Restarted(AfterAccept(c, s, o, f).0, g)
    case Arrived(ch, f) => AfterChunk(c, s, ch, f).0
    case DyingInChunk(ch, f, g) => Restarted(AfterChunk(c, s, ch, f).0, g)
    case Tidying(g) => Tidied(s, g)
    case Restarting(g) => Restarted(s, g)
    case Applying(f) => AfterStartApply(s, f).0
    case Helping(clearsPending, clearsDownload, outcome) => Helped(s, clearsPending, clearsDownload, outcome)
    case Acknowledging(taskID, cannotRemove) => Acknowledged(s, taskID, cannotRemove)
  }

  function Run(c: Config, s: State, es: seq<Event>): State {
    if es == [] then s else After(c, Run(c, s, es[..|es| - 1]), es[|es| - 1])
  }

  predicate GenuineEvent(c: Config, art: Artifacts, e: Event) {
    match e
    case Offered(o, _) => o.Some? ==> GenuineOffer(c, art, o.value)
    case DyingInAccept(o, _, _) => o.Some? ==> GenuineOffer(c, art, o.value)
    case Arrived(ch, _) => ch.Some? ==> GenuineChunk(art, ch.value)
    case DyingInChunk(ch, _, _) => ch.Some? ==> GenuineChunk(art, ch.value)
    case _ => true
  }

  /** Chunks may be anything at all here. */
  predicate GenuineOffers(c: Config, art: Artifacts, e: Event) {
    e.Offered? && e.offer.Some? ==> GenuineOffer(c, art, e.offer.value)
  }

  // ---------------------------------------------------------------- the bytes already downloaded

  /** The first offset bytes of the candidate file are the first offset bytes of the offered artifact. */
  predicate PrefixHeld(art: Artifacts, s: State) {
    s.offer.Some? ==>
      && s.candidate in s.files
      && s.offset <= |s.files[s.candidate]| && s.offset <= |art(s.offer.value.taskID)|
      && s.files[s.candidate][..s.offset] == art(s.offer.value.taskID)[..s.offset]
  }

  ghost predicate FilesArePrefixes(c: Config, art: Artifacts, files: map<string, Bytes>) {
    forall id: string :: CandidatePath(c, id) in files ==> files[CandidatePath(c, id)] <= art(id)
  }

  predicate OfferAtHand(c: Config, art: Artifacts, s: State) {
    s.offer.Some? ==>
      s.candidate == CandidatePath(c, s.offer.value.taskID) && GenuineOffer(c, art, s.offer.value)
      && s.offset <= s.offer.value.size
  }

  ghost predicate Good(c: Config, art: Artifacts, s: State) {
    && FilesArePrefixes(c, art, s.files)
    && OfferAtHand(c, art, s)
    && (s.offer.Some? ==> s.candidate in s.files && s.offset <= |s.files[s.candidate]|)
  }

  lemma GoodHoldsThePrefix(c: Config, art: Artifacts, s: State)
    requires Good(c, art, s)
    ensures PrefixHeld(art, s)
  {
    if s.offer.Some? {
      var file, whole := s.files[s.candidate], art(s.offer.value.taskID);
      assert file <= whole;
      assert file == whole[..|file|];
    }
  }

  lemma PathsDiffer(c: Config, a: string, b: string)
    requires CandidatePath(c, a) == CandidatePath(c, b)
    ensures a == b
  {
    assert "/candidate-" + (a + c.ext) == CandidatePath(c, a)[|c.dir|..];
    assert "/candidate-" + (b + c.ext) == CandidatePath(c, b)[|c.dir|..];
    assert a + c.ext == ("/candidate-" + (a + c.ext))[|"/candidate-"|..];
    assert b + c.ext == ("/candidate-" + (b + c.ext))[|"/candidate-"|..];
    assert |a| == |b|;
    assert a == (a + c.ext)[..|a|] && b == (b + c.ext)[..|b|];
  }

  /** Replacing one candidate file by another prefix of its artifact leaves only prefixes. */
  lemma PrefixReplaced(c: Config, art: Artifacts, files: map<string, Bytes>, id: string, file: Bytes)
    requires FilesArePrefixes(c, art, files) && file <= art(id)
    ensures FilesArePrefixes(c, art, files[CandidatePath(c, id) := file])
  {
    var path, r := CandidatePath(c, id), files[CandidatePath(c, id) := file];
    forall x: string | CandidatePath(c, x) in r
      ensures r[CandidatePath(c, x)] <= art(x)
    {
      if CandidatePath(c, x) == path {
        PathsDiffer(c, x, id);
      } else {
        assert CandidatePath(c, x) in files;
      }
    }
  }

  /**
   The one way an accepted offer loses bytes: the file of the offer at hand, already partly downloaded, is truncated
   and the sync that follows fails, so Accept returns before it resets the offset.
   */
  predicate TruncatedUnderTheOffer(c: Config, s: State, o: Option<Offer>, f: AcceptFaults) {
    Refusal(c, o).None? && !f.mkdirFails
    && var path := CandidatePath(c, o.value.taskID);
       var resumed := Resumed(s, o.value, path, f);
       if resumed == 0 then
         !f.prepareFails && f.syncFails && s.offer.Some? && s.candidate == path && s.offset > 0
       else
         resumed == o.value.size && f.save.Saved? && f.digestUnreadable && !f.reopenFails && f.resyncFails
  }

  lemma PreparedGood(c: Config, art: Artifacts, s: State, o: Offer, f: AcceptFaults)
    requires Good(c, art, s)
    ensures FilesArePrefixes(c, art, Prepared(s, o, CandidatePath(c, o.taskID), f).files)
  {
    PrefixReplaced(c, art, s.files, o.taskID, []);
  }

  lemma TakenGood(c: Config, art: Artifacts, s: State, o: Offer, f: AcceptFaults)
    requires Good(c, art, s) && GenuineOffer(c, art, o) && o.size > 0
    requires !PrepareFails(s, o, CandidatePath(c, o.taskID), f)
    ensures Good(c, art, Taken(s, o, CandidatePath(c, o.taskID), f))
  {
    PreparedGood(c, art, s, o, f);
  }

  lemma RecheckedGoodIff(c: Config, art: Artifacts, s: State, o: Offer, f: AcceptFaults)
    requires Good(c, art, s) && s.offer == Some(o) && s.offset == o.size > 0
    ensures Good(c, art, Rechecked(c, s, o, f).0) <==> !(f.digestUnreadable && !f.reopenFails && f.resyncFails)
  {
    var file, whole := s.files[s.candidate], art(o.taskID);
    assert file <= whole && |file| == |whole|;
    assert file == whole[..|file|] == whole;
    PrefixReplaced(c, art, s.files, o.taskID, []);
    if f.digestUnreadable && !f.reopenFails && f.resyncFails {
      assert Rechecked(c, s, o, f).0.files[s.candidate] == [];
    }
  }

  /** Accepting an offer keeps every downloaded prefix, except exactly when it truncates under the offer at hand. */
  lemma AcceptKeepsGoodIff(c: Config, art: Artifacts, s: State, o: Option<Offer>, f: AcceptFaults)
    requires Good(c, art, s)
    requires o.Some? ==> GenuineOffer(c, art, o.value)
    ensures Good(c, art, AfterAccept(c, s, o, f).0) <==> !TruncatedUnderTheOffer(c, s, o, f)
  {
    if Refusal(c, o).None? && !f.mkdirFails {
      var path := CandidatePath(c, o.value.taskID);
      if PrepareFails(s, o.value, path, f) {
        PreparedGood(c, art, s, o.value, f);
      } else {
        TakenGood(c, art, s, o.value, f);
        var t := Taken(s, o.value, path, f);
        if f.save.Saved? && t.offset == o.value.size {
          RecheckedGoodIff(c, art, t, o.value, f);
        }
      }
    }
  }

  /** After such a truncation the prefix is lost. */
  lemma TruncationLosesThePrefix(c: Config, art: Artifacts, s: State, o: Option<Offer>, f: AcceptFaults)
    requires Good(c, art, s)
    requires o.Some? ==> GenuineOffer(c, art, o.value)
    requires TruncatedUnderTheOffer(c, s, o, f)
    ensures !PrefixHeld(art, AfterAccept(c, s, o, f).0)
  {
    AcceptKeepsGoodIff(c, art, s, o, f);
    var path := CandidatePath(c, o.value.taskID);
    if Resumed(s, o.value, path, f) == 0 {
      assert AfterAccept(c, s, o, f).0 == Truncated(s, path);
    } else {
      var t := Taken(s, o.value, path, f);
      assert t.offset == o.value.size > 0;
      assert AfterAccept(c, s, o, f).0 == Truncated(t, path);
    }
  }

  lemma WrittenIsPrefix(file: Bytes, whole: Bytes, offset: nat, data: Bytes)
    requires file <= whole && offset <= |file| && offset + |data| <= |whole|
    requires data == whole[offset..offset + |data|]
    ensures WrittenAt(file, offset, data) <= whole && offset + |data| <= |WrittenAt(file, offset, data)|
  {
    var r := WrittenAt(file, offset, data);
    if data != [] {
      forall i | 0 <= i < |r|
        ensures r[i] == whole[i]
      {
        if i < offset {
          assert r[i] == file[i];
        } else if i < offset + |data| {
          assert r[i] == data[i - offset];
        } else {
          assert r[i] == file[i];
        }
      }
    }
  }

  /** A genuine chunk, however stale, repeated or badly written, keeps every downloaded prefix. */
  lemma ChunkKeepsGood(c: Config, art: Artifacts, s: State, ch: Option<Chunk>, f: ChunkFaults)
    requires Good(c, art, s)
    requires ch.Some? ==> GenuineChunk(art, ch.value)
    ensures Good(c, art, AfterChunk(c, s, ch, f).0)
  {
    if ChunkRefusal(c, s, ch).None? && !f.openFails && s.candidate in s.files {
      var id, data := s.offer.value.taskID, Landed(ch.value.data, f);
      assert ch.value.taskID == id;
      assert data == art(id)[s.offset..s.offset + |data|];
      assert s.files[s.candidate] <= art(id);
      WrittenIsPrefix(s.files[s.candidate], art(id), s.offset, data);
      PrefixReplaced(c, art, s.files, id, WrittenAt(s.files[s.candidate], s.offset, data));
    }
  }

  lemma TidiedGood(c: Config, art: Artifacts, s: State, g: TidyFaults)
    requires Good(c, art, s)
    ensures Good(c, art, Tidied(s, g))
  {
    var r := Tidied(s, g);
    if s.offer.Some? {
      assert |s.candidate| >= |"/candidate-"|;
      assert s.candidate in r.files && r.files[s.candidate] == s.files[s.candidate];
    }
    forall id: string | CandidatePath(c, id) in r.files
      ensures r.files[CandidatePath(c, id)] <= art(id)
    {
      assert CandidatePath(c, id) in s.files;
    }
  }

  /** Once the memory is gone, prefixes in the files are all that matters. */
  lemma RestartedGood(c: Config, art: Artifacts, s: State, g: TidyFaults)
    requires FilesArePrefixes(c, art, s.files)
    ensures Good(c, art, Restarted(s, g))
  {
    TidiedGood(c, art, Forgotten(s), g);
  }

  /** Whatever fails in it, even when it truncates under the offer at hand, Accept leaves only prefixes on disk. */
  lemma AcceptLeavesPrefixes(c: Config, art: Artifacts, s: State, o: Option<Offer>, f: AcceptFaults)
    requires Good(c, art, s)
    requires o.Some? ==> GenuineOffer(c, art, o.value)
    ensures FilesArePrefixes(c, art, AfterAccept(c, s, o, f).0.files)
  {
    if Refusal(c, o).None? && !f.mkdirFails {
      PreparedGood(c, art, s, o.value, f);
      PrefixReplaced(c, art, Prepared(s, o.value, CandidatePath(c, o.value.taskID), f).files, o.value.taskID, []);
      OfferTouchesOneFile(c, s, o.value, f);
    }
  }

  lemma OfferTouchesOneFile(c: Config, s: State, o: Offer, f: AcceptFaults)
    ensures var path, files := CandidatePath(c, o.taskID), AfterOffer(c, s, o, f).0.files;
      var prepared := Prepared(s, o, path, f).files;
      files == prepared || files == prepared[path := []]
  {
  }

  /** So a process that dies anywhere inside Accept loses nothing that matters: no hypothesis on where. */
  lemma DyingInAcceptKeepsGood(c: Config, art: Artifacts, s: State, o: Option<Offer>, f: AcceptFaults, g: TidyFaults)
    requires Good(c, art, s)
    requires o.Some? ==> GenuineOffer(c, art, o.value)
    ensures Good(c, art, Restarted(AfterAccept(c, s, o, f).0, g))
  {
    AcceptLeavesPrefixes(c, art, s, o, f);
    RestartedGood(c, art, AfterAccept(c, s, o, f).0, g);
  }

  /** No call of Accept that returns truncates under the offer at hand; calls in which the process dies may. */
  ghost predicate NeverTruncatedUnderTheOffer(c: Config, s: State, es: seq<Event>) {
    forall i :: 0 <= i < |es| ==>
      es[i].Offered? ==> !TruncatedUnderTheOffer(c, Run(c, s, es[..i]), es[i].offer, es[i].acceptFaults)
  }

  /**
   Over every run of genuine offers and chunks, with failures of any file operation, deaths inside any call, clean-ups
   and restarts, the first offset bytes of the candidate are those of the artifact, unless a call that returned
   truncated under the offer at hand.
   */
  lemma {:induction false} EveryRunHoldsThePrefix(c: Config, art: Artifacts, s: State, es: seq<Event>)
    requires Good(c, art, s)
    requires forall i :: 0 <= i < |es| ==> GenuineEvent(c, art, es[i])
    requires NeverTruncatedUnderTheOffer(c, s, es)
    ensures Good(c, art, Run(c, s, es)) && PrefixHeld(art, Run(c, s, es))
  {
    if es != [] {
      var before, e := es[..|es| - 1], es[|es| - 1];
      forall i | 0 <= i < |before|
        ensures before[i].Offered? ==>
          !TruncatedUnderTheOffer(c, Run(c, s, before[..i]), before[i].offer, before[i].acceptFaults)
      {
        assert before[..i] == es[..i];
      }
      EveryRunHoldsThePrefix(c, art, s, before);
      var m := Run(c, s, before);
      match e
      case Offered(o, f) => AcceptKeepsGoodIff(c, art, m, o, f);
      case DyingInAccept(o, f, g) => DyingInAcceptKeepsGood(c, art, m, o, f, g);
      case Arrived(ch, f) => ChunkKeepsGood(c, art, m, ch, f);
      case DyingInChunk(ch, f, g) =>
        ChunkKeepsGood(c, art, m, ch, f);
        RestartedGood(c, art, AfterChunk(c, m, ch, f).0, g);
      case Tidying(g) => TidiedGood(c, art, m, g);
      case Restarting(g) => RestartedGood(c, art, m, g);
      case _ =>
    }
    GoodHoldsThePrefix(c, art, Run(c, s, es));
  }

  /**
   It can happen: a chunk is stored, a reconnection cannot read download.json, and the sync after truncating fails. The
   receiver still stands at the old offset over an empty file, and the next chunk leaves a gap of zeros before it.
   */
  lemma PrefixCanBeLost(c: Config, art: Artifacts, o: Offer, first: Chunk, second: Chunk)
    requires Refusal(c, Some(o)).None? && GenuineOffer(c, art, o)
    requires IsNext(c, o, first, 0) && GenuineChunk(art, first)
    requires IsNext(c, o, second, |first.data|) && GenuineChunk(art, second)
    ensures var a := AfterAccept(c, INITIAL, Some(o), NO_ACCEPT_FAULT).0;
      var b := AfterChunk(c, a, Some(first), NO_CHUNK_FAULT).0;
      var f := NO_ACCEPT_FAULT.(stateUnreadable := true, syncFails := true);
      var d := AfterAccept(c, b, Some(o), f).0;
      var e := AfterChunk(c, d, Some(second), NO_CHUNK_FAULT).0;
      && Good(c, art, b) && b.offset == |first.data|
      && d.offset == |first.data| && d.files[d.candidate] == []
      && d.candidate in e.files && e.files[d.candidate] == seq(|first.data|, _ => 0) + second.data
  {
    var path := CandidatePath(c, o.taskID);
    var a := AfterAccept(c, INITIAL, Some(o), NO_ACCEPT_FAULT).0;
    AcceptsFresh(c, art, o);
    var b := AfterChunk(c, a, Some(first), NO_CHUNK_FAULT).0;
    NextIsTaken(c, a, o, first);
    ChunkKeepsGood(c, art, a, Some(first), NO_CHUNK_FAULT);
    var f := NO_ACCEPT_FAULT.(stateUnreadable := true, syncFails := true);
    var d := AfterAccept(c, b, Some(o), f).0;
    TruncatesUnread(c, b, o, f);
    NextIsTaken(c, d, o, second);
  }

  lemma AcceptsFresh(c: Config, art: Artifacts, o: Offer)
    requires Refusal(c, Some(o)).None? && GenuineOffer(c, art, o)
    ensures var a := AfterAccept(c, INITIAL, Some(o), NO_ACCEPT_FAULT).0;
      && a.offer == Some(o) && a.offset == 0 && a.candidate == CandidatePath(c, o.taskID)
      && a.candidate in a.files && a.files[a.candidate] == [] && Good(c, art, a)
  {
    AcceptKeepsGoodIff(c, art, INITIAL, Some(o), NO_ACCEPT_FAULT);
    assert Resumed(INITIAL, o, CandidatePath(c, o.taskID), NO_ACCEPT_FAULT) == 0;
  }

  lemma TruncatesUnread(c: Config, s: State, o: Offer, f: AcceptFaults)
    requires Refusal(c, Some(o)).None? && f == NO_ACCEPT_FAULT.(stateUnreadable := true, syncFails := true)
    ensures AfterAccept(c, s, Some(o), f).0 == Truncated(s, CandidatePath(c, o.taskID))
  {
    assert PrepareFails(s, o, CandidatePath(c, o.taskID), f);
  }

  /** The chunk a server sends next, short of the end. */
  predicate IsNext(c: Config, o: Offer, ch: Chunk, offset: nat) {
    ch.taskID == o.taskID && ch.offset == offset && 0 < |ch.data| <= o.chunkSize && offset + |ch.data| < o.size
    && c.sha(ch.data) == Lower(ch.sha256) && !ch.eof
  }

  lemma NextIsTaken(c: Config, s: State, o: Offer, ch: Chunk)
    requires s.offer == Some(o) && s.candidate in s.files && IsNext(c, o, ch, s.offset)
    ensures var r := AfterChunk(c, s, Some(ch), NO_CHUNK_FAULT).0;
      && r.offer == s.offer && r.candidate == s.candidate && r.offset == s.offset + |ch.data|
      && r.files == s.files[s.candidate := WrittenAt(s.files[s.candidate], s.offset, ch.data)]
  {
    assert Landed(ch.data, NO_CHUNK_FAULT) == ch.data;
  }

  // ---------------------------------------------------------------- a verifying report

  lemma OfferAtHandKept(c: Config, art: Artifacts, s: State, e: Event)
    requires OfferAtHand(c, art, s) && GenuineOffers(c, art, e)
    ensures OfferAtHand(c, art, After(c, s, e))
  {
    match e
    case Offered(o, f) =>
      if Refusal(c, o).None? && !f.mkdirFails {
        OfferKept(c, art, s, o.value, f);
      }
    case _ =>
  }

  lemma OfferKept(c: Config, art: Artifacts, s: State, o: Offer, f: AcceptFaults)
    requires OfferAtHand(c, art, s) && GenuineOffer(c, art, o) && o.size > 0
    ensures OfferAtHand(c, art, AfterOffer(c, s, o, f).0)
  {
    var path := CandidatePath(c, o.taskID);
    if !PrepareFails(s, o, path, f) {
      var t := Taken(s, o, path, f);
      assert t.offer == Some(o) && t.candidate == path && t.offset <= o.size;
      assert Rechecked(c, t, o, f).0.offer == t.offer && Rechecked(c, t, o, f).0.candidate == path;
    }
  }

  lemma {:induction false} OfferAtHandOverRuns(c: Config, art: Artifacts, s: State, es: seq<Event>)
    requires OfferAtHand(c, art, s)
    requires forall i :: 0 <= i < |es| ==> GenuineOffers(c, art, es[i])
    ensures OfferAtHand(c, art, Run(c, s, es))
  {
    if es != [] {
      OfferAtHandOverRuns(c, art, s, es[..|es| - 1]);
      OfferAtHandKept(c, art, Run(c, s, es[..|es| - 1]), es[|es| - 1]);
    }
  }

  /**
   Whatever chunks arrived and whatever failed before, a verifying report is only given when the candidate file is the
   whole artifact.
   */
  lemma VerifyingMeansWhole(c: Config, art: Artifacts, s: State, es: seq<Event>, e: Event)
    requires Injective(c.sha) && OfferAtHand(c, art, s)
    requires forall i :: 0 <= i < |es| ==> GenuineOffers(c, art, es[i])
    requires GenuineOffers(c, art, e)
    requires e.Offered? ==> AfterAccept(c, Run(c, s, es), e.offer, e.acceptFaults).1.Verifying?
    requires e.Arrived? ==> AfterChunk(c, Run(c, s, es), e.chunk, e.chunkFaults).1.Verifying?
    requires e.Offered? || e.Arrived?
    ensures var r := After(c, Run(c, s, es), e);
      && r.offer.Some? && r.candidate in r.files
      && r.files[r.candidate] == art(r.offer.value.taskID) && r.offset == r.offer.value.size
  {
    OfferAtHandOverRuns(c, art, s, es);
    OfferAtHandKept(c, art, Run(c, s, es), e);
    var m := Run(c, s, es);
    if e.Offered? {
      AcceptVerifies(c, m, e.offer, e.acceptFaults);
    } else {
      ChunkVerifies(c, m, e.chunk, e.chunkFaults);
    }
    DigestMeansWhole(c, art, After(c, m, e));
  }

  predicate DigestMatches(c: Config, s: State) {
    s.offer.Some? && IsWhole(c, s, s.candidate, s.offer.value.sha256) && s.offset == s.offer.value.size
  }

  lemma AcceptVerifies(c: Config, s: State, o: Option<Offer>, f: AcceptFaults)
    requires AfterAccept(c, s, o, f).1.Verifying?
    ensures DigestMatches(c, AfterAccept(c, s, o, f).0)
  {
  }

  lemma ChunkVerifies(c: Config, s: State, ch: Option<Chunk>, f: ChunkFaults)
    requires AfterChunk(c, s, ch, f).1.Verifying?
    ensures DigestMatches(c, AfterChunk(c, s, ch, f).0)
  {
  }

  lemma DigestMeansWhole(c: Config, art: Artifacts, s: State)
    requires Injective(c.sha) && OfferAtHand(c, art, s) && DigestMatches(c, s)
    ensures s.candidate in s.files && s.files[s.candidate] == art(s.offer.value.taskID)
  {
  }

  /**
   A report other than a failure means that the chunk is in the file where it belongs, nothing before it has changed,
   and download.json says how far the file reaches.
   */
  lemma PositiveReportIsStored(c: Config, s: State, ch: Option<Chunk>, f: ChunkFaults)
    requires s.offer.Some? ==> s.candidate in s.files && s.offset <= |s.files[s.candidate]|
    requires !AfterChunk(c, s, ch, f).1.Failed?
    ensures ch.Some? && s.offer.Some?
    ensures var (t, report) := AfterChunk(c, s, ch, f);
      var data, o := ch.value.data, s.offer.value;
      && report.offset == t.offset == s.offset + |data| <= o.size && data != []
      && t.candidate == s.candidate && t.candidate in t.files && t.offset <= |t.files[t.candidate]|
      && t.files[t.candidate][..s.offset] == s.files[s.candidate][..s.offset]
      && t.files[t.candidate][s.offset..t.offset] == data && c.sha(data) == Lower(ch.value.sha256)
      && t.download == Some(DownloadState(o.taskID, o.version, o.platform, o.size, o.sha256, t.candidate, t.offset))
  {
    var data, file := ch.value.data, s.files[s.candidate];
    assert ChunkRefusal(c, s, ch).None?;
    assert Landed(data, f) == data;
    var w := WrittenAt(file, s.offset, data);
    assert w[..s.offset] == file[..s.offset];
    assert w[s.offset..s.offset + |data|] == data;
  }

  /** From then on no chunk and no clean-up touches it: only another offer can. */
  lemma CompleteIsFrozen(c: Config, s: State, e: Event)
    requires s.offer.Some? && s.offset == s.offer.value.size && s.candidate != ""
    requires e.Arrived? || e.Tidying?
    ensures var r := After(c, s, e);
      && r.offer == s.offer && r.candidate == s.candidate && r.offset == s.offset && r.download == s.download
      && (s.candidate in s.files ==> s.candidate in r.files && r.files[s.candidate] == s.files[s.candidate])
    ensures e.Arrived? ==> AfterChunk(c, s, e.chunk, e.chunkFaults).1.Failed?
  {
  }

  // ---------------------------------------------------------------- resuming

  /** Reconnecting right after a chunk was stored resumes at the offset that was reported. */
  lemma ResumesWhereItStopped(c: Config, s: State, ch: Chunk)
    requires OfferFits(c, s)
    requires AfterChunk(c, s, Some(ch), NO_CHUNK_FAULT).1.Downloading?
    requires s.candidate in s.files && |s.files[s.candidate]| == s.offset
    ensures var t := AfterChunk(c, s, Some(ch), NO_CHUNK_FAULT).0;
      t.offset < t.offer.value.size ==>
        AfterAccept(c, t, s.offer, NO_ACCEPT_FAULT) == (t, Accepted(ch.taskID, s.offset + |ch.data|))
  {
    var t := AfterChunk(c, s, Some(ch), NO_CHUNK_FAULT).0;
    ChunkStored(c, s, ch);
    if t.offset < t.offer.value.size {
      StoredIsResumed(c, t, s.offer.value);
    }
  }

  lemma ChunkStored(c: Config, s: State, ch: Chunk)
    requires s.offer.Some? && s.candidate in s.files && |s.files[s.candidate]| == s.offset
    requires AfterChunk(c, s, Some(ch), NO_CHUNK_FAULT).1.Downloading?
    ensures var t := AfterChunk(c, s, Some(ch), NO_CHUNK_FAULT).0;
      && t.offer == s.offer && t.candidate == s.candidate && t.offset == s.offset + |ch.data| > 0
      && ch.taskID == s.offer.value.taskID
      && t.candidate in t.files && |t.files[t.candidate]| == t.offset && t == Stored(t, s.offer.value, Saved)
  {
    assert ChunkRefusal(c, s, Some(ch)).None?;
    var w := Written(s, ch.data, NO_CHUNK_FAULT);
    assert Landed(ch.data, NO_CHUNK_FAULT) == ch.data;
    assert |w.files[s.candidate]| == s.offset + |ch.data|;
  }

  lemma StoredIsResumed(c: Config, t: State, o: Offer)
    requires t.offer == Some(o) && Refusal(c, t.offer).None? && t.candidate == CandidatePath(c, o.taskID)
    requires t == Stored(t, o, Saved) && t.candidate in t.files && |t.files[t.candidate]| == t.offset
    requires 0 < t.offset < o.size
    ensures AfterAccept(c, t, Some(o), NO_ACCEPT_FAULT) == (t, Accepted(o.taskID, t.offset))
  {
    assert Resumed(t, o, t.candidate, NO_ACCEPT_FAULT) == t.offset;
    assert Taken(t, o, t.candidate, NO_ACCEPT_FAULT) == t;
  }

  predicate OfferFits(c: Config, s: State) {
    s.offer.Some? && Refusal(c, s.offer).None? && s.candidate == CandidatePath(c, s.offer.value.taskID)
  }

  /** download.json describes this offer, and the candidate file is as long as it says. */
  predicate Consistent(c: Config, s: State, o: Offer) {
    var path := CandidatePath(c, o.taskID);
    s.download.Some? && SameDownload(s.download.value, o, path) && path in s.files
    && |s.files[path]| == s.download.value.offset && 0 < s.download.value.offset <= o.size
  }

  /** How a new process goes on that is offered the same artifact again, when nothing else fails. */
  function Reoffered(c: Config, s: State, o: Offer, g: TidyFaults): (State, Report) {
    AfterAccept(c, Restarted(s, g), Some(o), NO_ACCEPT_FAULT)
  }

  /**
   A new process goes on where the old one stopped exactly when its clean-up spares the candidate, and otherwise starts
   over; a download that was complete is then verified again.
   */
  lemma RestartResumesIff(c: Config, s: State, o: Offer, g: TidyFaults)
    requires Refusal(c, Some(o)).None? && Consistent(c, s, o)
    ensures var (path, offset) := (CandidatePath(c, o.taskID), s.download.value.offset);
      var spared := Spared(Forgotten(s), path, g);
      && (offset < o.size ==> (spared <==> Reoffered(c, s, o, g).1 == Accepted(o.taskID, offset)))
      && (offset == o.size && c.sha(s.files[path]) == Lower(o.sha256) ==>
            (spared <==> Reoffered(c, s, o, g).1 == Verifying(o.taskID, offset)))
      && (!spared ==> Reoffered(c, s, o, g).1 == Accepted(o.taskID, 0) && Reoffered(c, s, o, g).0.files[path] == [])
  {
    var path, r := CandidatePath(c, o.taskID), Restarted(s, g);
    assert path in r.files <==> Spared(Forgotten(s), path, g);
    if path in r.files {
      assert Resumed(r, o, path, NO_ACCEPT_FAULT) == s.download.value.offset;
    } else {
      assert Resumed(r, o, path, NO_ACCEPT_FAULT) == 0;
    }
  }

  /** When the clean-up works: exactly when pending.json names the candidate and there is no result yet. */
  lemma RestartResumesIffProtected(c: Config, s: State, o: Offer)
    requires Refusal(c, Some(o)).None? && Consistent(c, s, o) && s.download.value.offset < o.size
    ensures Reoffered(c, s, o, NO_TIDY_FAULT).1 == Accepted(o.taskID, s.download.value.offset)
       <==> Protected(s, CandidatePath(c, o.taskID))
  {
    RestartResumesIff(c, s, o, NO_TIDY_FAULT);
  }

  /** A process that has handed over protects its candidate from its successors until the helper leaves a result. */
  lemma HandedOverIsProtected(c: Config, s: State, f: HandOverFaults, g: TidyFaults)
    requires AfterStartApply(s, f).1 && !f.cannotRemoveResult && s.candidate in s.files
    requires !g.pendingUnreadable && !g.resultUnknown
    ensures var r := Restarted(AfterStartApply(s, f).0, g);
      s.candidate in r.files && r.files[s.candidate] == s.files[s.candidate]
  {
    assert Protected(Forgotten(AfterStartApply(s, f).0), s.candidate);
  }

  // ---------------------------------------------------------------- the receiver

  class ClientReceiver {
    const config: Config
    var offer: Option<Offer>
    var candidate: string
    var offset: nat
    var files: map<string, Bytes>           // the update directory
    var download: Option<DownloadState>     // download.json
    var pending: Option<ApplyState>         // pending.json
    var result: Option<Status>              // last-result.json

    /** found: what a process that came before has left; its memory does not matter. */
    constructor (config: Config, found: State, g: TidyFaults)
      ensures View() == Restarted(found, g) && this.config == config
    {
      this.config := config;
      offer, candidate, offset := None, "", 0;
      files, download, pending, result := found.files, found.download, found.pending, found.result;
      new;
      CleanupStaleUpdateFiles(g);
    }

    ghost function View(): State
      reads this
    {
      State(offer, candidate, offset, files, download, pending, result)
    }

    method SaveDownloadState(outcome: Save) returns (ok: bool)
      requires offer.Some?
      modifies this`download
      ensures View() == Stored(old(View()), offer.value, outcome)
      ensures ok == outcome.Saved?
    {
      if outcome.NotSaved? {
        return false;
      }
      var o := offer.value;
      download := Some(DownloadState(o.taskID, o.version, o.platform, o.size, o.sha256, candidate, offset));
      return outcome.Saved?;
    }

    method Refuse(o: Option<Offer>) returns (r: Option<Reason>)
      ensures r == Refusal(config, o)
    {
      if !config.enabled {
        return Some(Disabled);
      }
      if o.None? || !IsTaskID(o.value.taskID) {
        return Some(InvalidTask);
      }
      if o.value.platform != config.platform {
        return Some(WrongPlatform);
      }
      var comparison, ok := Versions.CompareVersions(config.version, o.value.version);
      if !ok || comparison >= 0 {
        return Some(NotNewer);
      }
      if o.value.size <= 0 || o.value.size > MAX_ARTIFACT {
        return Some(InvalidSize);
      }
      if o.value.chunkSize == 0 || o.value.chunkSize > MAX_CHUNK {
        return Some(InvalidChunkSize);
      }
      if |o.value.sha256| != 64 {
        return Some(InvalidDigest);
      }
      if !config.verify(o.value) {
        return Some(BadSignature);
      }
      return None;
    }

    method Accept(o: Option<Offer>, f: AcceptFaults) returns (report: Report)
      modifies this
      ensures (View(), report) == AfterAccept(config, old(View()), o, f)
    {
      var refusal := Refuse(o);
      if refusal.Some? {
        return Failed(TaskOf(o), 0, refusal.value);
      }
      if f.mkdirFails {
        return Failed(o.value.taskID, 0, FileFailed);
      }
      report := AcceptOffer(o.value, f);
    }

    method AcceptOffer(o: Offer, f: AcceptFaults) returns (report: Report)
      modifies this
      ensures (View(), report) == AfterOffer(config, old(View()), o, f)
    {
      var path := CandidatePath(config, o.taskID);
      var resumed := 0;
      if !f.stateUnreadable && download.Some? && SameDownload(download.value, o, path) {
        if !f.statFails && path in files && |files[path]| == download.value.offset && download.value.offset <= o.size {
          resumed := download.value.offset;
        }
      }
      if resumed == 0 {
        if f.prepareFails {
          return Failed(o.taskID, 0, FileFailed);
        }
        files := files[path := []];
        if f.syncFails {
          return Failed(o.taskID, 0, FileFailed);
        }
      }
      offer, candidate, offset := Some(o), path, resumed;
      var saved := SaveDownloadState(f.save);
      if !saved {
        return Failed(o.taskID, 0, FileFailed);
      }
      if resumed == o.size {
        report := Recheck(o, f);
      } else {
        report := Accepted(o.taskID, resumed);
      }
    }

    method Recheck(o: Offer, f: AcceptFaults) returns (report: Report)
      requires offer == Some(o)
      modifies this
      ensures (View(), report) == Rechecked(config, old(View()), o, f)
    {
      if !f.digestUnreadable && candidate in files && config.sha(files[candidate]) == Lower(o.sha256) {
        return Verifying(o.taskID, offset);
      }
      if f.reopenFails {
        return Failed(o.taskID, 0, FileFailed);
      }
      files := files[candidate := []];
      if f.resyncFails {
        return Failed(o.taskID, 0, FileFailed);
      }
      offset := 0;
      var saved := SaveDownloadState(f.resave);
      if !saved {
        return Failed(o.taskID, 0, FileFailed);
      }
      return Accepted(o.taskID, 0);
    }

    method HandleChunk(ch: Option<Chunk>, f: ChunkFaults) returns (report: Report, ready: bool)
      modifies this
      ensures (View(), report) == AfterChunk(config, old(View()), ch, f)
      ensures ready == report.Verifying?
    {
      var refusal := RefuseChunk(ch);
      ready := false;
      if refusal.Some? {
        return Failed(TaskOf(offer), offset, refusal.value), false;
      }
      if f.openFails || candidate !in files {
        return Failed(TaskOf(offer), offset, FileFailed), false;
      }
      files := files[candidate := WrittenAt(files[candidate], offset, Landed(ch.value.data, f))];
      if f.stops.Some? || f.syncFails {
        return Failed(TaskOf(offer), offset, FileFailed), false;
      }
      offset := offset + |ch.value.data|;
      var saved := SaveDownloadState(f.save);
      if !saved {
        return Failed(TaskOf(offer), offset, FileFailed), false;
      }
      if !ch.value.eof {
        return Downloading(offer.value.taskID, offset), false;
      }
      report := FinishDownload(f);
      ready := report.Verifying?;
    }

    method RefuseChunk(ch: Option<Chunk>) returns (r: Option<Reason>)
      ensures r == ChunkRefusal(config, View(), ch)
    {
      if offer.None? || ch.None? || ch.value.taskID != offer.value.taskID {
        return Some(UnexpectedChunk);
      }
      if ch.value.offset != offset {
        return Some(UnexpectedOffset);
      }
      if |ch.value.data| == 0 || |ch.value.data| > offer.value.chunkSize {
        return Some(InvalidChunkLength);
      }
      if config.sha(ch.value.data) != Lower(ch.value.sha256) {
        return Some(BadChunkDigest);
      }
      if offset + |ch.value.data| > offer.value.size {
        return Some(ExceedsSize);
      }
      return None;
    }

    method FinishDownload(f: ChunkFaults) returns (report: Report)
      requires offer.Some? && f.save.Saved?
      ensures report == ChunkReport(config, View(), offer.value, true, f)
    {
      if offset != offer.value.size {
        return Failed(offer.value.taskID, offset, EndedEarly);
      }
      if f.digestUnreadable {
        return Failed(offer.value.taskID, offset, FileFailed);
      }
      if candidate !in files || config.sha(files[candidate]) != Lower(offer.value.sha256) {
        return Failed(offer.value.taskID, offset, BadArtifactDigest);
      }
      if f.chmodFails {
        return Failed(offer.value.taskID, offset, FileFailed);
      }
      return Verifying(offer.value.taskID, offset);
    }

    method StartApply(f: HandOverFaults) returns (started: bool)
      modifies this`pending, this`result
      ensures (View(), started) == AfterStartApply(old(View()), f)
    {
      if offer.None? || candidate == "" || offset != offer.value.size {
        return false;
      }
      var o := offer.value;
      if !f.cannotRemoveResult {
        result := None;
      }
      if !f.save.NotSaved? {
        pending := Some(ApplyState(o.taskID, candidate, o.sha256, o.version));
      }
      return f.save.Saved? && !f.startFails;
    }

    method AcknowledgeResult(taskID: string, cannotRemove: bool)
      modifies this`result
      ensures View() == Acknowledged(old(View()), taskID, cannotRemove)
    {
      if result.None? || result.value.taskID == "" || result.value.taskID != taskID || cannotRemove {
        return;
      }
      result := None;
    }

    /** The files may be visited in any order. */
    method CleanupStaleUpdateFiles(g: TidyFaults)
      modifies this`files
      ensures View() == Tidied(old(View()), g)
    {
      var protectPending := !g.pendingUnreadable && pending.Some? && !g.resultUnknown && result.None?;
      if g.listFails {
        assert files == Tidied(View(), g).files;
        return;
      }
      var left := files.Keys;
      while left != {}
        invariant left <= old(files).Keys
        invariant forall path :: path in files <==>
          path in old(files) && (path in left || Spared(old(View()), path, g))
        invariant forall path :: path in files ==> files[path] == old(files)[path]
        decreases left
      {
        var path :| path in left;
        left := left - {path};
        if offer.Some? && candidate != "" && path == candidate {
          continue;
        }
        if protectPending && path == pending.value.candidate {
          continue;
        }
        if path !in g.stuck {
          files := files - {path};
        }
      }
      assert files == Tidied(old(View()), g).files;
    }
  }
}
