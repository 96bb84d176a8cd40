/**
 A transfer between the two ends: the server's HandleStatus (internal/manager/upgrade_manager.go) answers every accepted
 or downloading report with the next chunk, and the client's HandleChunk (internal/upgrade/receiver.go) answers every
 chunk with the next report.
 */
module Transfer {
  import opened ByteStrings
  import opened UpgradeMessages
  import Client = Receiver
  import Server = UpgradeTasks

  /** Both ends, the client's report on its way to the server, and the chunk it answered. */
  datatype Link = Link(server: Server.State, client: Client.State, report: Client.Report, chunk: Option<Chunk>)

  /** The message a report travels as. */
  function Sent(r: Client.Report): Status {
    match r
    case Accepted(taskID, offset) => Status(taskID, "accepted", offset, "")
    case Downloading(taskID, offset) => Status(taskID, "downloading", offset, "")
    case Verifying(taskID, offset) => Status(taskID, "verifying", offset, "")
    case Failed(taskID, offset, _) => Status(taskID, "failed", offset, "failed")
  }

  /** The server reads one report; if it answers with a chunk, the client takes it. */
  function Round(c: Client.Config, p: Server.Player, x: Link, at: int): Link {
    var (server, answer) := Server.AfterStatus(x.server, p, Some(Sent(x.report)), at, false, c.sha);
    if answer.Send? then
      var (client, report) := Client.AfterChunk(c, x.client, Some(answer.chunk), Client.NO_CHUNK_FAULT);
      Link(server, client, report, Some(answer.chunk))
    else Link(server, x.client, x.report, None)
  }

  /** n rounds of the same kind, the i-th at clock(i). */
  function Rounds(step: (Link, int) -> Link, x: Link, clock: nat -> int, n: nat): Link {
    if n == 0 then x else step(Rounds(step, x, clock, n - 1), clock(n - 1))
  }

  // ---------------------------------------------------------------- the two ends in step

  ghost predicate ServerServes(s: Server.State, p: Server.Player, o: Offer, data: Bytes, sha: Digest) {
    Server.FilesMatch(s, sha) && Server.Active(s, p) && s.tasks[p].offer == o
    && s.tasks[p].path in s.files && s.files[s.tasks[p].path] == data
  }

  predicate InTime(s: Server.State, p: Server.Player, at: int) {
    p in s.tasks && !Server.Expired(s.tasks[p], at)
  }

  predicate ClientHolds(r: Client.State, o: Offer, data: Bytes, offset: nat) {
    r.offer == Some(o) && r.offset == offset && r.candidate in r.files
    && offset <= |r.files[r.candidate]| && r.files[r.candidate] <= data
  }

  /** The client stands at this offset, short of the end, and has reported it. */
  ghost predicate InStep(p: Server.Player, x: Link, o: Offer, data: Bytes, offset: nat, sha: Digest) {
    && ServerServes(x.server, p, o, data, sha)
    && ClientHolds(x.client, o, data, offset) && offset < |data|
    && (x.report == Client.Accepted(o.taskID, offset) || x.report == Client.Downloading(o.taskID, offset))
  }

  /** The client holds the whole artifact and has said so. */
  predicate Complete(x: Link, o: Offer, data: Bytes) {
    x.client.offer == Some(o) && x.client.candidate in x.client.files && x.client.files[x.client.candidate] == data
    && x.report == Client.Verifying(o.taskID, |data|)
  }

  /** Where the chunk after this offset ends. */
  function Next(offset: nat, size: nat): (end: nat)
    requires offset < size
    ensures offset < end <= size
  {
    if offset + Server.CHUNK > size then size else offset + Server.CHUNK
  }

  function ChunkAt(o: Offer, data: Bytes, offset: nat, sha: Digest): Chunk
    requires offset < |data|
  {
    var piece := data[offset..Next(offset, |data|)];
    Chunk(o.taskID, offset, piece, sha(piece), Next(offset, |data|) == |data|)
  }

  lemma ServerSends(s: Server.State, p: Server.Player, r: Status, o: Offer, data: Bytes, at: int, sha: Digest)
    requires ServerServes(s, p, o, data, sha) && InTime(s, p, at) && Server.Describes(o, data, sha)
    requires r.taskID == o.taskID && (r.state == "accepted" || r.state == "downloading") && 0 <= r.offset < |data|
    ensures var (q, answer) := Server.AfterStatus(s, p, Some(r), at, false, sha);
      && answer == Server.Send(ChunkAt(o, data, r.offset, sha))
      && ServerServes(q, p, o, data, sha) && q.tasks[p] == Server.Noted(s.tasks[p], r, at)
  {
    Server.PruneKeepsFilesMatch(s, at, sha);
    Server.OthersServeElsewhere(s, p, sha);
    StaysThroughExpiry(s, p, at);
    ServesAfterExpiry(Server.Pruned(s, at), p, r, o, data, at, sha);
    Server.StatusKeepsFilesMatchIff(s, p, Some(r), at, false, sha);
  }

  lemma StaysThroughExpiry(s: Server.State, p: Server.Player, at: int)
    requires InTime(s, p, at) && s.tasks[p].path in s.files
    requires forall q :: q in s.tasks && q != p ==> s.tasks[q].path != s.tasks[p].path
    ensures var q := Server.Pruned(s, at);
      && p in q.tasks && q.tasks[p] == s.tasks[p]
      && s.tasks[p].path in q.files && q.files[s.tasks[p].path] == s.files[s.tasks[p].path]
  {
  }

  lemma ServesAfterExpiry(q: Server.State, p: Server.Player, r: Status, o: Offer, data: Bytes, at: int, sha: Digest)
    requires ServerServes(q, p, o, data, sha) && Server.Describes(o, data, sha)
    requires (r.state == "accepted" || r.state == "downloading") && 0 <= r.offset < |data| && r.taskID == o.taskID
    ensures var (t, answer) := Server.Reported(q, p, r, at, false, sha);
      && answer == Server.Send(ChunkAt(o, data, r.offset, sha)) && t.files == q.files
      && p in t.tasks && t.tasks[p] == Server.Noted(q.tasks[p], r, at)
  {
    assert q.tasks[p].path != "";
    var n := q.(tasks := q.tasks[p := Server.Noted(q.tasks[p], r, at)]);
    assert Server.ChunkEnd(n.tasks[p], r.offset) == Next(r.offset, |data|);
    assert Server.Reported(q, p, r, at, false, sha) == Server.Served(n, p, r, at, false, sha);
  }

  lemma ClientTakes(c: Client.Config, r: Client.State, o: Offer, data: Bytes, offset: nat)
    requires LowerCaseDigests(c.sha) && Server.Describes(o, data, c.sha)
    requires ClientHolds(r, o, data, offset) && offset < |data|
    ensures var (t, report) := Client.AfterChunk(c, r, Some(ChunkAt(o, data, offset, c.sha)), Client.NO_CHUNK_FAULT);
      var end := Next(offset, |data|);
      && ClientHolds(t, o, data, end)
      && report == if end == |data| then Client.Verifying(o.taskID, end) else Client.Downloading(o.taskID, end)
  {
    var ch, end := ChunkAt(o, data, offset, c.sha), Next(offset, |data|);
    assert Client.Landed(ch.data, Client.NO_CHUNK_FAULT) == ch.data;
    assert |ch.data| == end - offset;
    Client.WrittenIsPrefix(r.files[r.candidate], data, offset, ch.data);
    var w := Client.Written(r, ch.data, Client.NO_CHUNK_FAULT);
    assert w.files[r.candidate] <= data && end <= |w.files[r.candidate]|;
    if end == |data| {
      assert w.files[r.candidate] == data;
    }
  }

  /** The report the client has sent says something the server does not know yet. */
  predicate IsNews(p: Server.Player, x: Link) {
    !Server.Settled(x.server, p, Sent(x.report))
  }

  /** What one round does, at any offset. */
  ghost predicate Advances(step: (Link, int) -> Link, p: Server.Player, o: Offer, data: Bytes, sha: Digest) {
    forall x: Link, offset: nat, at: int {:trigger step(x, at), InStep(p, x, o, data, offset, sha)} ::
      InStep(p, x, o, data, offset, sha) && InTime(x.server, p, at) ==>
        Advanced(p, x, step(x, at), o, data, offset, at, sha)
  }

  /** The round renews the deadline if the report was news, and the next report is news in any case. */
  ghost predicate Advanced(p: Server.Player, x: Link, y: Link, o: Offer, data: Bytes, offset: nat, at: int, sha: Digest)
    requires offset < |data| && p in x.server.tasks
  {
    var end := Next(offset, |data|);
    && y.chunk == Some(ChunkAt(o, data, offset, sha)) && ServerServes(y.server, p, o, data, sha)
    && y.server.tasks[p].updated == (if IsNews(p, x) then at else x.server.tasks[p].updated)
    && Server.Ttl(y.server.tasks[p].state) == Server.TASK_TTL
    && if end == |data| then Complete(y, o, data) else InStep(p, y, o, data, end, sha) && IsNews(p, y)
  }

  lemma RoundAdvances(c: Client.Config, p: Server.Player, x: Link, o: Offer, data: Bytes, offset: nat, at: int)
    requires LowerCaseDigests(c.sha) && Server.Describes(o, data, c.sha)
    requires InStep(p, x, o, data, offset, c.sha) && InTime(x.server, p, at)
    ensures Advanced(p, x, Round(c, p, x, at), o, data, offset, at, c.sha)
  {
    ServerSends(x.server, p, Sent(x.report), o, data, at, c.sha);
    ClientTakes(c, x.client, o, data, offset);
    var (t, report) := Client.AfterChunk(c, x.client, Some(ChunkAt(o, data, offset, c.sha)), Client.NO_CHUNK_FAULT);
    if Next(offset, |data|) == |data| {
      assert t.files[t.candidate] == data;
    }
  }

  /** The chunks still to come. */
  function Needed(offset: nat, size: nat): nat
    requires offset <= size
  {
    (size - offset + Server.CHUNK - 1) / Server.CHUNK
  }

  lemma NeededAfter(offset: nat, size: nat)
    requires offset < size
    ensures Needed(offset, size) == 1 + Needed(Next(offset, size), size)
    ensures Next(offset, size) == size <==> Needed(offset, size) == 1
  {
  }

  /** The offset the client stands at after some rounds. */
  function OffsetAfter(offset: nat, size: nat, n: nat): (end: nat)
    requires offset <= size
    ensures offset <= end <= size
  {
    if n == 0 then offset
    else
      var before := OffsetAfter(offset, size, n - 1);
      if before == size then size else Next(before, size)
  }

  lemma {:induction false} OffsetsCount(offset: nat, size: nat, n: nat)
    requires offset < size && n <= Needed(offset, size)
    ensures Needed(OffsetAfter(offset, size, n), size) == Needed(offset, size) - n
    ensures n < Needed(offset, size) <==> OffsetAfter(offset, size, n) < size
  {
    if n != 0 {
      OffsetsCount(offset, size, n - 1);
      NeededAfter(OffsetAfter(offset, size, n - 1), size);
    }
  }

  /** When the server last renewed the deadline before the i-th round, as the start and the clock tell. */
  function RenewedBefore(p: Server.Player, x: Link, clock: nat -> int, i: nat): int
    requires p in x.server.tasks
  {
    if i == 0 || (i == 1 && !IsNews(p, x)) then x.server.tasks[p].updated else clock(i - 1)
  }

  /** The first round comes before the deadline, and every other within 45 minutes of the renewal before it. */
  ghost predicate OnTime(p: Server.Player, x: Link, clock: nat -> int, n: nat) {
    p in x.server.tasks
    && forall i: nat :: i < n ==>
         clock(i) - RenewedBefore(p, x, clock, i)
         < if i == 0 then Server.Ttl(x.server.tasks[p].state) else Server.TASK_TTL
  }

  lemma {:induction false} RoundsAdvance(step: (Link, int) -> Link, p: Server.Player, x: Link, o: Offer, data: Bytes,
      offset: nat, clock: nat -> int, n: nat, sha: Digest)
    requires Advances(step, p, o, data, sha) && InStep(p, x, o, data, offset, sha)
    requires n <= Needed(offset, |data|) && OnTime(p, x, clock, n)
    ensures var y, end := Rounds(step, x, clock, n), OffsetAfter(offset, |data|, n);
      && (if n == Needed(offset, |data|) then Complete(y, o, data) else InStep(p, y, o, data, end, sha))
      && (0 < n < Needed(offset, |data|) ==> IsNews(p, y) && Server.Ttl(y.server.tasks[p].state) == Server.TASK_TTL)
      && (n < Needed(offset, |data|) ==> y.server.tasks[p].updated == RenewedBefore(p, x, clock, n))
    ensures n > 0 ==>
      var before := OffsetAfter(offset, |data|, n - 1);
      before < |data| && Rounds(step, x, clock, n).chunk == Some(ChunkAt(o, data, before, sha))
  {
    OffsetsCount(offset, |data|, n);
    if n != 0 {
      OffsetsCount(offset, |data|, n - 1);
      RoundsAdvance(step, p, x, o, data, offset, clock, n - 1, sha);
      var y, before := Rounds(step, x, clock, n - 1), OffsetAfter(offset, |data|, n - 1);
      assert InStep(p, y, o, data, before, sha);
      assert clock(n - 1) - RenewedBefore(p, x, clock, n - 1) < Server.Ttl(y.server.tasks[p].state);
      assert Advanced(p, y, step(y, clock(n - 1)), o, data, before, clock(n - 1), sha);
      NeededAfter(before, |data|);
    }
  }

  /** What the i-th round of a transfer shows. */
  predicate OneRound(before: Link, after: Link, o: Offer, end: nat, last: bool) {
    && !before.report.Verifying?
    && after.chunk.Some? && 0 < |after.chunk.value.data| <= o.chunkSize
    && (after.chunk.value.eof <==> last)
    && before.client.offset + |after.chunk.value.data| == end
  }

  lemma RoundsTakeExactly(step: (Link, int) -> Link, p: Server.Player, x: Link, o: Offer, data: Bytes, offset: nat,
      clock: nat -> int, i: nat, sha: Digest)
    requires Advances(step, p, o, data, sha) && InStep(p, x, o, data, offset, sha) && Server.Describes(o, data, sha)
    requires i < Needed(offset, |data|) && OnTime(p, x, clock, Needed(offset, |data|))
    ensures OneRound(Rounds(step, x, clock, i), Rounds(step, x, clock, i + 1), o, OffsetAfter(offset, |data|, i + 1),
                     i + 1 == Needed(offset, |data|))
  {
    RoundsAdvance(step, p, x, o, data, offset, clock, i, sha);
    RoundsAdvance(step, p, x, o, data, offset, clock, i + 1, sha);
    OffsetsCount(offset, |data|, i);
    var before := OffsetAfter(offset, |data|, i);
    NeededAfter(before, |data|);
    ShowsOneRound(p, Rounds(step, x, clock, i), Rounds(step, x, clock, i + 1), o, data, before, sha);
  }

  lemma ShowsOneRound(p: Server.Player, x: Link, y: Link, o: Offer, data: Bytes, offset: nat, sha: Digest)
    requires InStep(p, x, o, data, offset, sha) && y.chunk == Some(ChunkAt(o, data, offset, sha))
    requires Server.Describes(o, data, sha)
    ensures OneRound(x, y, o, Next(offset, |data|), Next(offset, |data|) == |data|)
  {
  }

  /**
   From an accepted offset short of the end, with a clock on which no round comes too late, the transfer is complete
   after exactly as many rounds as the remaining bytes fill chunks, and not before. Every chunk is non-empty and within
   the chunk size, only the last says it is the last, and each moves the client on by its length.
   */
  lemma TransferTakesExactly(c: Client.Config, p: Server.Player, x: Link, o: Offer, data: Bytes, offset: nat,
      clock: nat -> int)
    requires LowerCaseDigests(c.sha) && Server.Describes(o, data, c.sha) && InStep(p, x, o, data, offset, c.sha)
    requires OnTime(p, x, clock, Needed(offset, |data|))
    ensures var step := (y, at) => Round(c, p, y, at);
      var n := Needed(offset, |data|);
      && Complete(Rounds(step, x, clock, n), o, data)
      && forall i: nat :: i < n ==>
           var end := OffsetAfter(offset, |data|, i + 1);
           OneRound(Rounds(step, x, clock, i), Rounds(step, x, clock, i + 1), o, end, i + 1 == n)
  {
    var step := (y, at) => Round(c, p, y, at);
    forall y: Link, k: nat, at: int {:trigger step(y, at), InStep(p, y, o, data, k, c.sha)}
      | InStep(p, y, o, data, k, c.sha) && InTime(y.server, p, at)
      ensures Advanced(p, y, step(y, at), o, data, k, at, c.sha)
    {
      RoundAdvances(c, p, y, o, data, k, at);
    }
    var n := Needed(offset, |data|);
    RoundsAdvance(step, p, x, o, data, offset, clock, n, c.sha);
    forall i: nat | i < n
      ensures OneRound(Rounds(step, x, clock, i), Rounds(step, x, clock, i + 1), o, OffsetAfter(offset, |data|, i + 1),
                       i + 1 == n)
    {
      RoundsTakeExactly(step, p, x, o, data, offset, clock, i, c.sha);
    }
  }
}
