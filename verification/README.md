# Verified models of gpipe

gpipe tunnels TCP and UDP connections between players through a control server, and upgrades its clients over the same
control connection. This project models the parts of it whose correctness is a matter of every run rather than of one
call, and proves what they keep:

* **Upgrade.** The server's task table (`UpgradeTasks`), the client's resumable download (`Receiver`), the two of them
  talking (`Transfer`), the helper that switches binaries (`Apply`), the way from an offer to the running binary
  (`Upgrade`), and the version order that decides whether an upgrade is offered (`Versions`).
* **Proxy sessions.** The flow-control window across both ends (`Flow`), both directions of a session keeping each other
  waiting (`Duplex`), connect attempts and sessions of the outlet (`Outlet`), slots and indexes of the inlet (`Inlet`),
  and keeping inlets and outlets in step with the tunnel table, call by call (`TunnelSync`, over the descriptions of
  `TunnelModel` and `CustomMapping`) and with calls that overlap (`TunnelSteps`, `TunnelReports`).
* **Stream parsers.** `Incremental` proves once that a parser whose steps are stable gives the same result however its
  input is cut. The control frames (`Frame`), the Shadowsocks AEAD stream (`Shadowsocks`) and the SOCKS5 handshake
  (`Socks5`) are such parsers.
* **Codecs.** The hand-written protobuf coding of a tunnel (`TunnelWire`) and the LZ4 block with its literal fallback
  under the session encryption (`Lz4`).

`ByteStrings`, `GoStrings` and `UpgradeMessages` hold what several of these share.

Where the source changes state step by step there is a class with the source's fields, and each method is proved equal to
a function of the old state; the theorems are about that function and runs of it. Each lock-held region is one step.
Failures of files, services and the network, arrivals, clock readings and random numbers are inputs of the steps. A crash
between two disk steps is modelled by the states in between: a receiver that dies inside a call leaves what a failure of
the next step leaves, less its memory, and the helper records every state its disk goes through.

Verify with `dafny verify dfyconfig.toml`.

## Where the code does not do what it promises

Each of these is a theorem: the exact condition under which the code does what is promised, where there is one, and a run
in which it does not.

* A receiver that truncates the file of the offer it already holds, and then fails to sync it, returns before it resets
  its offset: the downloaded prefix is lost (`Receiver.AcceptKeepsGoodIff`, `Receiver.PrefixCanBeLost`). If the process
  dies there instead, nothing is lost (`Receiver.DyingInAcceptKeepsGood`), and a verifying report is only ever given for
  the whole artifact.
* A new client process tidies its directory first, so it resumes a download exactly when pending.json names the candidate
  and there is no last-result.json; otherwise it starts over (`Receiver.RestartResumesIff`,
  `Receiver.RestartResumesIffProtected`).
* A report with state "succeeded" ends a task without removing its file (`UpgradeTasks.StatusKeepsFilesMatchIff`,
  `UpgradeTasks.SucceededReportLeaks`). The client code never sends it.
* A replayed report does not renew a deadline, as the comment at internal/manager/upgrade_manager.go:123 intends, and a
  report renews it exactly when it says something new (`UpgradeTasks.RenewsUnlessSettled`). But a client whose download
  is complete sends two reports on every reconnection, verifying and applying, and the pair is always news. The upgrade
  stays on offer exactly as long as each reconnection comes in time for the one before
  (`UpgradeTasks.ReconnectingIsOfferedIff`), which may be for good (`UpgradeTasks.ReconnectingIsOfferedForever`).
* A rollback of the helper brings back the binary its run began with (`Apply.RollbackRestoresTheOldIff`). A helper that
  crashed after removing the backup and before removing its state file, and is run again, therefore backs up and may
  restore the new binary (`Apply.RerunRollsBackToTheNew`); nothing in the source runs it again by itself, only
  `apply-update --state` by hand does (cmd/client/main.go:123-133). A nil return also means a mere hand-off to another
  process (`Apply.NilMeansHealthy`).
* Calls of the tunnel manager overlap, and a report of one may overtake a report of another: a deleted outlet can be
  reported as running for good (`TunnelSteps.DeletedOutletReportedRunning`). The last report is
  wrong exactly when the component was installed or taken out an odd number of times after the region it speaks of, by
  regions whose reports came before it (or an even number, if it is the report of a start that found its place taken:
  `TunnelReports.LastReportWrongIff`). It is always right when no call begins while another about the same tunnel is
  under way (`TunnelSteps.ApartCallsReportTrue`).
* An outlet keeps answering to the receiver its tunnel had when it was started (`TunnelSync.RepliesReachTheReceiverIff`,
  `TunnelSync.StaleReceiver`).
* Descriptions do not tell all tunnels apart. They tell everything but where source and endpoint, username and password,
  and the entries of the mapping are divided, if these pairs and the encryption method do not contain the label that
  follows them (`TunnelModel.InletDescriptionDetermines`; a label alone does no harm there, but an endpoint with all
  labels up to the username has a double, `TunnelModel.EndpointsCollide`). Such a tunnel has a double of its kind exactly
  when an address contains "-endpoint:", a credential contains "-password:", or its mapping has several entries or a
  colon within its only one (`TunnelModel.HasDoubleIff`, `CustomMapping.HasDoubleIff`). An update to a double leaves the
  old inlet running (`TunnelModel.UsernamesCollide`, `TunnelSync.CollidingUpdateKeepsTheInlet`).
* The inlet waits for window space with the session's mutex in its hand. If the target does not read while it is kept
  waiting with what it sends, a session gets stuck exactly when both windows are full, both readers wait and all that
  was sent found room in the queues (`Duplex.StuckIff`, `Duplex.PoliteSessionGetsStuck`), although the peer reads all the
  time.
* After Stop an inlet may still take a slot, for a goroutine that had looked at the stop signal before
  (`Inlet.LookerTakesASlotAfterStop`); it gives the slot back, and nothing but such goroutines takes one
  (`Inlet.AfterStopOnlyRunsOut`).
* An outlet reader removes a session by id alone, so with a reused id it removes the next session
  (`Outlet.ReaderDetachesAnotherIff`, `Outlet.ReusedIdOrphansTheNewSession`).
* Numeric prerelease identifiers that differ only in leading zeros each come after the other
  (`Versions.AntisymmetricIff`, `Versions.LeadingZeroBreaksTheOrder`).
* Credentials of fewer than two bytes together are not answered until more bytes arrive
  (`Socks5.CredentialsAnsweredAtOnceIff`).
* Compressed payloads above 8 MiB are encoded but cannot be decoded (`Lz4.RoundTripIff`, `Lz4.SessionDecodesIff`).

## Model

| member | source | states |
|---|---|---|
| `Incremental.AnyCutting` | internal/client/client.go:372-386 | a loop that appends what it reads and steps while a step is possible ends in the same state, buffer and output for any two cuttings of a stream, if its step is stable |
| `Incremental.DrainSplit` | internal/client/client.go:372-386 | stepping over a prefix first and over the rest afterwards is stepping over all of it |
| `Frame.Encode` | internal/codec/frame.go:12-29 | the buffer filled in place holds magic, length, serial, id and payload of the message |
| `Frame.ExtractFirst` | internal/codec/frame.go:31-49 | the frame of a message is taken off any stream that starts with it, and what follows is left as it is |
| `Frame.DecodeBody` | internal/codec/frame.go:51-62 | decoding gives back serial, id and payload, for negative serials too |
| `Frame.DecodesIff` | internal/codec/frame.go:51-62 | a frame decodes to a message exactly when it is its body, and is an error exactly when it is too short |
| `Frame.ExtractionDecides` | internal/codec/frame.go:31-49 | a buffer gives a frame exactly when it starts with one of acceptable length; a foreign first byte and a bad length are the two errors |
| `Frame.FrameStepStable` | internal/codec/frame.go:31-49 | bytes that arrive later never change what an extraction or an error already decided |
| `Frame.FrameReader.OnRead` | internal/client/client.go:371-386 | one read hands over every complete frame, keeps the rest, and reports an error exactly where extraction does |
| `Frame.FrameReader.ReadLoop` | internal/client/client.go:355-388 | the loop over reads is the incremental parser over their concatenation |
| `Frame.EveryCuttingYieldsTheMessages` | internal/codec/frame.go:12-62 | any list of messages below the size limit, however cut into reads, comes out as that list with nothing left over |
| `Frame.FramesAreUniquelyDecodable` | internal/codec/frame.go:12-62 | two lists of messages with the same bytes are the same list |
| `Shadowsocks.IncrementedCounts` | internal/proxy/shadowsocks.go:285-292 | incrementing a nonce adds one to it as a little-endian number, modulo its width |
| `Shadowsocks.IncrementNonce` | internal/proxy/shadowsocks.go:285-292 | the array is incremented in place, carries included |
| `Shadowsocks.NoncesNeverRepeat` | internal/proxy/shadowsocks.go:285-292 | no nonce repeats within the range of the counter |
| `Shadowsocks.ReaderStepStable` | internal/proxy/shadowsocks.go:68-121 | later bytes never change what the reader has decided |
| `Shadowsocks.StreamReader.Feed` | internal/proxy/shadowsocks.go:68-121 | one call returns the chunks that are complete and keeps the reader's place; on an error the chunks opened in that call are dropped |
| `Shadowsocks.StreamReader.OpenChunks` | internal/proxy/shadowsocks.go:83-119 | the loop opens sizes and payloads in turn until bytes run out or a block does not open |
| `Shadowsocks.StreamReader.FeedStream` | internal/proxy/context_shadowsocks.go:72-83 | one call for every read is the parser over all reads, up to the first that fails |
| `Shadowsocks.Chunks` | internal/proxy/shadowsocks.go:163-170 | a payload is divided into non-empty chunks within the limit whose concatenation it is |
| `Shadowsocks.StreamWriter.SealData` | internal/proxy/shadowsocks.go:149-176 | the salt once, then every chunk as two sealed blocks under consecutive nonces |
| `Shadowsocks.WriterNonce` | internal/proxy/shadowsocks.go:149-176 | after any list of payloads the writer's nonce has counted two blocks for each chunk |
| `Shadowsocks.WireIsSealedChunks` | internal/proxy/shadowsocks.go:149-176 | the bytes of all calls together are the salt and the sealed chunks of all payloads in order |
| `Shadowsocks.EveryCuttingOpensTheSealedChunks` | internal/proxy/shadowsocks.go:68-176 | for any payloads and any cutting of their bytes the reader returns exactly the sealed chunks in order, their concatenation is the data, and both nonces stand at the same count |
| `Socks5.ReadsAddrBytes` | internal/proxy/target_addr.go:50-84 | an address written in RFC 1928 form is read back with its length, whatever follows it |
| `Socks5.GreetingDecides` | internal/proxy/context_socks5.go:174-214 | with a user name or a password configured the method is 2, else 0, and a peer that does not offer it gets 255 and is closed |
| `Socks5.CredentialsDecide` | internal/proxy/context_socks5.go:216-247 | the configured user name and password get 01 00 and pass, any others get 01 01 and are closed |
| `Socks5.OnlyTheIntroducedAsk` | internal/proxy/context_socks5.go:63-300 | over every run, with credentials configured, nothing is asked of the outlet unless the peer has sent a greeting and then exactly those credentials |
| `Socks5.TurnedDown` | internal/proxy/context_socks5.go:180-300 | another version, a set reserved byte and an unknown address type end the handshake, each with its reply |
| `Socks5.HandshakeStepStable` | internal/proxy/context_socks5.go:146-300 | later bytes never change what a handshake step has decided |
| `Socks5.Socks5Context.OnInit` | internal/proxy/context_socks5.go:174-214 | the method selection is one step of the handshake parser |
| `Socks5.Socks5Context.OnVerify` | internal/proxy/context_socks5.go:216-247 | so is the check of the credentials |
| `Socks5.Socks5Context.OnConnect` | internal/proxy/context_socks5.go:249-300 | so is the request, CONNECT and UDP ASSOCIATE alike |
| `Socks5.Socks5Context.ProcessBufferedHandshake` | internal/proxy/context_socks5.go:146-168 | the loop runs the parser until it waits or ends, and terminates by phase and buffer length |
| `Socks5.Socks5Context.OnPeerData` | internal/proxy/context_socks5.go:63-84 | one read in any phase, the 512 KiB limit included |
| `Socks5.Socks5Context.OnConnectReply` | internal/proxy/context_socks5.go:302-323 | the outlet's answer is passed on and the bytes that waited for it go upstream first |
| `Socks5.Socks5Context.OnUdpAssociatePayload` | internal/proxy/context_socks5.go:337-361 | a datagram is unwrapped or dropped by its header |
| `Socks5.DrainHandshake` | internal/proxy/context_socks5.go:146-300 | a well-formed stream leads to the replies, the one request to the outlet, and the bytes after it kept |
| `Socks5.EveryCuttingAnswered` | internal/proxy/context_socks5.go:63-323 | for CONNECT and UDP ASSOCIATE alike, any cutting leads to the one request, and each answer of the outlet to its reply and phase |
| `Socks5.DatagramUnwrappedIff` | internal/proxy/context_socks5.go:337-361 | a wrapped datagram goes to its target with its payload, if and only if it has eleven bytes |
| `Socks5.CuttingNeverMatters` | internal/proxy/context_socks5.go:63-168 | under the limit no cutting of what arrives before the answer, well-formed or not, makes a difference |
| `Socks5.EveryCuttingConnects` | internal/proxy/context_socks5.go:63-168 | for any cutting and any moment of the answer the peer is told the same, the outlet is asked the same, and upstream gets the bytes after the request, once and in order |
| `Socks5.CredentialsAnsweredAtOnceIff` | internal/proxy/context_socks5.go:216-247 | credentials are answered at once if and only if they have at least two bytes together |
| `Lz4.AppendLZ4LiteralBlock` | internal/proxy/crypto.go:139-154 | the loop appends the token, the extension bytes and the literals |
| `Lz4.LiteralBlockDecodes` | internal/proxy/crypto.go:139-154 | the literal block decodes to its input under the LZ4 block format, whatever the length |
| `Lz4.CompressData` | internal/proxy/crypto.go:75-100 | prefix and block for each of the three outcomes of the library |
| `Lz4.SequenceStep` | internal/proxy/crypto.go:102-137 | the format as the library is assumed to read it: literals, an offset within what is there, the repeated bytes, then the next sequence |
| `Lz4.RoundTripIff` | internal/proxy/crypto.go:75-154 | decompression undoes compression exactly up to 8 MiB, and its first attempt then already succeeds |
| `Lz4.DecompressedIs` | internal/proxy/crypto.go:102-137 | what decompression gives has the announced length, at most 8 MiB, and is the block's content or the payload as it came |
| `Lz4.XorData` | internal/proxy/crypto.go:184-198 | the buffer is combined with the repeated key in place |
| `Lz4.XoredTwice` | internal/proxy/crypto.go:184-198 | twice is the identity |
| `Lz4.DecryptsEncrypted` | internal/proxy/crypto.go:157-182 | decryption undoes encryption for every method |
| `Lz4.XoredBit` | internal/proxy/crypto.go:184-198 | a bit is turned over exactly where the repeated key has one |
| `Lz4.OpensIff` | internal/proxy/crypto.go:157-182 | sealed data opens exactly when it is nonce, true length and a text the cipher accepts |
| `Lz4.SessionDecodesIff` | internal/proxy/common.go:132-182 | what one end encodes the other decodes, if and only if it is not a compressed payload above 8 MiB |
| `Versions.Parsed` | internal/upgrade/security.go:119-134 | a version is read as three numbers below 2^64 and a prerelease, or not at all |
| `Versions.ParseVersion` | internal/upgrade/security.go:119-134 | the loop over the three groups reads exactly that |
| `Versions.ReadsEverySpelling` | internal/upgrade/security.go:17-134 | every spelling of a version, with prefix, prerelease and build metadata, is read as what it says |
| `Versions.ParsedIff` | internal/upgrade/security.go:17-134 | a text is read as a version exactly when it is a spelling of it, perhaps with white space around |
| `Versions.ReadsDecimal` | internal/upgrade/security.go:86-134 | a number written in decimal is read back, if it has 64 bits, and else refused |
| `Versions.SplitsAtDots` | internal/upgrade/security.go:83-84 | prerelease identifiers are what stands between the dots |
| `Versions.TailCharIff` | internal/upgrade/security.go:17 | prerelease and build consist of digits, letters, dots and hyphens |
| `Versions.BuildMetadataIgnored` | internal/upgrade/security.go:56-58 | build metadata does not influence the comparison |
| `Versions.ComparePrereleases` | internal/upgrade/security.go:83-111 | the loop over identifiers compares lists identifier by identifier |
| `Versions.CompareVersions` | internal/upgrade/security.go:58-112 | the comparison of two texts is that of what they are read as, and fails exactly when one cannot be read |
| `Versions.ComparesEqualIff` | internal/upgrade/security.go:58-112 | zero exactly when numbers and prerelease are equal |
| `Versions.AntisymmetricIff` | internal/upgrade/security.go:58-112 | swapping the versions negates the result, if and only if the first difference is not two numerals of equal value |
| `Versions.LeadingZeroBreaksTheOrder` | internal/upgrade/security.go:87-106 | a pair of versions each of which comes after the other |
| `Versions.CanonicalAntisymmetric` | internal/upgrade/security.go:58-112 | antisymmetric without leading zeros |
| `Versions.CanonicalTransitive` | internal/upgrade/security.go:58-112 | transitive without leading zeros |
| `Versions.AgreesWithSemver` | internal/upgrade/security.go:58-112 | agrees with the precedence of section 11 of Semantic Versioning 2.0.0 for numeric identifiers below 2^64 |
| `TunnelWire.VarintRoundTrip` | internal/proto/helpers.go:33-83 | a varint is read back with its length, whatever follows |
| `TunnelWire.ConsumesEncoded` | internal/proto/helpers.go:65-75 | a field is read back with number, type and value, whatever follows |
| `TunnelWire.SignExtensionRoundTrip` | internal/proto/helpers.go:41-47 | a negative 32-bit value survives as a sign-extended varint |
| `TunnelWire.UnmarshalTunnel` | internal/proto/messages_tunnel.go:54-145 | the loop over fields, its type errors included |
| `TunnelWire.MarshalTunnel` | internal/proto/messages_tunnel.go:31-52 | the bytes appended field by field, zero values left out |
| `TunnelWire.MarshalEntries` | internal/proto/messages_tunnel.go:46-50 | one entry after another, in the order the mapping is visited |
| `TunnelWire.TunnelRoundTrip` | internal/proto/messages_tunnel.go:31-176 | for every field value and every order of the mapping the same tunnel comes back, up to empty points, the nil mapping and the empty entry |
| `TunnelWire.UnknownFieldSkipped` | internal/proto/messages_tunnel.go:54-145 | a field with an unknown number changes nothing |
| `TunnelWire.TruncatedIsRefused` | internal/proto/messages_tunnel.go:54-145 | a message that breaks off anywhere inside a field is an error, whatever came before |
| `TunnelWire.ForeignTagIsRefused` | internal/proto/messages_tunnel.go:54-68 | so is a field with number 0 or above 2^31 - 1, a reserved wire type, or the end of a group |
| `Flow.FlowController.TryAcquire` | internal/proxy/common.go:33-57 | one pass of the waiting loop: granted, refused, or blocked |
| `Flow.AcquireDecides` | internal/proxy/common.go:34-58 | nothing is free, a closed window refuses, and otherwise an acquire is granted exactly when it, cut to the window, fits |
| `Flow.FlowController.ReleaseBytes` | internal/proxy/common.go:59-70 | the whole size is given back, clamped at zero |
| `Flow.FlowController.Close` | internal/proxy/common.go:72-78 | the window is closed and emptied |
| `Flow.InflightIsWhatIsOutstanding` | internal/proxy/common.go:33-70 | over every run, inflight is the sum over outstanding acquires of the smaller of size and window, never more than the window, oversized acquires included |
| `Flow.NothingOutstandingGrants` | internal/proxy/common.go:33-57 | with nothing outstanding any acquire is granted |
| `Flow.OpenSessionBalanced` | internal/proxy/common.go:132-159 | while a session is open, inflight is what the messages and acknowledgements under way hold, each byte is released once, and the target has been sent a prefix of what was encoded |
| `Flow.Delivers` | internal/proxy/common.go:132-159 | nothing under way is lost to an open session: it can deliver everything that was encoded, after which the window is free again |
| `Flow.UnacknowledgedFitsTheWindow` | internal/proxy/outlet.go:287-299 | inflight stays within 4 MiB and is what is unacknowledged, save for a single oversized message, next to which nothing else is outstanding |
| `Duplex.RunKeepsSound` | internal/proxy/inlet.go:623-642 | both windows account for what is under way, no queue exceeds its 1024 messages, and reader and writer of the inlet never hold the mutex together |
| `Duplex.NothingLost` | internal/proxy/common.go:132-159 | in each direction what was read goes through window, queue, write and acknowledgement in order, none lost and none twice |
| `Duplex.StuckIff` | internal/proxy/inlet.go:623-642 | an open session gets stuck exactly when the target reads only while it is not kept waiting, both windows are full, both readers wait, and all that was sent has arrived in queues with room for it |
| `Duplex.PoliteSessionGetsStuck` | internal/proxy/outlet.go:343-364 | a run of reads of at most 65535 bytes that gets there |
| `Outlet.OutletTables.RegisterAttempt` | internal/proxy/outlet.go:115-145 | an attempt is registered unless stopped, connected or already connecting |
| `Outlet.OutletTables.StillActive` | internal/proxy/outlet.go:231-239 | a failure is reported only for the attempt that is still registered, and not once stopped |
| `Outlet.OutletTables.InstallConnectedSession` | internal/proxy/outlet.go:250-264 | only the registered attempt moves from one table to the other |
| `Outlet.OutletTables.FinishConnectAttempt` | internal/proxy/outlet.go:241-248 | an attempt takes out its own registration only |
| `Outlet.OutletTables.OnDisconnectInput` | internal/proxy/outlet.go:266-285 | the registration goes and its attempt is to be cancelled |
| `Outlet.OutletTables.DetachSession` | internal/proxy/outlet.go:444-455 | the session with this id goes, whichever it is |
| `Outlet.OutletTables.StopTables` | internal/proxy/outlet.go:56-88 | both tables are emptied and what they held is handed over for closing |
| `Outlet.EveryRunValid` | internal/proxy/outlet.go:115-285 | the invariant of tables, attempts and connections holds over every interleaving |
| `Outlet.OnlyRegisteredAttemptInstalls` | internal/proxy/outlet.go:250-264 | a session appears only through the attempt registered for its id and not cancelled, with the connection it dialled |
| `Outlet.AfterStopTablesStayEmpty` | internal/proxy/outlet.go:56-88 | from Stop on both tables stay empty, whatever is under way |
| `Outlet.OutletRuns` | internal/proxy/outlet.go:115-285 | over every interleaving no id is both connecting and connected, no cancelled attempt succeeds, and a dialled connection that is not installed is closed |
| `Outlet.ConnectDecides` | internal/proxy/outlet.go:115-145 | a connect message starts an attempt of its own, unless its id is connecting or connected or the outlet stopped |
| `Outlet.InstallsIff` | internal/proxy/outlet.go:250-264 | a session is installed exactly while not stopped, for the registered attempt, under a free id |
| `Outlet.StopEmpties` | internal/proxy/outlet.go:56-88 | Stop empties both tables, has every session closed and every attempt cancelled |
| `Outlet.DisconnectedNeverInstalls` | internal/proxy/outlet.go:250-285 | an attempt that a disconnect or Stop meets while it dials installs nothing, whatever happens then |
| `Outlet.StopDrains` | internal/proxy/outlet.go:56-285 | after Stop every attempt and reader can come to its end, and then no connection is open |
| `Outlet.FreshIdsKeepSessionsApart` | internal/proxy/outlet.go:343-364 | with ids used once a reader never takes out a session that is not its own |
| `Outlet.ReaderDetachesAnotherIff` | internal/proxy/outlet.go:343-364 | a reader takes out another session exactly when the table holds another connection under its id |
| `Outlet.ReusedIdOrphansTheNewSession` | internal/proxy/outlet.go:343-364 | a run in which a reused id leaves the new connection open and out of the table |
| `Inlet.InletTables.TakeSessionSlot` | internal/proxy/inlet.go:460-471 | the send takes a slot exactly below the limit, whatever the stop signal says by then |
| `Inlet.InletTables.KeepSessionSlot` | internal/proxy/inlet.go:462-468 | the second look at the stop signal gives the slot back |
| `Inlet.InletTables.ReserveSessionSlot` | internal/proxy/inlet.go:454-472 | undisturbed, a slot is taken exactly below the limit and before the stop signal |
| `Inlet.InletTables.ReleaseSessionSlot` | internal/proxy/inlet.go:474-479 | one slot is given back |
| `Inlet.InletTables.RegisterSession` | internal/proxy/inlet.go:404-422 | a session enters both indexes unless stopped or the id is taken |
| `Inlet.InletTables.RemoveSession` | internal/proxy/inlet.go:586-600 | a session leaves both indexes |
| `Inlet.InletTables.StopTables` | internal/proxy/inlet.go:117-142 | both indexes are emptied and the sessions handed over for shutdown |
| `Inlet.EveryRunValid` | internal/proxy/inlet.go:341-479 | the invariant of slots, sessions and peers holds over every interleaving, each look, send and locked region being a step |
| `Inlet.InletRuns` | internal/proxy/inlet.go:341-479 | taken slots are reservations under way plus sessions plus sessions not yet shut down, at most 4096, and udpPeers is a bijection with the sessions that carry a peer |
| `Inlet.TcpSessionIff` | internal/proxy/inlet.go:215-436 | an undisturbed TCP connection gets a session exactly when the stop signal has not come, fewer than 4096 slots are taken and its id is free, and else leaves the tables as they were |
| `Inlet.UdpSessionIff` | internal/proxy/inlet.go:341-436 | so does a datagram of a peer that has none, which is then found under its peer; the loop is free again however it ends |
| `Inlet.InstalledIff` | internal/proxy/inlet.go:404-422 | in every state a goroutine with a slot installs its session exactly when the inlet has not stopped and the id is free, and else returns the slot |
| `Inlet.EndedSessionIsGone` | internal/proxy/inlet.go:474-600 | a session that ends and is shut down leaves both indexes and gives back its slot, and nothing else changes |
| `Inlet.StopHandsOver` | internal/proxy/inlet.go:117-142 | Stop hands over every session of the table and no other; their slots stay taken until they are shut down |
| `Inlet.AfterStopOnlyRunsOut` | internal/proxy/inlet.go:117-142 | after Stop no run begins an attempt or adds a session; goroutines before their send, reservations, closing sessions, and slots together with the sends to come, only run down; once no send is to come the slots never grow again |
| `Inlet.LookerTakesASlotAfterStop` | internal/proxy/inlet.go:454-472 | a run in which a slot is taken after Stop |
| `Inlet.StopDrainsToZero` | internal/proxy/inlet.go:454-479 | from Stop on the slots run down to zero, one step for each and two for each goroutine before its send |
| `CustomMapping.StableCustomMappingString` | internal/model/tunnel.go:104-122 | the loop over the sorted keys prints the mapping's text |
| `CustomMapping.SortedAscending` | internal/model/tunnel.go:112 | the keys are printed in strictly ascending order |
| `CustomMapping.OneAscendingOrder` | internal/model/tunnel.go:108-112 | there is one such order, so the order of the map does not matter |
| `CustomMapping.HasDoubleIff` | internal/model/tunnel.go:104-122 | another mapping has the same text exactly when this one has several entries, or a colon in its one key or value |
| `TunnelModel.InletDescriptionDetermines` | internal/model/tunnel.go:78-91 | where addresses, credentials and encryption method do not contain the label that follows them, inlets are described alike exactly when the tunnels agree in id, source with endpoint, players, type, username with password, both flags, encryption method and the text of the mapping |
| `TunnelModel.HasDoubleIff` | internal/model/tunnel.go:78-91 | such a tunnel is described like another such tunnel that says something else exactly when source or endpoint contains "-endpoint:", username or password contains "-password:", or its mapping has several entries or a colon within its only one |
| `TunnelModel.EndpointsCollide` | internal/model/tunnel.go:78-91 | whenever an endpoint contains all the labels up to the username with their numbers, another tunnel has the same description |
| `TunnelModel.UnambiguousDescriptionDetermines` | internal/model/tunnel.go:78-91 | for two tunnels no text of which contains the label that follows it, inlets are described alike exactly when the tunnels say the same and their mappings print alike |
| `TunnelModel.OutletDescriptionDetermines` | internal/model/tunnel.go:74-76 | outlets are described alike exactly when id, sender and enabled agree |
| `TunnelModel.UsernamesCollide` | internal/model/tunnel.go:78-91 | whenever a username contains the label of the password, another tunnel has the same description |
| `TunnelSync.Manager.LookOutlet` | internal/proxy/manager.go:220-230 | the first look: whether an outlet like this is wanted and not there |
| `TunnelSync.Manager.InstallOutlet` | internal/proxy/manager.go:238-245 | the second look, which installs under the same condition |
| `TunnelSync.Manager.LookInlet` | internal/proxy/manager.go:251-261 | the first look for an inlet |
| `TunnelSync.Manager.InstallInlet` | internal/proxy/manager.go:304-311 | the second look for an inlet |
| `TunnelSync.Manager.UpdateTunnel` | internal/proxy/manager.go:145-186 | one update that no other call disturbs: what is no longer wanted stops, what is wanted starts, and both are reported |
| `TunnelSync.Manager.StartOutletIfNeeded` | internal/proxy/manager.go:220-249 | undisturbed, an outlet starts only if it should run, is not there, and the table asks for this description |
| `TunnelSync.Manager.StartInletIfNeeded` | internal/proxy/manager.go:251-318 | so does an inlet, unless it fails, which is reported |
| `TunnelSync.Manager.ReaffirmRuntime` | internal/proxy/manager.go:188-202 | what is there is reported as running once more |
| `TunnelSync.Manager.SyncTunnels` | internal/proxy/manager.go:69-115 | a full resync with the list that no other call disturbs |
| `TunnelSync.EveryRunReconciled` | internal/proxy/manager.go:69-202 | over every run of updates and resyncs nothing runs but with a description the table asks for and no outlet is missing, whatever inlets fail to start; no inlet is missing if none fails |
| `TunnelSync.EveryRunWhereTheTableSays` | internal/proxy/manager.go:69-218 | over every run of whole calls outlets run exactly for the enabled tunnels the player sends through, inlets only for the enabled ones it receives from, and for all of them if no start fails |
| `TunnelSync.TableAfter` | internal/proxy/manager.go:69-160 | an update writes or takes out the one entry, a resync leaves exactly the last tunnel of each id in its list |
| `TunnelSync.UpdatesEqualOneResync` | internal/proxy/manager.go:69-202 | any sequence of calls ends with the keys and descriptions of one resync of the resulting table; for outlets whatever fails, for inlets if none fails to start |
| `TunnelSync.EveryRunReportsTrue` | internal/proxy/manager.go:69-202 | over every run of calls one after the other, failing starts included, the last report of a component says running exactly when it is installed |
| `TunnelSync.UpdateTells` | internal/proxy/manager.go:145-186 | after an update what is there was reported as running, whatever had been reported before |
| `TunnelSync.EveryRunNeverTellsOfZero` | internal/proxy/manager.go:320-323 | tunnel 0 is never reported, over any run |
| `TunnelSync.RepliesReachTheReceiverIff` | internal/proxy/manager.go:204-249 | after an update an outlet answers to the current receiver exactly when it is new or already did |
| `TunnelSync.StaleReceiver` | internal/model/tunnel.go:74-76 | an outlet that answers to the wrong player, where a resync would answer to the right one |
| `TunnelSync.CollidingUpdateKeepsTheInlet` | internal/proxy/manager.go:216-218 | an update to a tunnel with the same description leaves the inlet of the old one, with the old credentials |
| `TunnelSteps.UpdateAlone` | internal/proxy/manager.go:145-202 | the regions and reports of an update, one after the other, do what the whole update does |
| `TunnelSteps.ResyncAlone` | internal/proxy/manager.go:69-115 | so do those of a resync, in whatever order it ranges over the maps |
| `TunnelSteps.WorkerAlone` | internal/proxy/manager.go:69-202 | that is where the steps of one goroutine lead, and they come to an end |
| `TunnelSteps.NeverUnwanted` | internal/proxy/manager.go:69-318 | over every interleaving of calls, at every moment, nothing runs but with a description the table asks for |
| `TunnelSteps.QuietMeansReconciled` | internal/proxy/manager.go:69-318 | when all calls are done, whatever inlets failed to start, nothing runs that is not wanted and no outlet is missing; no inlet is missing if none failed |
| `TunnelSteps.QuietWhereTheTableSays` | internal/proxy/manager.go:69-318 | when all overlapping calls are done, the components are exactly where the table says, inlets if no start failed |
| `TunnelSteps.NeverElsewhere` | internal/proxy/manager.go:204-214 | at every moment no inlet runs but for an enabled tunnel the player receives from, no outlet but for one it sends through |
| `TunnelSteps.OverlappingCallsEqualOneResync` | internal/proxy/manager.go:69-318 | overlapping calls end with the keys and descriptions of one resync of the table they leave; for outlets whatever fails, for inlets if none fails to start |
| `TunnelSteps.QuietReportsTrueIff` | internal/proxy/manager.go:320-337 | when all calls are done, the last report of a component is right if and only if it was right when it was made |
| `TunnelReports.LastReportWrongIff` | internal/proxy/manager.go:145-337 | when all calls are done, the last report of a component is wrong if and only if later regions, reported earlier, changed the component an odd number of times, or an even number if the report is that of a start that found its place taken |
| `TunnelReports.AlwaysKept` | internal/proxy/manager.go:145-337 | over every interleaving each report, made or still to come, says what the region it comes from left, unless that is a start that found its place taken |
| `TunnelSteps.DeletedOutletReportedRunning` | internal/proxy/manager.go:239-247 | a run in which the outlet of a deleted tunnel is reported as running for good |
| `TunnelSteps.ApartCallsReportTrue` | internal/proxy/manager.go:69-337 | if no call begins while another about the same tunnel is under way, the last report is right whenever none is |
| `Receiver.ClientReceiver.Accept` | internal/upgrade/receiver.go:102-187 | the guards in order, resuming or starting over, and the recheck of a complete download, under any failures |
| `Receiver.OfferTakenIff` | internal/upgrade/receiver.go:102-136 | an offer is only taken, and without failures always taken, by a client that may be upgraded, with a proper id, its platform, a strictly later version, sizes in range, a digest of 64 and a signature that verifies; any other changes nothing |
| `Receiver.AcceptSays` | internal/upgrade/receiver.go:106-187 | after a positive answer memory, file and download.json stand at the offset it names, for this offer |
| `Receiver.ResumesOnlyTheSame` | internal/upgrade/receiver.go:141-152 | an offer resumes above 0 only where download.json and the file agree about this very artifact |
| `Receiver.ClientReceiver.HandleChunk` | internal/upgrade/receiver.go:189-250 | the guards in order, the write, the new offset and the final check, under any failures |
| `Receiver.ChunkTakenIff` | internal/upgrade/receiver.go:201-215 | a chunk is counted, without failures, exactly when it belongs to the offer, at the offset, within both limits, with its digest; any other changes nothing |
| `Receiver.ChunkAnswered` | internal/upgrade/receiver.go:230-249 | without failures a chunk that fits is answered downloading, verifying or failed by eof, size and digest |
| `Receiver.ClientReceiver.SaveDownloadState` | internal/upgrade/receiver.go:372-377 | download.json describes the offer at hand and the offset, even when saving reports an error after replacing it |
| `Receiver.ClientReceiver.StartApply` | internal/upgrade/receiver.go:252-281 | only a complete download is handed over, and an older result goes first |
| `Receiver.HandedOverIff` | internal/upgrade/receiver.go:252-281 | the helper is started exactly for a complete download whose pending.json could be written and if it can be; pending.json then names the candidate, and an older result is gone if it could be removed |
| `Receiver.ClientReceiver.AcknowledgeResult` | internal/upgrade/receiver.go:311-321 | only the result that is acknowledged goes |
| `Receiver.AcknowledgedIff` | internal/upgrade/receiver.go:311-321 | a result goes exactly when it is the one acknowledged and can be removed |
| `Receiver.ClientReceiver.CleanupStaleUpdateFiles` | internal/upgrade/receiver.go:329-353 | of the candidate files exactly the one at hand, the one pending.json protects and those that cannot be removed are left |
| `Receiver.CleanUpLeaves` | internal/upgrade/receiver.go:329-353 | a clean-up leaves exactly the candidate at hand, the one pending.json names while there is no result, and what cannot be listed or removed; what is left is unchanged |
| `Receiver.AcceptKeepsGoodIff` | internal/upgrade/receiver.go:153-185 | accepting an offer keeps every downloaded prefix, except exactly when it truncates the file of the offer at hand and the sync fails |
| `Receiver.TruncationLosesThePrefix` | internal/upgrade/receiver.go:153-185 | then the prefix is lost |
| `Receiver.PrefixCanBeLost` | internal/upgrade/receiver.go:102-250 | a run in which that happens and the next chunk leaves a gap of zeros |
| `Receiver.DyingInAcceptKeepsGood` | internal/upgrade/receiver.go:153-185 | a process that dies anywhere inside Accept leaves only prefixes of artifacts |
| `Receiver.ChunkKeepsGood` | internal/upgrade/receiver.go:189-250 | a genuine chunk, however stale, repeated or badly written, keeps every downloaded prefix |
| `Receiver.EveryRunHoldsThePrefix` | internal/upgrade/receiver.go:102-250 | over every run with reconnections, failures, deaths inside any call, clean-ups and restarts the first offset bytes of the candidate are those of the artifact, unless a call that returns truncates in that way |
| `Receiver.VerifyingMeansWhole` | internal/upgrade/receiver.go:168-249 | whatever chunks arrived and whatever failed, a verifying report means the file is the whole artifact |
| `Receiver.PositiveReportIsStored` | internal/upgrade/receiver.go:212-249 | a report other than a failure means the chunk, of the announced digest, is in the file at its offset, nothing before it changed, and download.json reaches as far |
| `Receiver.CompleteIsFrozen` | internal/upgrade/receiver.go:189-250 | no chunk and no clean-up changes a complete download |
| `Receiver.ResumesWhereItStopped` | internal/upgrade/receiver.go:145-152 | a reconnection resumes at the offset that was reported |
| `Receiver.RestartResumesIff` | internal/upgrade/receiver.go:97-152 | a new process goes on at the stored offset, or verifies a complete download again, exactly when its clean-up spares the candidate, and otherwise starts over |
| `Receiver.RestartResumesIffProtected` | internal/upgrade/receiver.go:329-350 | when the clean-up works: exactly when pending.json names the candidate and there is no result |
| `Receiver.HandedOverIsProtected` | internal/upgrade/receiver.go:267-276 | a candidate that was handed over survives the clean-ups of later processes until there is a result |
| `UpgradeTasks.UpgradeManager.Start` | internal/manager/upgrade_manager.go:54-85 | a new task replaces a finished one, and the staged file goes if another is under way |
| `UpgradeTasks.OfferIsSigned` | internal/manager/upgrade_manager.go:54-75 | the offer describes the artifact, and its signature is that of the offer without one |
| `UpgradeTasks.UpgradeManager.OfferTo` | internal/manager/upgrade_manager.go:87-97 | the offer of a task under way |
| `UpgradeTasks.UpgradeManager.HandleStatus` | internal/manager/upgrade_manager.go:99-159 | the report is noted, and answered with the next chunk where one is due |
| `UpgradeTasks.ReportAnswered` | internal/manager/upgrade_manager.go:99-159 | a report is answered with a piece exactly when it asks for one, within the artifact, and the staged file holds it and can be read; with nothing exactly when it asks for none or has it all |
| `UpgradeTasks.PieceSent` | internal/manager/upgrade_manager.go:141-158 | the piece is the bytes from the reported offset on, up to the chunk size or the end, with their digest and whether they are the last |
| `UpgradeTasks.ReportStored` | internal/manager/upgrade_manager.go:117-151 | state, error and, if in range, offset of the report are noted, or that the artifact cannot be read; the file goes exactly with a failure or a rollback |
| `UpgradeTasks.StrayReportAnswered` | internal/manager/upgrade_manager.go:99-116 | a report for no task or another is refused, one for a task that is over only if that ended with an error, and neither changes anything but what expired |
| `UpgradeTasks.UpgradeManager.CompleteOnLogin` | internal/manager/upgrade_manager.go:161-170 | a login with the offered version ends the task and its file |
| `UpgradeTasks.UpgradeManager.Fail` | internal/manager/upgrade_manager.go:172-184 | a failure ends the task and its file |
| `UpgradeTasks.UpgradeManager.Remove` | internal/manager/upgrade_manager.go:206-213 | a removed player leaves neither task nor file |
| `UpgradeTasks.UpgradeManager.PruneExpired` | internal/manager/upgrade_manager.go:215-239 | whatever the order of the map, every expired task fails or goes, with its file |
| `UpgradeTasks.UpgradeManager.Snapshot` | internal/manager/upgrade_manager.go:186-202 | the player's state after expiry, and its progress |
| `UpgradeTasks.ProgressShown` | internal/manager/upgrade_manager.go:186-204 | the percentage shown is the whole percents that are there, and 100 after a success |
| `UpgradeTasks.StartRefusedIff` | internal/manager/upgrade_manager.go:77-81 | a start is refused exactly for an invalid request or while an upgrade of the player is under way after expiry |
| `UpgradeTasks.OfferedIff` | internal/manager/upgrade_manager.go:87-97 | an offer is made exactly for a task that is not at an end and whose deadline is ahead |
| `UpgradeTasks.StartedIsOffered` | internal/manager/upgrade_manager.go:54-97 | a new upgrade is offered exactly until 45 minutes after its start |
| `UpgradeTasks.ExpiredBecomes` | internal/manager/upgrade_manager.go:215-239 | expiry fails what was under way, with its reason, forgets what was over, and leaves the rest |
| `UpgradeTasks.LoginEnds` | internal/manager/upgrade_manager.go:161-170 | exactly a login with the offered version ends the task as succeeded at full progress, and it is not offered again |
| `UpgradeTasks.FailEnds` | internal/manager/upgrade_manager.go:172-184 | exactly a failure of this task, or of any, ends it as failed with the error |
| `UpgradeTasks.RemoveForgets` | internal/manager/upgrade_manager.go:206-213 | a removed player has no task and no offer; the others keep theirs |
| `UpgradeTasks.EveryRunShowsProgress` | internal/manager/upgrade_manager.go:120-122 | whatever offsets clients report, the progress shown is between 0 and 100, and 100 only at the end |
| `UpgradeTasks.EveryRunFilesMatch` | internal/manager/upgrade_manager.go:54-247 | after every operation the staged files are exactly one per task under way, each holding what its offer describes |
| `UpgradeTasks.StatusKeepsFilesMatchIff` | internal/manager/upgrade_manager.go:99-159 | a report keeps that if and only if it does not say succeeded about a task under way |
| `UpgradeTasks.SucceededReportLeaks` | internal/manager/upgrade_manager.go:99-159 | after such a report and a new start nobody owns the old file |
| `UpgradeTasks.RenewsUnlessSettled` | internal/manager/upgrade_manager.go:117-131 | a report that does not end its task renews the deadline if and only if it says something new |
| `UpgradeTasks.ReplaysDoNotRenew` | internal/manager/upgrade_manager.go:117-131 | however often the same report is replayed, among logins and anything but another report about the same upgrade, the deadline does not move |
| `UpgradeTasks.ReplayedTaskExpires` | internal/manager/upgrade_manager.go:117-239 | the first start, offer, report or snapshot at or after the deadline ends the task, and it is not offered again |
| `UpgradeTasks.ReconnectingIsOfferedIff` | internal/manager/upgrade_manager.go:123-131 | for any list of reconnections the upgrade is still on offer after all of them if and only if each came in time for the one before |
| `UpgradeTasks.ReconnectingIsOfferedForever` | internal/client/client.go:443-466 | reconnections every four minutes keep it on offer for as long as one likes |
| `Transfer.ServerSends` | internal/manager/upgrade_manager.go:136-158 | the answer to a report is exactly the next piece of the artifact |
| `Transfer.ClientTakes` | internal/upgrade/receiver.go:189-250 | the client moves on by that piece and says so, or verifies the whole |
| `Transfer.TransferTakesExactly` | internal/manager/upgrade_manager.go:99-159 | from a consistent task table, with a clock on which no round comes too late, the transfer completes in exactly the ceiling of the remaining bytes over 131072 rounds, every chunk non-empty and within the limit, only the last marked as the last |
| `Apply.ApplyHelper.CopyFileSync` | internal/upgrade/apply.go:183-204 | a copy needs a free destination, and a failed one is removed |
| `Apply.ApplyHelper.RetryRename` | internal/upgrade/apply.go:210-255 | the retry loop |
| `Apply.RetrySucceedsIff` | internal/upgrade/apply.go:222-255 | a rename happens exactly when some try meets a stopped service and a rename that works |
| `Apply.FailedCopyLeaves` | internal/upgrade/apply.go:183-204 | a failed copy leaves its destination exactly where it cannot remove it, and nothing else changes |
| `Apply.FailedReplacementCleansUp` | internal/upgrade/apply.go:120-146 | no half-installed file is left, however a replacement ends, and no backup that could not be synced, as far as they can be removed |
| `Apply.ApplyHelper.ReplaceTarget` | internal/upgrade/apply.go:120-146 | backup, staging and activation, every state on the way recorded |
| `Apply.ApplyHelper.RollbackTarget` | internal/upgrade/apply.go:148-169 | the backup is moved back, every state on the way recorded |
| `Apply.ApplyHelper.RecoverBeforeSwitch` | internal/upgrade/apply.go:94-113 | the pending state goes only once the old client runs again |
| `Apply.ApplyHelper.RunApplyHelper` | internal/upgrade/apply.go:19-92 | a whole run of the helper, every state on the way recorded |
| `Apply.HelperKeepsTargetWhole` | internal/upgrade/apply.go:19-181 | in every state of a run the target is the whole binary found or the whole verified artifact, and which one at the end |
| `Apply.SwitchesIff` | internal/upgrade/apply.go:19-57 | a run switches exactly when every guard lets it, and otherwise touches no binary |
| `Apply.WaitsForTheOldProcess` | internal/upgrade/apply.go:44-56 | a run whose parent stays, or whose service cannot be stopped, changes no binary |
| `Apply.StateGoesExactlyWhen` | internal/upgrade/apply.go:57-118 | however a switch ends, pending.json and download.json go, and only once the binaries are final; without a switch they go exactly when the old process is gone and its client was started again |
| `Apply.NilMeansHealthy` | internal/upgrade/apply.go:35-82 | a nil return means the artifact in place and a health file seen, or a hand-off that did nothing |
| `Apply.EveryRunTargetWhole` | internal/upgrade/apply.go:19-181 | the same over any number of runs, each crashing anywhere, with anything but the target changed in between |
| `Apply.RollbackRestoresTheOldIff` | internal/upgrade/apply.go:148-169 | a rollback without error brings back the old binary exactly when the run began with it |
| `Apply.RerunRollsBackToTheNew` | internal/upgrade/apply.go:77-82 | a crash and a second run whose rollback without error leaves the new binary |
| `Upgrade.OfferedArtifactIsInstalled` | internal/upgrade/apply.go:19-92 | from genuine offers to the running binary: after a verifying report the helper's check passes, and a healthy end means the offered artifact is installed |

## Left out

- Power loss: a crash is a crash of the process; data written and not synced is not lost.
- Removing a staged artifact on the server always works (internal/manager/upgrade_manager.go:245 ignores the error).
- SHA-256 is an injective function, HMAC an arbitrary check, and AES-SIV and the AEAD ciphers pairs of functions of which one undoes the other.
- The library's LZ4 compressor returns an error, nothing, or a valid block; its decompressor implements the format.
- Protobuf groups: a field of the deprecated group types counts as malformed, where the library would skip it.
- Messages other than the tunnel, which the same helpers code in fewer lines.
- `Shadowsocks.StreamReader.Feed`: says nothing of what a reader does after an error, because the session is then closed.
- UDP packets of Shadowsocks, which are sealed one by one.
- `Flow.OpenSessionBalanced`: covers the direction from inlet to outlet of a TCP session; the other direction is its mirror image, and UDP associations drop early packets without acknowledging them.
- The order in which blocked acquirers are woken: each tries again on its own.
- The ring buffers: the queues are sequences, of at most 1024 messages as in the source; the bounded queue of datagrams between the UDP loop and its sessions is not part of this model.
- A SOCKS5 domain that is the text of an IP address is kept as its bytes (internal/proxy/target_addr.go:77-79).
- Data that comes back from the outlet to a SOCKS5 peer, which is written to it as it comes.
- Timed closing of SOCKS5 peers after an error reply, and the socket of a UDP association.
- White space outside ASCII around a version.
- `TunnelSync.Manager.UpdateTunnel`: one call at a time, as are the other methods of that class; overlapping calls are steps of `TunnelSteps`.
- `Duplex.StuckIff`: the peer reads all the time, and what a socket of the operating system buffers counts as read.
- `TunnelSync.EveryRunReportsTrue`: speaks of tunnels with an id other than 0, since those with id 0 are never reported.
- Routing of single proxy messages and the answer for an offline player (internal/proxy/manager.go:117-143, 339-427), which are case analysis.
- `TunnelModel.InletDescriptionDetermines`: says nothing of tunnels whose addresses, credentials or encryption method contain the label that follows them; of those, some have a double and some have none.
- Strings are sequences of Unicode characters, whose order is that of their UTF-8 bytes; strings that are not valid UTF-8 are not part of this model.
- nil entries in the list of a resync, which are skipped.
- The contents of pending.json beyond the fields the switch depends on, and the health file, which StartApply removes and MarkHealthy writes.
- `Apply.ApplyHelper.RunApplyHelper`: within one run the candidate file does not change between the check of its digest and the copy.
- Removing old backups and failed copies next to the executable (internal/upgrade/receiver.go:357-369).
- Sockets, TLS, WebSocket, QUIC, KCP, dialling and real timers, the SQLite stores, configuration, process and service management, the web handlers and the frontend.
