# Verified model of dsh-remote

This project models the protocols and stream codecs with which dsh-remote runs
agent sessions on another machine, and proves what they promise. It is written
in Dafny 4.11; `dafny verify dfyconfig.toml` checks everything.

Each protocol is a state machine over immutable values: a step function, an
invariant every step keeps, and theorems over all runs. Where the source keeps
its state in an object it updates, a class has those fields, and each of its
methods is proved to take exactly the step it stands for.

| Part | Files |
|---|---|
| Write lease and attachments of the session broker: a simple relation, and the object with four mutually dependent maps that refines it | `Broker.dfy`, `BrokerService.dfy` |
| Event delivery from host log to client handle, over one FIFO channel per connection, with drops, re-attaches and escalations | `Delivery.dfy`, `DeliveryLoss.dfy`, `PromptAttach.dfy` |
| The seq-exact mirror, and paging a growing history | `Mirror.dfy`, `History.dfy` |
| Approval and question requests | `Interaction.dfy`, `Bridges.dfy` |
| Line framing, one channel, the mux, and end to end from writer to reader | `Framing.dfy`, `Channel.dfy`, `Mux.dfy`, `MuxDelivery.dfy` |
| JSON-RPC calls paired with responses | `JsonRpc.dfy` |
| Base64 line transport (section 4 of RFC 4648), bounded output tail, bootstrap filter | `Base64.dfy`, `FrameDecoding.dfy`, `TailOutput.dfy`, `Terminal.dfy` |
| The lossless-JSON walker over object graphs | `JsonWalk.dfy` |
| Guarded file edits under interference, the keyed mutex, and the text algebra they rest on | `GuardedEdit.dfy`, `EditCall.dfy`, `Mutex.dfy`, `Text.dfy` |
| Canonical JSON against the JSON grammar (RFC 8259), and the signed handshake message | `CanonicalJson.dfy`, `JsonText.dfy` |
| Shared: options, line cutting, substring search | `Wrappers.dfy`, `Lines.dfy`, `Search.dfy` |

## Where the code does less than its documentation says

Each of these is a lemma with the exact condition or a concrete witness.

- Delivery is not exact on every schedule. An event dispatched before the handle
  is subscribed, because it overtook the attach reply or came between reply and
  subscription, is lost if a later one is delivered. `DeliveryLoss.CompleteIffNothingMissed`
  says exactly when nothing can be lost; `DeliveryLoss.LossIsReachable` reaches a loss;
  `PromptAttach.PromptDeliveryIsExact` is the exact claim without such overtaking.
- A mirror whose history reached past its attach point freezes with the first event it is
  handed, buffered or live (`Mirror.FreezesIffHistoryOverlaps`).
- A refused write attach does not restore an earlier read attachment
  (`Broker.RefusedAttachDetaches`).
- `attachmentsByClient` keeps an empty inner map after a client's last detach, and even
  after it disconnected: `SessionBroker.DropAttachment` and `Disconnect` keep every key, and
  `BrokerService.EmptyEntryRemains` reaches the state. Only the per-session index is free
  of empty sets.
- History paging with a negative start fails on every non-empty log, and otherwise only when
  the session cannot be read (`History.ReadRemoteHistory`).
- A file with a set-id or sticky bit can never be edited: version elements carry nine
  mode bits, `stat -c %a` prints twelve. No edit in any run changes such a target
  (`GuardedEdit.SpecialBitsBlockEdits`, and `Carries` in `GuardedEdit.GuardedCallsAreExact`);
  `GuardedEdit.UndisturbedScript` says when the script of an undisturbed edit exits 0 or 4,
  `GuardedEdit.UndisturbedEdit` reaches both ends. For the same reason recurrence must be ruled out on the nine bits (`GuardedEdit.FullModeIsNotEnough`).
  A published file always gets mode 0600.
- A forced or version-guarded write whose target is a directory exits 0 and moves the
  file into it (`GuardedEdit.PublishOverDirectory` says exactly when).
- A call may fail although it changed the file: exactly when the outcome of a script that
  exited 0 was lost or the stat after it failed (`GuardedEdit.FailsAfterChangeIff`).
  `GuardedEdit.ChangedYetNotFound` is such a run, reporting a missing file. Only refusals by a
  check on what was read, by exit 3 or 4, and aborts exclude a change.
- With mixed line endings, an edit that changes nothing still changes bytes
  (`Text.EditingNothingKeepsBytes`).
- The text reported after an edit is not in LF form when the edit brings a CRLF into a file
  without any (`Text.ReportedIsNormalized` has the exact condition, `Text.ReportedMayHoldCrlf`
  an input).
- A JSON-RPC call made after the stream ended, with timeouts off, settles if and only if it
  is aborted (`JsonRpc.LateCallsHang`; `JsonRpc.LateCallIsReached` reaches one).
- The signed handshake message is unambiguous exactly for nonces of fixed length
  (`CanonicalJson.MessageDeterminesIff`, `CanonicalJson.MessageIsAmbiguousOtherwise`).
- Canonical JSON writes numbers that are not finite as null and negative zero as zero
  (`CanonicalJson.NumbersCollide`); `CanonicalJson.CanonicalTextIffReadsSame` says exactly
  which values share a text.
- A line cap counts the partial line plus the whole next chunk (`Framing.LineDecoder.Push`).

## Assumptions

- Host log seqs count from 0 without gaps (packages/remote-backend/src/host.ts:51).
- `notify` neither fails nor re-enters the broker; a client's connection closes in one
  step for broker and bridges (packages/remote-backend/src/serve.ts:251-258); client ids
  and request ids do not repeat.
- A first attach is not retried on the same connection while it is unanswered.
- Each mux channel has one reader; the JSON text of each message written parses back to it and is one
  line (`Framing.TallyIsSound`: whatever is to be written, some codec does that); version tokens are equal exactly when their elements are.
- The publish script is one atomic step. Outside writers may do anything at any time except
  restore the size, mtime and permission bits that a call in flight has seen. A read no change
  overlaps yields the file's bytes; any other read may yield anything.

## Model

| member | source | states |
|---|---|---|
| Broker.HoldersAreAttached | packages/remote-backend/src/broker.ts:161-181 | after any run of connects, attaches, detaches, releases and disconnects, whoever holds a session's lease is connected and attached to that session |
| Broker.ApplyKeepsSound | packages/remote-backend/src/broker.ts:229-302 | every single operation keeps attachments of connected clients only and leases of attached clients only |
| Broker.NoticesDetermineHolder | packages/remote-backend/src/broker.ts:559-623 | for a client attached throughout, folding the control-changed notices it was sent over the holder at the start gives the broker's holder at the end |
| Broker.HolderKnownSinceAttach | packages/remote-backend/src/broker.ts:269-302 | the holder an attach returns, folded with every notice from that attach on, is always the current holder; a granted write attach returns the caller |
| Broker.RefusedAttachDetaches | packages/remote-backend/src/broker.ts:272-279 | a refused write attach changes no lease, but removes an attachment the client already had |
| Broker.LeaseEndsIff | packages/remote-backend/src/broker.ts:169-302 | a step ends a lease if and only if it is its holder's release, detach or disconnect, or a forced write attach by another connected client to the live session, which then holds it; any other step leaves the very grant in place |
| Broker.LeaseIsTakenIff | packages/remote-backend/src/broker.ts:559-577 | a client comes to hold control if and only if it is connected and attaches to the live session for writing, by force if somebody else holds it; the grant bears its name and time |
| Broker.LeaseLastsUntilEnded | packages/remote-backend/src/broker.ts:484-490 | over every run a lease is held, by the same grant, until the first step that ends it in that sense, and no longer |
| Broker.ForeignReleaseIsSilent | packages/remote-backend/src/broker.ts:484-490 | a release by anyone but the holder changes nothing and is told to nobody |
| Broker.AttachDecides | packages/remote-backend/src/broker.ts:229-290 | an attach is refused as unknown client, unknown session or locked, naming holder and time of the lease, in exactly the stated cases, and granted with head and holder in all others |
| Broker.AttachmentsChange | packages/remote-backend/src/broker.ts:229-302 | attachments begin exactly with granted attaches and end exactly with a detach, a disconnect or a refused write attach |
| Broker.ToldExactly | packages/remote-backend/src/broker.ts:607-623 | on each stream a step sends the replay asked for or the event itself, and then one notice exactly if the holder of the session changed and the client is attached and not going away, with the new holder and the reason |
| BrokerService.SessionBroker.Connect | packages/remote-backend/src/broker.ts:161-163 | adds the connection and sends nothing |
| BrokerService.SessionBroker.Attach | packages/remote-backend/src/broker.ts:229-290 | result, new attachments and lease, and every notice on every stream are those of the protocol step, in each of the unknown-client, unknown-session, locked and granted cases; the four maps stay consistent |
| BrokerService.SessionBroker.SubscribeAndReplay | packages/remote-backend/src/broker.ts:243-272 | one more host subscription for the pair, the earlier one cancelled; the client alone is sent exactly the log entries after its cursor |
| BrokerService.SessionBroker.Settle | packages/remote-backend/src/broker.ts:273-290 | the lease is taken or the attachment rolled back, and the holder is announced to everyone attached, the acquirer included |
| BrokerService.SessionBroker.AcquireLease | packages/remote-backend/src/broker.ts:559-577 | locked exactly when somebody else holds the lease and force is off; otherwise the lease is the caller's and a change is broadcast as acquired or preempted |
| BrokerService.SessionBroker.Detach | packages/remote-backend/src/broker.ts:293-302 | releases the lease before dropping the attachment, so that the leaving holder is still told |
| BrokerService.SessionBroker.ControlRelease | packages/remote-backend/src/broker.ts:484-490 | the release step of the protocol, which has an effect for the holder alone (`LeaseEndsIff`, `ForeignReleaseIsSilent`) and is then announced to everyone attached |
| BrokerService.SessionBroker.Disconnect | packages/remote-backend/src/broker.ts:169-181 | no attachment, subscription or lease of the client is left, only an empty entry in the index by client; the clients remaining on each session it held are told once |
| BrokerService.SessionBroker.HostEvent | packages/remote-backend/src/broker.ts:243-247 | one host event reaches each attached client exactly once and nobody else |
| BrokerService.SessionBroker.Stats | packages/remote-backend/src/broker.ts:524-528 | the attached-client number is exactly the number of attachments |
| BrokerService.SessionBroker.TrackAttachment | packages/remote-backend/src/broker.ts:579-594 | both attachment indexes gain exactly the pair and stay inverse to each other; live subscriptions stay one to one with attachments |
| BrokerService.SessionBroker.DropAttachment | packages/remote-backend/src/broker.ts:596-604 | both indexes lose exactly the pair, no empty set is left under a session, the client keeps its entry however empty, and the pair's subscription is cancelled |
| BrokerService.EmptyEntryRemains | packages/remote-backend/src/broker.ts:596-604 | a client that attached once and disconnected leaves an empty entry in the index by client, and none in the index by session |
| BrokerService.SessionBroker.ReplayTo | packages/remote-backend/src/broker.ts:254-258 | the replay loop sends one client the log entries after its cursor, in order, and nobody else anything |
| Delivery.DeliveredIsContiguous | packages/remote-client/src/handle.ts:191-330 | under every interleaving, what a handle passed on is a contiguous stretch of the host log, in order, each entry once, ending at its cursor; and it starts right after the attach head when nothing was missed |
| DeliveryLoss.CompleteIffNothingMissed | packages/remote-client/src/client.ts:157-190 | delivery stays complete in every continuation if and only if no event beyond the attach head was dispatched before the handle was subscribed |
| DeliveryLoss.LossIsReachable | packages/remote-backend/src/broker.ts:229-290 | from every initial state with an empty log some interleaving does lose an event: one that overtakes the attach reply |
| Delivery.DeliveredOnlyGrows | packages/remote-client/src/handle.ts:325-330 | across drops, re-attaches and escalations nothing delivered is taken back, reordered or repeated |
| Delivery.InFlightIsAllThatIsMissing | packages/remote-client/src/connection.ts:324-366 | after any run at all, a live attached handle that missed nothing lacks nothing but what is in flight: dispatching that delivers the whole log behind the attach head, and with nothing in flight it already has it |
| Delivery.DispatchingDelivers | packages/remote-client/src/handle.ts:325-330 | from every state meeting the invariant, dispatching the messages in flight one by one empties the channel and brings a following handle to the end of the log |
| Delivery.RecoversAfterDrop | packages/remote-client/src/handle.ts:280-330 | from every reachable state of a live handle: after a drop of its channel, whatever was in flight, a reconnect and a re-attach from the cursor bring it to the end of the log, nothing lost and nothing repeated |
| Delivery.ServedRequestDoes | packages/remote-backend/src/broker.ts:229-302 | served, a detach leaves the client neither attached nor holder, a release attached but not holder, and an attach attached exactly if granted, with the reply or the replay it asked for |
| Delivery.SurroundingsMove | packages/remote-client/src/connection.ts:324-366 | the steps of the host, of other clients, of a dropped channel and of a reconnect change exactly their own part of the system |
| Delivery.RunKeepsInv | packages/remote-client/src/connection.ts:324-366 | the relation between log, messages in flight, cursor and attachments that every step of the system keeps |
| Delivery.ReplayIsSuffix | packages/remote-backend/src/broker.ts:254-258 | on a log numbered from 0 the replay after a cursor is exactly the suffix of the log behind it |
| Delivery.DaemonAgentHandle.HandleEvent | packages/remote-client/src/handle.ts:325-330 | an event at or below the cursor, or after detach, changes nothing; any other is delivered once and becomes the cursor |
| Delivery.DaemonAgentHandle.ReattachRequest | packages/remote-client/src/handle.ts:293-295 | whatever log the handle has delivered from, what it delivered and the replay it asks for join to one stretch of that log up to its end; the mode is kept and nothing is forced |
| Delivery.DaemonAgentHandle.AcquireWrite | packages/remote-client/src/handle.ts:191-201 | a writer sends nothing; anyone else asks for write control with a replay that joins to what was delivered, and writes from then on if granted |
| Delivery.DaemonAgentHandle.HandleControl | packages/remote-client/src/handle.ts:340-346 | after a change of holder the handle is in write mode exactly when it holds control and either wrote already or acquired it |
| PromptAttach.PromptDeliveryIsExact | packages/remote-client/src/client.ts:169-190 | when an attach, its reply and the subscription are not overtaken, a handle delivers exactly the log from its attach head to its cursor, under every interleaving of everything else |
| PromptAttach.PromptDeliveryIsWhole | packages/remote-client/src/client.ts:169-190 | in such runs a live attached handle, once what is in flight is dispatched, has delivered the whole log behind its attach head |
| PromptAttach.PromptRunKeeps | packages/remote-client/src/client.ts:169-190 | in such runs the reply always precedes every event on the channel and no subscribed handle has missed any |
| Mirror.MirrorIsExact | packages/remote-proxy/src/mirror.ts:154-300 | in every reachable state each local entry has the type of the remote event at the same seq, its data or an empty object, and, for surface-eligible types only, its own surface op or `append` with its own source seqs; a live unfailed mirror covers everything its handle delivered |
| Mirror.DepictedOnce | packages/remote-proxy/src/events.ts:42-53 | no other local entry says of an event what its mirrored entry says, field by field |
| Mirror.BootstrapDecides | packages/remote-proxy/src/mirror.ts:176-273 | in every reachable state a bootstrap mirrors history entry by entry up to where it read, or gives up, exactly when an entry is rejected; publishing goes live |
| Mirror.FailedIsFrozen | packages/remote-proxy/src/mirror.ts:276-312 | a failed mirror never grows or recovers, and no mirror ever loses an entry |
| Mirror.FreezesIffHistoryOverlaps | packages/remote-proxy/src/mirror.ts:176-273 | fed by a complete delivery, some of it before and some after going live, a mirror ends up frozen if and only if something was delivered and history had run past the attach point, or a delivered event is rejected |
| Mirror.AppendAllFailsIff | packages/remote-proxy/src/mirror.ts:276-300 | draining a batch succeeds if and only if each event is the next seq and is accepted, and then appends exactly that batch |
| Mirror.ReplayKeepsExact | packages/remote-proxy/src/mirror.ts:176-209 | history replay yields exactly the image of the remote log up to the bound, and aborts if and only if some entry is rejected |
| Mirror.GuardedSession.AppendMirrored | packages/remote-proxy/src/mirror.ts:68-91 | one append through the guard window, which is closed again in every case |
| Mirror.GuardedSession.AppendLocally | packages/remote-proxy/src/mirror.ts:68-91 | an append outside the window is refused and changes nothing |
| Mirror.SessionMirror.AppendEvent | packages/remote-proxy/src/mirror.ts:276-300 | appends the event, or fails for good at a wrong seq or a rejected append |
| Mirror.SessionMirror.OnEvent | packages/remote-proxy/src/mirror.ts:160-174 | buffers before going live, appends after |
| Mirror.SessionMirror.ReplayHistory | packages/remote-proxy/src/mirror.ts:200-209 | replays history entry by entry or reports the first that does not fit |
| Mirror.SessionMirror.GoLive | packages/remote-proxy/src/mirror.ts:264-267 | drains the buffer in order after switching to live |
| History.ReadRemoteHistory | packages/remote-proxy/src/events.ts:66-94 | for every page size, start and growth of the log between pages, the result is exactly the log of the first page from the start on; an error exactly when the session cannot be read, or the start is negative and that log was not empty |
| History.CollectPages | packages/remote-proxy/src/events.ts:71-83 | the backwards loop terminates, refused exactly when the session is unknown or there is no store; its pages joined are one stretch of the log of the first page that reaches down to the start |
| History.RemoteSession.Fetch | packages/remote-backend/src/broker.ts:426-453 | a page of the live or stored log as it is then, or the refusal of a session that is unknown or cannot be read cold |
| History.PageIsWindow | packages/remote-backend/src/broker.ts:444-452 | a page is the last entries below the bound, as many as asked for, at least 1, at most 1000 and 200 by default, and says exactly whether any are left below |
| JsonWalk.WalkJsonValue | packages/seams/src/session-json.ts:75-168 | on every finite object graph, shared or cyclic, the explicit-stack walk terminates, accepts exactly the values the recursive specification accepts, and detached builds exactly its tree, no container referred to from two slots; otherwise it builds nothing |
| JsonWalk.PositionsAreDistinct | packages/seams/src/session-json.ts:170-184 | in such a copy containers at different positions are different containers |
| JsonWalk.SnapshotIffLosslessTree | packages/seams/src/session-json.ts:182-196 | the recursive specification accepts exactly the values from which only plain containers and lossless scalars and no cycle can be reached |
| JsonWalk.LosslessIs | packages/seams/src/session-json.ts:118-160 | what the walk checks of a value by itself amounts to: null, boolean, string or a finite number but negative zero, an array without holes or own keys beside its indices, an object with enumerable string keys only, prototypes plain |
| JsonWalk.SnapshotCopies | packages/seams/src/session-json.ts:75-168 | the snapshot has exactly the positions of the value, and at each the same scalar, an array of the same length or an object with the same keys in the same order |
| JsonWalk.SnapshotBelow | packages/seams/src/session-json.ts:75-168 | whatever is reached below an accepted value is accepted there too, and is none of the containers above |
| JsonWalk.ContainerKeepsWalking | packages/seams/src/session-json.ts:136-165 | opening a container and pushing its children keeps acceptance and the planned copy |
| JsonWalk.PlanChildrenFrom | packages/seams/src/session-json.ts:144-165 | pushing children last to first fills every child position with its own snapshot, in order |
| Lines.SplitAppend | packages/remote-core/src/framing.ts:65-92 | cutting a stream into lines piece by piece gives the lines of the whole |
| Framing.LineDecoder.Push | packages/remote-core/src/framing.ts:65-92 | after any earlier outcome: too long exactly when the bytes counted since the last line end plus the chunk exceed the cap, and then for good; otherwise the messages of exactly the completed lines, bad lines reported, the rest kept; without a handler an error exactly when a line is bad, with what follows the first bad line kept for the next push |
| Framing.LineDecoder.Flush | packages/remote-core/src/framing.ts:99-106 | an unterminated line that is not blank is an error; the decoder is empty afterwards |
| Framing.Pump | packages/remote-core/src/mux.ts:274-288 | reading chunk after chunk gives the messages of the stream up to the first chunk that trips the cap, and all of them exactly when none does |
| Framing.ChunkingIsIrrelevant | packages/remote-core/src/framing.ts:65-92 | however a stream is cut, the messages decoded are those of its lines |
| Framing.LinesRoundTrip | packages/remote-core/src/framing.ts:28-30 | for every codec that is sound for them, messages written as lines and cut anywhere come out as they went in, with nothing left over |
| Framing.TallyIsSound | packages/remote-core/src/framing.ts:28-30 | for every list of messages some codec writes each as one line that parses back |
| Framing.FrameRoundTrip | packages/remote-core/src/framing.ts:128-161 | decoding an encoded frame gives the frame back if and only if its channel number is legal, and nothing otherwise |
| Framing.FrameDecides | packages/remote-core/src/framing.ts:148-161 | in terms of the fields of any message: it is a frame exactly with the marker, a non-negative integer channel and one of the three types, with payload and message exactly if they are strings |
| Framing.EncodedFrameIs | packages/remote-core/src/framing.ts:128-138 | the fields an encoded frame has on the wire |
| Framing.OpenRoundTrip | packages/remote-core/src/mux.ts:185-196 | open frames survive the wire, and open and data frames are never taken for each other |
| Framing.OpenDecides | packages/remote-core/src/mux.ts:189-196 | in terms of the fields of any message: when it is an open frame, and the type of channel it opens |
| Channel.RunsKeepInv | packages/remote-core/src/mux.ts:98-172 | along every run delivered and queued chunks together are the accepted ones, queued bytes are exact and within budget, a reader waits only on an open empty channel, and the end comes last |
| Channel.EndedChannelDrains | packages/remote-core/src/mux.ts:131-172 | reading on after the end hands over everything accepted and then the end, in exactly one read more than chunks queued |
| Channel.AcceptKeepsInv | packages/remote-core/src/mux.ts:112-128 | accepting, handing over or overflowing on a payload keeps the channel invariant |
| Channel.PayloadGoes | packages/remote-core/src/mux.ts:112-128 | a payload is accepted exactly if the channel is open and a reader waits or it fits the budget together with everything unread; otherwise an open channel ends in overflow with one error frame |
| Channel.EndGoes | packages/remote-core/src/mux.ts:131-151 | only the first end counts; a waiting reader is told it at once, a clean end as the end of the stream and a failure as that failure |
| Channel.ReadGets | packages/remote-core/src/mux.ts:153-164 | a read gets the head of the queue, else the end as it was, else waits |
| Channel.EndStays | packages/remote-core/src/mux.ts:98-136 | in every run an ended channel keeps its end and accepts and writes nothing more |
| Channel.MuxChannel.TakeData | packages/remote-core/src/mux.ts:112-128 | straight to a waiting reader, else queued within the budget, else an error frame and the channel failed; nothing once ended |
| Channel.MuxChannel.Terminate | packages/remote-core/src/mux.ts:131-151 | the first end stays, and a waiting reader is told it |
| Channel.MuxChannel.Next | packages/remote-core/src/mux.ts:153-164 | a queued chunk, else the end, else the reader waits |
| Channel.MuxChannel.WriteChunk | packages/remote-core/src/mux.ts:98-103 | one data frame while open, refused afterwards |
| Channel.MuxChannel.CloseChannel | packages/remote-core/src/mux.ts:105-109 | one end frame and the channel finished, once |
| Mux.ChannelMux.Open | packages/remote-core/src/mux.ts:241-250 | refused exactly for a negative id or one in use; else an open frame and a fresh channel |
| Mux.ChannelMux.HandleLine | packages/remote-core/src/mux.ts:290-312 | an open line makes a channel unless the id is held, a frame goes to the channel held under its id, anything else changes nothing |
| Mux.ChannelMux.Forget | packages/remote-core/src/mux.ts:268-270 | a closed channel is forgotten unless its id has been taken again |
| Mux.ChannelMux.EndStream | packages/remote-core/src/mux.ts:274-288 | every channel still held fails with a lost connection and all are dropped |
| Mux.LineSays | packages/remote-core/src/mux.ts:290-312 | in terms of the fields of any line: which channel it opens, carries data for, ends or fails, with an empty payload or a default message where there is none |
| Mux.NextKeepsValid | packages/remote-core/src/mux.ts:205-313 | every step keeps all channels valid and the index naming exactly channels under their own ids, every open one among them |
| Mux.ReapFrees | packages/remote-core/src/mux.ts:268-270 | forgetting an ended channel frees its id unless a newer channel has it, and no other id |
| Mux.StreamEndFails | packages/remote-core/src/mux.ts:274-288 | the end of the stream fails exactly the open channels with a lost connection, keeps what they had queued, and forgets every id |
| MuxDelivery.ChunksArriveAsWritten | packages/remote-core/src/mux.ts:205-313 | end to end through encoding, JSON lines, JSON-RPC in between and arbitrary chunking: for a channel opened once by the sender, what the reader got with what is queued is exactly what was written, or a prefix once the receiving side ended the channel |
| MuxDelivery.ReceivesExactly | packages/remote-core/src/mux.ts:290-312 | whatever else happens, a channel the peer opens once accepts exactly the chunks its lines carry between opening and first end, and its reader gets exactly those |
| MuxDelivery.OtherStepsAreCalm | packages/remote-core/src/mux.ts:290-312 | a line or step that is not for a channel accepts nothing on it and does not end it |
| MuxDelivery.RunSends | packages/remote-core/src/mux.ts:98-128 | the frames sent for a channel opened once say exactly what was written to it |
| MuxDelivery.OtherLinesDoNotCount | packages/remote-core/src/mux.ts:290-297 | JSON-RPC lines on the shared stream do not change what the frames say |
| Base64.DecodeEncode | packages/subprocess-ssh/src/output.ts:51-52 | decoding an encoding gives every byte string back |
| Base64.WrappedLines | packages/subprocess-ssh/src/output.ts:47-55 | wrapping an encoding at 76 columns gives lines that are each base64-shaped, canonical, and decode together to the bytes |
| FrameDecoding.FramesRoundTrip | packages/subprocess-ssh/src/output.ts:32-73 | every byte string, wrapped, interleaved with control lines and cut anywhere, is decoded back exactly, every control line is reported, no line is taken for a diagnostic and nothing is left over |
| FrameDecoding.ChunkingIsIrrelevant | packages/subprocess-ssh/src/output.ts:32-58 | decoding depends on the lines of the stream only, errors included |
| FrameDecoding.NonCanonicalIsRefused | packages/subprocess-ssh/src/output.ts:51-54 | a base64-shaped line that is not its own re-encoding stops the decoder wherever it stands |
| FrameDecoding.LineDecides | packages/subprocess-ssh/src/output.ts:38-55 | a line, with or without a CR, is blank, a control frame, a payload that re-encodes to itself, a transport error or a diagnostic, each in exactly its case |
| FrameDecoding.FrameDecoder.Push | packages/subprocess-ssh/src/output.ts:32-58 | decodes exactly the completed lines of the buffered text and keeps the rest; fails exactly when one of them is not canonical |
| FrameDecoding.FrameDecoder.Finish | packages/subprocess-ssh/src/output.ts:65-73 | a required clean end fails exactly on a partial frame that is not white space; otherwise it is dropped |
| TailOutput.TailOutputReader.Push | packages/subprocess-ssh/src/output.ts:104-121 | exactly the last bytes of the stream up to the cap are retained, and both counters are exact |
| TailOutput.TailOutputReader.ReadFrom | packages/subprocess-ssh/src/output.ts:124-137 | the retained bytes from the offset on, the offset to go on from, and lossy exactly when the offset was dropped; the spill is advertised exactly when it may hold the whole stream |
| TailOutput.FollowerReassembles | packages/subprocess-ssh/src/output.ts:124-137 | a reader chaining offsets through lossless reads reassembles exactly what was pushed, with no gap or overlap |
| TailOutput.LossyIffBehind | packages/subprocess-ssh/src/output.ts:126-128 | a read loses bytes exactly when more than the cap arrived since its offset |
| TailOutput.ReadYields | packages/subprocess-ssh/src/output.ts:124-137 | at every offset a read, lossy or not, is a suffix of the stream: what lies behind the offset, up to the cap |
| Terminal.BootstrapOutputFilter.Push | packages/subprocess-ssh/src/terminal.ts:47-63 | however the stream is cut, the output is exactly what follows the first marker in all of it, and fewer than marker-length bytes are held back |
| Terminal.Scan | packages/subprocess-ssh/src/terminal.ts:52-62 | scanning the held suffix with the new bytes decides for the whole stream, whether the marker is found or not |
| Terminal.Align | packages/subprocess-ssh/src/terminal.ts:52-57 | a suffix one byte shorter than the marker is all a later occurrence can reach into |
| Text.NormalizeAfterCrlf | packages/fs-ssh/src/text.ts:8-20 | normalizing after converting to CRLF is the identity on every text |
| Text.CrlfAfterNormalize | packages/fs-ssh/src/text.ts:8-20 | converting to CRLF after normalizing is the identity exactly when every LF follows a CR |
| Text.NormalizeReplaces | packages/fs-ssh/src/text.ts:8-10 | the LF form is the pieces around the CRLFs joined by LFs |
| Text.CrlfReplaces | packages/fs-ssh/src/text.ts:17-20 | the CRLF form is the pieces around the LFs joined by CRLFs |
| Text.CountLiteral | packages/fs-ssh/src/text.ts:51-60 | the search loop counts the non-overlapping matches, first to last |
| Text.ReplaceAllLength | packages/fs-ssh/src/text.ts:63-68 | replacing all changes the length by the count times the difference |
| Text.ReplaceAllIsFirst | packages/fs-ssh/src/text.ts:63-68 | with one match replacing all is replacing the first; with none nothing changes |
| Text.CutsAreUnique | packages/fs-ssh/src/text.ts:51-68 | a text falls into pieces around the first-to-last matches in exactly one way |
| Text.SplitCuts | packages/fs-ssh/src/text.ts:51-68 | splitting yields those pieces, one more than there are matches counted |
| Text.LiteralEditIs | packages/fs-ssh/src/fs-ssh.ts:485-501 | for every file, old and new text: not found exactly with one piece, ambiguous exactly with more than two unless all are to be replaced, and then with the number of matches; else the same pieces joined with the new text, stored with CRLFs exactly if the file had one |
| Text.EditRewrites | packages/fs-ssh/src/fs-ssh.ts:485-501 | an edit is made and stores a text exactly when that text is the pieces of the file so joined |
| Text.EditingNothingKeepsBytes | packages/fs-ssh/src/fs-ssh.ts:485-501 | an edit that replaces a text by itself keeps the file's bytes exactly when it has no CRLF or every LF follows a CR |
| Text.ReportedIsNormalized | packages/fs-ssh/src/fs-ssh.ts:485-501 | the text reported after an edit is the LF form of what is stored exactly when the file had CRLF line endings or the reported text has none |
| Text.ReportedMayHoldCrlf | packages/fs-ssh/src/fs-ssh.ts:485-501 | an edit of an LF file for which it is not |
| Text.BinaryProbe.Push | packages/fs-ssh/src/text.ts:30-48 | the verdict is whether a NUL occurs in the first 8192 bytes of everything pushed, however it was cut |
| Text.ProbeIsPrefix | packages/fs-ssh/src/text.ts:22-48 | binary means a NUL in the first 8192 bytes |
| Mutex.SameKeyIsSerial | packages/fs-ssh/src/mutex.ts:10-28 | in every run tasks of one key never overlap, a task starts only when all earlier ones of its key have settled, and starts come in call order |
| Mutex.NeverWedged | packages/fs-ssh/src/mutex.ts:16-22 | whatever fails, while a task of a key is unfinished one of them runs or may start |
| Mutex.RunsKeepInv | packages/fs-ssh/src/mutex.ts:10-28 | the chain invariant behind it holds along every run, cleanups at any time included |
| Mutex.KeyedMutex.Run | packages/fs-ssh/src/mutex.ts:14-27 | chains the call to the key's tail, if the map still has one, and becomes the tail |
| Mutex.KeyedMutex.Forget | packages/fs-ssh/src/mutex.ts:23-25 | drops the tail only if no later call has replaced it |
| GuardedEdit.GuardedCallsAreExact | packages/fs-ssh/src/fs-ssh.ts:387-602 | in every run with outside writers between all steps, each change a call made is exactly what its request makes of the target just before it (an edit: the pieces around the matches joined with the new text, all or the only one), changes come in call order, success means the change was made, and an abort or a refusal by a check on what was read or by exit 3 or 4 means it was not |
| GuardedEdit.EditStatDecides | packages/fs-ssh/src/fs-ssh.ts:460-482 | which of empty old text, missing file, not a file and stale version an edit reports after its stat, each in exactly its case, and that it reads on in all others |
| GuardedEdit.WriteStatDecides | packages/fs-ssh/src/fs-ssh.ts:387-412 | which refusal a write reports after its stat, each in exactly its case, and that it stages its content in all others |
| GuardedEdit.ReadDecides | packages/fs-ssh/src/fs-ssh.ts:484-501 | whether binary content, no match, several matches or a staged text follows the read, each in exactly its case, in terms of the pieces of what was read |
| GuardedEdit.PublishDecides | packages/fs-ssh/src/fs-ssh.ts:511-602 | in every reachable state, which error or success a publish reports, each in exactly its case in terms of guard, target, rename and a lost outcome, and what it leaves on disk |
| GuardedEdit.SameElementsIff | packages/fs-ssh/src/fs-ssh.ts:553-602 | two files are the same to a version exactly when size, mtime and nine mode bits agree, and print the same when twelve do |
| GuardedEdit.LockFollowsMutex | packages/fs-ssh/src/fs-ssh.ts:387-454 | calling, starting, settling and cleaning up are the keyed mutex's own steps and touch nothing else |
| GuardedEdit.FailsAfterChangeIff | packages/fs-ssh/src/fs-ssh.ts:513-535 | a call fails although it changed the target exactly when the outcome of a script that exited 0 was lost or the stat after it failed |
| GuardedEdit.ChangedYetNotFound | packages/fs-ssh/src/fs-ssh.ts:529-535 | for every plain file and edit that matches it, a run in which the edit is made and a missing file is reported |
| GuardedEdit.OnlyPublishChanges | packages/fs-ssh/src/fs-ssh.ts:553-602 | the target changes only by an outside write or by a publish that carries out its request |
| GuardedEdit.QuietRunsAreSequential | packages/fs-ssh/src/fs-ssh.ts:352-385 | without outside writers the target is its first state taken through the calls' changes one after the other, in call order |
| GuardedEdit.SpecialBitsBlockEdits | packages/fs-ssh/src/fs-ssh.ts:553-602 | in every reachable state, a publish step of an edit over a target with a set-id or sticky bit leaves the target and the history of effects as they were |
| GuardedEdit.UndisturbedScript | packages/fs-ssh/src/fs-ssh.ts:511-602 | in every reachable state, the script of an edit whose target nobody changed since its stat exits 4 if and only if the target has a set-id or sticky bit, and 0 if and only if it has none and the rename works |
| GuardedEdit.UndisturbedEdit | packages/fs-ssh/src/fs-ssh.ts:454-537 | an edit over a text file it matches has an undisturbed run to its end: one that carries it out and succeeds when the file has no set-id or sticky bit, one that reports a stale version and changes nothing when it has |
| GuardedEdit.UnchangedFilePublishesIff | packages/fs-ssh/src/version.ts:30-37 | publishing over an unchanged file is refused with exit 4 exactly when it has a set-id or sticky bit |
| GuardedEdit.FullModeIsNotEnough | packages/fs-ssh/src/version.ts:30-37 | a change that clears a set-id bit and keeps the nine permission bits passes the guard although the printed triple is new |
| GuardedEdit.ExitCodes | packages/fs-ssh/src/fs-ssh.ts:562-602 | which exit code says what, and that every non-zero exit leaves the target untouched |
| GuardedEdit.PublishOverDirectory | packages/fs-ssh/src/fs-ssh.ts:568-579 | over a directory the script exits 0 exactly without a guard or under its own printed elements, and the directory stays |
| GuardedEdit.PublishCarries | packages/fs-ssh/src/fs-ssh.ts:511-526 | a publish that exits 0 does what the request says to the target exactly as it was |
| GuardedEdit.RunsKeepInv | packages/fs-ssh/src/fs-ssh.ts:387-602 | a call in flight either still has under it the file it saw or other elements than it saw, along every run |
| EditCall.RemoteTarget.Publish | packages/fs-ssh/src/fs-ssh.ts:562-590 | the script's guards, exit codes and rename |
| EditCall.Activation.OnStat | packages/fs-ssh/src/fs-ssh.ts:460-479 | the checks between the start of a call and its read, in order, each with its own failure |
| EditCall.Activation.OnEndOfFile | packages/fs-ssh/src/fs-ssh.ts:481-501 | probe, decode, count, replace and restore line endings give the staged text of the literal edit or the failure it has; what it stages is the file's pieces around the matches joined with the new text |
| EditCall.Activation.OnPublish | packages/fs-ssh/src/fs-ssh.ts:503-526 | the staged text is published under the observed elements, and the exit code, or the error of an exec whose outcome was lost, decides how the call goes on |
| EditCall.Activation.OnFinalStat | packages/fs-ssh/src/fs-ssh.ts:529-535 | the stat after the rename decides between success and its own failure |
| CanonicalJson.CanonicalTextIffSame | packages/remote-core/src/auth.ts:94-110 | two values of finite numbers and no negative zero get the same text if and only if they differ at most in the order of object keys |
| CanonicalJson.CanonicalTextIffReadsSame | packages/remote-core/src/auth.ts:94-110 | over every value that serializes, any number included, texts are equal if and only if the values read back the same, key order aside |
| CanonicalJson.CanonicalIsUnique | packages/remote-core/src/auth.ts:94-110 | a canonical text at the front of any text determines the value and where it stops |
| CanonicalJson.SameHaveSameText | packages/remote-core/src/auth.ts:101-107 | key order never shows in the text, at any depth |
| CanonicalJson.QuotedIsUnique | packages/remote-core/src/auth.ts:95-97 | a quoted string, escapes and lone surrogates included, determines its units and where it stops |
| CanonicalJson.SortAscends | packages/remote-core/src/auth.ts:103-104 | the keys come out strictly ascending by code unit |
| CanonicalJson.NumbersCollide | packages/remote-core/src/auth.ts:95-97 | a number that is not finite reads as null and negative zero as zero |
| JsonText.CanonicalIsJson | packages/remote-core/src/auth.ts:94-110 | over everything that serializes, the canonical text is a JSON text, by the grammar of RFC 8259, of the value it reads back as |
| JsonText.LessIff | packages/remote-core/src/auth.ts:101-107 | keys are ordered by their first differing code unit, a proper prefix first |
| JsonText.EscapeIsWellFormed | packages/remote-core/src/auth.ts:94-97 | whatever the string, its quoted text is well-formed UTF-16 |
| JsonText.PlainStringStays | packages/remote-core/src/auth.ts:94-97 | a well-formed string without control characters, quotes and backslashes is written as it is |
| JsonText.ThrowsIffUnsupported | packages/remote-core/src/auth.ts:109 | it throws exactly if something unsupported can be reached |
| CanonicalJson.MessageDetermines | packages/remote-core/src/auth.ts:116-124 | with nonces of equal lengths the signed message determines both nonces and the hello, and only those |
| CanonicalJson.MessageDeterminesIff | packages/remote-core/src/auth.ts:116-124 | of two inputs that sign one message, they are the same exactly when their nonces have the same lengths |
| CanonicalJson.MessageIsAmbiguousOtherwise | packages/remote-core/src/auth.ts:116-124 | with nonces of other lengths two different inputs sign the same message |
| Interaction.RequestsSettleOnce | packages/remote-backend/src/approval.ts:71-182 | over every run a request made is open or settled, never both, settled at most once; an open one has targets, exactly those it was sent to who have not gone, all connected; an answer came from a target connected at that moment, every other remaining target is told, and it failed closed only if it could be sent to nobody or everyone it was sent to had gone |
| Interaction.RunsKeepInv | packages/remote-backend/src/question.ts:70-219 | the invariant behind it, aborts, withdrawals and disposal included; no request made is ever lost |
| Interaction.RoutedToHolderOrAttached | packages/remote-backend/src/approval.ts:116-122 | a session's request goes to its write holder alone, or to exactly the attached clients when there is none |
| Interaction.LeaveSettlesExactly | packages/remote-backend/src/approval.ts:89-96 | a disconnect settles exactly the requests nobody is left to answer: one with other targets stays open with those, one with none is closed as deserted, nothing else is closed |
| Interaction.AnswerSettles | packages/remote-backend/src/approval.ts:71-86 | an answer from a target of an open request settles that request alone, with that answer and winner, every other target told; any other answer is without effect |
| Interaction.AbortSettles | packages/remote-backend/src/question.ts:158-166 | an abort settles the open request it names alone and tells all its targets; without one it is without effect |
| Interaction.DisposeSettles | packages/remote-backend/src/question.ts:62-67 | disposal withdraws every open request, oldest first |
| Interaction.AskDecides | packages/remote-backend/src/approval.ts:112-162 | a request is open for its targets, or settled at once as aborted, unavailable or delegated, each in exactly its case |
| Interaction.SettledForCause | packages/remote-backend/src/approval.ts:71-182 | over every run each settlement has a step of that run of its own kind: an answer was given in that run by its winner to that very request |
| Interaction.ViewFollowsBroker | packages/remote-backend/src/approval.ts:112-162 | over every run the bridges see the broker's own run and do not influence it |
| Interaction.LeaveKeepsInv | packages/remote-backend/src/serve.ts:251-258 | a disconnect of broker and bridge as one step keeps the invariant of all runs |
| Bridges.Bridge.ServedAllStaysValid | packages/remote-backend/src/approval.ts:112-182 | any number of broker operations between two calls of the bridge, short of a client leaving, keep the bridge valid for its next call |
| Bridges.Bridge.NoticeOnce | packages/remote-backend/src/approval.ts:164-182 | in every state of the bridge, of each settled request every other eligible client got exactly one closed notice, the winner and everyone else none |
| Bridges.Bridge.Settle | packages/remote-backend/src/approval.ts:164-182 | removes the request and tells every remaining target but the winner |
| Bridges.Bridge.TakeAnswer | packages/remote-backend/src/approval.ts:71-86 | accepted exactly from a target of an open request; then that request alone is settled, with that client as winner and that answer, and each other target is sent one closed notice; otherwise nothing changes |
| Bridges.Bridge.Handle | packages/remote-backend/src/approval.ts:112-162 | settled at once exactly when aborted or nobody can answer, as aborted, unavailable or delegated in exactly its case; otherwise open, with one request sent to each target |
| Bridges.Bridge.Disconnect | packages/remote-backend/src/approval.ts:89-96 | the client is no target any more, and the requests it was the last target of are settled, oldest first |
| Bridges.Bridge.AbortRequest | packages/remote-backend/src/question.ts:158-166 | an abort withdraws the question if it is still open, that one alone, and tells each of its targets once |
| Bridges.Bridge.DisposeAll | packages/remote-backend/src/question.ts:62-67 | every open question is withdrawn, oldest first, and its targets told |
| JsonRpc.CallsSettleOnce | packages/remote-core/src/jsonrpc.ts:120-165 | in every run ids are never reused, each call is pending or settled and settled once, a call settled by a message was settled by one with its own id, and no call made before the stream ended is pending after |
| JsonRpc.LateCallsHang | packages/remote-core/src/jsonrpc.ts:120-165 | a call pending after the stream ended, with timeouts off, is still pending after any run if and only if the run does not abort it |
| JsonRpc.LateCallIsPending | packages/remote-core/src/jsonrpc.ts:120-165 | every call made after the stream ended, in any state reached from the start, is such a call |
| JsonRpc.LateCallIsReached | packages/remote-core/src/jsonrpc.ts:194-212 | the shortest run to one |
| JsonRpc.RunsKeepInv | packages/remote-core/src/jsonrpc.ts:194-287 | the pairing invariant along every run of responses, aborts, timeouts and stream end |
| JsonRpc.OnlyRequestsAreAnswered | packages/remote-core/src/jsonrpc.ts:214-248 | data frames, notifications and response-shaped messages are never answered, whatever else they hold; a request is answered at once or handed to its handler, never both; only a response settles a call |
| JsonRpc.ResponseSettles | packages/remote-core/src/jsonrpc.ts:240-287 | in terms of the message's fields: one that is no frame, has no method, carries the number of a pending call and a result or an error settles that call alone, rejected exactly if the error is present and not null; no other message touches a call |
| JsonRpc.MessageDecides | packages/remote-core/src/jsonrpc.ts:214-248 | in terms of the message's fields: which message is handed to a handler, answered with which error under which id, or without effect, each in exactly its case |
| JsonRpc.RepliesMatchRequests | packages/remote-core/src/jsonrpc.ts:250-273 | in every run, for each id as many replies go out as requests with that id were answered |
| JsonRpc.CancelsMatchCalls | packages/remote-core/src/jsonrpc.ts:120-165 | in every run a cancel goes out for exactly the calls that were sent and then aborted or timed out |
| JsonRpc.JsonRpcPeer.Invoke | packages/remote-core/src/jsonrpc.ts:120-165 | a fresh id, and a request sent unless the signal was aborted already |
| JsonRpc.JsonRpcPeer.CancelCall | packages/remote-core/src/jsonrpc.ts:132-147 | settles a pending call and notifies the other side; a settled one is left alone |
| JsonRpc.JsonRpcPeer.HandleMessage | packages/remote-core/src/jsonrpc.ts:214-239 | each kind of inbound message has exactly its own effect; a response resolves or rejects exactly the pending call whose number it carries |
| JsonRpc.JsonRpcPeer.Reply | packages/remote-core/src/jsonrpc.ts:250-273 | a handler's value, or an internal error for its failure, goes out once under the request's own id |
| JsonRpc.JsonRpcPeer.HandleResponse | packages/remote-core/src/jsonrpc.ts:274-287 | settles the pending call the response names, resolved or rejected; unknown ids change nothing |
| JsonRpc.JsonRpcPeer.Teardown | packages/remote-core/src/jsonrpc.ts:194-212 | every pending call is settled as lost, oldest first, and none is left |

## Left out

- Text encodings: streams are bytes (or characters), UTF-8 decoding is a parameter where an edit needs it, and a multi-byte character held back by the streaming decoder is not counted against the line cap.
- White space: `trim` is modelled for the ASCII blanks only.
- JSON.parse, JSON.stringify of numbers, HMAC and SHA-256: abstract inverse or injective functions; a finite number is represented by its decimal text.
- Base64 text not produced by an encoder: Node skips foreign characters, the model stops at them; the frame decoder refuses such lines either way, a data frame payload from a foreign peer may differ.
- Mux.ChannelMux.HandleLine: channels are kept by value in a table, so the sharing of a channel object between mux and reader is not captured; `Channel.MuxChannel` is the object itself.
- Bridges.Bridge.Handle: one class for both bridges, because they mirror each other; request ids are a parameter, request payloads, pending-interaction replay and the waiting-approval flag are not modelled.
- GuardedEdit.GuardedCallsAreExact: what awaits separate are steps of a state machine, one target file, with `EditCall.Activation` for the code between them; temp names, unlinking of staged files, the resolve cache, the `before` text of a write and the version a success reports are not modelled, nor dangling symbolic links as targets.
- History.ReadRemoteHistory: a stored log is read like the live one; I/O errors of the persistence store are not modelled.
- JsonWalk.WalkJsonValue: getters, proxies and how a prototype is judged plain are facts of the object graph, not computed.
- CanonicalJson.CanonicalTextIffSame: sparse arrays and `toJSON` are not modelled.
- BrokerService.SessionBroker.Attach: the live buffer is always empty because attaching is synchronous, and is not modelled; the order of one client's notices across different sessions is not either.
- Delivery.DeliveredIsContiguous: backoff, generations and the `connected` state of a connection are not modelled; a re-attach may ask from any earlier cursor and with any mode, which covers the read fallback.
- Mirror.MirrorIsExact: listeners that append inside the guard window, the agent facade and inbox splices are not modelled.
- TailOutput.TailOutputReader.ReadFrom: returns bytes where the source decodes them to text.
- Terminal.BootstrapOutputFilter.Push: a destroyed output is not modelled.
- The fan-out of the inbound stream (packages/remote-backend/src/serve.ts:99-147): the JSON-RPC peer and the mux are each modelled on a stream of their own.
- Transports, hubs, profile boot, configuration, CLI, catalogs, metrics, file transfer, process termination: I/O and thin adapters.
