# Octopus load balancer: a verified model

Octopus is a single-process TCP load balancer. A master process relays bytes between clients
and servers, a forked monitor checks the servers, and an admin tool changes settings; all
three work on one shared structure. This project models the four parts of it that have the
most state, and proves what holds of them in every run:

- **The session relay** (`Relay`, `RelayInvariants`, `RelayStreams`, `RelayNonInterference`,
  `RelayStale`, `RelayDrain`, `RelayEnds`, `SessionObject`). A session has three buffers of 4096 bytes, a word of twelve
  flags, three descriptors and an epoll interest for each. Six handlers append to the
  buffers, shift them, flip flags and re-arm epoll.
- **The free list of sessions** (`SessionQueue`): a ring of session ids.
- **Server selection** (`UriHash`, `Selection`, `Choices`, `Fairness`, `Arrivals`, `Witness`,
  `ServerScans`): the available servers, the repair of stale cursors, five algorithms alone and
  over runs of the whole system, and the path from a request line to a bucket of the hash
  table.
- **The shared structure and the whole system** (`Registry`, `Monitor`, `System`, `Commands`,
  `Machine`, `Projection`, `DoubleGrant`, `BalancerObject`): server slots, connection counters, the hash
  table, the passes of the monitor, admin commands, and the interleaving of all of these with
  the handlers and the free list. `Projection` carries the results about one session over to
  runs of the whole.

`Modular` holds facts about remainders.

The handlers and passes exist twice: as functions on values, which the theorems are about, and
as methods of classes that hold real arrays (`SessionObject.SessionRecord`,
`SessionQueue.UnusedSessionQueue`, `BalancerObject.SharedBalancer`), each proved to take the
value of the object exactly where the function says.

## Environment and granularity

- A read is offered an error, end of file, or some bytes, and takes as many as there is room
  for. With no room it takes none, which the handlers cannot tell from end of file.
- A write fails or accepts between one byte and everything; a write to a closed descriptor
  fails. Connecting to a server can fail altogether, fail to bind, fail to be added to epoll,
  or succeed.
- A run of a session is any sequence of epoll events, whether or not epoll was asked for them;
  the few results that need epoll to report only what it was asked for say so (`Solicited`).
- One handler dispatch, one admin command, one check of one server and one pass of the monitor
  is one step; steps of master, admin and monitor come in any order. The program has no locks,
  so this granularity is an assumption. Which session an accepted client is given is left open
  in the system model, because even handing out a live session would not upset reference
  counts or hash accounting.
- Overlapping `memcpy` calls are taken as moves. `char` is signed. Loads are real numbers.
- What `qsort` returns is an input of the rebalance, constrained to be the same servers in
  order of load.

## Where the program departs from its intent

The model follows the program. Where a promise fails, a lemma shows that it does, and another
says exactly when it holds.

- *Allocation.* After startup the ring reads as empty and stays so: `NoSessionIsEverGranted`.
  Three things are wrong, and each correction is needed:
  - The remainder is taken by `head`, which agrees with the size of the ring in one situation
    only: `RemaindersAgree`.
  - The ring has as many slots as there are sessions: `SpareSlotNeeded`, `FullRingReadsEmpty`,
    `AddAppends`.
  - The filling loop writes and then advances, while releasing advances and then writes. With
    the other two corrections the loaded ring holds all sessions but the first, and then
    whatever was in memory (`LoadedRepresents`, `LoadedWithRoom`); it is the full free list if
    and only if there are no sessions, or that memory happened to name the first one
    (`LoadedIsFreeListIff`). Otherwise the first session is never handed out
    (`LoadedNeverGrantsFirst`), and in its place goes whatever was in memory: another session
    named there is handed to two clients, anything else is handed out as if it were a session
    (`LoadedGrantsMemory`). Allocation then fails exactly when all of the list is held
    (`LoadedGrants`).

  With all three corrected the ring is a correct free list: `FreeListRefinesScan`,
  `FreeListFromStart`. The rest of the model therefore takes the allocated session as given,
  except `Machine`, which joins the whole system to the ring so corrected.
- *The fresh mark.* No allocation sets it, so with HASH and STATIC no client is ever served:
  `DeferredChoiceNeverServes`. A live session without a member can come to have one if and only
  if it is fresh and has no member descriptor left over: `ServedIffFresh`. `setsFresh` is a
  parameter; in the source it is false.
- *A member that cannot be watched.* When a member is reached but cannot be added to epoll, its
  descriptor stays in the rejected session, and only then (`AcceptOutcome`,
  `DispatchGoesStaleIff`). Every later client accepted into that session whose selection succeeds
  is kept like any other (unless a clone socket cannot be bound), but never gets a member: an
  unused session can serve again if and only if no descriptor is left over and the choice is
  made at once or the client is marked fresh (`ReusableIff`). No step of the whole system ever
  repairs it (`StaleForever`).
- *A clone that cannot be watched* leaves its descriptor in a session that is kept and goes on
  with its member, and nothing else leaves one (`AcceptCloneOutcome`,
  `DispatchGoesStaleCloneIff`). A live session can come to have a clone if and only if it is
  fresh and has no clone descriptor left over (`ClonedIffFresh`), an unused one if and only if
  none is left over and the choice is made at once or the client marked fresh; whether it can
  still be served plays no part (`ReclonableIff`). This is never repaired either
  (`StaleForever`).
- *A full member buffer.* A write to the member raises its read flag even when its buffer is
  full, and the next read, having no room, is taken for end of file: `MemberWriteLoosens`,
  `FullBufferLosesTheMember` (if and only if), `BusySessionLosesItsMember` (how it comes about),
  `MemberReadHasRoom` (runs in which it does not).
- *Orphans.* A member lost by a hang-up or a failed write leaves a session that nothing but the
  client can end, if and only if no bytes were left for the client: `ReleasedIffBytesRemain`,
  `MemberLoss`.
- *Double release.* An event that brings both a read that ends the session and readiness to
  write gives the session back twice, and only such an event: `ReleaseCount`. A read ends a
  session at an error, at end of file, with nothing or no room to take, and when a first request
  is rejected: `ClientReadReleases`. Epoll can report such an event if and only if bytes wait for
  the client and there is room for bytes from it: `DoubleReleaseIff`. The session is then handed
  out twice (`ReleasedTwiceGrantedTwice`), and two clients share it (`TwoClientsShare`), which
  five moves from startup bring about (`SharingReached`). Checking the ownership guard again before the second handler
  changes that and nothing else: `GuardReleasesOnce`. In `Machine` the guard is a parameter; in
  the source it is not checked again.
- *The clone's copy* is made with `strncpy`: it is exact if and only if no chunk has anything
  but NULs after a NUL (`CloneStreamFidelity`).
- *A standby clone* in the clone cursor resets the member cursor: round robin goes on to the
  next member if and only if that branch is not taken or changes nothing
  (`RoundRobinAdvancesIff`), and there is a configuration, which a configuration file can set up
  in five steps (`ConfigurationReached`), in which one of two members is never chosen (`MemberZeroStarves`).
- *An unbound clone socket* turns away a client whose member was reached, and nothing else about
  a clone does: `OnlyAnUnboundCloneRejects`.
- *A null pointer* is dereferenced for a URI of question marks only: `UndefinedIff`.

## Model

| member | source | states |
|---|---|---|
| RelayInvariants.RunKeepsOk | src/octopus.c:369-814 | in every run a session stays live with all flags, buffers and epoll masks coupled, or becomes dead: buffer-full and ready flags hold exactly when the byte counts say so, used counts stay within the buffer size |
| RelayInvariants.DispatchKeepsOk | src/octopus.c:255-362 | one epoll event of any kind, with the second handler run even after the first has deleted the session, keeps that coupling |
| RelayInvariants.AcceptKeepsOk | src/octopus.c:211-243 | accepting a client into an unused session establishes the coupling, whatever connecting comes to |
| RelayInvariants.NoLostWakeup | src/octopus.c:432-468 | although handlers use shortened updates, in every run a session with its client is watched for client reads exactly when there is room and for client writes exactly when bytes wait; its member is watched for writes exactly when bytes wait and for reads whenever there is room (also, see below, at times when there is none); its clone always for reads and for writes exactly when bytes wait; without its client it is dead |
| RelayInvariants.ClientReadHasRoom | src/octopus.c:372-391 | a client read that epoll was asked for never has length zero |
| RelayInvariants.MemberWriteLoosens | src/octopus.c:665-687 | a successful member write leaves a read interest on a full buffer if and only if the buffer was full before it |
| RelayInvariants.FullBufferLosesTheMember | src/octopus.c:562-594 | after such a write, a member offering bytes to a read that follows before any write to the client is disconnected unread if and only if the buffer was full |
| RelayInvariants.BusySessionLosesItsMember | src/octopus.c:665-670 | every live session with a request pending and room left for an answer loses its member this way when the answer fills the buffer, with neither side closing |
| RelayInvariants.MemberReadHasRoom | src/octopus.c:598-610 | in runs that never write to the member while its buffer is full, every member read that epoll was asked for has room |
| RelayInvariants.MemberWatchIsTight | src/octopus.c:611-643 | in such runs a connected member is watched for reads exactly when its buffer has room, and for writes exactly when bytes wait |
| RelayInvariants.DispatchCounted | src/octopus.c:878-912 | whatever an event does, connections joined and dropped account exactly for the change of the session's two connections, what is joined is what was picked, and only a fresh session joins anything |
| RelayInvariants.AcceptCounted | src/connect.c:84-95 | the same for accepting a client, including failed epoll additions and rejected clients |
| RelayStreams.StreamFidelity | src/octopus.c:369-724 | in every run, bytes sent to the member, bytes dropped at deletion and bytes buffered are in order exactly the bytes read from the client, and likewise back; nothing is dropped while the session lives |
| RelayStreams.DispatchFaithful | src/octopus.c:474-505 | one event conserves both byte streams, and drops bytes only by releasing the session |
| RelayStreams.StrNCopyExact | src/octopus.c:419 | the copy of a chunk is exact if and only if only NULs follow a NUL |
| RelayStreams.StrNCopyAt | src/octopus.c:419 | byte by byte: the copy is the chunk up to its first NUL and NULs from there on |
| RelayStreams.CloneStreamFidelity | src/octopus.c:411-422 | while the clone stays connected (for how long, see CloneStaysIff), what it was sent and what waits for it is what was copied for it, and equals what the client sent if and only if every chunk is copied exactly; the first chunk of a session that gets its servers at its first request is included |
| RelayNonInterference.CloneNonInterference | src/octopus.c:727-814 | two-run property: established sessions that differ at most in their clone, under runs that differ at most in clone events, agree on all client and member buffers, flags, interests, streams, drops and releases |
| RelayNonInterference.CloneEventInvisible | src/octopus.c:878-894 | no clone event changes anything client or member can see |
| RelayNonInterference.OnlyAnUnboundCloneRejects | src/connect.c:153-158 | with the member reached, a client is rejected if and only if a wanted clone socket cannot be bound |
| RelayDrain.GracefulDrain | src/octopus.c:490-505 | after the member is gone with bytes buffered, any run in which the client neither closes nor fails delivers every byte before the one release; every client write shortens the buffer, and as many writes as bytes suffice |
| RelayDrain.OrphanLingers | src/octopus.c:896-912 | with nothing buffered, no such run ever releases the session |
| RelayDrain.ReleasedIffBytesRemain | src/octopus.c:494-501 | a session without its member can be released without the client's doing if and only if bytes remain for the client |
| RelayDrain.MemberLoss | src/octopus.c:568-594 | end of file or error on a member read keeps the session only with bytes to deliver; hang-up and failed write keep it always |
| RelayStale.NeverServed | src/octopus.c:399-410 | without a member, a session that is not fresh or has a member descriptor left over never gets a member in any run, and no byte is passed on |
| RelayStale.DeferredChoiceNeverServes | src/octopus.c:230-242 | with the choice deferred to the first request and no fresh mark set, no accepted client is ever served |
| RelayStale.ServedIffFresh | src/octopus.c:400-409 | a live session without a member can come to have one if and only if it is fresh and no member descriptor is left over |
| RelayStale.AcceptOutcome | src/octopus.c:211-243 | a client accepted into an unused session is kept exactly when it can be watched and an immediate choice is not rejected; it then has a member exactly when the choice was immediate and no descriptor was left over; a descriptor is left over afterwards exactly when it was before, or the chosen member was reached and could not be watched |
| RelayStale.DispatchGoesStaleIff | src/connect.c:84-92 | an event leaves a member descriptor over in a live session without one exactly when it brings the first request of a fresh session and the chosen member is reached and cannot be watched |
| RelayStale.ReusableIff | src/connect.c:84-92 | an unused session can serve some client in some run if and only if no member descriptor is left over and the choice is immediate or the client marked fresh |
| RelayStale.AcceptCloneOutcome | src/connect.c:172-180 | a client accepted into an unused session has a clone exactly when it is kept, the choice was immediate, the wanted clone was joined and no clone descriptor was left over; one is left over afterwards exactly when it was before, or a clone was reached past the member and could not be watched, and then the client is kept |
| RelayStale.DispatchGoesStaleCloneIff | src/connect.c:172-180 | an event leaves a clone descriptor over in a live session without one exactly when it brings the first request of a fresh session and the chosen clone is reached past the member and cannot be watched |
| RelayStale.ClonedIffFresh | src/connect.c:102 | a live session without a clone can come to have one if and only if it is fresh and no clone descriptor is left over |
| RelayStale.ReclonableIff | src/connect.c:102 | an unused session can be cloned for some client in some run if and only if no clone descriptor is left over and the choice is immediate or the client marked fresh, whatever its member descriptor |
| RelayStale.DispatchStale | src/connect.c:30 | no event gives a session with a left-over descriptor a member, or a clone, again |
| RelayDrain.ReleaseCount | src/octopus.c:280-286 | an event releases a session at most twice, and twice exactly when it brings readiness to write together with a read that takes nothing, or takes a first request that is rejected |
| RelayDrain.DoubleReleaseIff | src/octopus.c:280-286 | an event that epoll was asked for can release a live session twice if and only if bytes wait for the client and the client buffer has room |
| RelayDrain.ClientReadReleases | src/octopus.c:374-410 | a read ends a session, fresh or established, exactly at error, end of file, nothing offered or no room, or when a first request finds no member, cannot reach it, or wants a clone whose socket cannot be bound |
| RelayDrain.GuardReleasesOnce | src/octopus.c:257-286 | with the ownership guard checked again before the second handler, every event does to the session and to everything else what it does without, except that it releases at most once |
| RelayEnds.EndsIff | src/octopus.c:255-362 | an event ends a live session and gives it back if and only if it is a client hang-up or error, a client read that gets nothing or brings a first request that is rejected, a client write that fails or delivers the last byte with the member gone, or a member read that gets nothing with nothing left for the client |
| RelayEnds.LivesUntilEnded | src/octopus.c:854-875 | over runs: a session has its client exactly until the first event that ends it |
| RelayEnds.CloneLossIff | src/octopus.c:411-422 | an event costs a live session its connected clone if and only if it is a clone hang-up, an empty read from it, a failed write to it, a client read that brings more bytes than its buffer can still take, or ends the session |
| RelayEnds.CloneStaysIff | src/octopus.c:411-422 | over runs: the clone is connected exactly until the first such event, so until then it hears everything |
| RelayEnds.MemberLossIff | src/octopus.c:568-594 | an event costs a live session its connected member if and only if it is a member hang-up, a read from it that gets nothing, a failed write to it, or ends the session |
| RelayEnds.ClientMoves | src/octopus.c:474-505 | a client event takes from the client all it offers or as much as there is room for, and sends it all that waits for it or as much as is accepted, unless the read has ended the session |
| RelayEnds.MemberMoves | src/octopus.c:649-682 | the same between session and member, the write done unless the read got nothing |
| RelayEnds.CloneMoves | src/octopus.c:765-799 | the same from session to clone |
| RelayEnds.AcceptConnects | src/connect.c:84-95 | a kept client is on its own descriptor, and what it is connected to is what was picked, on the descriptors opened for it; it is fresh exactly when it was marked and the choice is deferred |
| RelayEnds.ConnectStatusExact | src/connect.c:18-190 | connecting reports -1 exactly for a member that is not reached or a wanted clone socket that cannot be bound, 1 exactly for a clone missed otherwise |
| SessionObject.Append | src/octopus.c:372 | bytes read land behind the used part of the buffer, in place |
| SessionObject.AppendString | src/octopus.c:419 | the in-place string copy is the chunk cut at its first NUL and padded |
| SessionObject.Shift | src/octopus.c:504 | what a write left over is moved to the front of the buffer |
| SessionObject.SessionRecord.constructor | src/init.c:158-167 | a new session is unused, with no descriptors and empty buffers |
| SessionObject.SessionRecord.DeleteSession | src/octopus.c:854-875 | closes what is connected, counts the drops, clears the session and releases it once |
| SessionObject.SessionRecord.ConnectServer | src/connect.c:18-190 | the session's association, flags, interests, joins and status for every way connecting can go |
| SessionObject.SessionRecord.Accept | src/octopus.c:211-243 | what accepting a client does to the session |
| SessionObject.SessionRecord.ClientRead | src/octopus.c:369-471 | the whole new session state and effects of the handler |
| SessionObject.SessionRecord.ClientWrite | src/octopus.c:474-557 | the whole new session state and effects of the handler |
| SessionObject.SessionRecord.MemberRead | src/octopus.c:560-646 | the whole new session state and effects of the handler |
| SessionObject.SessionRecord.MemberWrite | src/octopus.c:649-724 | the whole new session state and effects of the handler |
| SessionObject.SessionRecord.CloneRead | src/octopus.c:727-762 | the whole new session state and effects of the handler |
| SessionObject.SessionRecord.CloneWrite | src/octopus.c:765-814 | the whole new session state and effects of the handler |
| SessionObject.SessionRecord.Dispatch | src/octopus.c:255-362 | which handlers an event runs, in which order, and their joint effect |
| SessionQueue.NoSessionIsEverGranted | src/init.c:195-202 | in every run from startup, whatever was in memory, every allocation fails although all sessions are unused |
| SessionQueue.RemaindersAgree | src/octopus.c:826 | the remainder by head equals the remainder by ring size on a non-empty ring only for head 1 and two slots |
| SessionQueue.GrantsFirstSlotsOnly | src/octopus.c:818-828 | allocation as written, on any ring: nothing when it reads as empty, a division by zero with head at 0, and otherwise only ever the first or the second slot |
| SessionQueue.TakeRemovesOldest | src/octopus.c:849 | with the corrected remainder, allocation hands out the oldest queued session |
| SessionQueue.AddAppends | src/octopus.c:831-834 | giving a session back appends it if and only if another slot remains; otherwise the whole list reads as empty |
| SessionQueue.FreeListRefinesScan | TODO:6 | on a ring with more slots than sessions, in every run every session is either queued once or held once, and allocation fails exactly when a full scan would find no unused one |
| SessionQueue.FreeListFromStart | TODO:6 | the same from a startup that gives the sessions to the ring as releases do, for every number of sessions below the number of slots and every run |
| SessionQueue.SpareSlotNeeded | src/octopus.c:831-834 | a ring stocked that way refuses its first session if and only if it was given as many sessions as it has slots |
| SessionQueue.StepKeepsAccount | src/octopus.c:818-834 | on a ring with more slots than sessions, one allocation or release keeps what is queued and what is held together equal to what there was, counted with repetitions, and allocation fails exactly when all of it is held |
| SessionQueue.FullRingReadsEmpty | src/init.c:183-202 | with as many sessions as slots, when the last session is given back none can be handed out |
| SessionQueue.LoadedRepresents | src/init.c:195-202 | which list the filling loop leaves, for any number of slots and sessions and any memory, and that it reads as empty exactly when the slots divide the sessions |
| SessionQueue.LoadedWithRoom | src/init.c:199-200 | with slots to spare that list is all sessions but the first, followed by what was in memory |
| SessionQueue.LoadedIsFreeListIff | src/init.c:195-202 | the filled ring is a list of all sessions, each once, if and only if there are none, or there is a slot to spare that already named the first session |
| SessionQueue.LoadedGrants | src/init.c:195-202 | whatever was in memory and for any number of slots and sessions, in every run with the corrected remainder only what the filled ring lists is handed out, each as often as it is listed, and allocation fails exactly when all of it is held |
| SessionQueue.LoadedNeverGrantsFirst | src/init.c:199-200 | unless the memory named it, no run with the corrected remainder and slots to spare ever hands out the first session |
| SessionQueue.LoadedGrantsMemory | src/init.c:199-200 | n allocations from the filled ring with slots to spare hand out every session but the first once, and what was in memory once more: twice, then, if it names another session |
| SessionQueue.ReleasedTwiceGrantedTwice | src/octopus.c:873 | a session released twice is queued twice behind whatever is queued, and in its turn handed to two clients in a row |
| SessionQueue.UnusedSessionQueue.constructor | src/init.c:176-207 | the filling loop, as the source sizes the ring, leaves every slot filled and rear equal to head |
| SessionQueue.UnusedSessionQueue.Get | src/octopus.c:818-828 | allocation as the source does it, division by zero included |
| SessionQueue.UnusedSessionQueue.AddUnusedSession | src/octopus.c:831-834 | the ring after giving a session back |
| UriHash.DjbHash | src/algorithms.c:122-130 | the wrapping 32-bit loop truncated to 16 bits is 5381*33^n plus the characters weighted by falling powers of 33, modulo 2^16, for every string |
| UriHash.PolynomialGrows | src/algorithms.c:122-130 | that value starts at 5381, and every further signed character multiplies it by 33 and is added |
| UriHash.Bucket | src/algorithms.c:182-188 | every bucket is below the table size minus one |
| UriHash.QueryIsIgnored | src/algorithms.c:214-237 | a well-formed request line asks for its path whatever its verb, query and version |
| UriHash.SamePathSameBucket | src/algorithms.c:203-239 | the same from the raw buffer, old bytes included, when the line ends within the line buffer |
| UriHash.PathExact | src/algorithms.c:214-237 | what any request with a path asks for: after the first word and any number of spaces, the word up to the next space or the end, without leading question marks and without what follows the next one |
| UriHash.NotHttpIff | src/algorithms.c:216-244 | a line is taken for no request exactly when nothing but spaces follows its first space |
| UriHash.LineExact | src/algorithms.c:213 | what is taken for the first line of any buffer: up to and with the first newline, or up to a NUL or the end; none exactly when the line buffer is filled first |
| UriHash.UndefinedIff | src/algorithms.c:225-231 | on a line that ends, a null pointer is used exactly for a second word of question marks only |
| Registry.InitialOk | src/init.c:256-301 | the initial structure satisfies the registry and hash accounting invariants |
| Registry.CreateKeeps | src/octopus.h:425-456 | a new server takes a free slot, carries its index, and leaves every other slot untouched; slots past the count stay free |
| Registry.DeletedStaysDeleted | src/admin.c:1289-1331 | no command and no probe brings a deleted server back |
| Selection.Verify | src/algorithms.c:106-119 | the verdict is -1 exactly for servers that may not be used, 1 for usable standbys, 0 for the others |
| Selection.Scan | src/algorithms.c:23-43 | a scan lists exactly the eligible servers it is meant to consider |
| Selection.AvailableSound | src/algorithms.c:14-60 | no member is offered exactly when none is eligible; otherwise exactly the eligible ones, standbys only if there is nothing else, with a cursor among them; clones that are offered are eligible |
| Choices.AvailableExact | src/algorithms.c:14-99 | exactly what a selection is offered: in slot order the eligible members, standbys only if there is nothing else; clones the same way, exactly while cloning is on; the member cursor kept if listed and otherwise the first listed one, also reset when the clone cursor is on a usable standby while plain members are usable; the clone cursor kept if usable and otherwise the first listed one |
| Choices.ChooseExact | src/algorithms.c:132-369 | exactly what a selection picks of that, for every algorithm and request, member and clone: the follower of the cursor for RR; the first with the fewest connections from the follower on for LC, and under HASH and STATIC without a path, and under HASH for a bucket without a usable member; the first with the smallest load plus weighted connections from the cursor on for LL; the entry at bucket modulo length for STATIC; the bound member for HASH; and these become the cursors |
| Choices.ClonesIff | src/algorithms.c:62-87 | a selection comes with a clone exactly while cloning is on and some clone is eligible |
| Selection.RepairedMemberIsListed | src/algorithms.c:52-60 | a cursor left on a freed, reused or disabled slot is repaired to an available member |
| Selection.SelectionSound | src/algorithms.c:132-369 | for all five algorithms: failure exactly when no member is eligible; the chosen member is enabled, under its limit, in strict mode not above 100% load, a standby only if nothing else is eligible; the chosen clone is eligible |
| Selection.ChooseKeepsOk | src/algorithms.c:246-290 | a selection keeps registry and hash accounting and changes only cursors, table and usage counters |
| Selection.LeastIsMinimum | src/algorithms.c:328-345 | the scan for a smaller key ends at a minimum, and at the cursor when nothing is smaller |
| Selection.AssignKeepsOk | src/algorithms.c:286-289 | binding a free bucket keeps the accounting, and the 16-bit counter cannot wrap |
| Selection.UnbindKeepsOk | src/algorithms.c:268-269 | taking a bucket from its member keeps the accounting, and the counter cannot go below zero |
| Selection.BoundRequestHits | src/algorithms.c:247-262 | a request for a bound bucket goes to its member while that may be used, also a standby when there are only standbys, and changes nothing in the table |
| Selection.UnusableIsReplaced | src/algorithms.c:264-290 | a request for a bound bucket whose member may not be used takes the bucket to another member |
| Selection.RequestBinds | src/algorithms.c:264-290 | every request with a path leaves its bucket bound to the member it was sent to |
| Selection.OtherBucketsStay | src/algorithms.c:203-292 | no request moves another bucket, nor a bound one whose member is usable |
| Fairness.RoundRobinFair | src/algorithms.c:351-358 | over any sequence of balancers in which each starts from the cursor the one before picked, n selections over k unchanged available members choose each n/k times or once more, exactly n/k when k divides n |
| Arrivals.RoundRobinFairInRuns | src/algorithms.c:132-155 | the same for the selections of any run of the whole system, with any steps of master, admin and monitor in between |
| Arrivals.OnlySelectionsMoveTheCursor | src/algorithms.c:351-358 | no step but one with a selection moves the member cursor, and that moves it to the pick |
| Fairness.RoundRobinAdvancesIff | src/algorithms.c:92-95 | round robin goes on to the next member if and only if the clone branch is not taken or changes nothing |
| Fairness.ClobberedRoundRobinSticks | src/algorithms.c:93-95 | when that branch is taken, the second available member is picked whatever the cursor was |
| Witness.RoundRobinSticks | src/algorithms.c:88-96 | with two members and a lone standby clone that can all take a connection, a selection picks member 1 whatever the cursor, and keeps the configuration |
| Witness.MemberZeroStarves | src/algorithms.c:88-96 | in every run of accepted clients and handled events from there, with a connection free on all three at every selection, every pick is member 1 although connections are made and dropped |
| Witness.ConfigurationReached | src/config.c:193 | that configuration is reached from startup by the five steps named: two members and a standby clone created enabled, round robin chosen, cloning switched on |
| Fairness.LeastConnectionsPick | src/algorithms.c:320-345 | LC picks a member with the fewest connections of those available, the round-robin successor if it is one |
| Arrivals.LeastConnectionsStaysEven | src/connect.c:93 | over any run of the whole system in which no session loses its member and the available members are the same at every selection, a spread of at most one connection stays at most one, connections counted as they are made |
| Fairness.LeastLoadPick | src/algorithms.c:294-304 | LL picks a member with the smallest weighted load, the repaired cursor if it is one |
| Fairness.StaticAgrees | src/algorithms.c:190-193 | two balancers with different histories that offer the same members send a path to the same one |
| Fairness.StaticSeparates | src/algorithms.c:190-193 | two paths go to the same member exactly when their buckets agree modulo the number of available members |
| ServerScans.Collect | src/algorithms.c:23-32 | the loop computes the scan |
| ServerScans.FindSuccessor | src/algorithms.c:353-358 | the loop finds the successor of the cursor in the list |
| ServerScans.FindLeastConnections | src/algorithms.c:328-334 | the loop finds the first of the least connected |
| ServerScans.FindLeastLoad | src/algorithms.c:297-304 | the loop finds the first of the least loaded |
| ServerScans.FindFree | src/octopus.h:428-435 | the loop finds the first free slot |
| ServerScans.AnyEnabled | src/octopus.h:367-376 | the count of disabled clones decides whether some clone is enabled |
| ServerScans.UnassignEntries | src/monitor.c:247-251 | the loop unassigns exactly the entries of one member, in place |
| ServerScans.CollectSubjects | src/monitor.c:431-436 | the loop copies the enabled non-standby members in order |
| ServerScans.MoveEntries | src/monitor.c:457-467 | the loop moves the first entries of one member to another until enough have moved, in place, and lowers and raises the two 16-bit counters once for each |
| ServerScans.MemberLoads | src/monitor.c:483-494 | the loop sets effective loads in place and sums load and capacity of the contributing members |
| Monitor.ReapMembersKeeps | src/monitor.c:241-261 | the pass frees exactly deleted members without connections, unassigns exactly their entries, and keeps registry and accounting while the count shrinks under it |
| Monitor.ReapClonesKeeps | src/monitor.c:262-276 | the pass frees exactly deleted clones without connections and keeps the registry while the count shrinks under it |
| Monitor.RebalanceMovesShare | src/monitor.c:447-467 | the rebalance acts on two different eligible members and moves exactly the rounded-down percentage of entries from one to the other; every other entry stays and the total is conserved |
| Monitor.RebalanceExact | src/monitor.c:421-471 | the two members are the most and the least loaded of the enabled plain ones, and k entries change hands where 100 k is the largest multiple of 100 not above usage times percentage; nothing else changes hands |
| Monitor.RebalanceKeepsOk | src/monitor.c:461-466 | the rebalance keeps registry and accounting, and no 16-bit counter wraps |
| Monitor.OverallLoadIsAverage | src/monitor.c:483-507 | whenever some member contributes, the overall load lies between the smallest and the largest effective load of the contributing members, for any number of them |
| Monitor.EffectiveLoadExact | src/monitor.c:483-506 | the effective load of a member or clone is its load as a percentage of its limit, rounded down, and zero without a limit or a load; a clone load of zero counts as a load; nothing else about the server changes |
| Monitor.OverallLoadExact | src/monitor.c:483-507 | the overall load is the total load of the contributing members as a percentage of their total limit, rounded down, and stays as it was when there is none |
| Monitor.TotalsAdd | src/monitor.c:483-494 | the totals are sums: those of two rows of servers together are the sums of those of each |
| System.StepKeepsInv | src/octopus.c:145-364 | any single step of master, admin or monitor keeps the system invariant |
| System.SharedKeeps | src/monitor.c:312-383 | every admin command and monitor pass keeps registry, hash accounting and all connection counts |
| System.ReferenceCountSafety | src/monitor.c:238-278 | in every interleaving from startup each counter equals the number of connected sessions, and no connected session points at a free or out-of-range slot |
| System.FreedSlotsAreUnreferenced | src/monitor.c:238-278 | when the slot of a member or clone is free after a step, no session is connected to it |
| System.HashAccounting | src/algorithms.c:246-290 | in every interleaving from startup each usage counter equals the number of entries naming the member and fits 16 bits, and every assigned entry names a member in use |
| System.LimitsInRuns | src/algorithms.c:25-31 | in every run that does not change limits, no server exceeds its connection limit |
| System.LimitChange | src/admin.c:974-984 | a change of the limit of a member or clone keeps that if and only if the new limit is not below the count |
| System.DeletedOnlyFreed | src/monitor.c:25-27 | whatever step is taken, a deleted member or clone stays deleted or is freed with no connection left |
| Commands.SlotAfter | src/admin.c:929-1022 | exactly what every command, check and pass does to every slot of members and clones: who becomes enabled, disabled, failed, deleted, free or created, whose standby mark, limits and loads change and to what, and that nothing else does |
| Commands.UpAndDownIff | src/monitor.c:124-143 | a server comes up exactly when a failed one is found alive, a disabled one is enabled or an enabled one is created in the first free slot; an enabled one goes down exactly when it is found dead, disabled or deleted |
| Commands.DownIsNeverPicked | src/monitor.c:15-150 | in every run of the whole system, no selection picks a member or clone that is not enabled until such a step brings it up |
| Commands.TakenDownIsNeverPicked | src/monitor.c:141-143 | so after a failed check, a disabling or a deletion, no selection picks the server until a later successful check, an enabling command or the reuse of its slot |
| Commands.CloneModeAfter | src/octopus.h:363-387 | when cloning is on after a step: as before unless switched or re-evaluated, and then off if it is switched off, and otherwise on if and only if some clone is enabled now |
| Commands.SettingsAfter | src/config.c:290-291 | the other settings change by configuration only, each to what it is given; the overall load by the load pass only; the cursors by no command, check or pass |
| Commands.CountAfter | src/octopus.h:425-456 | the number of slots in use grows exactly when a new server finds no free slot and shrinks exactly when the last one is freed |
| Commands.SelectsExactly | src/octopus.c:230-242 | a step selects servers exactly at accept under RR, LC and LL, or at the first request of a fresh session, when some member is eligible; HASH and STATIC then go by what that request starts with |
| Commands.SelectedIsConnected | src/connect.c:84-95 | a session that a selection connects is connected to the selected member and clone, on the descriptors opened for them |
| System.SessionsStayCoupled | src/octopus.c:200-243 | with an allocation that hands out unused sessions only, every session stays coupled in every run of the whole system |
| System.BucketMovesIff | src/algorithms.c:246-290 | a step of master, admin or monitor takes a bucket from its member if and only if it brings a request in it while the member may not be used and another may, frees the member, or is a rebalance that reaches this very entry |
| System.StaleForever | src/connect.c:84-92 | in every run of the whole system, a session with a left-over member descriptor never has a member again, whoever is accepted into it; likewise for clones |
| System.HashAffinity | octopuslb.conf:61-66 | once a bucket is bound, through any steps of which none takes it in one of these ways, it stays bound and every request in it that gets a member gets this one, also across times at which the member may not be used |
| Projection.SessionRuns | src/octopus.c:255-362 | in every run of the whole system in which no client is accepted into it, a session is where its own run of the events it gets has taken it |
| Projection.StreamFidelityInRuns | src/octopus.c:369-724 | stream fidelity in both directions, for a session in any such run of the whole system |
| Projection.LivesUntilEndedInRuns | src/octopus.c:255-362 | in the whole system a session has its client exactly until the first of its events that ends it, and its clone exactly until the first that costs it or ends the session |
| Projection.CloneNonInterferenceInRuns | src/octopus.c:727-814 | two runs of two systems: established sessions that differ at most in their clone and get the same events but for clone events look the same to client and member |
| Projection.GracefulDrainInRuns | src/octopus.c:490-505 | graceful drain, for a session in any such run of the whole system |
| Machine.WholeSystem | src/octopus.c:818-875 | from the corrected startup on the corrected ring, in every run of master, admin and monitor if the guard is checked again, and otherwise in every run without an event that ends a session twice: references are safe, every session is coupled or dead, the ring holds exactly the sessions without a client, each once, and a client is refused a session if and only if every session has a client |
| Machine.AdvanceKeepsGood | src/octopus.c:200-243 | every accepted client, handled event, admin command and monitor pass keeps all of that, unless the guard is not checked again and a read that ends the session comes with readiness to write |
| Machine.DoubleReleaseBreaks | src/octopus.c:280-286 | the condition is exact: after such an event the ring is no list of the sessions without a client |
| Machine.ConnectReleases | src/octopus.c:200-243 | accepting a client into an unused session leaves it with the client, or dead and given back exactly once |
| Machine.ServeReleases | src/octopus.c:257-361 | an event gives its session back if and only if it is one of those that end it, with the guard once, without it twice exactly for a read that ends the session with readiness to write; a session without a client is left alone |
| Machine.BootedIsGood | src/octopus.c:831-834 | when the sessions are given to the ring at startup the way they are released, in place of the filling loop, the ring holds every session and every session is unused |
| Projection.ClientKeepsItsSession | src/octopus.c:200-201 | while it has a client, nobody else is accepted into a session of the machine, so its moves are a run of the system of that kind |
| DoubleGrant.TwoClientsShare | src/octopus.c:280-286 | without the guard, with every session in use, when a client closes while bytes wait for it the next client is accepted into its session, and the allocation gives the one after that the same session while it is in use |
| DoubleGrant.SharingReached | src/octopus.c:200-286 | that happens within five moves from startup: a member is created, a client served, its member answers, it closes, another connects |
| BalancerObject.SharedBalancer.constructor | src/init.c:256-301 | the initial structure, with the table loop |
| BalancerObject.SharedBalancer.GetAvailableServers | src/algorithms.c:14-99 | what the method leaves in the global variables |
| BalancerObject.SharedBalancer.SetRrServer | src/algorithms.c:351-369 | the cursors after round robin |
| BalancerObject.SharedBalancer.SetLcServer | src/algorithms.c:320-345 | the cursors after least connections |
| BalancerObject.SharedBalancer.SetLlServer | src/algorithms.c:294-316 | the cursors after least load |
| BalancerObject.SharedBalancer.SetStaticServer | src/algorithms.c:157-200 | the cursors after static hashing |
| BalancerObject.SharedBalancer.SetHashServer | src/algorithms.c:203-292 | the cursors, the table and the counters after hashing |
| BalancerObject.SharedBalancer.ChooseServer | src/algorithms.c:132-155 | the choice and the whole new structure |
| BalancerObject.SharedBalancer.CreateServer | src/octopus.h:397-459 | the whole new structure |
| BalancerObject.SharedBalancer.SetClonedState | src/octopus.h:363-387 | the new clone mode |
| BalancerObject.SharedBalancer.CommandAllServers | src/admin.c:987-1022 | the whole new structure after enabling or disabling all servers |
| BalancerObject.SharedBalancer.CommandOne | src/admin.c:1299-1331 | which targets are accepted, and the whole new structure |
| BalancerObject.SharedBalancer.CheckServerState | src/monitor.c:15-150 | the whole new structure for either outcome of the probe |
| BalancerObject.SharedBalancer.HandleDeleteServers | src/monitor.c:238-278 | the whole new structure |
| BalancerObject.SharedBalancer.RebalanceHash | src/monitor.c:421-471 | the whole new structure |
| BalancerObject.SharedBalancer.CalcEffectiveLoad | src/monitor.c:475-510 | the whole new structure |

## Left out

- Socket creation and options, errno handling and SNMP: only their outcomes are modelled; a
  socket left open by a failed connection attempt is not tracked.
- Descriptor numbers and the `fds` lookup table: an event reaches the session and role it
  belongs to, and an event on a descriptor number recycled within one batch is not modelled.
- Byte and completed-connection statistics, logging, debug output, signals, shared-memory setup,
  daemonising and configuration parsing.
- The admin prompt, help, show and info output, and parsing of command words: commands appear
  with their parsed targets and values.
- Floating-point rounding: loads and weights are real numbers.
- Races inside a step between the three processes: the program has nothing to reason from.
- A request line with no end within the first 200 bytes of the buffer, and a URI of question
  marks only: undefined in C, so a step that would lead to a selection by HASH or STATIC on them
  is not possible in the system model.
- Creating a server when all 512 slots are taken: the program writes past the array; room is a
  precondition.
- Standby preference among clones: only the eligibility of the chosen clone is claimed.
- `pop_unused_session` itself, which nothing calls: only its remainder is used, for the corrected
  allocation.
