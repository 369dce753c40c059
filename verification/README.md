# Verified model of the voice and screen-share system

A Dafny model of the parts of VoIPC that keep state or do arithmetic worth proving: the server's
channels, members, screen shares and UDP address learning; the client's video sender, frame
assembler, H.265 stream parser, jitter buffer and colour conversion; the packet formats and the TCP
framing. `dafny verify dfyconfig.toml` checks all of it.

Code that updates objects in place is a class here, with the same fields and the same steps, and each
of its methods is proved to do what a specification function says. The laws are lemmas about these
functions, over all inputs, all packet sequences, or all runs.

| part | files |
|---|---|
| server state and handlers | ServerModel (what each operation does), ServerState (the class, step by step), ServerInvariants, ServerNumbers (what becomes of it when a number is drawn that is in use) and ServerRuns (membership, every run, UDP learning), ServerTimers, ServerShares, ServerRouting, ServerExamples (runs that reach the failing sides); then what users can rely on, said of the state and the events alone: ServerRooms (what each event does to the channels), ServerAccess (who gets in and out), ServerViewing (who watches whom), ServerLimits (who is connected, how often a password can be tried) |
| packets and video frames | Bytes, Packets, Fragmentation, Assembler, Reassembly |
| screen sharing end to end | ScreenSend (bounded queue, concurrent network task), ScreenReceiver (opening, change of sharer, what is shown) |
| H.265 | Bitstream (emulation prevention, bit reader, ue(v)), Sps, AnnexB |
| audio | Jitter |
| pictures | I420 (plane geometry), Colour, Scale |
| transport | Framing, RateLimiting |

A server run is any sequence of events: logins, client messages, UDP datagrams, timer firings,
disconnects. Each handler is one atomic step. Time, tokens, peer addresses, the password hash and
lower-casing are parameters. In ScreenSend the other threads may act between any two steps.

## What the proofs found

Where a property one would expect is false of the code, the code is modelled as it is and the exact
condition is proved.

- A kick does not clean up screen shares: it breaks the share invariant exactly when its target was
  sharing or watching in that channel (`KickKeepsSharesIff`). `KickStrandsShare` is a run of six events
  from start-up that ends with such a share. A kicked viewer is still sent the video: a kick changes
  nothing about who is sent whose video but that it ends its target's own (`KickKeepsVideo`,
  `KickedViewerIsStillSent`). Membership survives every kick.
- A new channel whose creator is stopped by the password rate limiter stays behind empty and without
  a delete timer; nothing else leaves a channel like that (`CreateTimedIffJoined`, `StepTimed`).
  `CreationStrandsChannel` is a run of five events from start-up that ends with one.
- `join_channel` alone uses up an invitation even when the channel is full; the handler never gets
  there because it validates first (`Server.JoinChannel`, `JoinIsAllOrNothing`).
- Id counters wrap at 32 bits, and nothing checks that a number is free. A login keeps the invariant
  exactly when both numbers it draws are free (`LoginKeepsInvariantIff`). A channel creation keeps it
  exactly when its number is free or belongs to a channel that can go: not General, no delete timer
  running, and nobody in it but possibly the creator, whom the rate limiter then lets in
  (`CreationKeepsInvariantIff`); it costs a screen share in that channel (`StepKeepsSharesIff`).
  So the invariant holds throughout a run exactly when its draws are harmless
  (`InvariantThroughoutIff`), which they are until logins or creations have used up a counter
  (`FewDrawsAreHarmless`). `WrapBreaksInvariant` is a run from start-up that gets there: one client
  stays, another comes and goes 2^32 - 1 times, and the next login takes over the first one's session.
- A voice packet is taken for late exactly up to 999 behind the playback position
  (`PushIsIgnoredIff`). One that is k >= 1000 behind is taken to be ahead, and the next drain goes on
  for 2^32 - k + 1 frames at least, all lost but those that are held (`OldPacketFloodsDrain`).
- A stream that arrives in order is played in order, all of it and nothing else, as long as no more
  packets wait for a drain than the buffer takes, 4 times the target delay, nor so many that the newest
  looks late; within one round of the sequence numbers this is the exact condition
  (`StreamIsPlayed`, `StreamIsPlayedIff`).
- The first drain starts from the numerically smallest sequence number, not from the first one sent
  (`FirstDrainSpans`). A first burst that straddles the wrap of the sequence numbers therefore takes
  2^32 frames, its second part first; one that does not is played in order and alone (`FirstBurst`).
- After a release the assembler releases the same frame, or any older one, again exactly when all its
  fragments arrive again (`FrameIsReleasedAgainIff`).
- A screen-audio packet that arrives first from a new sharer takes the session over without resetting
  the video assembler, so the first frame shown need not be a keyframe
  (`NewSharerStartsWithKeyframeIff`).
- A keyframe that finds too little room in the queue is dropped exactly when the sending thread has no
  async runtime to wait in, as on the plain thread that
  client/src-tauri/src/screenshare/linux.rs:286-300 starts, and the call then asks for no other one:
  it asks exactly when it drops a delta (`SendEncodedFrames`). The comment at
  client/src-tauri/src/screenshare/mod.rs:415-417 promises all-or-nothing, which does hold.
- Scaling to another size and back loses nothing exactly when the sizes are multiples in the luma and
  chroma planes, which odd sizes can fail even for integer factors (`ThereAndBackIff`).

## Model

| member | source | states |
|---|---|---|
| ServerRuns.MembershipInEveryRun | crates/voipc-server/src/state.rs:311-463 | from start-up on, after any number of logins, messages, datagrams, timer firings, kicks and disconnects, as long as the numbers drawn are harmless: members are connected and sit in that channel according to their session, so nobody is in two; every session's channel exists and lists its user, General aside; `user_count` is the member count, a positive limit is never exceeded nor the limit of invitations, a running delete timer is on an empty existing channel, General exists without a password |
| ServerRuns.EveryRunIsInvariant | crates/voipc-server/src/state.rs:139-162 | the whole redundancy invariant (users, names, channels, members, timers, addresses, seats) holds after every run in which the numbers drawn are harmless, however long |
| ServerRuns.InvariantThroughoutIff | crates/voipc-server/src/state.rs:250-262 | and that is the exact condition: from any state with the invariant, it holds after each event of a run if and only if every number the run draws is harmless when it is drawn |
| ServerRuns.StepKeepsInvariantIff | crates/voipc-server/src/tcp.rs:362-583 | every single event, handled as one atomic step, keeps that invariant if and only if the numbers it draws, should it draw any, are free, or, for a creation, belong to a channel that can be replaced |
| ServerRuns.FewDrawsAreHarmless | crates/voipc-server/src/state.rs:250-262 | the numbers drawn in a run are harmless as long as its logins and channel creations do not use up the 32-bit counters, however many other events there are |
| ServerRuns.LimitsInEveryRun | crates/voipc-server/src/tcp.rs:254-261 | in every run without exception there are at most as many sessions and user-created channels as configured |
| ServerNumbers.LoginKeepsInvariantIff | crates/voipc-server/src/tcp.rs:254-332 | with the 32-bit id counters allowed to wrap: a login keeps the invariant if and only if the user and session numbers drawn are both unused |
| ServerNumbers.LoginKeepsUsersIff | crates/voipc-server/src/tcp.rs:254-332 | what it does to the user index alone: that survives also if both numbers belonged to the same old session, whose name then still leads to it |
| ServerNumbers.CreationKeepsInvariantIff | crates/voipc-server/src/tcp.rs:767-835 | a creation, with the join of its creator, keeps the invariant if and only if the number drawn is free or belongs to a channel that is not General, has no delete timer running, and holds nobody, or only the creator, whom the rate limiter lets pass; otherwise General is gone, a running timer is orphaned, or a session sits in a channel that does not list its user |
| ServerExamples.WrapBreaksInvariant | crates/voipc-server/src/state.rs:250-262 | a run from start-up that ends with another client in the session of one that is still connected, whose name still leads there |
| ServerRuns.ClientsKeepTheirIdentity | crates/voipc-server/src/udp.rs:252-286 | over any run a session keeps its user, name, token and peer address, its bound UDP address is never replaced, and a session that ended does not come back unless its number is drawn again |
| ServerRuns.NumbersAreNotDrawnAgain | crates/voipc-server/src/state.rs:254-257 | which does not happen before the counter wraps |
| ServerRuns.ResolveKeepsInvariant | crates/voipc-server/src/udp.rs:209-287 | learning or evicting an address keeps the invariant: every cached address belongs to a session bound to it on its TCP host, and the cache stays within max(64, 2 * max_users) |
| ServerRuns.DatagramAcceptedIff | crates/voipc-server/src/udp.rs:209-287 | a datagram from a cached address is accepted if and only if it carries the token of that session, and the address is forgotten otherwise; one from a new address if and only if the claimed session exists with that token and host, and is bound to that address, or is unbound and there is room in the cache, and then it is bound; a refused one changes nothing |
| ServerRuns.LoginAdds | crates/voipc-server/src/tcp.rs:254-332 | an accepted login adds one session in General, unbound, with its token, host and full buckets, and changes no other |
| ServerRuns.AcceptedIsAuthentic | crates/voipc-server/src/udp.rs:209-287 | a datagram accepted for a session carries its token and comes from the address bound to it, on the host it logged in from |
| ServerRuns.TokenDecides | crates/voipc-server/src/udp.rs:216-287 | with distinct tokens the cached and the learning path, and any claimed session number, accept the same session for the same token |
| ServerInvariants.JoinNeverFallsBack | crates/voipc-server/src/tcp.rs:616-712 | between validation and join nothing closes the target: the "join failed after validation" fallback is unreachable |
| ServerInvariants.JoinIsAllOrNothing | crates/voipc-server/src/tcp.rs:586-712 | a join succeeds if and only if the rate limiter and `validate_join` allow it; then the user is in exactly the requested channel and everybody else stays put; otherwise nothing changes but the password bucket, so an unused invitation is kept |
| ServerInvariants.DepartKeepsCore | crates/voipc-server/src/tcp.rs:627-640 | cleaning up shares and leaving before the join removes the user everywhere, moves nobody else, and leaves every channel at least as open as it was |
| ServerInvariants.KickNeverHalfDone | crates/voipc-server/src/state.rs:580-616 | the kick that takes a member out and then fails for want of a session cannot happen |
| ServerInvariants.HandleKickKeepsInvariant | crates/voipc-server/src/tcp.rs:866-938 | a kick, with the forced move to General and the delete timer, keeps the membership invariant |
| ServerInvariants.TimerFindsEmptyChannel | crates/voipc-server/src/tcp.rs:1658-1688 | a delete timer only fires on an empty deletable channel that no session is in |
| ServerInvariants.DisconnectKeepsInvariant | crates/voipc-server/src/tcp.rs:1584-1654 | cleaning up after a disconnected client keeps the invariant |
| ServerInvariants.LoginKeepsInvariant | crates/voipc-server/src/tcp.rs:254-332 | so does an accepted login, before the client has joined General |
| ServerTimers.CreateTimedIffJoined | crates/voipc-server/src/tcp.rs:767-835 | creating a channel leaves every empty user-created channel with a running delete timer if and only if it was refused or the rate limiter let the creator in; otherwise the new channel stays behind without a timer |
| ServerTimers.StepTimed | crates/voipc-server/src/tcp.rs:1658-1688 | exactly those creations break that property; every other event keeps it |
| ServerTimers.TimedThroughoutIff | crates/voipc-server/src/tcp.rs:1658-1688 | both invariants hold after each event of a run if and only if its draws are harmless and it contains no such creation |
| ServerTimers.EmptyChannelsAreTimed | crates/voipc-server/src/tcp.rs:1658-1688 | hence every empty user-created channel has a running delete timer after every run from start-up on that meets this condition |
| ServerExamples.CreationStrandsChannel | crates/voipc-server/src/tcp.rs:767-835 | a run from start-up that ends with an empty channel without a delete timer |
| ServerShares.SharesInEveryRun | crates/voipc-server/src/state.rs:710-987 | from start-up on, in every run that kicks no sharer or viewer and replaces no channel with a share in it: listed sharers are connected, and a user is listed as sharing in a channel exactly when its session is marked so and in that channel; whoever is on a viewer list watches that share in that channel; nobody is on two lists; General has no share |
| ServerShares.StepKeepsSharesIff | crates/voipc-server/src/state.rs:710-987 | exactly two kinds of event break the screen-share invariant: kicks of involved users, and creations whose number belongs to a channel with a share in it; every other event keeps it |
| ServerShares.SharesThroughoutIff | crates/voipc-server/src/state.rs:710-987 | both invariants hold after each event of a run if and only if its draws are harmless and it contains no such event |
| ServerShares.KickKeepsSharesIff | crates/voipc-server/src/tcp.rs:874-938 | a kick keeps it if and only if the target was neither sharing nor watching in the channel, because the handler does not clean up shares |
| ServerExamples.KickStrandsShare | crates/voipc-server/src/tcp.rs:874-938 | a run from start-up that breaks the share invariant |
| ServerShares.CleanupDetaches | crates/voipc-server/src/state.rs:928-987 | the cleanup removes every trace of the user from shares and viewer lists; it ends no share but the user's own and takes nobody else off the others |
| ServerShares.WatchKeeps | crates/voipc-server/src/state.rs:805-858 | switching from one share to another keeps the invariant although `watching_screenshare` is set before the share is known to exist |
| ServerShares.OneShareAtATime | crates/voipc-server/src/state.rs:862-898 | under the invariant nobody is on two viewer lists and nobody shares in two channels |
| ServerRouting.VoiceStaysInChannel | crates/voipc-server/src/udp.rs:98-142 | voice goes to exactly the other sessions in the sender's channel with a bound address, and to nobody from General |
| ServerRouting.VideoReachesViewersOnly | crates/voipc-server/src/udp.rs:179-201 | video goes only to sessions in the same channel that watch the sender, and only if the sender is sharing |
| ServerRouting.VideoReachesEveryViewer | crates/voipc-server/src/state.rs:902-924 | it goes to exactly the bound sessions of the users on the viewer list |
| ServerRouting.FirstDatagramIsEnough | crates/voipc-server/src/udp.rs:98-287 | once the first datagram of a client was accepted, the voice of everybody in its channel is sent to that address |
| ServerRouting.KickKeepsVideo | crates/voipc-server/src/tcp.rs:866-938 | a kick ends the video its target sends and changes nothing about who is sent anybody else's |
| ServerRouting.KickedViewerIsStillSent | crates/voipc-server/src/state.rs:902-924 | so a viewer that was kicked is in General and still gets the share it watched, at its bound address |
| ServerRooms.StepRefinesRooms | crates/voipc-server/src/tcp.rs:362-583 | what each event does to names, owners, passwords, members and invitations of all channels is what `NextRooms` says in a few lines without the server's indexes, clean-ups, timers and fallbacks: who may join, create, set a password, kick and invite, with 50 invitations at most and names measured in UTF-8 bytes |
| ServerRooms.TrimUndoesPadding | crates/voipc-server/src/tcp.rs:767-779 | exactly the white space around a channel name is taken off |
| ServerRooms.RefusedJoinCostsInvitation | crates/voipc-server/src/state.rs:354-411 | `join_channel` by itself, when it refuses, changes nothing but that an invitation is used up, which happens when the channel is full |
| ServerRooms.DeletesEmptyRooms | crates/voipc-server/src/state.rs:525-550 | a deletion takes away the channel if it is empty and made by a user, and touches no other |
| ServerAccess.MembershipStepIff | crates/voipc-server/src/tcp.rs:586-712 | a user is in a channel after an event if and only if the event brought it in (its accepted join, its own creation, or a kick into General), or it was in before and the event did not take it out (a move, a kick, a disconnect, or the end of the channel); a kick is one by the creator |
| ServerAccess.LockedOutGetsInIff | crates/voipc-server/src/state.rs:311-411 | whoever is neither a member of nor invited to a channel with password p is in it after an event if and only if the event is its own join with p, or with a string whose hash is p if the channel is persistent, with an attempt left and room in the channel, or it founds a channel under the same number |
| ServerAccess.NewPasswordCounts | crates/voipc-server/src/state.rs:552-578 | a password set by the creator is the one that the next join has to give |
| ServerAccess.InvitationLetsIn | crates/voipc-server/src/state.rs:635-673 | an invitation by the creator lets the invited user in without a password if and only if there is room |
| ServerAccess.InvitedIsTold | crates/voipc-server/src/state.rs:635-673 | the invitation names the channel and the client that invites |
| ServerAccess.InvitedStepIff | crates/voipc-server/src/state.rs:635-691 | who is invited after an event: whoever the creator just invited, or was before and neither declined, nor got in, nor lost the channel |
| ServerAccess.MembershipInRunIff | crates/voipc-server/src/state.rs:311-463 | over runs: a member was let in by some event, or was there from the start, and no event since took it out; and conversely |
| ServerAccess.MembersGaveThePassword | crates/voipc-server/src/state.rs:311-411 | from start-up on: a member of any channel but General founded it, or joined it while it had no password, or was invited, or gave the password it then had, and has not left since |
| ServerViewing.ViewingStepIff | crates/voipc-server/src/state.rs:710-987 | who shares and who is on which viewer list after any event: a share starts and ends by its sharer's message or departure, a viewer is on the list that it asked for while that share was there, until it asks for another, stops or departs, or the share ends; nobody else's entry changes |
| ServerViewing.WatchingInRunIff | crates/voipc-server/src/state.rs:805-898 | the same over runs |
| ServerViewing.WatchingIsListed | crates/voipc-server/src/state.rs:805-858 | asking to watch a share that exists puts the viewer on its list and on no other |
| ServerViewing.WatchingIsShown | crates/voipc-server/src/udp.rs:179-201 | and if its address is bound, the sharer's next video packet goes there |
| ServerViewing.StartedShare | crates/voipc-server/src/state.rs:710-755 | a share starts with the session and resolution of the message and without viewers |
| ServerViewing.EndedShareIsLeft | crates/voipc-server/src/state.rs:758-801 | whoever watched a share that its sharer stops, or leaves by a join or by disconnecting, is marked as watching nothing |
| ServerViewing.CountsAreTrue | crates/voipc-server/src/state.rs:805-898 | the viewer counts that a sharer is told are the sizes of its list before and after |
| ServerViewing.CleanupIsReported | crates/voipc-server/src/state.rs:928-987 | the clean-up reports exactly the sessions that watched, and those left in the channel |
| ServerViewing.LeftIsTold | crates/voipc-server/src/state.rs:805-987 | whoever was watching a share when it cleans up or asks for another one, that share's sharer is the one that is told |
| ServerViewing.AnswersAreTrue | crates/voipc-server/src/state.rs:710-898 | messages to start, stop and watch a share are answered with success exactly if they do what they ask |
| ServerLimits.ConnectedStepIff | crates/voipc-server/src/tcp.rs:254-332 | a session exists after an event if and only if a login created it, which one does if there is room and nobody has the name up to letter case, or it existed and did not disconnect |
| ServerLimits.NamesComeBack | crates/voipc-server/src/state.rs:445-463 | so a client that left can log in under its name again |
| ServerLimits.StepCharges | crates/voipc-server/src/tcp.rs:377-390 | an event takes from the two token buckets of a session exactly for that session's own password attempts and creations |
| ServerLimits.GuessesAreBounded | crates/voipc-server/src/tcp.rs:595-615 | hence in any stretch of any run a session has at most 3 passwords compared, and one more per second, however it mixes joins and creations |
| ServerState.Server.JoinChannel | crates/voipc-server/src/state.rs:354-411 | the in-place update is the specified one, refusals included; an invitation is used up even if the channel turns out to be full |
| ServerState.Server.LeaveCurrentChannel | crates/voipc-server/src/state.rs:415-442 | likewise, with the sessions that are told |
| ServerState.Server.RemoveUserSession | crates/voipc-server/src/state.rs:445-463 | likewise for all five indexes |
| ServerState.Server.CreateChannel | crates/voipc-server/src/state.rs:466-522 | likewise, with both refusals |
| ServerState.Server.DeleteChannel | crates/voipc-server/src/state.rs:525-550 | likewise, with the four refusals in the code's order |
| ServerState.Server.KickUser | crates/voipc-server/src/state.rs:580-616 | likewise, including the member already removed when the session is missing |
| ServerState.Server.AddInvite | crates/voipc-server/src/state.rs:635-673 | likewise, with the limit of pending invitations and the names returned for the notification |
| ServerState.Server.StartScreenShare | crates/voipc-server/src/state.rs:710-755 | likewise |
| ServerState.Server.StopScreenShare | crates/voipc-server/src/state.rs:758-801 | likewise; the loop over viewers clears exactly their `watching_screenshare` |
| ServerState.Server.WatchScreenShare | crates/voipc-server/src/state.rs:805-858 | likewise, including the early write, the sharer's viewer counts and those of the share left for it |
| ServerState.Server.StopWatchingScreenShare | crates/voipc-server/src/state.rs:862-898 | likewise, with the sharer's viewer counts |
| ServerState.Server.CleanupScreenShares | crates/voipc-server/src/state.rs:928-987 | likewise, with everybody who has to be told |
| ServerState.Server.HandleJoinChannel | crates/voipc-server/src/tcp.rs:586-764 | the handler's sequence of state updates is the atomic step that the theorems are about |
| ServerState.Server.HandleKickUser | crates/voipc-server/src/tcp.rs:866-950 | likewise |
| ServerState.Server.HandleCreateChannel | crates/voipc-server/src/tcp.rs:767-835 | likewise |
| ServerState.Server.DispatchCreate | crates/voipc-server/src/tcp.rs:377-390 | likewise for the rate limiter that comes before it |
| ServerState.Server.CleanupSession | crates/voipc-server/src/tcp.rs:1584-1654 | likewise |
| ServerState.Server.TimerFires | crates/voipc-server/src/tcp.rs:1671-1687 | likewise |
| ServerState.Server.Authenticate | crates/voipc-server/src/tcp.rs:254-332 | likewise |
| ServerState.Server.ResolveSession | crates/voipc-server/src/udp.rs:209-287 | likewise, with the eviction of a stale cache entry |
| ServerState.Server.ForwardVoice | crates/voipc-server/src/udp.rs:98-142 | the loop over recipients returns exactly the specified targets |
| ServerState.Server.Serve | crates/voipc-server/src/tcp.rs:362-583 | one event on the class is one step of the model, so every run of the class is a run of the theorems |
| Packets.VoiceLayout | crates/voipc-protocol/src/voice.rs:126-148 | where each field of a voice packet lies on the wire, most significant byte first, and the five type codes |
| Packets.VoiceRoundTrip | crates/voipc-protocol/src/voice.rs:126-194 | a voice packet survives the wire if and only if a key id is carried by encrypted packets only; the server reads the same session id and token |
| Packets.VoiceRoundTripBytes | crates/voipc-protocol/src/voice.rs:151-194 | every accepted voice datagram is the encoding of what it decodes to |
| Packets.VideoRoundTrip | crates/voipc-protocol/src/video.rs:164-253 | a video packet survives the wire if and only if it is well formed (key id 0 when plain, index below a positive count) |
| Packets.VideoRoundTripBytes | crates/voipc-protocol/src/video.rs:193-253 | every accepted video datagram is the encoding of a well-formed packet |
| Packets.AudioRoundTrip | crates/voipc-protocol/src/video.rs:506-585 | the same for screen audio |
| Packets.AudioRoundTripBytes | crates/voipc-protocol/src/video.rs:531-585 | the same for accepted screen-audio datagrams |
| Packets.VideoLayout | crates/voipc-protocol/src/video.rs:164-190 | where each field of a video packet lies on the wire, session id and token at bytes 1 to 12 where the server reads them, and the six type codes |
| Packets.AudioLayout | crates/voipc-protocol/src/video.rs:506-528 | the same for screen audio |
| Fragmentation.FragmentsCarryTheFrame | crates/voipc-protocol/src/video.rs:261-298 | the payloads of the packets, put together, are the frame cut after 255 full packets |
| Fragmentation.FragmentHeader | crates/voipc-protocol/src/video.rs:261-298 | the header of each fragment: its frame, its index, the number of fragments, and keyframe or delta |
| Fragmentation.SealedHeader | crates/voipc-protocol/src/video.rs:164-190 | the same for a sealed fragment, with the key id and the sealed payload behind it |
| Fragmentation.SealedPacketsFit | crates/voipc-protocol/src/video.rs:63-82 | a sealed packet (16-byte tag, key id) is at most 1280 bytes long, and exactly that unless it is the last of its frame |
| Fragmentation.PlainPacketsFit | crates/voipc-protocol/src/video.rs:63-74 | so is a plain one |
| Assembler.FrameAssembler.AddFragment | crates/voipc-protocol/src/video.rs:338-421 | the in-place assembler does exactly one step of the model, whatever the packet |
| Assembler.StepKeepsValid | crates/voipc-protocol/src/video.rs:338-421 | the counters stay consistent for every packet, so the 8-bit `received` never overflows |
| Assembler.LossIsAlwaysReported | crates/voipc-protocol/src/video.rs:386-418 | for any packets since creation or reset the first frame released is a keyframe, and a released frame that is neither the previous one nor its successor is flagged as following a loss |
| Assembler.EmissionsReportLoss | crates/voipc-protocol/src/video.rs:338-421 | the same from any state |
| Assembler.AbandonedFrameIsReported | crates/voipc-protocol/src/video.rs:343-368 | a loss is flagged if and only if a partly received frame is given up, whatever becomes of the packet that replaces it, or a released frame does not follow the last one completed; stale and zero-count packets change nothing |
| Assembler.OtherFrameTakesOver | crates/voipc-protocol/src/video.rs:338-421 | a packet of another frame than the one being collected changes nothing if it is 1 to 999 behind or has no fragments; any other takes its place, whatever was collected, which counts as dropped if it was partly received; a frame of one fragment is released at once if a keyframe was seen or this is one |
| Assembler.SameFrameCollects | crates/voipc-protocol/src/video.rs:370-418 | a packet of the frame being collected: the last payload received for a place counts, and the frame is released exactly when no other place is empty, if a keyframe was seen or any packet of the frame is one |
| Assembler.ReleasedFrameCanBeReleasedAgain | crates/voipc-protocol/src/video.rs:402-418 | the smallest case of a second release: the only packet of a frame received twice |
| Reassembly.FrameIsReleasedAgainIff | crates/voipc-protocol/src/video.rs:402-418 | when nothing is being collected and the gate is open, further datagrams of any frame release it again if and only if all its fragments are among them |
| Assembler.JoinPayloads | crates/voipc-protocol/src/video.rs:388-393 | the loop concatenates the stored payloads in order |
| Reassembly.FrameIsReassembled | crates/voipc-protocol/src/video.rs:338-421 | the datagrams of a frame in any order, with duplicates, undecodable ones and stale ones between them: nothing is released until the last missing one arrives, and then exactly the frame (cut after 255 full packets) with its keyframe flag, if the gate is open or it is a keyframe |
| Reassembly.CollectsUntilComplete | crates/voipc-protocol/src/video.rs:370-387 | until then exactly the fragments that arrived are held |
| Reassembly.DatagramDecodes | crates/voipc-protocol/src/video.rs:261-298 | different fragments have different datagrams and each parses to its packet |
| ScreenSend.FrameProcessor.SendEncodedFrames | client/src-tauri/src/screenshare/mod.rs:382-511 | with the network task emptying, flagging or closing the queue at any moment: each frame enters the queue whole or not at all unless the queue was found closed; it enters exactly if its fragments fit in the room found, or it is a keyframe and there is an async runtime to wait in; a delta that does not fit ends the call, and exactly then the call asks for a keyframe |
| ScreenSend.FrameProcessor.SendFragments | client/src-tauri/src/screenshare/mod.rs:435-502 | given room for all fragments at the start, the "unexpected channel full" branch is unreachable and all fragments are queued in order |
| ScreenSend.WireIsWholeOrEmpty | crates/voipc-crypto/src/media_keys.rs:100-124 | the cipher refuses either all fragments of a frame (id at or above the rotation limit) or none, so skipping refused fragments never leaves a partial frame |
| ScreenSend.FrameWireFits | crates/voipc-protocol/src/video.rs:63-82 | every datagram of a frame, sealed or plain, is at most 1280 bytes long |
| ScreenReceiver.ScreenTask.OnDatagram | client/src-tauri/src/network.rs:1828-1951 | the receiving arms for video and screen audio, with assembler resets, are one step of the receiver model |
| ScreenReceiver.VideoArrives | client/src-tauri/src/network.rs:1828-1868 | of every well-formed video packet on the wire, what the task takes it for: a plain one as it is, an encrypted one if it can be opened |
| ScreenReceiver.AudioArrives | client/src-tauri/src/network.rs:1906-1951 | the same for screen audio |
| ScreenReceiver.OnlyPacketsArrive | client/src-tauri/src/network.rs:1828-1951 | and nothing but such packets counts |
| ScreenReceiver.OpenedFrameIsReassembled | crates/voipc-protocol/src/video.rs:338-421 | the same for fragments sealed under a media key and opened by the receiver, in any order, repeated, and mixed with unusable, stale and screen-audio datagrams |
| ScreenReceiver.QueuedFramesAreShown | client/src-tauri/src/screenshare/mod.rs:382-511 | frames queued whole, fragmented, sealed under keys that may change from frame to frame, written, parsed, opened and assembled in order come out one for one with their data, and a loss is flagged exactly where the ids jump |
| ScreenReceiver.QueueHoldsKeptFrames | client/src-tauri/src/screenshare/mod.rs:400-511 | what the sender adds to its queue is the stream of the frames it kept, which the previous row is about |
| ScreenReceiver.FragmentTravels | client/src-tauri/src/network.rs:1828-1868 | sealing, writing, parsing and opening carries a fragment across unchanged |
| ScreenReceiver.NewSharerStartsWithKeyframeIff | client/src-tauri/src/network.rs:1869-1951 | after a change of sharer the first frame shown is sure to be a keyframe if and only if the first packet of the new sharer is video or no keyframe was shown before: a screen-audio packet that comes first takes the session over without resetting the assembler |
| Bitstream.BitReader.ReadBit | crates/voipc-video/src/android_decoder.rs:720-740 | reading a bit yields the next bit of the byte string with emulation prevention removed, or nothing at its end |
| Bitstream.ByteIsItsBits | crates/voipc-video/src/android_decoder.rs:720-740 | the bits of a byte are its binary digits, the most significant one first |
| Bitstream.BitsOfPacked | crates/voipc-video/src/android_decoder.rs:720-740 | so bits packed into bytes are read back, whatever they are |
| Bitstream.BitReader.ReadUe | crates/voipc-video/src/android_decoder.rs:758-771 | the Exp-Golomb reader does what section 9.2 of ITU-T H.265 decodes, with a prefix of more than 31 zeros refused |
| Bitstream.UnescapeIsTheStandardRule | crates/voipc-video/src/android_decoder.rs:720-740 | counting zeros on the way removes exactly the bytes that section 7.3.1.1 of ITU-T H.265 removes |
| Bitstream.UnescapeUndoesEscape | crates/voipc-video/src/android_decoder.rs:720-740 | removal undoes the encoder's insertion for every payload |
| Bitstream.EscapeHidesStartCodes | crates/voipc-video/src/android_decoder.rs:525-543 | an escaped payload contains no start code |
| Bitstream.UeRoundTrip | crates/voipc-video/src/android_decoder.rs:758-771 | the reader inverts the ue(v) code for every value up to 2^32 - 2 and consumes exactly its bits |
| Bitstream.UeShape | crates/voipc-video/src/android_decoder.rs:758-771 | which bit strings are refused and what the others denote, always below 2^32 - 1, so the 32-bit sum cannot overflow |
| Sps.ParseSpsNal | crates/voipc-video/src/android_decoder.rs:626-661 | the parser that drives the bit reader computes the specified function of the unit's bits, consuming or refusing exactly as specified |
| Sps.SkipProfileTierLevel | crates/voipc-video/src/android_decoder.rs:664-699 | likewise for profile, tier and level with any sub-layer flags |
| Sps.SpsRoundTrip | crates/voipc-video/src/android_decoder.rs:626-661 | for every SPS printed by sections 7.3.2.2 and 7.3.3 of ITU-T H.265 the parser returns exactly its width and height, or nothing if one is outside 1..8192 |
| Sps.ProfileTierLevelIsPrinted | crates/voipc-video/src/android_decoder.rs:664-699 | exactly the printed profile-tier-level structure is skipped |
| AnnexB.FindStartCodes | crates/voipc-video/src/android_decoder.rs:525-543 | the loop lists the start codes from left to right |
| AnnexB.StartCodesAreComplete | crates/voipc-video/src/android_decoder.rs:525-543 | every start code is listed |
| AnnexB.SplitUndoesJoin | crates/voipc-video/src/android_decoder.rs:525-543 | for clean NAL units joined with any mix of 3- and 4-byte start codes exactly the join positions are found |
| AnnexB.ExtractCsd | crates/voipc-video/src/android_decoder.rs:565-595 | the loop over start codes cuts out the specified span |
| AnnexB.CsdOfJoin | crates/voipc-video/src/android_decoder.rs:565-595 | in a joined stream that span is exactly the units from the first to the last VPS, SPS or PPS |
| AnnexB.CsdOfJoinWithoutSets | crates/voipc-video/src/android_decoder.rs:565-595 | and empty if there is none |
| AnnexB.DimensionsOfJoin | crates/voipc-video/src/android_decoder.rs:601-623 | the picture size is read from exactly the bytes of the first SPS unit |
| AnnexB.StreamDimensions | crates/voipc-video/src/android_decoder.rs:601-661 | from syntax to picture size: an SPS printed, padded, escaped and put anywhere into a stream gives its width and height back |
| Jitter.JitterBuffer.PopFrame | crates/voipc-audio/src/jitter.rs:71-101 | the in-place pop does one step of the model |
| Jitter.JitterBuffer.PushPacket | crates/voipc-audio/src/jitter.rs:46-64 | likewise for push, with the late window and the overflow trim |
| Jitter.JitterBuffer.Drain | client/src-tauri/src/network.rs:1634-1673 | the drain loop terminates and returns the specified frames |
| Jitter.DistanceShrinks | client/src-tauri/src/network.rs:1634-1673 | the termination measure, the wrapping distance to the farthest held packet, falls by exactly one with each frame |
| Jitter.DrainStep | crates/voipc-audio/src/jitter.rs:71-101 | one pop is the first step of the closed-form drain |
| Jitter.EveryHeldPacketIsDelivered | client/src-tauri/src/network.rs:1634-1673 | every packet held by a buffer that plays, or starts with this drain, is delivered once, at the position of its sequence number |
| Jitter.FirstDrainSpans | crates/voipc-audio/src/jitter.rs:71-84 | the first drain delivers the numbers from the smallest held to the largest, in numerical order, as ready or lost |
| Jitter.FirstBurst | crates/voipc-audio/src/jitter.rs:71-101 | so a gapless first burst is played in order and alone if and only if it does not straddle the wrap; if it does, 2^32 frames come out, the packets behind the wrap first, those before it last, and losses between |
| Jitter.DeliveryIsConsecutive | crates/voipc-audio/src/jitter.rs:71-101 | between resets, whatever is pushed, delivered sequence numbers are consecutive modulo 2^32 |
| Jitter.BufferStaysBounded | crates/voipc-audio/src/jitter.rs:46-64 | the buffer never holds more than 4 * target_delay packets |
| Jitter.DeliveredDataWasPushed | crates/voipc-audio/src/jitter.rs:46-101 | delivered data was pushed under its sequence number |
| Jitter.NothingBeforeTheDelay | crates/voipc-audio/src/jitter.rs:71-84 | nothing is played before as many packets as the target delay are there |
| Jitter.StreamIsPlayed | crates/voipc-audio/src/jitter.rs:46-101 | packets pushed in order from the playback position on, modulo 2^32, with drains anywhere between them, come out as Ready, in order, with nothing lost and nothing else, if the drains keep up |
| Jitter.StreamIsPlayedIff | crates/voipc-audio/src/jitter.rs:46-101 | and for up to 2^32 packets only if no push finds 4 * target_delay packets waiting, or more than 2^32 - 1000 |
| Jitter.OldPacketFloodsDrain | crates/voipc-audio/src/jitter.rs:46-56 | for every distance k from 1000 to 2^32 - 1 behind, unless the packet is dropped at once: the next drain of a started buffer, whatever it holds, delivers 2^32 - k + 1 frames, or as many as were due anyway if more, all lost but this one and those held besides |
| Jitter.PushIsIgnoredIff | crates/voipc-audio/src/jitter.rs:46-64 | for every distance, the playback position itself included: a push to a started buffer changes nothing if and only if the packet is 1 to 999 behind, or held already with the same data, or the buffer is full and it would be dropped at once |
| Framing.FrameReader.Receive | crates/voipc-server/src/tcp.rs:139-177 | one read appended and drained leaves the specified buffer and output |
| Framing.LengthThenPayload | crates/voipc-protocol/src/codec.rs:19-50 | a message goes out as its length, 32 bits with the most significant byte first, and its payload |
| Framing.ChunkingDoesNotMatter | crates/voipc-server/src/tcp.rs:139-177 | however a byte stream is cut into reads, the same messages come out and the same bytes are left |
| Framing.NothingIsLost | crates/voipc-protocol/src/codec.rs:52-70 | the messages re-encoded, followed by the rest, are exactly the bytes received |
| Framing.MessageRoundTrip | crates/voipc-protocol/src/codec.rs:19-70 | a message is received as sent if and only if its payload has at most 65536 bytes |
| Framing.MessagesArriveInOrder | crates/voipc-protocol/src/codec.rs:52-70 | messages sent back to back come out complete and in order |
| Framing.OversizeStopsOutput | crates/voipc-protocol/src/codec.rs:52-60 | an oversize length prefix ends all later output |
| RateLimiting.RateLimiter.Consume | crates/voipc-server/src/state.rs:36-48 | the in-place update is the specified one |
| RateLimiting.TokensAreConserved | crates/voipc-server/src/state.rs:36-48 | tokens spent plus tokens left never exceed the start plus what time adds |
| RateLimiting.WindowIsBounded | crates/voipc-server/src/state.rs:18-49 | in any window of any run the allowed calls are at most max_tokens plus the refill over the window |
| RateLimiting.SpacedCallsAreAllowed | crates/voipc-server/src/state.rs:18-49 | with room for one token, a caller that keeps to the refill rate is refused nothing if and only if its first call finds a token |
| RateLimiting.BurstIsAllowed | crates/voipc-server/src/state.rs:26-48 | a burst covered by the tokens at hand is allowed at any times |
| Colour.ToI420 | crates/voipc-video/src/convert.rs:150-263 | both conversions write every byte of the resized buffer: luma of every pixel, then the chroma of the mean colour of every block, each cell once, all indices in range |
| Colour.LumaOfBytes | crates/voipc-video/src/convert.rs:150-204 | luma k is the integer formula on the first three bytes of pixel k, red last for BGRA and first for RGBA |
| Colour.ChromaOfBytes | crates/voipc-video/src/convert.rs:150-263 | chroma is the integer formula on the mean red, green and blue bytes of the block's pixels that lie in the image |
| Colour.SumBlock | crates/voipc-video/src/convert.rs:184-192 | the two inner loops with their early exits add up exactly the pixels of the block that lie in the image |
| Colour.I420ToRgbaInto | crates/voipc-video/src/convert.rs:360-381 | the inverse conversion writes exactly the decoded pixels, opaque, and nothing behind them |
| Colour.FollowsBt601 | crates/voipc-video/src/convert.rs:150-204 | for every colour, luma and chroma are less than one off the exact transform of ITU-R BT.601 |
| Colour.InvertsBt601 | crates/voipc-video/src/convert.rs:360-381 | for every triple of luma and chroma bytes, so are the decoded colours, limited to 0..255 |
| Colour.DecodedOfBytes | crates/voipc-video/src/convert.rs:360-381 | which luma and chroma bytes a decoded pixel comes from, by row and column, and the integer formulas on them |
| Colour.ForwardStaysInStudioRange | crates/voipc-video/src/convert.rs:150-204 | luma lands in 16..235 and chroma in 16..240, so the forward clamp never acts |
| Colour.PixelRoundTrip | crates/voipc-video/src/convert.rs:150-381 | a colour comes back within 2 in red, 2 in green and 3 in blue |
| Colour.BoundsAreReached | crates/voipc-video/src/convert.rs:150-381 | these bounds are the best possible, in both directions |
| Colour.ImageRoundTrip | crates/voipc-video/src/convert.rs:150-381 | the same for every pixel of any image of any odd or even size whose 2x2 blocks are each one colour |
| Colour.CaptureComesBack | crates/voipc-video/src/convert.rs:150-381 | said of bytes: of any captured picture whose 2x2 blocks are each one colour, the decoded red, green and blue bytes are within 2, 2 and 3 of the captured ones, in their places for both byte orders, and alpha is 255 |
| Scale.ScaleI420Nearest | crates/voipc-video/src/convert.rs:269-318 | the buffer is written completely, each plane scaled on its own, from cells that exist |
| Scale.ScaledPlaneAt | crates/voipc-video/src/convert.rs:299-317 | row y and column x come from row y * src_h / dst_h and column x * src_w / dst_w of the source |
| Scale.SameSizeIsIdentity | crates/voipc-video/src/convert.rs:269-318 | equal sizes copy the buffer |
| Scale.ThereAndBackIff | crates/voipc-video/src/convert.rs:269-318 | scaling to another size and back is the identity on all images if and only if the sizes are multiples in the luma and in the chroma planes |
| Scale.EvenSizesEnlarge | crates/voipc-video/src/convert.rs:269-318 | for even sizes every integer enlargement is; from 3x3 to 6x6 is not |

## Left out

- ServerRuns.MembershipInEveryRun: only runs whose draws are harmless, as after a wrap of the counters they may not be; `InvariantThroughoutIff` says that this is the exact condition, `StepKeepsInvariantIff` what it means for each event.
- ServerRuns.EveryRunIsInvariant: the same condition.
- ServerShares.SharesInEveryRun: the same condition, and only runs without an event that breaks a share; `SharesThroughoutIff` says this is the exact condition, `StepKeepsSharesIff` which events these are.
- ServerTimers.EmptyChannelsAreTimed: the same condition, and only runs that strand no new channel; `TimedThroughoutIff` says this is the exact condition, `StepTimed` which events strand one.
- ServerRuns.TokenDecides: assumes distinct tokens; the code draws them at random and does not compare them.
- ServerViewing.ViewingStepIff: in states in which both invariants hold, and for harmless draws; `SharesThroughoutIff` says when they do.
- ServerViewing.EndedShareIsLeft: not for a sharer that leaves by founding a channel; that its share and list are gone then too is `ViewingStepIff`.
- ServerLimits.GuessesAreBounded: assumes that the clock does not go back between attempts and that the session's number is not drawn again meanwhile.
- Jitter.StreamIsPlayedIff: one direction only for more than 2^32 packets; `StreamIsPlayed` has no such bound.
- ServerRouting.VideoReachesViewersOnly: only in states in which the share invariant holds; `VideoReachesEveryViewer` needs no such condition, and `KickedViewerIsStillSent` is what becomes of it after a kick.
- ServerState.Server.Authenticate: version checks, trimming and the rules for user names come before it and are not modelled; the tokens and the peer address are parameters.
- ServerState.Server.ForwardVoice: returns the set of addresses the packet is sent to; the sockets and the order of sending are not modelled.
- ScreenSend.FrameProcessor.SendEncodedFrames: the media key of each frame is a parameter, and sealing under it a function of the fragment, which stands for the channel id read for each fragment; it fails only for frame ids at or above the rotation limit; the blocking send is assumed to end.
- ScreenReceiver.QueuedFramesAreShown: the receiver can open what was sealed; datagrams arrive in order and without loss; any order with duplicates and stale datagrams is `OpenedFrameIsReassembled`, frame by frame.
- ScreenReceiver.ScreenTask.OnDatagram: the decode queue, keyframe requests and audio playback behind it are not modelled.
- Reassembly.FrameIsReassembled: the datagrams are plain ones; `OpenedFrameIsReassembled` is the same law for sealed ones.
- Colour.ToI420: the two source functions differ only in the order of the colour bytes and are one method with a layout parameter; the resized vector is a new array.
- Scale.ScaleI420Nearest: the two chroma planes are scaled one after the other instead of in one loop; the resized vector is a new array.
- The limits on all messages and on chat, pre-keys, voice and video packets: they drop a message or packet before anything else happens.
- Handlers that only pass messages on: chat, pokes, pre-keys, sender and media keys, mute and deafen flags.
- The messages sent to clients, their encoding, and failures to send them.
- Interleavings finer than a handler: a kick between the lock acquisitions of a join is not covered.
- Uniqueness of nonces, which the code does not establish: voice, screen audio and video count from zero independently.
- Render suppression between the UDP receiver and the decoder: its flag is read once per batch and can be overwritten, so no clean law holds.
- The SIMD converter, capture, encoders, decoders, Opus, TLS and the operating system: foreign code.
- `i420_to_rgb_into`: the arithmetic of `i420_to_rgba_into` with three bytes per pixel.
- Overflow of `usize` for pictures that do not fit the address space.
- crates/voipc-server/src/ts3_bridge.rs: not compiled into the server.
- Settings, key codes, user interface, Android glue: nothing to prove beyond reading them.

Nothing was executed.
