# Drawbridge, verified

A Dafny model of the parts of Drawbridge that keep a Mac and a Linux guest in step, and of the
parsers and rewriters around them that must undo or preserve something exactly. Each module
follows one or two source files. Code that changes state is a class or a method with loops, proved
equal to a specification function; what the code is for is then proved about those functions, over
every input, every run or every interleaving.

| modules | source | what is proved |
| --- | --- | --- |
| `TrackerHub`, `MirrorClient`, `Mirroring`, `MirrorKeys` | the listener hub and the Mac's mirror table | the table refines the hub's set, key by key exactly when no refused bind still shows, in runs that mix subscriptions, overflow, drops, binds, reservations and timers |
| `HubDelivery`, `MirrorEntries` | the same, against what the kernel tracker published | which listeners are passed on and mirrored, that a session can always catch up, and the machine each key of the table runs, its reservation's timer included |
| `MacHolder` | who holds a Mac port | a mirror opens exactly where nothing native answers |
| `MacSyncer`, `GuestAgent`, `MacSync`, `MacRaces` | the Mac-to-guest sync and the agent's registries | sync owns what the Mac offers; three registries stay in step at every write; what the harness can do between two locked sections of one operation |
| `Pcblist`, `PcblistEmission` | the pcblist_n walk | the kernel's emission reads back; a torn read is an error, never fewer sockets; the walk ends |
| `DialPool`, `DialPooling`, `DialService` | parked reverse dials | every connection is in one place, delivered once, and stranded in one window only; pops are served in the order they queued, and none is stuck |
| `SuperviseCap`, `Supervising`, `SupervisedFds` | supervised notify fds | slots, tracked numbers and duplicates under interleaved atomics; all that is taken is given back |
| `JsonTrees`, `SeccompProfile`, `SeccompReasons` | the OCI bundle rewrite | only bind changes, never to something weaker; which documents are rewritten, and why the others are not, in the document's own words |
| `DaemonJson`, `DaemonMerges`, `DaemonEdits` | daemon.json | up, any number of times, then down is exact; with foreign edits in between the undo commutes exactly when the record is complete; when each works, and what it leaves |
| `Texts`, `VmRefs`, `Leases`, `LeaseGates` | lease filtering | the choice of addresses is characterised, and unique; every record is a candidate or accounted for |
| `Plist`, `PlistRoundTrip`, `PlistValidation`, `Inherit`, `Upgrade` | the LaunchDaemon plist and re-install | exactly what is accepted; the document's text reads back; nothing installed is lost in silence; an upgrade is a fixpoint, exactly when |

Results that go against what the code or its comments suggest, each stated as a lemma:

- A refused bind is not retried, and the next listener on that key opens a mirror that counts only
  itself (`MirrorClient.RefusedBindUndercounts`). In every run a key's count is right exactly when each
  bind refused on it has been followed by a moment without a listener on it, or by a snapshot that was
  not refused it (`MirrorKeys.RightExactly`).
- A sync tick converges exactly when no port leaves by one address while it stays by another and arrives
  by no new one (`MacSync.TickConverges`); two addresses on one port are the counterexample
  (`MacSync.TwoAddressesOrphan`).
- A sync operation takes its lock more than once. A removal takes the harness's entry exactly when the
  harness registered the port after sync collected it and still holds it (`MacRaces.TakenExactly`,
  `MacRaces.TakingHappens`); an entry sync adds is its own but not owned exactly when the harness removed
  the port between the reservation and the add, and no later sync step removes it
  (`MacRaces.LeakedExactly`, `MacRaces.LeakedStays`, `MacRaces.LeakHappens`).
- A parked connection is stranded exactly when its pop takes its last look between park's unlock and
  park's send, and then for good; a five-step run does it (`DialPooling.StrandedExactly`,
  `DialPooling.StrandedForGood`, `DialPooling.StrandingHappens`).
- Two supervisors come to share one listener exactly when a trusted fd is admitted while the other
  supervises its file, or, where kcmp does not answer, a probe fd is (`Supervising.SharedExactly`,
  `Supervising.SharingWithoutKcmp`). An adopted fd is tracked by nobody until it is
  admitted, so from its adoption on a probe handoff of the same file can be admitted first, before the
  adopted fd's capped slot is traded or after (`Supervising.SharingBeforeTrade`,
  `Supervising.SharingAfterTrade`).
- A bundle config that is the JSON document `null` makes the rewrite write into a nil map, which panics
  (`SeccompProfile.InjectsIff`).
- The surgical revert loses a `default-runtime` that was `null` or `""`, a `runtimes` that was `null` or
  is left empty, and a `drawbridge` runtime that was registered under another path, unless
  `default-runtime` already named it (`DaemonEdits.RevertCommutes`, with `DaemonEdits.NullDefaultIsLost`
  and `DaemonEdits.OtherPathIsLost` as inputs).
- An upgrade is refused exactly when a podman machine has no recorded endpoint or one off the loopback, or
  when a secret path that was not derivable at the install now is one a plist cannot hold. One that is not
  refused changes the argv exactly when the installed `-vm` spelling or secret path has white space at its
  ends, because reading back trims it, when a secret path became derivable, or when a podman machine's
  recorded endpoint moved (`Upgrade.UpgradeIsFixpoint`, with `Upgrade.ForeignEndpointIsRefused`,
  `Upgrade.QuotedPathIsRefused` and `Upgrade.SpacedVmChanges` as inputs).
- A pcblist block longer than 0xfffffff8 bytes rounds up to zero, and the walk never ends exactly when it
  comes by one that is there in full (`Pcblist.SpinsExactly`, `Pcblist.SpinHappens`), which takes a buffer
  longer than that (`Pcblist.ParseEnds`).
- A failed delete in the kernel map leaves an entry steering to a closed proxy, and that is the only way to
  steer to one (`GuestAgent.Agent.RemoveMacPort`, `GuestAgent.Agent.ApplySyncSnapshot`); it is also the only
  way the registries come to disagree (`MacRaces.InStepUntil`).

## Model

| member | source | states |
|---|---|---|
| TrackerHub.Hub.Subscribe | internal/agent/tracker.go:50-71 | a new channel opens with a snapshot that lists the set without repeats, and nothing else changes |
| TrackerHub.Hub.Cancel | internal/agent/tracker.go:64-70 | a cancelled subscriber is fed no more; its channel is left as it is |
| TrackerHub.Hub.Apply | internal/agent/tracker.go:99-130 | a change of the set reaches every subscriber with room; one without is closed and dropped; a no-op event changes nothing |
| Mirroring.HubReplays | internal/agent/tracker.go:50-130 | a registered subscriber's snapshot and events fold to the hub's set, each add of an absent and each del of a present listener; an overflowed one holds an unbroken piece of the history |
| Mirroring.UnfedIsClosed | internal/agent/tracker.go:118-129 | a subscriber the hub no longer feeds cancelled itself or had its channel closed |
| HubDelivery.HubFollowsTracker | internal/agent/tracker.go:83-117 | in every run the hub holds exactly the listeners, UDP 32768 to 60999 aside, of which the last thing published is that they came |
| HubDelivery.ChangeIsSent | internal/agent/tracker.go:117-130 | a change reaches every subscriber with fewer than 256 events unread; one with 256 is closed and dropped with what it had |
| HubDelivery.NoChangeIsSilent | internal/agent/tracker.go:99-116 | what changes nothing is sent to nobody |
| HubDelivery.TrackedIsPassedOn | internal/agent/tracker.go:83-97 | nothing a client mirrors is withheld by the hub |
| HubDelivery.TableFollowsTracker | internal/mirror/mirror.go:402-533 | a caught-up session, on a key never refused or no longer showing it, mirrors exactly what the tracker last published there, counting every listener |
| HubDelivery.CanCatchUp | internal/mirror/mirror.go:280-350 | every run with a registered live session can be taken on, by that session's own goroutines, to a moment at which it has caught up |
| HubDelivery.Goes | internal/mirror/mirror.go:280-350 | when each kind of step can be taken |
| MirrorClient.Client.OpenLocked | internal/mirror/mirror.go:508-533 | a mirror is bound and registered, or the table and the open sockets stay as they were |
| MirrorClient.Client.Reconcile | internal/mirror/mirror.go:402-438 | the loops over the table and the snapshot reach the specified reconciliation: unwanted mirrors closed, reservations kept or adopted, missing ones opened |
| MirrorClient.Client.Tally | internal/mirror/mirror.go:403-418 | the snapshot's tracked listeners counted by key |
| MirrorClient.Client.SettleKey | internal/mirror/mirror.go:421-432 | one mirror against the snapshot: stopped, kept as a reservation, or given the snapshot's count |
| MirrorClient.Client.OpenMissing | internal/mirror/mirror.go:433-437 | exactly the wanted keys without a mirror are opened, those the Mac allows |
| MirrorClient.Client.Add | internal/mirror/mirror.go:440-460 | a listener is counted, adopts a reservation, or opens a mirror with one reference |
| MirrorClient.Client.Del | internal/mirror/mirror.go:462-478 | a listener is uncounted; the last one closes the mirror; reservations are left alone |
| MirrorClient.Client.CloseAll | internal/mirror/mirror.go:603-610 | every listener is stopped once and the table is empty |
| MirrorClient.Client.Reserve | internal/mirror/mirror.go:678-734 | the reply and the pending entry of a reservation, for every kind of request |
| MirrorClient.Client.ReleaseIfPending | internal/mirror/mirror.go:736-744 | the timer closes the entry its own reservation made while that is pending, and nothing else |
| MirrorClient.ReconcileValid | internal/mirror/mirror.go:402-438 | reconciling keeps open sockets equal to the table's and stops each at most once |
| MirrorClient.AddValid | internal/mirror/mirror.go:440-460 | so does an add |
| MirrorClient.DelValid | internal/mirror/mirror.go:462-478 | so does a del |
| MirrorClient.ReserveValid | internal/mirror/mirror.go:678-734 | so does a reservation |
| MirrorClient.ReleaseValid | internal/mirror/mirror.go:736-744 | so does its timer |
| MirrorClient.CountIsBacking | internal/mirror/mirror.go:403-418 | the tally of a duplicate-free snapshot is the number of its listeners on the key |
| MirrorClient.SnapshotRefs | internal/mirror/mirror.go:402-438 | after a snapshot no mirror outnumbers its listeners, and all are counted exactly when no bind was refused |
| MirrorClient.AddRefs | internal/mirror/mirror.go:440-460 | an add keeps the counts sound; from a complete table it keeps them complete exactly when its bind is not refused |
| MirrorClient.DelRefs | internal/mirror/mirror.go:462-478 | a del keeps the counts sound and complete |
| MirrorClient.ReserveRefs | internal/mirror/mirror.go:678-734 | a reservation touches no counted mirror |
| MirrorClient.ReleaseRefs | internal/mirror/mirror.go:736-744 | neither does a timer |
| MirrorClient.ExactStays | internal/mirror/mirror.go:402-478 | a count that is right stays right under every event while the mirror stands |
| MirrorClient.RefusedBindUndercounts | internal/mirror/mirror.go:459-459 | a concrete refused bind after which a mirror counts one of two listeners |
| MirrorEntries.EventByKey | internal/mirror/mirror.go:402-478 | every event takes every key's entry to what that key's own small machine says, keeping its socket, and touches no other |
| MirrorEntries.StepByKey | internal/mirror/mirror.go:402-744 | so does every step of every run: reservations and timers touch their own key, the session's end takes all, nothing else touches any |
| MirrorEntries.ReserveByKey | internal/mirror/mirror.go:699-734 | a reservation that binds is entered as pending, on its own key alone |
| MirrorEntries.ReplyIs | internal/mirror/mirror.go:678-719 | each reply, and the requests that get it: unsupported, skipped, ours already, answered natively, refused for another reason |
| MirrorEntries.TimerReleases | internal/mirror/mirror.go:736-744 | a timer that fires on a standing reservation takes it out and stops its listener once, all else staying; on anything else it does nothing |
| MirrorEntries.ExpiryReleases | internal/mirror/mirror.go:721-744 | in every run no reservation outlives its timer |
| MirrorEntries.ReservationsAreTimed | internal/mirror/mirror.go:720-732 | in every run each standing reservation has its timer still to come |
| MirrorKeys.SnapshotRight | internal/mirror/mirror.go:402-438 | a snapshot makes every key right, listeners and count, but those whose bind it is refused |
| MirrorKeys.AddRight | internal/mirror/mirror.go:440-460 | after an add a key is right exactly when it was before and the add's bind is not refused |
| MirrorKeys.DelRight | internal/mirror/mirror.go:462-478 | after a del a key is right exactly when it was before or has no listener left |
| MirrorKeys.RightExactly | internal/mirror/mirror.go:402-478 | in every run a key is right exactly when each bind refused on it was followed by a moment without a listener on it or by a snapshot not refused it |
| MirrorKeys.KeyRefinesHub | internal/mirror/mirror.go:402-533 | once a live session has caught up, that is exactly when the table agrees with the hub on the key |
| MirrorClient.ReservedIsBound | internal/mirror/mirror.go:678-734 | an OK for an arbitrated port holds exactly when its listener is bound and in the table |
| MirrorClient.NothingShadowed | internal/mirror/mirror.go:497-533 | under a trusted read no mirror or reservation opens where a native listener answers |
| Mirroring.StepInv | internal/mirror/mirror.go:280-350 | every step of hub, channel, session, reservation and timer keeps the invariant |
| Mirroring.TableRefinesHub | internal/mirror/mirror.go:402-533 | live, drained and unrefused since the snapshot: the non-pending mirrors are exactly the keys of the hub's tracked listeners, each counting all of them |
| Mirroring.RefsBounded | internal/mirror/mirror.go:402-478 | in every run a mirror counts at least one and at most all known listeners, so a key without any holds at most a pending reservation |
| Mirroring.ExactUntilRemoved | internal/mirror/mirror.go:402-478 | in every run a right count is right at every later moment up to which the entry stands |
| Mirroring.OpenIsTable | internal/mirror/mirror.go:508-533 | in every run the open listeners are those of the table's entries, none of them stopped |
| Mirroring.ListenersConserved | internal/mirror/mirror.go:508-533 | a listener that was ever open is at any later moment open under its own entry and never stopped, or its entry has gone and it was stopped exactly once |
| Mirroring.StaleTimersDoNothing | internal/mirror/mirror.go:721-744 | once a reservation was adopted, removed or replaced its timer never changes anything again |
| MacHolder.WildcardHolder | internal/macsync/holder.go:26-60 | a holder that serves the mirror IP, if there is one, and none otherwise |
| MacHolder.OpensIffNothingAnswers | internal/macsync/holder.go:26-84 | with XNU's exact-address bind rule and a trusted read, a TCP mirror opens exactly when no native listener answers the mirror IP |
| MacHolder.OpensExactly | internal/mirror/mirror.go:484-533 | whatever the read: UDP opens unless its bind is refused, TCP unless that, an exact native address, or a wildcard an available read shows |
| MacHolder.OpensBlindly | internal/mirror/mirror.go:497-533 | with no mirror address to compare only a refused bind stands in the way |
| MacHolder.UnmapIs | internal/macsync/holder.go:26-60 | ::ffff:0:0/96 stands for the v4 addresses, any other address for itself |
| MacHolder.BindAloneShadows | internal/mirror/mirror.go:497-506 | without the hook the bind succeeds over a wildcard holder and shadows it |
| MacSyncer.OffersWhatAnswers | internal/macsync/sync.go:343-386 | a TCP port is offered exactly when some unexcluded polled listener answers the reverse dial to 127.0.0.1 |
| MacSyncer.SyncedExactly | internal/macsync/sync.go:343-386 | what is synced, listener by listener: loopback and wildcard TCP, `::` that takes IPv4 as 0.0.0.0, and the configured UDP ports |
| MacSyncer.DialsExactly | internal/macsync/sync.go:553-589 | a reverse dial reaches exactly the ports offered, each by its own protocol, and none while nothing is advertised |
| MacSyncer.IdIs | internal/agent/macsync.go:89-98 | TCP is 6 and UDP 17 on the wire |
| MacSyncer.Syncer.CurrentSetOf | internal/macsync/sync.go:364-386 | the loops collect the normalised listeners and the configured UDP services |
| MacSyncer.Syncer.SetAdvertised | internal/macsync/sync.go:173-184 | what is advertised is the (proto, port) projection of the set |
| MacSyncer.Syncer.Begin | internal/macsync/sync.go:415-440 | a session opens with the whole set, and advertises it |
| MacSyncer.Syncer.Tick | internal/macsync/sync.go:455-479 | the dels are what left, the adds what joined, and the advertised set is the new one's projection |
| MacSync.TickOwned | internal/agent/macsync.go:100-144 | which ports sync owns after a tick's dels, then adds, with any faults |
| MacSync.TickNeverExceeds | internal/agent/macsync.go:100-144 | whatever fails, sync owns no port the Mac does not offer |
| MacSync.TickKeepsKeys | internal/agent/macsync.go:100-144 | and each entry it owns is for a listener the Mac offers, address included |
| MacSync.TickConverges | internal/macsync/sync.go:459-474 | an unhindered tick leaves sync owning exactly the offered ports if and only if it orphans none |
| MacSync.OneAddressNoOrphan | internal/macsync/sync.go:459-474 | one address per port orphans none |
| MacSync.TwoAddressesOrphan | internal/agent/macsync.go:129-144 | closing one of two addresses of a port is an orphaning tick |
| MacSync.SnapshotConverges | internal/agent/macsync.go:146-169 | an unhindered snapshot converges from nothing, however many addresses it lists |
| MacSync.OwnedIsOffered | internal/agent/macsync.go:46-169 | in every session, after every round, each owned port is offered by the last poll at the address it is steered for |
| MacSync.OwnedIsExactlyOffered | internal/agent/macsync.go:46-169 | with one address per port, no fault and no harness entry in the way, they are exactly the offered ones, each steered for the one address it is offered at |
| MacSync.OwnedIsDialable | internal/macsync/sync.go:553-589 | a reverse dial to an owned port passes the gate and reaches that port |
| MacSync.HandledConsistent | internal/agent/macsync.go:100-169 | every sync event whose kernel deletes succeed keeps the three registries in step |
| MacSync.SyncKeepsHarness | internal/agent/macsync.go:129-183 | no sync event, snapshot or cleanup, taken whole, removes or takes over a harness entry |
| MacSync.RegistryInStep | internal/agent/macsync.go:46-183 | in every run whose kernel deletes succeed the registries agree, nothing is owned between sessions, and a cleanup removes only what its own session added |
| MacSync.StepDoes | internal/agent/macsync.go:46-183 | what each step of session or harness does to the registries, and in whose name |
| MacSync.AddEventDoes | internal/agent/macsync.go:100-127 | an add event's port is sync's from then on, at its address, unless taken or failing |
| MacSync.DelEventDoes | internal/agent/macsync.go:129-144 | a del event's port goes if it was sync's, and only then |
| MacSync.Goes | internal/agent/macsync.go:46-69 | one session inside at a time |
| MacRaces.AddUninterrupted | internal/agent/macsync.go:100-127 | the locked sections of a sync add, with nothing in between, are the add |
| MacRaces.DelUninterrupted | internal/agent/macsync.go:129-144 | so are those of a del |
| MacRaces.Goes | internal/agent/macsync.go:100-183 | a session does only what it is in the middle of, and new work only when that is done |
| MacRaces.RemovalGoesOn | internal/agent/macsync.go:158-183 | a collected port waits for its own removal and no longer |
| MacRaces.OwnersAlways | internal/agent/macsync.go:100-183 | after every locked section of sync or harness, in any order and with any faults, an owned port is sync's own entry or is being reserved |
| MacRaces.InStepUntil | internal/agent/agent.go:142-199 | and map, proxies and registry agree up to the first failed delete of an entry, which takes them out of step |
| MacRaces.TakenExactly | internal/agent/macsync.go:129-183 | a collected port is the harness's when its removal comes exactly when the harness registered it since and it is still there |
| MacRaces.TakingHappens | internal/agent/macsync.go:129-144 | a run in which a removal takes the harness's entry |
| MacRaces.ReservationLost | internal/agent/macsync.go:111-121 | a reservation is gone at the add exactly when the harness removed an entry on its port since |
| MacRaces.LeakedExactly | internal/agent/macsync.go:111-126 | sync's add leaves an entry it does not own exactly when that happened and the add succeeds |
| MacRaces.LeakedStays | internal/agent/macsync.go:129-183 | no sync step of this session or a later one removes such an entry |
| MacRaces.LeakHappens | internal/agent/macsync.go:111-126 | a run that leaves one |
| GuestAgent.Agent.AddMacPort | internal/agent/agent.go:142-184 | proxy, map, entry in that order: no failing call leaves a trace, and every intermediate state steers only to listening proxies |
| GuestAgent.Agent.RemoveMacPort | internal/agent/agent.go:186-199 | map entry before proxy: from consistent registries no intermediate state steers to a closed proxy exactly when there is no entry or its delete succeeds |
| GuestAgent.Agent.AddSyncPort | internal/agent/macsync.go:100-127 | ownership is reserved first and given back when the add fails |
| GuestAgent.Agent.DelSyncPort | internal/agent/macsync.go:129-144 | taken whole, only an owned port is removed, through states that all steer safely exactly when its delete succeeds |
| GuestAgent.Agent.ApplySyncSnapshot | internal/agent/macsync.go:146-169 | stale owned ports go, missing ones come, through states that all steer safely exactly when the stale ports' deletes succeed |
| GuestAgent.Agent.RemoveSyncOwned | internal/agent/macsync.go:171-183 | every owned port goes, through states that all steer safely exactly when their deletes succeed |
| GuestAgent.RemoveMore | internal/agent/macsync.go:171-183 | removing one by one is removing all at once |
| GuestAgent.AddMore | internal/agent/macsync.go:160-168 | adding one by one is adding all at once |
| GuestAgent.StoredAddress | internal/bpf/keys.go:23-31 | the sixteen bytes of a map key are the listener's address, IPv4 in its v4-mapped form |
| GuestAgent.KeysTellApart | internal/bpf/keys.go:23-31 | two keys are equal exactly when port and unmapped address are |
| GuestAgent.AddEffect | internal/agent/agent.go:142-184 | an add takes exactly when the port is free, TCP or UDP, and nothing fails; no other port moves |
| GuestAgent.RemoveEffect | internal/agent/agent.go:186-199 | a removal takes entry, proxy and ownership, and the kernel's key unless that delete fails; no other port moves |
| GuestAgent.SnapshotEffect | internal/agent/macsync.go:146-169 | a snapshot port by port: harness and listed ports stay, unlisted owned ones go, free listed ones come at the address listed last |
| GuestAgent.LastListedWins | internal/agent/macsync.go:147-152 | of two listeners on one port the later in the list is wanted |
| Pcblist.RoundUp8 | internal/macsync/pcblist_darwin.go:81-86 | the least positive multiple of eight that holds n, wrapping to zero for the last seven lengths |
| Pcblist.AdvanceIs | internal/macsync/pcblist_darwin.go:81-86 | the same as arithmetic on a uint32 |
| Pcblist.BlockIsThere | internal/macsync/pcblist_darwin.go:107-121 | a block is there when its length exceeds the header's and the buffer holds it |
| Pcblist.BitsAre | internal/macsync/pcblist_darwin.go:121-127 | a mask's bits are its binary digits, all thirty-two |
| Pcblist.KernelKinds | internal/macsync/pcblist_darwin.go:121-127 | the kinds the kernel writes for one socket share no bit |
| Pcblist.ParsePcblistN | internal/macsync/pcblist_darwin.go:88-140 | the walk reads the blocks up to the trailer and flushes a group whenever a kind comes round again; without a trailer it errs unless the header counts nothing; a block that pads to zero is never got past |
| Pcblist.SpinsExactly | internal/macsync/pcblist_darwin.go:81-130 | the walk never ends exactly when stepping over whole blocks from the header comes by one, there in full, whose length pads to zero |
| Pcblist.ParseEnds | internal/macsync/pcblist_darwin.go:107-130 | so it ends on every buffer of at most 0xfffffff8 bytes |
| Pcblist.SpinHappens | internal/macsync/pcblist_darwin.go:81-130 | a longer buffer on which it does not |
| PcblistEmission.FrontOfEmission | internal/macsync/pcblist_darwin.go:108-121 | a cut inside a block leaves no block, and a later one gives it whole |
| PcblistEmission.ReadEmission | internal/macsync/pcblist_darwin.go:107-130 | a cut emission reads as all its blocks and the trailer, or without the trailer |
| PcblistEmission.GatherGroup | internal/macsync/pcblist_darwin.go:99-130 | the blocks of one socket gather on top of the listeners found before it |
| PcblistEmission.LaddrReads | internal/macsync/pcblist_darwin.go:149-156 | an address written in network order, IPv4 in the last four of sixteen bytes, reads back |
| PcblistEmission.GroupListens | internal/macsync/pcblist_darwin.go:142-157 | a group yields its socket's own address, port and v6-only flag, exactly when the socket is in LISTEN |
| PcblistEmission.ParseEmission | internal/macsync/pcblist_darwin.go:88-157 | parsing what the kernel wrote gives exactly the LISTEN sockets in order |
| PcblistEmission.TornIsNeverSmaller | internal/macsync/pcblist_darwin.go:131-140 | any prefix is an error or the same complete list, and the latter exactly from eight bytes of trailer on |
| PcblistEmission.HeaderOnly | internal/macsync/pcblist_darwin.go:131-140 | the header-only reply is an empty list exactly when it counts no pcbs |
| DialPool.DialPool.Park | internal/agent/dialpool.go:45-63 | refused when closed or full, handed to the longest waiter, or pooled |
| DialPool.DialPool.Watched | internal/agent/dialpool.go:65-82 | the watchdog drops a connection that was not handed off, and records what its read saw |
| DialPool.DialPool.LookUp | internal/agent/dialpool.go:87-115 | closed, any pooled connection taken off the pool, or a place at the end of the queue |
| DialPool.DialPool.GiveUp | internal/agent/dialpool.go:119-127 | a timed-out waiter leaves the queue if it is still there |
| DialPool.DialPool.Close | internal/agent/dialpool.go:148-157 | the pool is emptied for good and its connections handed to the closer |
| DialPool.SectionsKeepValid | internal/agent/dialpool.go:45-157 | every critical section keeps the cap, no waiter beside a pooled connection, and no repeated waiter |
| DialPooling.PlaceStep | internal/agent/dialpool.go:45-157 | every interleaved step takes a connection from its one place to one place |
| DialPooling.ParkLands | internal/agent/dialpool.go:45-63 | a parked connection lands in exactly one place |
| DialService.ParkServes | internal/agent/dialpool.go:45-63 | open, fewer than 32 pooled and nobody queued: pooled with a fresh record; somebody queued: in flight to the first, the rest moving up; closed in exactly the remaining cases |
| DialService.LookUpServes | internal/agent/dialpool.go:87-115 | a pop fails when closed, is given any pooled connection, or joins the queue's end |
| DialService.WatchServes | internal/agent/dialpool.go:65-82 | a watchdog closes what no pop has spoken for, and records what it saw |
| DialService.PokedServes | internal/agent/dialpool.go:100-108 | a poked connection that spoke or is dead is closed and the pop looks again; otherwise it is returned |
| DialService.WaiterServed | internal/agent/dialpool.go:113-134 | a waiter returns what it was sent; one that times out leaves the queue, the others keeping their order, and takes one last look |
| DialService.CloseServes | internal/agent/dialpool.go:148-157 | closing drops exactly what is pooled |
| DialService.QueueKeepsOrder | internal/agent/dialpool.go:45-136 | in every run two pops queue in the order they joined, as long as both do |
| DialService.ServedInOrder | internal/agent/dialpool.go:52-57 | a connection is parked for a pop only when nobody who queued before it is still there |
| DialService.ClosedForGood | internal/agent/dialpool.go:45-157 | once closed every later park is refused and every later look fails |
| DialService.NobodyStuck | internal/agent/dialpool.go:45-157 | in every run each pop that has not returned can go on, whatever anybody else does |
| DialPooling.PoolBounded | internal/agent/dialpool.go:45-63 | in every run the pool is empty while anybody queues, holds at most 32, and stays empty once closed |
| DialPooling.OnePlace | internal/agent/dialpool.go:45-157 | in every run every connection ever parked is in exactly one place |
| DialPooling.OnlyForward | internal/agent/dialpool.go:45-157 | places only go forward: what is returned or closed stays so |
| DialPooling.DeliveredOnce | internal/agent/dialpool.go:84-136 | no connection is returned by two pops |
| DialPooling.ReturnedIsUnwatched | internal/agent/dialpool.go:95-107 | a pooled connection is returned only after its watchdog finished on the deadline poke |
| DialPooling.StrandedExactly | internal/agent/dialpool.go:52-57 | a connection is stranded by exactly one step: its pop's last look while park has not sent it yet |
| DialPooling.StrandedForGood | internal/agent/dialpool.go:116-136 | a stranded connection is at no later moment of the run with a caller, or closed |
| DialPooling.StrandingHappens | internal/agent/dialpool.go:52-57 | a run of five steps that strands one |
| SuperviseCap.SuperviseCap.Acquire | internal/agent/notifycap.go:48-54 | a slot exactly when one is free; the overshoot is undone |
| SuperviseCap.SuperviseCap.AdmitProbe | internal/agent/notifycap.go:120-133 | duplicate if any tracked fd is the same open file, full without a slot, otherwise slot and tracked together |
| SuperviseCap.SuperviseCap.AdmitTrusted | internal/agent/notifycap.go:137-142 | tracked and counted, never refused |
| SuperviseCap.AdmitsExactly | internal/agent/notifycap.go:120-142 | a probe is a duplicate exactly when kcmp answers and a tracked fd is its open file, full exactly when no slot is free, and otherwise takes slot and tracking |
| SuperviseCap.EligiblesArePicked | internal/agent/fdstore.go:103-116 | the adoptable fds are those named ours and listeners still, every one, in order |
| SuperviseCap.AdoptOne | internal/agent/fdstore.go:103-122 | one more inherited fd is adopted exactly when it is ours, a listener, and a slot is free; otherwise closed |
| SuperviseCap.AdoptStoredFds | internal/agent/fdstore.go:94-124 | every inherited fd is adopted or closed, a slot taken first; all eligible ones when there are slots for them |
| Supervising.HeldWithinCap | internal/agent/notifycap.go:48-56 | in every interleaving capped slots held never exceed max; the counter exceeds them by the adds about to be undone |
| Supervising.AddsStayAbove | internal/agent/notifycap.go:48-65 | no release or undo takes a counter below zero |
| Supervising.TrackedIsOwned | internal/agent/notify.go:156-182 | every tracked number is an open fd with exactly one supervisor |
| Supervising.NeverItsOwnNumber | internal/agent/notifycap.go:84-92 | a handoff not yet admitted is never compared with its own stale number |
| Supervising.TrackedWithinHeld | internal/agent/notify.go:164-182 | tracked fds never outnumber held slots |
| Supervising.ProbeIsNewcomer | internal/agent/notifycap.go:120-133 | while kcmp answers, no probe fd is admitted while the same open file is tracked |
| SupervisedFds.CheckRefuses | internal/agent/notifycap.go:120-126 | in every run the check refuses a probe exactly when a supervisor has its open file |
| SupervisedFds.BumpTakes | internal/agent/notifycap.go:48-54 | and a slot is had exactly while fewer than max are held or tried for |
| SupervisedFds.Supervised | internal/agent/notify.go:144-168 | going under supervision: tracked, and counted in its own bucket |
| SupervisedFds.GivenUp | internal/agent/notify.go:174-182 | coming out of it: untracked, then closed, then the slot given back |
| SupervisedFds.LockExcludes | internal/agent/notifycap.go:71-133 | inside one probe's check nobody else checks, tracks or untracks |
| SupervisedFds.OpenIsOwned | internal/agent/notify.go:170-182 | in every interleaving the open fds are exactly those of threads that have yet to close theirs |
| SupervisedFds.AllGivenBack | internal/agent/notify.go:174-182 | once every thread is done no slot is held and no fd open or tracked |
| SupervisedFds.NobodyStuck | internal/agent/notify.go:130-182 | a thread that is not done can go on once the lock is free or its own |
| Supervising.SharedExactly | internal/agent/notify.go:144-212 | two supervisors come to share an open file exactly when one is admitted as trusted while the other supervises it, or, where kcmp does not answer, inserted as a probe fd |
| Supervising.SharingWithoutKcmp | internal/agent/notify.go:187-212 | a run in which two probe handoffs of one file are both let in |
| Supervising.SharingAfterTrade | internal/agent/notify.go:160-168 | a run in which a probe handoff gets in between an adopted fd's trade and its admission |
| Supervising.SharingBeforeTrade | internal/agent/fdstore.go:94-124 | and one in which it gets in after the adoption, before the trade |
| Supervising.AdoptionNeverRefuses | internal/agent/fdstore.go:94-124 | adopting at most max stored fds before any probe handoff refuses none, whatever is released meanwhile |
| SeccompProfile.SeccompOf | internal/ociruntime/mutate.go:92-143 | the loops find the first reason, in the source's order, not to touch a profile |
| SeccompProfile.StripBind | internal/ociruntime/mutate.go:147-168 | bind is taken out of every rule, and a rule left without names is dropped |
| SeccompProfile.MutateConfig | internal/ociruntime/mutate.go:32-78 | the whole decision and rewrite, the nil-map crash included |
| SeccompProfile.OnlyBindChanges | internal/ociruntime/mutate.go:147-168 | for every other syscall the ordered rules and the default action are unchanged; bind is named by exactly one unconditional notify rule |
| SeccompProfile.RestUnchanged | internal/ociruntime/mutate.go:52-78 | nothing outside linux.seccomp changes, nor in it but the rules and the listener |
| SeccompProfile.InjectsIff | internal/ociruntime/mutate.go:32-143 | injection happens exactly when nobody opted out and bind was provably allowed; only a null document crashes |
| SeccompReasons.InjectsExactly | internal/ociruntime/mutate.go:32-143 | the same in the document's own keys and values |
| SeccompReasons.ReasonIs | internal/ociruntime/mutate.go:38-143 | which reason is given, in the order they are looked for |
| SeccompReasons.ObjectionIsToFirst | internal/ociruntime/mutate.go:123-138 | an objection is to the first bind rule that is no plain allow, and says what it does |
| SeccompReasons.NoRuleForBind | internal/ociruntime/mutate.go:139-141 | for want of a bind rule: there is none, and the default named is the profile's |
| SeccompReasons.NamesPicked | internal/ociruntime/mutate.go:155-163 | a rule keeps its other names, in order and as often |
| SeccompReasons.RulesPicked | internal/ociruntime/mutate.go:147-168 | the rules that stay are those with another name, or without bind, in order and otherwise unchanged |
| SeccompReasons.RewrittenRules | internal/ociruntime/mutate.go:52-86 | after them comes one rule that notifies on bind and nothing else |
| SeccompProfile.RefusesItsOwnOutput | internal/ociruntime/mutate.go:92-119 | run on its own output the rewrite always refuses, and why |
| DaemonJson.Merge | internal/guestbin/provision.go:103-166 | the edit of the decoded file, the record it leaves, and when it writes nothing |
| DaemonJson.Revert | internal/guestbin/provision.go:176-237 | the exact restore while the file is what was written, otherwise the undoing of the owned keys |
| DaemonMerges.MergesExactly | internal/guestbin/provision.go:103-166 | a merge works exactly on no file, or a document whose two keys are absent, null or of their kind; drawbridge ends up a runtime at the path and the default, all else kept; one that serves it already is left |
| DaemonMerges.MergeRecords | internal/guestbin/provision.go:103-166 | what is noted down for the undoing |
| DaemonMerges.RevertFailsExactly | internal/guestbin/provision.go:176-217 | an undoing fails exactly on a newer record, or an edited file it cannot read |
| DaemonMerges.RevertsByKey | internal/guestbin/provision.go:198-236 | key by key: drawbridge goes if it was added, the default goes back if it still says drawbridge, nothing else moves |
| DaemonMerges.RevertsExactly | internal/guestbin/provision.go:181-193 | a file that is what was written comes back as it was, or goes |
| DaemonMerges.UpDoes | cmd/drawbridge/up.go:713-740 | an up writes what the merge makes and records only the first |
| DaemonMerges.DownDoes | internal/guestbin/provision.go:176-237 | a down without a usable record leaves the file |
| DaemonJson.MergeSettles | internal/guestbin/provision.go:144-165 | after a merge that succeeded no later merge changes the file, whatever path it asks for |
| DaemonJson.DownRestores | cmd/drawbridge/up.go:713-740 | any number of ups keeping the first record, then a down, restores the original bytes, or no file |
| DaemonEdits.RevertCommutes | internal/guestbin/provision.go:176-236 | after an up, then ups and edits of other keys in any order, a down gives the exact bytes if the file is as first written, and otherwise the edited original exactly when default-runtime and runtimes were recoverable |
| DaemonEdits.NullDefaultIsLost | internal/guestbin/provision.go:220-232 | a null default-runtime is an input at which they were not |
| DaemonEdits.OtherPathIsLost | internal/guestbin/provision.go:205-219 | so is a drawbridge runtime registered under another path |
| Leases.NormalizeHWAddr | internal/limaaddr/leases.go:133-163 | the loop spells the six octets canonically, or rejects |
| Leases.AddressOfSpelling | internal/limaaddr/leases.go:133-163 | the canonical spelling stands for the octets it was made from |
| Leases.NormalizedIsCanonical | internal/limaaddr/leases.go:133-163 | normalising is idempotent, and two spellings meet exactly when their octets are equal |
| LeaseGates.AddressIs | internal/limaaddr/leases.go:133-163 | six parts of one or two hex digits of either case, with or without a numeric hardware type, are those octets |
| LeaseGates.AddressIsNot | internal/limaaddr/leases.go:133-163 | any other prefix, or not six such parts, is no address |
| LeaseGates.DigitsCount | internal/limaaddr/leases.go:148-158 | hex digits of either case count by their place |
| Leases.ParseLeases | internal/limaaddr/leases.go:63-101 | the line state machine keeps each closed record that has a name and an address |
| Leases.ParsedIsWritten | internal/limaaddr/leases.go:37-45 | a lease database as the DHCP server writes it reads back record for record |
| LeaseGates.LinesPassedOver | internal/limaaddr/leases.go:69-85 | which lines count for nothing, and what the braces do |
| LeaseGates.CarriageReturns | internal/limaaddr/leases.go:69-70 | one carriage return at a line's end is no part of it |
| Texts.SpacesAre | internal/limaaddr/leases.go:69-87 | white space is Unicode's, code point by code point |
| LeaseGates.FieldsCount | internal/limaaddr/leases.go:86-99 | a field sets what its key names; any other key sets nothing |
| LeaseGates.HexTimeReads | internal/limaaddr/leases.go:107-117 | a timestamp is hex after 0x or 0X |
| LeaseGates.DecimalTimeReads | internal/limaaddr/leases.go:107-117 | and decimal otherwise; past 63 bits it is none |
| LeaseGates.NoTime | internal/limaaddr/leases.go:107-117 | no text, a negative number or a stray character is none |
| Leases.SortRanks | internal/limaaddr/leases.go:237-237 | the stable sort orders by decreasing expiry, file order on ties, and loses no record |
| Leases.SortedChoice | internal/limaaddr/leases.go:237-249 | sorting, deduplicating and capping picks the first at most four distinct addresses |
| Leases.ChoiceIsUnique | internal/limaaddr/leases.go:237-249 | that description fits one list only |
| Leases.LeaseCandidatesFrom | internal/limaaddr/leases.go:187-251 | nothing for an unreadable pin; otherwise that choice among the records passing every gate, and a count of those turned away at each |
| LeaseGates.PassesExactly | internal/limaaddr/leases.go:209-230 | a record passes by its exact name, a usable address, the subnet and, when pinned, six equal octets however spelt |
| LeaseGates.RecordsAccountedFor | internal/limaaddr/leases.go:203-235 | every record of the name at a usable address is a candidate or counted in one note, each note showing the first of its kind |
| VmRefs.RefIsPlain | internal/vmprovider/vmprovider.go:139-162 | an accepted -vm holds nothing a plist would escape, and more than white space |
| VmRefs.InstanceNames | internal/vmprovider/vmprovider.go:139-162 | what an instance name is |
| VmRefs.BareRefIs | internal/vmprovider/vmprovider.go:139-162 | a bare name is a Lima instance |
| VmRefs.RefIs | internal/vmprovider/vmprovider.go:139-162 | a colon names the provider, lima, colima or podman |
| VmRefs.RefIsNot | internal/vmprovider/vmprovider.go:139-162 | any other provider, or what is no name, is refused |
| VmRefs.ColimaNames | internal/vmprovider/vmprovider.go:172-185 | which instance a colima profile is |
| Plist.RenderPlist | internal/install/plist.go:306-332 | the document of a valid config's argv, and nothing for another |
| PlistValidation.ValidatesExactly | internal/install/plist.go:184-216 | a config is accepted exactly when each part is of its shape, empty meaning left out |
| PlistValidation.MacsExactly | internal/install/plist.go:184-216 | hardware addresses: six parts of one or two hex digits |
| PlistValidation.MacIsAddress | internal/install/plist.go:202-204 | and those are exactly the ones a lease's pin reads, a hardware type aside |
| PlistValidation.SubnetsExactly | internal/install/plist.go:205-207 | subnets: four parts of one to three digits and a prefix length of one or two |
| PlistValidation.SubnetHasSlash | internal/install/plist.go:205-207 | and never without a slash |
| PlistValidation.EndpointsExactly | internal/install/plist.go:208-210 | endpoints: a port of one to five digits on the loopback |
| PlistValidation.PathsExactly | internal/install/plist.go:218-238 | secret paths: absolute, nothing to escape, no control characters |
| PlistValidation.ArgvIs | internal/install/plist.go:254-284 | the argv of a config that says only which VM |
| PlistValidation.DocumentSays | internal/install/plist.go:310-331 | whatever the argv, the document labels the daemon, runs it at load, keeps it alive and logs both outputs |
| Plist.ArgsFromPlist | internal/install/plist.go:489-508 | the loop pairs each flag with the next element of the searched part |
| Plist.KeyComesFirst | internal/install/plist.go:489-495 | nothing in the rendered document before the argument key looks like it |
| Plist.FindsArgs | internal/install/plist.go:489-513 | searching the rendered document finds the argv, whole and in order |
| PlistRoundTrip.ParsePorts | internal/install/plist.go:360-377 | a list of non-zero 16-bit ports, empty for blank text, or a refusal |
| PlistValidation.PortListsExactly | internal/install/plist.go:360-377 | a list is read exactly when it is blank or every field between commas is a port from 1 to 65535, and as those ports in order |
| PlistValidation.SkipsExactly | internal/install/plist.go:390-404 | 22 and 323 in either order are the default; any other list is kept as typed |
| PlistRoundTrip.PortsRoundTrip | internal/install/plist.go:286-292 | what joinPorts writes ParsePorts reads back, the empty list included |
| PlistRoundTrip.HaveSamePorts | internal/install/plist.go:411-426 | the counters decide whether two lists hold the same ports as often |
| PlistRoundTrip.Draft.SetSkip | internal/install/plist.go:390-404 | restating the default renders nothing, an empty list renders, a bad one changes nothing |
| PlistRoundTrip.FlagsArePlain | internal/install/plist.go:184-244 | no argument of an accepted config needs escaping |
| PlistRoundTrip.PlistReadsBack | internal/install/plist.go:254-329 | reading the rendered plist back gives exactly the flags of the argv, each value trimmed, absent and empty -skip told apart |
| Inherit.InheritInstall | cmd/drawbridge/inherit.go:106-181 | each flag's value, its note and its origin after the merge with the installed daemon |
| Inherit.GivenWins | cmd/drawbridge/inherit.go:106-181 | an explicit flag wins, the empty value included |
| Inherit.NeverAnotherVMs | cmd/drawbridge/inherit.go:156-179 | a hardware pin or secret is never carried to another VM |
| Inherit.MacWideSurvive | cmd/drawbridge/inherit.go:134-152 | Mac-wide values survive a change of VM; only a flag given replaces them |
| Inherit.OneVMsStay | cmd/drawbridge/inherit.go:118-179 | the VM stays unless given, and one VM's values exactly while it is that VM, spellings aside |
| Inherit.NothingLostInSilence | cmd/drawbridge/inherit.go:134-179 | an installed value stays and is said to, or a note says it went, or a given value stands in its place |
| Inherit.NotesAreTrue | cmd/drawbridge/inherit.go:115-179 | and no note says what is not so |
| Inherit.PinIs | cmd/drawbridge/inherit.go:112-115 | an installed endpoint pin is anything but auto |
| Upgrade.FlagsAreKept | cmd/drawbridge/main.go:195-205 | a bare re-install ends up with every installed value |
| Upgrade.ConfiguresExactly | cmd/drawbridge/main.go:207-345 | flags configure a daemon exactly when each reads as what it is for and a podman machine has a recorded endpoint and no pin; and what the config then says |
| Upgrade.KeptConfigures | cmd/drawbridge/main.go:207-345 | and turns them into the installed config again, up to trimming, derivation and a podman machine's recorded endpoint |
| Upgrade.UpgradeIsFixpoint | cmd/drawbridge/main.go:195-399 | upgrading in place is refused exactly when a podman machine has no recorded endpoint or one off the loopback, or a newly derivable secret path is one a plist cannot hold; otherwise it gives the same argv exactly when the -vm spelling and the secret path are trimmed, an underivable secret path still is one, and the recorded endpoint is the same |
| Upgrade.ForeignEndpointIsRefused | internal/install/plist.go:208-210 | a podman machine whose record now names another host is an input that is refused |
| Upgrade.QuotedPathIsRefused | internal/install/plist.go:211-238 | so is an install without a secret path, once one with an apostrophe can be derived |
| Upgrade.BareInstallUpgrades | cmd/drawbridge/main.go:167-345 | a bare install over nothing, with a trimmed derivable secret path, upgrades to the same argv |
| Upgrade.SpacedVmChanges | cmd/drawbridge/main.go:207-265 | an install whose -vm has a space in front upgrades to another argv |

## Left out

- Sockets, transport authentication, JSON text on the wire, ping events, goroutine scheduling inside a lock, logging, introspection and observation records: outcomes of foreign calls are parameters (bind results, polls, proxy listens, map puts and deletes), and every session is taken as authenticated.
- Mirror entries and their listeners are values named by their key and the operation that opened them, not pointers; a timer holds that name. Splicing, UDP relays and per-connection accounting are not modelled.
- The hub's seeding from /proc/net and its race with the tracker: runs start from the empty set and add.
- One poll and its exclusion of mirrored ports are one step, so the window in which a mirror closes between them is not modelled.
- The reread loop of Listeners(), three attempts around the parser, is not modelled.
- GuestAgent.Agent.DelSyncPort: the ownership check and the removal are one step here, where the source takes the lock twice; the two sections are MacRaces.Collect and MacRaces.RemoveNext, and what can happen in between is proved there.
- Agent shutdown and guest-owned ports (AddGuestPort, HasGuestPort) are not modelled.
- The dial pool's liveness probe and the deadline itself are nondeterministic outcomes; a watchdog's read may return anything at any time.
- Supervising: kcmp is either reliable for the whole run or answers no; fd-store messages, notifications and refusal-log throttling are left out. The fd store's contents are not tracked.
- JSON numbers are opaque leaves, so the rounding of large numbers by a decode and re-encode of config.json is not modelled; nor are duplicate keys.
- DaemonJson: a value is its tree with a spelling, a file its keys with a layout, an edit is of a file whose runtimes can be decoded, and sha256 is injective; the state file's own JSON round trip (which would replace invalid UTF-8 in the recorded bytes) is taken as exact.
- Leases: usable addresses and the vmnet subnet are given as sets of address texts; the notes are values, not sentences; sort.SliceStable is modelled as an insertion sort.
- Strings are sequences of characters, not bytes.
- Upgrade.UpgradeIsFixpoint: a podman machine's endpoint is the outcome of reading its record, checks that warn or refuse on a record at odds with the machine included; what can fail after the config is validated (root, files, launchctl) is left out; parsing a vmnet subnet is a parameter that accepts its own canonical text; printing, warnings and the agent note are left out.
- Inherit: note texts are values; agentNote and explicitFlags are not modelled.
- The daemon's newsyslog configuration, launchctl, doctor, TUI and status rendering, the eBPF programs and the up/down shell steps are not modelled.
