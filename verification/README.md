# Verification of the bridge and the relay

A phone talks to a bridge on a Mac, either directly or through a relay that sees
only ciphertext.  This project models the parts of both programs in which several
goroutines, peers or processes work on one piece of state, and two layers of pure
byte handling, and proves what they keep.

Each component comes in two parts.  A class holds the fields the source changes
under a lock, with one method per operation, loops included; its contract ties the
new state to functions of the old one.  A second module, where there is concurrency,
is a state machine in which any number of goroutines, connections or processes
interleave, messages are delayed, reordered and lost, and every fault the source
checks for may strike, and proves what holds in every state of every run.

The steps of `RelayRuns`, `RelayIncarnations`, `FolderReadRuns` and `BlobRuns` are the
functions the methods are proved against.  `StoreTransactions`, `Admission`, `LeaseRuns`
and `SecureChannel` cut calls into finer steps of their own, and lemmas tie calls to
them: `StoreTransactions.LockedIsOneEntry` for a transaction;
`ServerAdmission.ComparingIsAStep`, `RecheckingIsAStep` and `RevokeIsItsSteps` for
`PublishAdmission` and `Revoke`; `LeaseRuns.AcquireIsItsSteps`, `ReleaseIsItsSteps` and
`ReleasePoolIsOneStep` for leases; `SecureChannel.SendIsItsSteps` for `Send`.

A method and the function it is proved against could share a mistake, so what a step
does is also said without that function: the lemmas called `...ExactlyWhen` say, over
runs or for all inputs, when an operation takes each of its outcomes.

| component | modules |
|---|---|
| relay session: admission, displacement, channel numbers, tokens | `RelayPhones`, `RelaySession`, `RelayRuns`, `Tokens` |
| relay throttles | `TokenBucket`, `ConnectionWindows` (both in `RelayThrottle.dfy`) |
| relay and bridge, one attachment | `RelayMux`, `RelayIncarnations` |
| devices.json | `DeviceStore`, `StoreTransactions` |
| pairing codes, handshakes, revocation | `PairingCodes`, `ServerAdmission`, `Admission` |
| work pools and leases | `WorkPools`, `LeaseRuns` |
| folder listings | `FolderReads`, `FolderReadRuns` |
| attachment uploads | `BlobUploads`, `BlobRuns` |
| encrypted channel | `Envelope`, `Chunks`, `SecureChannel` |
| signed encodings | `Encodings` |
| request paths | `Utf8`, `Routes`, `RouteTable` |

`Options`, `Sets` and `ByteStrings` hold what several of them share.
`dafny verify dfyconfig.toml` checks everything.

## What is assumed

- Address keys are not empty: the displacement policy uses the empty key for "none yet".
- Limits are positive, and the admitted and pending caps of a session together stay below 65535.
- Tokens and pairing codes are fresh, and tokens are not empty.
- The frames of one connection are read by one goroutine, and every revocation goes through `Server.Revoke`.
- Time is monotone; clocks, timers and contexts are inputs or free choices of a step.
- The AEAD is ideal: a box opens only under the key, nonce and header it was sealed with. SHA-256 is an arbitrary function given to the model.
- A plaintext is either a message on a channel other than "chunk" or a piece; JSON is not modelled.

## Where the code and its comments differ

- The comment on `canonicalizePath` (internal/bridge/routes.go:174-176) speaks of one
  admitted spelling of a path.  Sub-delimiters may be written raw or escaped, and hex
  digits in either case, so a path can have several; `Routes.OneSpellingExactlyWhen`
  says which have one.  What the bridge relies on does hold: all spellings of a path
  are routed alike.
- `lp` (internal/protocol/handshake.go:157-162) cuts the length of a field to 16 bits.
  `Encodings.UniqueExactlyBelowTheLimit` says for which field sizes encodings stay
  unique: exactly below 65536 bytes.
- `ChunkAssembler.Add` returns nil both for "more to come" and for a completed message
  without bytes; the model has one result for both.
- The connection limit is called "per minute" (internal/relay/relay.go:48-49), but it is
  per window, and windows start with a connection: a minute that straddles two windows
  can see twice the limit less one, for every limit (`ConnectionWindows.AnyMinuteIsBounded`,
  met by `ConnectionWindows.BoundIsMet`).  Every minute keeps to the limit if and only
  if the limit is one (`ConnectionWindows.PerMinuteExactlyWhen`).
- `send` keeps no memory of a failed write, and some callers ignore its error
  (internal/bridge/tunnel.go:179), so a message cut short can be followed by others.
  What arrives is then still a prefix of the messages sealed whole, in every run, but
  not always of those given to `send`: exactly when the first message cut short is
  followed directly by one that fits one frame, and that frame arrives, it is received
  ahead of the one cut short (`SecureChannel.ReceivedIsPrefixOfSentExactlyWhen`).  Only
  the first cut matters: a large message right after it makes the receiver give up.

## Model

| member | source | states |
|---|---|---|
| RelaySession.AdmittedCount | internal/relay/relay.go:344-352 | the loop returns the number of admitted phones, in any iteration order |
| RelaySession.PendingCounts | internal/relay/relay.go:617-626 | the loop returns how many phones are pending, in all and for the newcomer's group |
| RelaySession.TallyPhones | internal/relay/relay.go:300-317 | the first pass, in any iteration order, tallies pending phones and unvouched ones per group, and finds the oldest of each |
| RelaySession.DisplacementVictim | internal/relay/relay.go:300-340 | for every map iteration order: the oldest unvouched pending phone of the newcomer's group when that group is full, otherwise that of a group with most unvouched phones, ties to the oldest; none when nothing is full or everyone is vouched |
| RelaySession.BusiestOldest | internal/relay/relay.go:323-340 | the second loop finds the oldest displaceable phone of a group no other outnumbers |
| RelayPhones.DisplacementIsFair | internal/relay/relay.go:300-340 | a displaced phone is pending, unvouched and the oldest of its group; it is of the newcomer's group when that group is full, and otherwise of one that no group outnumbers, ties going to the oldest phone of all |
| RelayPhones.RefusedOnlyWhenProtected | internal/relay/relay.go:616-634 | a newcomer is refused for pending capacity if and only if every candidate that could make room is vouched |
| RelaySession.Session.AllocateChannel | internal/relay/relay.go:635-646 | the search over wrapping 16-bit numbers ends, at the first number after `nextCh` that is neither 0 nor in use |
| RelayPhones.RoomLeft | internal/relay/relay.go:635-646 | by the pigeonhole principle the caps leave a channel number free |
| RelayPhones.SearchComesRound | internal/relay/relay.go:635-646 | the numbers tried from any start, across the wrap, cannot all be in use |
| RelaySession.Session.Connect | internal/relay/relay.go:610-647 | an arrival is refused, or displaces at most the victim and is placed as a fresh pending phone on a free channel; all others stay as they were |
| RelaySession.Session.CountBridgeFrame | internal/relay/relay.go:360-376 | one more frame is counted; the phone is admitted or the cap reported as the runs below need it |
| RelayRuns.CapsHoldInEveryRun | internal/relay/relay.go:360-647 | in every reachable state the admitted, pending and per-group pending phones are within their caps |
| RelayRuns.EveryStateHasAFreeChannel | internal/relay/relay.go:635-646 | in every reachable state a nonzero channel number is free |
| RelayRuns.AdmittedExactlyBySecondFrame | internal/relay/relay.go:354-376 | in every run a phone becomes admitted in a step if and only if the step is the second frame the bridge has sent it since it was placed and the admitted phones are below their cap |
| RelayRuns.ReportedExactlyAtTheCap | internal/relay/relay.go:354-376 | in every run the cap is reported for exactly the second frames that find the admitted phones at it |
| RelayRuns.VouchedExactlyWhen | internal/relay/relay.go:509-526 | in every run a phone becomes vouched for if and only if the step is a vouch from the current socket with its channel and token and the bridge has sent it no frame yet |
| RelayRuns.LeavesExactlyWhen | internal/relay/relay.go:528-662 | in every run a phone leaves its channel if and only if the step closes the channel, names its token, ends it or the bridge, times it out while pending, or displaces it |
| RelayRuns.ArrivalExactlyWhen | internal/relay/relay.go:610-647 | when an arrival is told that the session is full, that places are protected, or gets one, in terms of the numbers of admitted and pending phones and of who is vouched for; nobody else is touched |
| RelayRuns.AdmittedPhonesKeepTheirPlace | internal/relay/relay.go:300-340 | across any run an admitted phone goes only by a close aimed at it, never by displacement |
| RelayRuns.VouchedPhonesKeepTheirPlace | internal/relay/relay.go:300-340 | a vouched phone goes only by such a close or its own admission timeout, never by displacement |
| Tokens.TokenExactlyWhen | internal/relay/relay.go:509-513 | the tokens honoured are exactly those that decode to sixteen bytes |
| Tokens.DrawnTokensPass | internal/relay/relay.go:601-608 | every token the relay draws is honoured and reads back as the bytes drawn |
| TokenBucket.Bucket.Take | internal/relay/relay.go:709-720 | a call refills for the time passed, capped at the burst, and succeeds exactly when the history of calls allows it |
| TokenBucket.AcceptsExactlyWhatEveryWindowAllows | internal/relay/relay.go:697-720 | a call is accepted if and only if every window ending with it, of any length, stays within burst plus rate times its length |
| TokenBucket.AvailableIsTightest | internal/relay/relay.go:697-720 | the tokens a call finds are what the tightest window ending with it has left |
| TokenBucket.ThroughputBound | internal/relay/relay.go:697-720 | between any two calls at most burst plus rate times the elapsed time is accepted |
| TokenBucket.TokensStayInRange | internal/relay/relay.go:697-720 | tokens are always between 0 and the burst |
| ConnectionWindows.Table.AllowIP | internal/relay/relay.go:223-242 | each answer equals that of a table that was never pruned, and is remembered as such |
| ConnectionWindows.Prune | internal/relay/relay.go:223-242 | pruning drops exactly the windows that have run out |
| ConnectionWindows.WithinOneWindow | internal/relay/relay.go:223-242 | connections accepted in one window are at most the limit |
| ConnectionWindows.NoSecondRestart | internal/relay/relay.go:223-242 | within a minute a key's window restarts at most once |
| ConnectionWindows.AnyMinuteIsBounded | internal/relay/relay.go:223-242 | any 60-second span accepts at most twice the limit less one per key |
| ConnectionWindows.BoundIsMet | internal/relay/relay.go:223-242 | for every limit the bound is met: twice the limit less one connections are accepted within a nanosecond |
| ConnectionWindows.PerMinuteExactlyWhen | internal/relay/relay.go:223-242 | every span of a minute accepts at most the limit if and only if the limit is one |
| ConnectionWindows.AnyMinuteOfATable | internal/relay/relay.go:223-242 | the same bound on the answers a table gave, over all its calls of all addresses, in any minute |
| ConnectionWindows.Table.MinuteIsBounded | internal/relay/relay.go:223-242 | a table in use never lets more than twice the limit less one through in a minute from one address |
| RelayMux.Mux.OpenChannel | internal/bridge/relay_client.go:232-242 | a new channel object is routed; one that held the number is finished |
| RelayMux.Mux.RemoteClosed | internal/bridge/relay_client.go:265-275 | a close with a token finishes only the channel opened with that token |
| RelayMux.Mux.CloseChannel | internal/bridge/relay_client.go:347-363 | closing is done once, unroutes only the object itself, and tells the relay exactly when it was still routed |
| RelayMux.Mux.CloseAll | internal/bridge/relay_client.go:277-285 | every routed channel is finished |
| RelayIncarnations.RelayObeysOnlyTheNamedIncarnation | internal/relay/relay.go:509-550 | in every run a close or vouch from the bridge touches only the phone it was sent for, and a vouch from a superseded socket none |
| RelayIncarnations.BridgeObeysOnlyTheNamedIncarnation | internal/bridge/relay_client.go:232-275 | however late it is read, a close from the relay ends only the channel opened with its token, whose phone has already left |
| RelayIncarnations.ChannelEndsExactlyWhen | internal/bridge/relay_client.go:232-363 | in every run a routed channel of the bridge is unrouted and finished by exactly a close that names its token or none, a new channel of its number, its own close or the end of the socket |
| RelayIncarnations.CloseToldExactlyWhen | internal/bridge/relay_client.go:347-363 | in every run the relay is told of a close exactly when the channel closed is still routed, by its number and token |
| RelayIncarnations.PhoneEndsExactlyWhen | internal/relay/relay.go:540-550 | in every run a message from the bridge takes a phone away if and only if it is the close of its channel with its token |
| RelayIncarnations.IncarnationsStayApart | internal/bridge/relay_client.go:347-363 | a vouched phone was vouched for by its own token, and a channel the bridge closed is never routed again |
| RelayIncarnations.CloseNeedsAToken | internal/relay/relay.go:540-550 | a close keeps to the phone it was meant for if and only if it carries a token |
| RelayIncarnations.InvInEveryRun | internal/relay/relay.go:509-565 | with numbers reused and messages delayed both ways, every message under way names one incarnation truthfully |
| DeviceStore.FindDevice | internal/state/state.go:236-303 | the loop that IsTrusted, AddTrusted and Trust share finds the first device of exactly that id |
| DeviceStore.ComputeEdit | internal/state/state.go:236-303 | the loops of IsTrusted, AddTrusted and Trust compute the edit they should |
| DeviceStore.ComputeRevoke | internal/state/state.go:306-332 | the loop removes exactly the matched device and refuses an unknown one |
| DeviceStore.RevokeExactlyWhen | internal/state/state.go:306-332 | a prefix removes a device, and that one alone, if and only if no other id starts with it; it is ambiguous if and only if two do, and matches nothing if and only if none does |
| DeviceStore.TouchExactlyWhen | internal/state/state.go:236-303 | IsTrusted and Trust write if and only if the id is known, AddTrusted always; the device found keeps its first sight, is seen now and renamed if a name is given; the others stay |
| DeviceStore.EditOfIds | internal/state/state.go:236-332 | Trust and IsTrusted keep the set of ids, AddTrusted adds at most its own, Revoke removes exactly one; ids stay distinct |
| DeviceStore.RevokedIds | internal/state/state.go:306-332 | after a revocation the device's id is gone and every other is there |
| DeviceStore.Store.WriteFile | internal/state/state.go:422-453 | for every fault: committed if and only if the rename happened, and then the file holds the new contents whatever the directory sync says |
| DeviceStore.Store.Locked | internal/state/state.go:334-360 | for every fault: what a transaction leaves on disk, which causes its error names, and that it carries ErrMutationCommitted exactly when the new contents are visible and something failed afterwards |
| DeviceStore.ErrorTellsWhetherCommitted | internal/state/state.go:334-360 | what a caller may conclude from the error alone: without ErrMutationCommitted the file is unchanged, with it or with no error the edit has taken effect |
| DeviceStore.CorruptStays | internal/state/state.go:392-420 | a devices.json that cannot be parsed is never overwritten, and every operation on it fails |
| DeviceStore.SmoothTakesEffect | internal/state/state.go:334-360 | without faults every operation takes full effect, and fails only when it is refused |
| DeviceStore.Store.IsTrustedDevice | internal/state/state.go:236-256 | answers yes if and only if the device is on disk and nothing fails |
| DeviceStore.Store.RevokeDevice | internal/state/state.go:306-332 | reports the device it removed exactly on a commit, told apart from the error; without faults a prefix of one id alone removes and returns that device |
| StoreTransactions.DevicesFileIsSerial | internal/state/state.go:334-453 | under any interleaving of stores, faults and crashes devices.json is what the committed transactions, run one after the other in lock order, would leave |
| StoreTransactions.OneAtATime | internal/state/state.go:334-390 | mutual exclusion: in every state of every run at most one operation, of whichever store and process, is between taking and giving back the file lock |
| StoreTransactions.CommittedForGood | internal/state/state.go:334-360 | an entry once committed stays so, in its place in the order |
| StoreTransactions.RevokedStaysRevoked | internal/state/state.go:236-332 | in every run an id that some transaction left out of the file, as a revocation does, stays out until a committed AddTrusted of that very id; ids stay distinct |
| StoreTransactions.ReplayAddsOnlyByAddTrusted | internal/state/state.go:236-332 | replaying transactions never makes the file unreadable or doubles an id, and only AddTrusted brings an id in |
| StoreTransactions.LockedIsOneEntry | internal/state/state.go:334-453 | whatever fails, what one call of `locked` leaves on disk is what its entry applies in the serial order |
| StoreTransactions.UndisturbedOperation | internal/state/state.go:334-453 | from any state, an operation that finds its store open, its gate and the lock free and the file readable runs through to its full effect, its true answer and a free lock |
| PairingCodes.Pairings.Outstanding | internal/bridge/pairing.go:35-48 | the loop prunes expired codes and returns exactly the live ones |
| PairingCodes.Pairings.Consume | internal/bridge/pairing.go:52-68 | succeeds exactly for a live code, and then it is gone |
| PairingCodes.ConsumedAtMostOnce | internal/bridge/pairing.go:52-68 | over any sequence of calls one issue of a code is consumed at most once |
| PairingCodes.ConsumedBeforeExpiry | internal/bridge/pairing.go:52-68 | a code that is consumed was issued before, and had not expired |
| PairingCodes.OutstandingWasIssued | internal/bridge/pairing.go:35-48 | a code is outstanding only after an issue that nothing undid |
| PairingCodes.OutstandingExactlyWhen | internal/bridge/pairing.go:20-68 | after any sequence of calls a code is outstanding if and only if some issue of it has not been consumed, replaced or found expired since |
| PairingCodes.SucceedsExactlyWhen | internal/bridge/pairing.go:52-68 | a consumption succeeds if and only if such an issue stands and has not expired |
| PairingCodes.GoodCodeSucceeds | internal/bridge/pairing.go:52-68 | while the clock does not go back, a code issued, not expired, not consumed and not issued again is accepted, whatever happens to other codes |
| ServerAdmission.Server.PublishAdmission | internal/bridge/server.go:447-466 | the retry loop, with revocations moving the generation under it, publishes the device or leaves the table as it was |
| ServerAdmission.PublishedExactlyWhen | internal/bridge/server.go:447-466 | it publishes if and only if one of three attempts is undisturbed and every recheck before it found the device trusted |
| ServerAdmission.RefusedExactlyWhen | internal/bridge/server.go:447-466 | it answers untrusted if and only if the first failing recheck after disturbed attempts found the device gone, and gives up if and only if all three were disturbed |
| ServerAdmission.ComparingIsAStep | internal/bridge/server.go:453-460 | the comparison of one turn of the loop is a step of `Admission` with the same outcome |
| ServerAdmission.RecheckingIsAStep | internal/bridge/server.go:461-465 | so is the recheck after it |
| ServerAdmission.TrustedPhoneGetsIn | internal/bridge/server.go:343-466 | from any state, the steps of an undisturbed handshake lead a phone on disk to a published connection |
| ServerAdmission.NewPhoneGetsIn | internal/bridge/server.go:343-466 | from any state, the steps of an undisturbed handshake pair and publish a new phone that proves an outstanding code, and spend the code |
| ServerAdmission.Server.Revoke | internal/bridge/server.go:165-194 | only a removal that committed advances the generation, and it closes exactly the connections that published the device |
| ServerAdmission.RevokeIsItsSteps | internal/bridge/server.go:165-194 | past the removal, a call is a run of steps of `Admission` that advances the generation once and tells exactly the connections that published the device to close |
| ServerAdmission.Finish | internal/protocol/handshake.go:329-352 | the order of checks of a Confirm; pairing by the first outstanding code whose proof matches, and only for an untrusted phone |
| Admission.PublishedMeansTrusted | internal/bridge/server.go:343-466 | in every interleaving a published connection that nobody is closing belongs to a device on disk, or to one whose Revoke is between the removal and the generation |
| Admission.RevokedMeansDisconnected | internal/bridge/server.go:165-194 | once Revoke has returned, an open connection of the device was admitted on a record that a pairing inserted after the removal |
| Admission.InsertionsArePaid | internal/bridge/server.go:347-372 | each insertion into devices.json is made by a connection of that device with a consumed code, and no code pays for two |
| Admission.SpentWasConsumed | internal/bridge/pairing.go:52-68 | such a code was outstanding when that connection's Consume returned true |
| Admission.InvInEveryRun | internal/bridge/server.go:343-466 | the invariant behind these results holds in every state of every run |
| WorkPools.WorkLease.Release | internal/bridge/limits.go:114-128 | gives back each slot still listed once; a second call changes nothing |
| WorkPools.WorkLease.ReleasePool | internal/bridge/limits.go:133-149 | gives back the first listed slot of that pool, if any, and takes it off the lease |
| WorkPools.ValidateAdmission | internal/bridge/limits.go:212-225 | an ended caller is canceled before an ended wait is busy, and either gives everything back |
| WorkPools.AcquirePools | internal/bridge/limits.go:162-206 | all the pools or none, net of what others gave back; without a wait, busy if and only if some pool lacks room |
| LeaseRuns.OccupancyIsWhatLeasesHold | internal/bridge/limits.go:108-206 | at every moment of every interleaving a pool's occupancy is the number of slots leases list, within its capacity |
| LeaseRuns.ReleaseNeverBlocks | internal/bridge/limits.go:104-128 | whoever is to drain a slot finds one |
| LeaseRuns.GivenBackOnce | internal/bridge/limits.go:108-149 | every slot taken is listed or given back, exactly once; a refused or released lease has given back all |
| LeaseRuns.AllSlotsComeBack | internal/bridge/limits.go:108-206 | when all leases are refused or released the pools are empty |
| LeaseRuns.ReleaseIsItsSteps | internal/bridge/limits.go:114-128 | a call of `release` is a run of single drains that ends in the occupancy the method states |
| LeaseRuns.ReleasePoolIsOneStep | internal/bridge/limits.go:133-149 | an early release is one step, with the same list and occupancy |
| LeaseRuns.AcquireIsItsSteps | internal/bridge/limits.go:162-206 | a call that is granted without waiting is a run of single fills that ends in a held lease and the occupancy the method states |
| FolderReads.FolderLister.List | internal/bridge/fs_listing.go:61-88 | joins a read younger than `staleAfter`, answers ETIMEDOUT when two reads of the path are stuck, or takes both slots, registers a read and puts the stale one aside; a refusal leaves everything as it was |
| FolderReads.FolderLister.Finish | internal/bridge/fs_listing.go:119-127 | unregisters that read, and no other, wherever it is listed |
| FolderReadRuns.TwoReadsPerPath | internal/bridge/fs_listing.go:61-126 | in every run the unsettled reads of a path are exactly the registered ones: at most two, with at most two process slots, whichever ends first |
| FolderReadRuns.RequestExactlyWhen | internal/bridge/fs_listing.go:61-88 | in every run a request shares a read if and only if an unsettled one of its path is younger than `staleAfter`, is told ETIMEDOUT at once if and only if two are unsettled and both stale, and starts one otherwise |
| FolderReadRuns.WaitersJoinedYoungReads | internal/bridge/fs_listing.go:63-69 | in every run whoever waits joined a read younger than `staleAfter` |
| FolderReadRuns.OnlyStaleIsAbandoned | internal/bridge/fs_listing.go:70-86 | in every run whatever is put aside is at least `staleAfter` old |
| FolderReadRuns.OtherStepsStartNothing | internal/bridge/fs_listing.go:47-59 | a request without a path always starts a read of its own, and nothing but a request starts, joins or is turned away |
| FolderReadRuns.SharersAgree | internal/bridge/fs_listing.go:146-162 | all who share a read get its worker's answer for the path they asked for, and none gives up before the deadline counted from its start |
| FolderReadRuns.SlotsFollowTheRead | internal/bridge/fs.go:100-114 | an answered request holds no slot, a reading worker always the process slot, and the connection slot goes early only after the deadline |
| BlobUploads.BlobManager.Reserve | internal/bridge/blob.go:146-167 | reserves if and only if nothing has failed and both caps allow it, with the refusal naming the first reason |
| BlobUploads.ReserveThenSettle | internal/bridge/blob.go:146-181 | a clean settlement undoes its reservation exactly; after a failed one not even an empty upload is admitted |
| BlobUploads.BlobConnection.HandleBegin | internal/bridge/blob.go:436-474 | accepts an upload exactly when none is active, the quota admits it and the file is created; a failed allocation settles its reservation, and every refusal leaves the connection as it was |
| BlobUploads.BlobConnection.HandleData | internal/bridge/blob.go:552-592 | a chunk is acknowledged if and only if the upload takes frames, the offset is contiguous, the size allows it and the write was whole; every other case changes nothing but a torn file |
| BlobUploads.BlobConnection.HandleCommit | internal/bridge/blob.go:601-641 | starts the commit worker exactly for the active upload while it is receiving, and which answer every other case gets |
| BlobUploads.BlobConnection.CommitUpload | internal/bridge/blob.go:643-695 | the file is handed to the gateway if and only if offset and file have the declared size, the sum is the declared digest and nothing failed; the upload ends in every case and its reservation is settled once |
| BlobUploads.BlobConnection.Finish | internal/bridge/blob.go:734-778 | the first call ends the upload, settles its reservation and detaches it; any other changes nothing |
| BlobUploads.FinishIsItsSteps | internal/bridge/blob.go:734-778 | whoever finishes, a call is a run of the steps of `finishOnce`, each enabled in its turn, and leaves what the contract of `Finish` says |
| BlobUploads.SendIsItsSteps | internal/bridge/blob.go:650-694 | for every size, digest and fault the commit worker is a run of enabled steps: it vets only a file of the declared size and digest, dispatches only what it vetted, and ends |
| BlobUploads.CommitIsItsSteps | internal/bridge/blob.go:643-695 | so is a whole call of `CommitUpload`, up to the detached upload and the settled quota |
| BlobUploads.GoodUploadArrives | internal/bridge/blob.go:436-695 | chunks in order that add up to the declared size and have the declared digest reach the gateway, once and unchanged, and the reservation is given back |
| BlobUploads.IdleUploadEnds | internal/bridge/blob.go:483-527 | an upload that is aborted or idle while it receives can always be ended by its monitor, dispatching nothing |
| BlobUploads.BlobConnection.ClaimReceivingFinish | internal/bridge/blob.go:519-527 | the monitor gets to finish an upload only while it is active, receiving and unfinished |
| BlobRuns.QuotaIsConserved | internal/bridge/blob.go:146-181 | in every run `active` and `reserved` are the count and byte sum of reservations not cleanly settled, within the caps |
| BlobRuns.SettledExactlyOnce | internal/bridge/blob.go:734-777 | reader, monitor and commit worker racing, each reservation is settled at most once, and once by the end |
| BlobRuns.NothingAfterAFailedCleanup | internal/bridge/blob.go:146-181 | after one failed cleanup no reservation is ever made again |
| BlobRuns.HeldMeansResponsible | internal/bridge/blob.go:483-527 | a held reservation always has a live goroutine responsible for finishing it |
| BlobRuns.ShutDownHoldsNothing | internal/bridge/blob.go:353-360 | a connection whose reader and workers are gone holds nothing but failed cleanups |
| BlobRuns.CommittingBelongsToItsWorker | internal/bridge/blob.go:643-695 | once committing, only the commit worker closes the file or finishes the upload |
| BlobRuns.SpoolIsWhatWasAcknowledged | internal/bridge/blob.go:552-593 | the file is the acknowledged chunks joined, no longer than declared, and is written only while open |
| BlobRuns.DispatchedAsDeclared | internal/bridge/blob.go:643-695 | an upload is dispatched at most once, and as exactly the acknowledged bytes, of the declared size and digest |
| Envelope.Suite.Seal | internal/protocol/envelope.go:110-124 | each frame takes the next counter for header and nonce; an exhausted counter or too large a plaintext is refused and takes none |
| Envelope.Suite.Open | internal/protocol/envelope.go:127-143 | the order of checks, and a counter that moves only with a frame that opened |
| Envelope.OpensOnlyTheNext | internal/protocol/envelope.go:127-143 | a frame opens to a plaintext if and only if it is the frame sealed for that plaintext with the next counter |
| Envelope.RefusedExactlyWhen | internal/protocol/envelope.go:127-143 | a frame is refused for its counter if and only if it has a whole header for another counter, whatever its box, and as a bad frame in every other case it does not open |
| Envelope.NonceNamesCounter | internal/protocol/envelope.go:96-107 | headers and nonces of different counters differ (section 3.1 of RFC 5116) |
| Envelope.Uint64RoundTrip | internal/protocol/envelope.go:96-107 | a counter is read back from its eight bytes |
| Envelope.DigitAt | internal/protocol/envelope.go:95-107 | numbers are written with the most significant byte first |
| Chunks.SplitChunks | internal/protocol/messages.go:180-191 | the loop cuts a large message into its pieces, and leaves others whole |
| Chunks.ChunkAssembler.Add | internal/protocol/messages.go:205-223 | appends a piece that is in order and fits, and starts over on any other |
| Chunks.SplitThenAssemble | internal/protocol/messages.go:180-223 | the pieces of a message reassemble to it, at the last piece and not before, and leave nothing behind |
| Chunks.AddedExactlyWhen | internal/protocol/messages.go:205-223 | for any chunks: when one is out of order, too large, or completes a message, and which |
| Chunks.BufferStaysWithinLimit | internal/protocol/messages.go:205-223 | whatever a peer sends, the assembler never holds more than one message may have |
| Chunks.ChunkCountRoundsUp | internal/protocol/messages.go:184-184 | the count is the length divided by the threshold, rounded up |
| SecureChannel.Conn.Send | internal/bridge/server.go:469-489 | seals the message's frames in order with consecutive counters, stops at the first failed write and says how many were sealed; a message over the limit seals none |
| SecureChannel.Conn.SendChunks | internal/bridge/server.go:478-487 | the loop over the pieces seals them in order up to the first failed write |
| SecureChannel.Conn.SealAndWrite | internal/bridge/server.go:491-499 | a sealed frame uses up its counter whether or not the write succeeds; an exhausted counter seals nothing |
| SecureChannel.Conn.Receive | internal/bridge/server.go:510-546 | one turn of `recv`: what opens goes through the assembler, what does not is an error |
| SecureChannel.SendIsItsSteps | internal/bridge/server.go:469-499 | a call of `send` that seals any number of its frames is a run of the steps the results below are about, from any reachable state |
| SecureChannel.ReceivedIsPrefixOfSealed | internal/bridge/server.go:469-546 | whatever the network drops, repeats, reorders or forges and whichever writes fail, the messages received are a prefix of those all of whose frames were sealed |
| SecureChannel.ReceivedIsPrefixOfSentExactlyWhen | internal/bridge/server.go:469-546 | in every state of every run they are a prefix of all messages that `send` began if and only if the first one cut short was not overtaken by a one-frame message sent directly after it |
| SecureChannel.ReceivedIsPrefixOfSent | internal/bridge/server.go:469-546 | so they are when every message but the last was sealed whole, as for a sender that stops at its first failed write |
| SecureChannel.WholeMessagesArrive | internal/bridge/server.go:469-546 | in every run, once every sealed frame was opened and the receiver has not failed, it has delivered exactly the messages sealed whole |
| SecureChannel.EverythingArrives | internal/bridge/server.go:469-546 | when every message was sealed whole and every sealed frame was opened, all messages have arrived |
| SecureChannel.NoNonceTwice | internal/protocol/envelope.go:110-124 | in every run, failed writes included, no nonce is used for two frames of a direction |
| SecureChannel.GoingOnAfterAFailedWrite | internal/bridge/server.go:478-489 | for every large message cut short anywhere and every next message: some run receives the next one out of order if and only if it fits one frame |
| SecureChannel.InOrderExactlyWhen | internal/protocol/messages.go:180-223 | the same equivalence for any number of first frames of any attempts, cut short or whole |
| SecureChannel.GivesUpExactlyWhen | internal/protocol/messages.go:205-223 | a receiver that gets every frame unharmed fails if and only if a large message is begun after one that was cut short |
| Encodings.DecodeReadsFields | internal/protocol/handshake.go:157-162 | a list of length-prefixed fields is read back, whatever follows it |
| Encodings.UniqueExactlyBelowTheLimit | internal/protocol/handshake.go:157-162 | encodings are unique if and only if fields are held below 65536 bytes |
| Encodings.LongFieldCollides | internal/protocol/handshake.go:157-162 | two different lists with a field of 65536 bytes that encode alike |
| Encodings.LengthBytes | internal/protocol/handshake.go:157-162 | a field stands behind its length in two bytes, the high one first |
| Encodings.PayloadLayout | internal/protocol/handshake.go:75-89 | the order of the fields the phone signs |
| Encodings.TranscriptLayout | internal/protocol/handshake.go:165-177 | the order of the fields the transcript hashes |
| Encodings.PayloadFixesHello | internal/protocol/handshake.go:75-89 | equal admission payloads mean equal fields and timestamps, the version up to its low byte, and conversely |
| Encodings.TranscriptFixesHandshake | internal/protocol/handshake.go:165-177 | equal transcripts mean equal handshakes, and conversely |
| Encodings.LabelsSeparateRoles | internal/protocol/identity.go:16-81 | messages signed or authenticated under different role labels never coincide |
| Routes.CanonicalizePath | internal/bridge/routes.go:177-208 | the index loop accepts exactly the paths of the specification and returns their decoding |
| Utf8.ValidExactlyWhen | internal/bridge/routes.go:199-200 | the bytes are accepted as UTF-8 if and only if they are the codes of some sequence of Unicode scalar values (section 3 of RFC 3629) |
| Routes.ReachedExactlyWhen | internal/bridge/routes.go:177-208 | the paths some spelling leads to are exactly the texts that start with a slash, have no two in a row, no percent sign, backslash or control byte and no dot segment |
| Routes.SplitAtSlashes | internal/bridge/routes.go:202-206 | segments are what lies between slashes |
| Routes.BytesThatPass | internal/bridge/routes.go:177-243 | which bytes stand for themselves in a path and in a query |
| Routes.ValidateRawQuery | internal/bridge/routes.go:225-243 | the skipping loop accepts exactly the queries whose every percent sign starts an escape and whose other bytes are query bytes |
| Routes.SegmentsStay | internal/bridge/routes.go:177-208 | decoding keeps the "/" segmentation: each segment decodes by itself (sections 2.1 and 3.3 of RFC 3986) |
| Routes.DecodedHasNoEscapes | internal/bridge/routes.go:189-198 | decoding an accepted path again changes nothing |
| Routes.NoDotSegments | internal/bridge/routes.go:202-206 | no segment is "." or "..", raw or decoded |
| Routes.AcceptedByMeaning | internal/bridge/routes.go:177-208 | of two well-escaped spellings of one path both are accepted or neither |
| Routes.OneSpellingExactlyWhen | internal/bridge/routes.go:174-208 | a path has a single accepted spelling if and only if each byte is unreserved, a "/", or must be escaped with two decimal digits |
| RouteTable.RouteAllowed | internal/bridge/routes.go:159-172 | the scan answers yes exactly when some route covers the path |
| RouteTable.CoversExactly | internal/bridge/routes.go:159-172 | a route covers its own path, and one with a final slash also everything below it |
| RouteTable.EscapesDoNotChangeTheRoute | internal/bridge/routes.go:41-172 | for the whole table and every accepted path the answer is the same on the raw and the decoded spelling |

## Left out

- Cryptographic primitives, key derivation and the X25519 exchange: ideal or uninterpreted functions.
- JSON, base64 decoding of anything but tokens, WebSockets, HTTP proxying and redirects, terminals, the gateway child process, push, QR codes, command line and install scripts: library code and I/O.
- Fairness and real timers: what is proved is safety and ownership, with deadlines as inputs.
- The hello replay cache (internal/bridge/server.go:417-436): entry expiry and the whole-second freshness test do not line up, so it does not give "at most once".
- Data frames on reused channel numbers: they carry no token, so only closes and vouches are tied to incarnations.
- The step between `countBridgeFrame` and `closePhone` of an over-cap phone, which carries no token either, is a close by channel number in the model.
- Phone records, channel objects, uploads and folder reads are values in the maps that hold them, identified by token or number; aliasing between goroutines is not modelled.
- `handshake` (internal/bridge/server.go:343-383) and the worker of `fsListSettling` (internal/bridge/fs.go:100-167) are steps of the state machines, not methods of their own.
- The decision to vouch for a Hello before the handshake (internal/bridge/server.go:386-414): the payload it verifies is modelled, the freshness test is not.
- `relayMux.deliver` (internal/bridge/relay_client.go:244-263): it carries data frames only.
- Work pools are entries of one map, identified by number, rather than channel objects.
- `Bucket` uses reals where the source uses floats.
- The revocation generation is unbounded where the source has a uint64.
- Cached upload results, status replies and attachment receipt checks: little state of their own.
- The file contents read by a listing, path resolution and sorting: library-bound.
- `internal/update/check.go` and `internal/gateway/supervisor.go`: their spacing rules would repeat the throttle proofs with less in them.
- The Hello's signature fields and their JSON shape rules: the encodings they sign are modelled, the envelope around them is not.
- RelayMux.Mux.CloseChannel: `once`, the close of `done` and the locked unrouting (internal/bridge/relay_client.go:347-363) are one step, so a channel that is done and still routed never appears.
- LeaseRuns.AcquireIsItsSteps: speaks of calls that did not wait; while one waits, the slots it takes over are given back by steps of other leases.
- Messages above the size limit, which `send` refuses before it seals anything, are not among the messages of `SecureChannel`'s runs.
- The small methods whose contract is the function they compute, such as `Session.VouchFor`, `Session.ClosePhone` or `Pairings.Issue`, are proved but have no row of their own; the results about those functions have.
