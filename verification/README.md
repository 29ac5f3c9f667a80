# A model of the MASS miner

The project models the five parts of the MASS mining node that are hardest to get right and proves what
they promise, for all inputs, all reachable states and all interleavings.

- **BIP-39 codec** (`Numerals`, `Text`, `Mnemonic`). The loops over big integers are methods, proved equal to
  reference definitions without bit operations; the two decoders meet in the same reference. The layout is
  that of BIP-39, section "Generating the mnemonic". SHA-256 is an arbitrary function to a byte, and the word
  list is any list of 2048 distinct words without spaces.
- **Space keeper** (`Keeper`, `KeeperInvariant`, `KeeperEffects`, `KeeperFailures`, `PlotterDrain`, `SpaceKeeper`,
  `WorkSpacePath`). `Keeper` holds the
  state, with explicit references, and one step per lock-protected section; `KeeperEffects` gives the table of
  every step; `SpaceKeeper` is the object with its fields and loops, each method proved to take such a step. The initial state of a workspace and the
  outcome of plotting are inputs, so the Registered and Plotting branches are not vacuous.
- **Fractal cluster** (`Framing`, `PrioritySender`, `StopProtocol`, `TaskChannels` with `LocalSuperior`, `LatestTask`,
  `Routing`, `SlotSearch`). Goroutines become atomic steps cut where another goroutine may run; results are
  inductive invariants over every run.
- **HD keystore** (`Keystore`, `KeystoreInvariant`, `KeystoreSteps`, `KeystoreRuns`, `KeystoreEffects`,
  `KeystoreTheorems`, `KeystorePassphrases`, `KeystoreManager`, `AccountRow`). Encryption is symbolic, a key of the HD tree is its
  path, so that public and private derivation agree for non-hardened children (BIP-32, section "Child key
  derivation (CKD) functions"; the path layout is BIP-44, section "Path levels"). Ciphertexts, the database, the
  in-memory managers and the shared master keys are all explicit. `KeystoreManager` is the object with its loops.
- **Proof selection and amounts** (`BestProof`, `Amounts`). The selection loop with its sentinel values, the header
  it leads to, and the decimal printer and parser.

Everything drawn from outside (clock readings, random values, map iteration order, which branch a `select`
takes, when a network message is lost) is an argument or a choice of the environment.

## What does not hold

Some promises fail in corners of the code. The model keeps the code, shows the failure and proves the exact condition.

- The plotter tests the queue and pops it in two separate steps; `StopWS` in between makes it pop an empty
  queue (`KeeperFailures.PopCanFail`, `KeeperFailures.PopFailsOnlyAfterDequeue`).
- Adding a sid that is still pending in the plotter makes the index disagree
  (`KeeperFailures.ReAddCanBreakTheIndex`, `KeeperFailures.ReAddAgreesIff`, `KeeperInvariant.AddKeepsIff`). As the code
  stands this is hypothetical: workspaces are added only by generateInitialIndex, called when the keeper is
  made (strategy.go:62) or by ResetDBDirs before it is started (capacity.go:597), and nothing is pending then.
- `RemoveTask` compares and clears `latestTask` in two steps, so a task set in between is lost for late
  subscribers (`LatestTask.ATaskCanBeLost`, `LatestTask.LateSubscriberIff`).
- `Unlock` on an unlocked wallet fails with the right passphrase after an export, because the check zeroes the
  master key (`KeystorePassphrases.UnlockCanFail`, `KeystoreTheorems.ExportThenUnlockFails`,
  `KeystoreTheorems.UnlockSucceedsIff`).
- Checking an empty passphrase on an unlocked account wipes the salt of the stored hash, since `append` reuses
  the salt's array; afterwards the right passphrase is refused, and the public passphrase can be set to the
  private one (`KeystorePassphrases.GuardCanBeLost`, `KeystoreSteps.ChangePubIff`).
- `StringToAmount` accepts a sign in either part: "-0.5" is read as plus half a MASS and "1.+5" as 1.05
  (`Amounts.NegativeHalf`, `Amounts.SignedTenth`, `Amounts.AcceptedIff`, `Amounts.MeansWhatItSaysIff`).

Where a comment and the code differ, the model follows the code: after a passphrase change on a locked wallet the new
master key stays in memory although the comment says it is cleared, and import encrypts the master public key under
the private crypto key. No stated property depends on either.

## Model

| member | source | states |
|---|---|---|
| `Mnemonic.SetWordList` | poc/wallet/keystore/mnemonic.go:73-79 | the lookup map inverts a list of distinct words and knows exactly its words |
| `Mnemonic.AddChecksum` | poc/wallet/keystore/mnemonic.go:296-319 | the bit-by-bit loop appends the leading length/4 bits of the hash byte to the entropy |
| `Mnemonic.NewMnemonic` | poc/wallet/keystore/mnemonic.go:160-202 | succeeds exactly for 16, 20, 24, 28 or 32 bytes, else the length error; the result is the base-2048 encoding of entropy and checksum, three words for every four bytes, with one blank between two words, no other white space and none at either end |
| `Mnemonic.EncodedShape` | poc/wallet/keystore/mnemonic.go:180-202 | the shape of every encoded entropy: number of words, of blanks, and that splitting at them gives words of the list |
| `Mnemonic.ZeroVector` | poc/wallet/keystore/mnemonic.go:160-202 | sixteen zero bytes, whose hash begins with 0x37, give the first word eleven times and then the word numbered 3 |
| `Mnemonic.DecodeErrors` | poc/wallet/keystore/mnemonic.go:110-155 | a string is refused for its number of words exactly if that is not 12, 15, 18, 21 or 24, and for an unknown word exactly if the number is right and some word is not in the list |
| `Mnemonic.SplitWords` | poc/wallet/keystore/mnemonic.go:180-199 | the in-place shifting loop yields the base-2048 digits as words, most significant first |
| `Mnemonic.EntropyFromMnemonic` | poc/wallet/keystore/mnemonic.go:110-155 | equals the reference decoding: word count, unknown word and checksum errors included |
| `Mnemonic.IsMnemonicValid` | poc/wallet/keystore/mnemonic.go:272-292 | true exactly for 12, 15, 18, 21 or 24 words, all of them in the list |
| `Mnemonic.MnemonicToByteArray` | poc/wallet/keystore/mnemonic.go:207-251 | rebuilding the checksummed bytes succeeds exactly when the other decoder does and gives the same bytes (raw) or the padded checksummed ones; the errors agree except that an unknown word is reported as an invalid mnemonic |
| `Mnemonic.DecodeEncode` | poc/wallet/keystore/mnemonic.go:110-202 | decoding an encoded entropy of 16 to 32 bytes gives it back |
| `Mnemonic.EncodeDecode` | poc/wallet/keystore/mnemonic.go:110-202 | whatever decodes re-encodes to its words joined by single spaces |
| `Mnemonic.SameBytes` | poc/wallet/keystore/mnemonic.go:236-244 | comparing rebuilt bytes is the same as comparing checksum bits |
| `Mnemonic.ChecksummedParts` | poc/wallet/keystore/mnemonic.go:296-319 | entropy and checksum can be read off the checksummed number again |
| `Mnemonic.ShiftTable` | poc/wallet/keystore/mnemonic.go:31-39 | dividing by the table's shift takes the leading checksum bits |
| `Mnemonic.MaskTable` | poc/wallet/keystore/mnemonic.go:23-30 | the table's masks are the checksum sizes |
| `Numerals.PaddedBytes` | poc/wallet/keystore/mnemonic.go:329-337 | stripping leading zeros and padding again gives the fixed-width base-256 digits |
| `Numerals.OrIsAdd` | poc/wallet/keystore/mnemonic.go:123-127 | OR into zeroed low bits is addition |
| `Numerals.AndMask` | poc/wallet/keystore/mnemonic.go:131-134 | masking low one bits is the remainder by a power of two |
| `Text.FieldsOfJoin` | poc/wallet/keystore/mnemonic.go:362-374 | splitting joined words gives the words |
| `Text.JoinShape` | poc/wallet/keystore/mnemonic.go:201-201 | joined words have single blanks between them and no other white space |
| `Text.SingleSpacedIsJoin` | poc/wallet/keystore/mnemonic.go:201-201 | every string of that shape is its own words joined, so the shape determines the string |
| `Text.FieldsAtSpace` | poc/wallet/keystore/mnemonic.go:362-374 | splitting at a blank: the words before it and the words after it |
| `Text.FieldsOfTrimSpace` | poc/wallet/keystore/mnemonic.go:207-214 | trimming does not change the words |
| `KeeperInvariant.StepKeeps` | poc/engine.v2/spacekeeper/skchia/capacity.go:349-514 | every API call and every plotter step keeps the invariant, apart from adding a sid that is still pending |
| `KeeperInvariant.ReachableStatesAreConsistent` | poc/engine.v2/spacekeeper/skchia/capacity.go:349-514 | in every reachable state of a run that re-adds no pending sid, also while the plotter works without the lock, the invariant holds and no call reports a workspace that is not plotting |
| `KeeperInvariant.ConsistentIffNoReAdd` | poc/engine.v2/spacekeeper/skchia/capacity.go:349-514 | a run keeps the invariant throughout exactly when it re-adds no sid that is still pending |
| `KeeperInvariant.InvariantReads` | poc/engine.v2/spacekeeper/skchia/capacity.go:32-50 | the four state maps partition the index and agree with each object's state, the list has distinct sids and holds exactly the used objects, a plotting workspace is the popped item |
| `KeeperEffects.PlotEffect` | poc/engine.v2/spacekeeper/skchia/capacity.go:349-379 | the documented table of PlotWS in every state with the invariant: a Registered workspace gets exactly one channel entry, not bound for mining; for a Plotting one the popped entry is set to not mining; Ready and Mining ones and all other objects stay; an unused sid gives the error and no change |
| `KeeperEffects.MineEffect` | poc/engine.v2/spacekeeper/skchia/capacity.go:389-424 | the documented table of MineWS in every state with the invariant: a Registered workspace gets exactly one channel entry, bound for mining; for a Plotting one the popped entry is set to mining; a Ready one becomes Mining and is indexed there and nowhere else; a Mining one and all other objects stay |
| `KeeperEffects.StopEffect` | poc/engine.v2/spacekeeper/skchia/capacity.go:435-460 | the documented table of StopWS in every state with the invariant: no queue entry of the sid is left and all other entries are; a Mining workspace becomes Ready and is indexed there; for a Plotting one the popped entry is set to not mining; the others stay |
| `KeeperEffects.RemoveEffect` | poc/engine.v2/spacekeeper/skchia/capacity.go:467-484 | the documented table of RemoveWS in every state with the invariant: a Registered or Ready workspace is out of use and out of the list, nobody else is; a Plotting or Mining one is refused; in both cases the queue loses exactly the entries of the sid |
| `KeeperEffects.DeleteEffect` | poc/engine.v2/spacekeeper/skchia/capacity.go:491-514 | the documented table of DeleteWS in every state with the invariant: as removal, and the sid is in no index map any more |
| `KeeperEffects.ConfigureEffect` | poc/engine.v2/spacekeeper/skchia/capacity.go:842-904 | configuring: refused while running or for an empty selection; otherwise exactly the selected workspaces are used and listed, and the queue has one entry for each if plotting or mining is asked for, bound for mining exactly if mining is |
| `KeeperEffects.AddEffect` | poc/engine.v2/spacekeeper/skchia/capacity.go:822-839 | adding: an indexed sid changes nothing; a new one appears in the map of its state and in the map of all, unused, and nothing else changes |
| `KeeperEffects.BeginEffect` | poc/engine.v2/spacekeeper/skchia/space_plotter.go:101-120 | the first critical section: a Registered workspace becomes Plotting, a Ready one Mining if its entry is bound for mining, and all else stays |
| `KeeperEffects.PlotterEffect` | poc/engine.v2/spacekeeper/skchia/space_plotter.go:95-190 | the table of every step of the plotter: receiving, testing the queue, popping, both critical sections and quitting |
| `KeeperInvariant.PlotKeeps` | poc/engine.v2/spacekeeper/skchia/capacity.go:349-379 | PlotWS keeps the invariant in all four states of the workspace |
| `KeeperInvariant.MineKeeps` | poc/engine.v2/spacekeeper/skchia/capacity.go:389-424 | MineWS keeps the invariant |
| `KeeperInvariant.StopKeeps` | poc/engine.v2/spacekeeper/skchia/capacity.go:435-460 | StopWS keeps the invariant |
| `KeeperInvariant.RemoveKeeps` | poc/engine.v2/spacekeeper/skchia/capacity.go:467-484 | RemoveWS keeps the invariant |
| `KeeperInvariant.DeleteKeeps` | poc/engine.v2/spacekeeper/skchia/capacity.go:491-514 | DeleteWS keeps the invariant |
| `KeeperInvariant.AddKeepsIff` | poc/engine.v2/spacekeeper/skchia/capacity.go:822-839 | adding a workspace keeps the invariant exactly when its sid is indexed already or no entry in the queue, in the channel or in the plotter's hands names it |
| `KeeperInvariant.ConfigureKeeps` | poc/engine.v2/spacekeeper/skchia/capacity.go:842-904 | configuring keeps the invariant for any selection and any flags |
| `KeeperInvariant.BeginKeeps` | poc/engine.v2/spacekeeper/skchia/space_plotter.go:101-120 | the plotter's first critical section keeps the invariant |
| `KeeperInvariant.EndKeeps` | poc/engine.v2/spacekeeper/skchia/space_plotter.go:122-137 | its second critical section does, whatever happened in between and whether or not the plot is complete |
| `KeeperInvariant.ReceiveKeeps` | poc/engine.v2/spacekeeper/skchia/space_plotter.go:139-150 | taking entries from the hand-off channel does |
| `KeeperFailures.PopFailsOnlyAfterDequeue` | poc/engine.v2/spacekeeper/skchia/space_plotter.go:167-175 | in every run a pop fails exactly when Stop, Remove or Delete took the last entry after the plotter had last found the queue non-empty |
| `KeeperFailures.OnlyPopsFail` | poc/engine.v2/spacekeeper/skchia/space_plotter.go:95-190 | in every run the plotter fails by no other step |
| `KeeperFailures.PopCanFail` | poc/engine.v2/spacekeeper/skchia/space_plotter.go:167-175 | a run in which it does, from a Ready workspace |
| `KeeperFailures.ReAddAgreesIff` | poc/engine.v2/spacekeeper/skchia/space_plotter.go:101-120 | with a sid added in any state while the plotter holds an entry, its next critical section leaves the index in agreement exactly unless the entry names that sid and the added workspace is Registered, or Ready with the entry bound for mining |
| `KeeperFailures.ReAddCanBreakTheIndex` | poc/engine.v2/spacekeeper/skchia/space_plotter.go:101-120 | a run that ends in disagreement, from a Ready workspace |
| `PlotterDrain.PlotOneEffect` | poc/engine.v2/spacekeeper/skchia/space_plotter.go:101-137 | one turn of the plotter changes the entry's workspace as the documented tables say, and nothing else |
| `PlotterDrain.PlotHeldEffect` | poc/engine.v2/spacekeeper/skchia/space_plotter.go:101-137 | the same for an entry already popped |
| `PlotterDrain.PlotOneKeepsFinal` | poc/engine.v2/spacekeeper/skchia/space_plotter.go:101-137 | one turn does not change where any workspace ends up |
| `PlotterDrain.DrainIsOrderIndependent` | poc/engine.v2/spacekeeper/skchia/space_plotter.go:101-181 | for every pop order: a workspace ends Mining iff it was or some entry wants it mined, else a queued one ends Ready; the queue ends empty |
| `PlotterDrain.DrainIgnoresDuplicates` | poc/engine.v2/spacekeeper/skchia/space_plotter.go:64-77 | queues with the same entries, in any order and multiplicity, drain to the same objects |
| `SpaceKeeper.States` | poc/engine.v2/engine.go:122-136 | the flag loop lists exactly the states whose bits (1, 2, 4, 8) are set, in order, without repetition |
| `SpaceKeeper.FlagBits` | poc/engine.v2/engine.go:54-75 | the flags of the four states are the bits 1, 2, 4 and 8 |
| `SpaceKeeper.SpaceKeeper.DeleteFromQueue` | poc/engine.v2/spacekeeper/skchia/space_plotter.go:64-77 | rebuilding the queue drops exactly the entries of the sid |
| `SpaceKeeper.SpaceKeeper.DeleteFromSlice` | poc/engine.v2/spacekeeper/skchia/capacity.go:928-950 | drops the first element with the sid |
| `SpaceKeeper.SpaceKeeper.DisuseWorkSpace` | poc/engine.v2/spacekeeper/skchia/capacity.go:816-819 | the workspace is out of use and out of the list, every other one stays as it was and where it was listed |
| `SpaceKeeper.SpaceKeeper.UseWorkSpace` | poc/engine.v2/spacekeeper/skchia/capacity.go:805-813 | sets the flag and lists the workspace unless it is listed |
| `SpaceKeeper.SpaceKeeper.PlotWS` | poc/engine.v2/spacekeeper/skchia/capacity.go:349-379 | takes the PlotWS step and keeps the invariant; a Registered workspace gets exactly one channel entry, not bound for mining; for a Plotting one the popped entry is set to not mining; Ready and Mining ones and all other objects stay; an unused sid gives the error and no change |
| `SpaceKeeper.SpaceKeeper.MineWS` | poc/engine.v2/spacekeeper/skchia/capacity.go:389-424 | takes the MineWS step and keeps the invariant; a Registered workspace gets exactly one channel entry, bound for mining; for a Plotting one the popped entry is set to mining; a Ready one becomes Mining and is indexed there and nowhere else; a Mining one and all other objects stay |
| `SpaceKeeper.SpaceKeeper.StopWS` | poc/engine.v2/spacekeeper/skchia/capacity.go:435-460 | takes the StopWS step and keeps the invariant; no queue entry of the sid is left and all other entries are; a Mining workspace becomes Ready and is indexed there; for a Plotting one the popped entry is set to not mining; the others stay |
| `SpaceKeeper.SpaceKeeper.RemoveWS` | poc/engine.v2/spacekeeper/skchia/capacity.go:467-484 | takes the RemoveWS step and keeps the invariant; a Registered or Ready workspace is out of use and out of the list, nobody else is; a Plotting or Mining one is refused; in both cases the queue loses exactly the entries of the sid |
| `SpaceKeeper.SpaceKeeper.DeleteWS` | poc/engine.v2/spacekeeper/skchia/capacity.go:491-514 | takes the DeleteWS step and keeps the invariant; as removal, and the sid is in no index map any more |
| `SpaceKeeper.SpaceKeeper.CollectByFlags` | poc/engine.v2/spacekeeper/skchia/capacity.go:874-890 | collects exactly the workspaces in the flagged states, each once |
| `SpaceKeeper.SpaceKeeper.ApplyConfigured` | poc/engine.v2/spacekeeper/skchia/capacity.go:842-872 | the loops replace the used set and queue the selection |
| `SpaceKeeper.SpaceKeeper.ConfigureByFlags` | poc/engine.v2/spacekeeper/skchia/capacity.go:874-904 | takes a configure step for exactly the workspaces in the flagged states, in some order, and keeps the invariant; afterwards these and no others are used, listed and queued, with the mining flag as asked |
| `SpaceKeeper.SpaceKeeper.PlotSpace` | poc/engine.v2/spacekeeper/skchia/space_plotter.go:101-137 | the popped workspace settles as the documented tables say, every other one is untouched, and the invariant is kept |
| `SpaceKeeper.SpaceKeeper.DrainQueue` | poc/engine.v2/spacekeeper/skchia/space_plotter.go:166-180 | the plotter loop ends with the queue empty and every workspace in its predicted state |
| `WorkSpacePath.WorkSpacePath.Add` | poc/engine.v2/spacekeeper/skchia/workspace.go:137-156 | a new workspace is inserted at its place, an existing sid changes nothing; the list stays sorted and distinct |
| `WorkSpacePath.WorkSpacePath.Insert` | poc/engine.v2/spacekeeper/skchia/workspace.go:158-162 | shifting the slice in place inserts the element and moves no other |
| `WorkSpacePath.InsertedKeeps` | poc/engine.v2/spacekeeper/skchia/workspace.go:137-162 | inserting at a proper place keeps sortedness and distinctness |
| `Framing.SizeRoundTrip` | fractal/connection/conn.go:299-305 | a 32-bit size survives encoding |
| `Framing.SizeIsBigEndian` | fractal/connection/conn.go:299-305 | the four bytes are the base-256 digits, most significant first |
| `Framing.ReceiveRoutine` | fractal/connection/conn.go:196-224 | the loop over any bytes delivers the frames up to the first error and stops for the right reason |
| `Framing.FramesThenTail` | fractal/connection/conn.go:196-224 | after any complete frames the loop stops at a size over the limit or where the bytes end, has delivered exactly the non-empty frames, and reports which of the two it was |
| `Framing.EveryStreamSplits` | fractal/connection/conn.go:196-224 | every byte stream is complete frames followed by such a rest |
| `Framing.FramesArrive` | fractal/connection/conn.go:196-264 | any sequence of payloads within the limit, keepalives mixed in, arrives as exactly the non-empty ones in order |
| `Framing.FrameArrivesIff` | fractal/connection/conn.go:203-222 | one frame delivers exactly its payload, and an empty one nothing, if and only if the payload is within the limit |
| `Framing.PrefixDeliversPrefix` | fractal/connection/conn.go:196-224 | any prefix of any bytes delivers a prefix of the messages |
| `Framing.MessageRoundTrip` | fractal/protocol/message.go:26-79 | an encoded message decodes to itself and is never empty, so it is not a keepalive |
| `Framing.TagLayout` | fractal/protocol/message.go:26-79 | a message is a zero byte, the byte of its type and its body, and only such data reaches a body parser |
| `Framing.MessagesArrive` | fractal/protocol/message.go:46-79 | messages with keepalives among them, sent over the wire format, decode to the messages in order |
| `PrioritySender.EveryRunMerges` | fractal/connection/conn.go:226-264 | in every run the dequeued messages merge the two queues without loss, duplicate or reordering |
| `PrioritySender.AtMostOneOvertakes` | fractal/connection/conn.go:234-252 | after a priority message is queued at most one ordinary message is dequeued before it |
| `PrioritySender.OneCanOvertake` | fractal/connection/conn.go:234-252 | the bound is reached |
| `PrioritySender.QuietRunIsOrdered` | fractal/connection/conn.go:226-264 | while nothing new is queued, every run sends the priority queue first and then the ordinary one, each in order |
| `PrioritySender.NeverStuck` | fractal/connection/conn.go:226-264 | the routine never rests while a message is queued |
| `StopProtocol.EveryRunKeeps` | fractal/connection/conn.go:116-147 | the wait group counts the live workers, and who won the swap is unique, in every run |
| `StopProtocol.NoCallReturnsEarly` | fractal/connection/conn.go:116-135 | no waitStop call returns before all workers exited and ran their clean-ups; at most one call wins, and afterStopped has run exactly once if that call has returned and not at all before |
| `StopProtocol.NoDeadlock` | fractal/connection/conn.go:116-147 | in every reachable state some worker or caller can go on, unless all workers have exited and all calls have returned |
| `StopProtocol.EveryRunEnds` | fractal/connection/conn.go:116-147 | every run is bounded by the number of workers, clean-ups and calls, so every call returns in the end |
| `StopProtocol.ConnectionStop` | fractal/connection/conn.go:116-147 | for a connection: all four channels are closed by then |
| `StopProtocol.CollectorStop` | fractal/collector.go:422-445 | for a collector: it is unsubscribed and its channel closed by then |
| `TaskChannels.StepKeeps` | fractal/superior.go:161-207 | every step of adders, removers and reporters keeps the channel invariant |
| `TaskChannels.EveryRunKeeps` | fractal/superior.go:161-207 | it holds in every reachable state: no send on a closed channel, no second close |
| `TaskChannels.TaskChannelsAreSafe` | fractal/superior.go:161-226 | what is received on the channel of AddTask(t) carries t's id and the id of a child that reported it |
| `TaskChannels.ClosedIsFinal` | fractal/superior.go:177-190 | after RemoveTask closed a channel nothing more is sent on it |
| `TaskChannels.SubmitIs` | fractal/superior.go:192-226 | a report of the right type for a cached task is added to that channel, if fewer than ten messages wait, or given up; any other is dropped; no other channel changes |
| `TaskChannels.RemoveIs` | fractal/superior.go:177-190 | an undisturbed removal closes the channel and drops the task, and changes nothing else |
| `TaskChannels.ReceiveIs` | fractal/superior.go:161-175 | the reader gets the messages in the order they were sent, each once |
| `LocalSuperior.LocalSuperior.AddTask` | fractal/superior.go:161-175 | caches a fresh channel, sets the latest task for a broadcast, and issues the request to all or to one collector |
| `LocalSuperior.LocalSuperior.RemoveTask` | fractal/superior.go:177-190 | closes and drops the channel once; an absent task changes nothing |
| `LocalSuperior.LocalSuperior.OnTypeMsg` | fractal/superior.go:192-226 | a report of the right type goes to its task's channel and no other, once, tagged with the child's id; a wrong type is an error, and so is a cancelled context for a cached task, and nothing else |
| `LocalSuperior.LocalSuperior.Broadcast` | fractal/superior.go:90-106 | every subscribed collector is issued the request once, in whatever order; afterwards all have the latest task |
| `LocalSuperior.LocalSuperior.Send` | fractal/superior.go:74-88 | only the named collector, if subscribed, gets the request; no collector loses one, and all still have the latest task |
| `LocalSuperior.LocalSuperior.Subscribe` | fractal/superior.go:154-159 | the collector is subscribed with the latest task, so that every subscribed collector has it |
| `LocalSuperior.LocalSuperior.Unsubscribe` | fractal/superior.go:67-72 | nothing can be issued to the collector any more; the others are untouched and still have the latest task |
| `LatestTask.NoLostTask` | fractal/superior.go:154-175 | however the steps interleave, a settled collector has been issued the current task once its broadcast has happened, unless a removal stood between comparison and write when the task was set |
| `LatestTask.NoLostTaskRemote` | fractal/superior.go:259-332 | a remote superior, which never removes, loses no task at all |
| `LatestTask.LateSubscriberIff` | fractal/superior.go:177-190 | a late subscriber is issued the task exactly when no removal was half done at that moment |
| `LatestTask.RemovalIs` | fractal/superior.go:177-190 | an undisturbed removal clears the latest task exactly if it is the one removed |
| `LatestTask.AdditionIs` | fractal/superior.go:161-175 | an undisturbed addition makes the task the latest one and issues it to every collector |
| `LatestTask.ATaskCanBeLost` | fractal/superior.go:177-190 | a run in which a task is lost |
| `LatestTask.NoNilDereference` | fractal/superior.go:187-189 | the second read of latestTask in RemoveTask never finds nil |
| `Routing.EveryRunKeeps` | fractal/superior.go:74-106 | every request in flight is below the collector it was sent to, every report on the path from its leaf |
| `Routing.SentIff` | fractal/superior.go:74-106 | a child of the root has been sent a request exactly if a call addressed it or all children |
| `Routing.RepliesComeFromBelow` | fractal/superior.go:334-353 | a report at the root under id c was made by a leaf below c from a space it holds and answers a request that a call addressed to c or to all |
| `Routing.CoveredAfterSend` | fractal/superior.go:318-332 | after a new request to c, by itself or broadcast, and without message loss, every leaf below c has handled it or it is on its way, and handled requests are answered |
| `Routing.RepliesAreExact` | fractal/superior.go:74-106 | when a request to c, by itself or broadcast, has run its course, the replies are exactly those of the leaves below c that hold the space |
| `Routing.QualityThenRequest` | fractal/superior.go:74-106 | after a quality report under c, a proof or signature request to c reaches that leaf and its reply arrives under c |
| `Routing.ChainReachesLeaf` | fractal/superior.go:318-332 | a chain of one relay per level always exists |
| `Routing.ReportReachesRoot` | fractal/superior.go:334-353 | a report under way can be brought to the root, one step per level, and arrives under the id of the child above its leaf |
| `Routing.QualityReachesRoot` | fractal/collector.go:243-268 | a leaf that handled a qualities task can report any space it holds, and the report can reach the root |
| `SlotSearch.TrySlots` | fractal/collector.go:200-252 | for any clock readings, even backwards, and any cancellation: the slots tried are consecutive from ParentSlot+1, each in the first tick that allows it, none more than ten ahead of its reading u, that is beyond u/3 + 10 for u from 0 to below 2^63, and without cancellation exactly the slots after ParentSlot that are at most u/3 + 10 for some reading u are tried; every reading before the cancellation has been caught up with and the cancelled tick got exactly as far as the cancellation let it; the reports are those of the tried slots |
| `SlotSearch.ReachesAllowed` | fractal/collector.go:209-223 | for readings from 0 to below 2^63: a slot tried at reading u is at most u/3 + 10, and once all readings have been caught up with the slots tried are exactly those after ParentSlot and at most u/3 + 10 for some reading u |
| `SlotSearch.ReportedIff` | fractal/collector.go:231-268 | a tried slot is reported exactly if some quality is strictly greater than the target of that slot, and the report holds exactly those qualities |
| `SlotSearch.Satisfied` | fractal/collector.go:231-241 | the qualities above the slot's target in order |
| `SlotSearch.AboveIsExact` | fractal/collector.go:234-241 | exactly the positions whose quality beats the target, each once and in order |
| `SlotSearch.ValidQualities` | fractal/collector.go:349-357 | exactly the entries without error, in order |
| `SlotSearch.MassQualities` | fractal/collector.go:359-366 | one quality per entry, in place |
| `SlotSearch.ReportedSlots` | fractal/collector.go:243-268 | a tried slot is reported iff it has a quality above target, with all of them |
| `SlotSearch.ReportsInOrder` | fractal/collector.go:243-268 | reports leave in slot order, no slot twice |
| `SlotSearch.SlotsFollowParent` | fractal/collector.go:200-206 | the j-th slot is ParentSlot+1+j and no slot is tried twice |
| `SlotSearch.OnlyTheLargestReadingCounts` | fractal/collector.go:209-251 | how far the search got depends on the largest reading only, so a clock going backwards is harmless |
| `BestProof.ScanMessage` | poc/engine.v2/pocminer/miner/strategy.go:243-275 | the inner loop keeps the best candidate of everything received |
| `BestProof.GetBestProof` | poc/engine.v2/pocminer/miner/strategy.go:229-330 | what is returned is the best of all candidates received before a tick at or after its slot's time; a proof is found exactly if some prefix of the events ends in such a tick while the block is not stale, with every earlier event passed over; it gives up only on quit or staleness |
| `BestProof.BestReads` | poc/engine.v2/pocminer/miner/strategy.go:237-275 | the kept candidate in plain terms: it arrived, passes binding, beats the target at three seconds per slot, and nothing else that does so has an earlier slot, or the same slot and a higher quality; nothing is kept exactly when no arrived candidate does so |
| `BestProof.FinishesOnce` | poc/engine.v2/pocminer/miner/strategy.go:277-330 | there is at most one such prefix, so when and with what the selection ends is determined |
| `BestProof.OneMore` | poc/engine.v2/pocminer/miner/strategy.go:249-264 | the streaming update is right for one more candidate, also at the largest slot number |
| `BestProof.OrderDoesNotMatter` | poc/engine.v2/pocminer/miner/strategy.go:237-291 | slot and quality of the best do not depend on arrival order or repetition |
| `BestProof.BestIsUnique` | poc/engine.v2/pocminer/miner/strategy.go:255-264 | for one arrival order the kept candidate is determined: ties go to the first |
| `BestProof.SameTime` | poc/engine.v2/pocminer/miner/strategy.go:249-323 | the uint64 product of the selection and the int64 product of the header give the same time for every slot |
| `BestProof.SlotTimeIs` | poc/engine.v2/pocminer/miner/strategy.go:249-323 | for slots below 2^61 the time is three seconds per slot |
| `BestProof.BlockBeatsItsTarget` | poc/engine.v2/pocminer/miner/miner.go:243-250 | the block's quality strictly exceeds the target in its own header |
| `BestProof.BetterNodesNeverReturn` | poc/engine.v2/pocminer/miner/miner.go:287-302 | along better and better nodes no node comes back |
| `BestProof.BetterNodeIff` | poc/engine.v2/pocminer/miner/miner.go:287-302 | when one node is better than another, case by case |
| `BestProof.PoCMiner.SolveBlock` | poc/engine.v2/pocminer/miner/strategy.go:94-165 | a height mined before gives no block; for any other a block comes exactly if some prefix of the events ends in a tick, not stale, at or after the best candidate's time with every earlier event passed over; it is made from that best candidate, carries its time and beats the target in its own header |
| `BestProof.PoCMiner.GenerateBlocks` | poc/engine.v2/pocminer/miner/miner.go:124-210 | over any rounds: refused exactly if the height was mined before, no proof exactly if no such prefix exists, otherwise the block of the best candidate, which beats the target in its own header; a height is recorded exactly when its block is accepted |
| `Amounts.RoundTrip` | api/util.go:75-153 | every amount from 0 to 20643840000000000 prints in canonical form and parses back |
| `Amounts.PrintOfParsed` | api/util.go:75-153 | among accepted strings exactly the canonical ones print back |
| `Amounts.PrintFailsIff` | api/util.go:75-99 | printing fails exactly for negative amounts and amounts above 20643840000000000, each with its own error |
| `Amounts.RejectedAs` | api/util.go:102-153 | a second point is a format error; of plain decimals, exactly those with a non-zero digit past the eighth decimal are too precise, and any other rejected one is out of range |
| `Amounts.DecimalMeans` | api/util.go:102-153 | a plain decimal is accepted as m exactly when its value times 10^8 is the whole number m in range |
| `Amounts.IntegerMeans` | api/util.go:102-153 | the same without a fraction |
| `Amounts.AcceptedIsPlain` | api/util.go:102-153 | an accepted string without signs is a plain decimal |
| `Amounts.WrittenMeans` | api/util.go:102-153 | for every way of writing an amount, with zeros before a sign and a sign in either part: it is accepted as m exactly when m is in range, a minus sign stands only before zero digits, and m is the digits' value, a signed fraction counting for a tenth |
| `Amounts.AcceptedIsWritten` | api/util.go:102-153 | every accepted string is such a writing |
| `Amounts.AcceptedIff` | api/util.go:102-153 | the parser on every string: both directions |
| `Amounts.MeansWhatItSaysIff` | api/util.go:107-136 | an accepted string means what it says exactly when its fraction is zero or carries no sign and stands under no minus sign |
| `Amounts.NegativeHalf` | api/util.go:107-129 | "-0.5" is accepted as plus half a MASS |
| `Amounts.SignedTenth` | api/util.go:113-136 | "1.+5" is accepted as 1.05 |
| `Amounts.LoneSign` | api/util.go:113-136 | "1.-" is accepted as 1 |
| `KeystoreInvariant.LoadOk` | poc/wallet/keystore/manager.go:641-841 | loading succeeds exactly with the public passphrase and builds a manager that agrees with the database |
| `KeystoreInvariant.CheckPasswordIff` | poc/wallet/keystore/addrmgr.go:143-166 | a passphrase passes exactly when it is the common one and, if unlocked, the salt is intact |
| `KeystoreInvariant.UpdatePrivKeysIff` | poc/wallet/keystore/addrmgr.go:231-316 | with the live master key every address gets the private key of its own node; with any other key it fails |
| `KeystoreInvariant.UseManagerIff` | poc/wallet/keystore/manager.go:1254-1298 | the exact condition for opening one account |
| `KeystoreInvariant.UnlockIff` | poc/wallet/keystore/manager.go:1300-1316 | the exact condition for Unlock in every iteration order, and what it changes |
| `KeystoreInvariant.LockKeeps` | poc/wallet/keystore/manager.go:1318-1326 | Lock keeps the invariant, also with shared master keys |
| `KeystoreInvariant.AddAccountKeeps` | poc/wallet/keystore/manager.go:154-473 | the exact condition for adding an account, and the bucket it writes |
| `KeystoreEffects.LegalIff` | poc/wallet/keystore/validate.go:12-18 | which passphrases are legal |
| `KeystoreEffects.PathLayout` | poc/wallet/keystore/hd.go:51-106 | an address lies at 44', coin', account', branch, index below the root, as numbers |
| `KeystoreEffects.DerivableIff` | poc/wallet/keystore/hd.go:51-127 | a seed is usable exactly if the coin type and account are in range and all five nodes down to the two branches have keys |
| `KeystoreEffects.BucketOpensTo` | poc/wallet/keystore/manager.go:154-473 | what each passphrase opens in a stored account: its public keys, its private key and the master key |
| `KeystoreEffects.NewKeystoreIff` | poc/wallet/keystore/manager.go:843-902 | succeeds exactly with a legal passphrase that is not the public one and that the present accounts share, a usable seed of 32 bytes and a new account; it adds that account at zero child numbers and keeps the others; otherwise no account changes |
| `KeystoreEffects.ImportKeystoreIff` | poc/wallet/keystore/manager.go:1091-1163 | the same for a file the given passphrase opens, into a wallet with or without accounts |
| `KeystoreEffects.DeleteKeystoreIff` | poc/wallet/keystore/manager.go:1193-1252 | an account is deleted exactly with the passphrase it recognises, from database and memory; the others are kept |
| `KeystoreEffects.ExportKeystoreIff` | poc/wallet/keystore/manager.go:1165-1191 | a file comes out exactly with that passphrase, and it is the account as stored |
| `KeystoreEffects.LockClears` | poc/wallet/keystore/addrmgr.go:194-228 | after Lock no private key, no key that opens one and no passphrase hash is left |
| `KeystoreEffects.ChangePrivRepoints` | poc/wallet/keystore/manager.go:1778-1814 | after a change of the private passphrase every manager points to the one new master key, and the old ones are zeroed |
| `KeystoreEffects.ChangeRemarkIff` | poc/wallet/keystore/manager.go:1616-1642 | the remark of a managed account, and nothing else, changes in database and memory |
| `KeystoreSteps.IssueIs` | poc/wallet/keystore/addrmgr.go:436-455 | the issued indices are exactly the usable ones from the child number to the new one, increasing |
| `KeystoreSteps.NextIndices` | poc/wallet/keystore/addrmgr.go:435-485 | the nested allocation loop issues those indices |
| `KeystoreSteps.NextAddressesKeeps` | poc/wallet/keystore/addrmgr.go:392-534 | issuing addresses, locked or unlocked, keeps database and memory in agreement |
| `KeystoreEffects.CanIssueIff` | poc/wallet/keystore/addrmgr.go:410-485 | NextAddresses succeeds exactly if the account is managed, the number and its 32-bit sum with the child number are at most 2^31-1, and that many usable indices lie from the child number up to the derivation limit |
| `KeystoreEffects.IssueIff` | poc/wallet/keystore/addrmgr.go:435-485 | the nested loop succeeds exactly if enough usable indices are left |
| `KeystoreEffects.NextEffect` | poc/wallet/keystore/addrmgr.go:392-534 | on success the child number of the branch is one past the last issued index, the addresses are those of the issued indices, with private keys exactly while unlocked, and all else stays; on failure nothing changes |
| `KeystoreSteps.ChangePrivIff` | poc/wallet/keystore/manager.go:1739-1816 | the exact condition for changing the private passphrase; addresses, child numbers and locks stay |
| `KeystoreSteps.ChangePubIff` | poc/wallet/keystore/manager.go:1644-1737 | the exact condition for changing the public passphrase |
| `KeystoreSteps.RestartIff` | poc/wallet/keystore/manager.go:1818-1876 | reopening succeeds exactly with the public passphrase and gives a sound, locked wallet |
| `KeystoreSteps.DeleteKeystoreKeeps` | poc/wallet/keystore/manager.go:1193-1252 | deleting an account keeps the invariant of the others |
| `KeystoreRuns.EveryRunKeeps` | poc/wallet/keystore/manager.go:843-1816 | in every reachable state the database is what creation would write for the current passphrases and child numbers, memory agrees, and all accounts share one passphrase and lock state |
| `KeystoreRuns.IssuedAre` | poc/wallet/keystore/addrmgr.go:410-485 | one call issues only usable indices from the child number on and skips only unusable ones |
| `KeystoreRuns.IndicesIncrease` | poc/wallet/keystore/addrmgr.go:392-534 | over any run later calls on a branch issue only larger indices |
| `KeystoreRuns.EveryRunFits` | poc/wallet/keystore/addrmgr.go:418-424 | without invalid children the child numbers stay in the non-hardened range |
| `KeystoreTheorems.StoredIndices` | poc/wallet/keystore/db.go:592-615 | the stored indices are exactly the usable ones below the child number |
| `KeystoreTheorems.ReloadAgrees` | poc/wallet/keystore/manager.go:641-841 | reloading from the database rebuilds the address map, child numbers and remark of memory |
| `KeystoreTheorems.ChangePrivLosesNoKey` | poc/wallet/keystore/manager.go:1739-1816 | after a change and Lock, Unlock with the new passphrase restores for every address the private key matching its public key, the same as before; the old passphrase fails |
| `KeystoreTheorems.UnlockSucceedsIff` | poc/wallet/keystore/manager.go:1300-1316 | when Unlock succeeds, in every reachable state |
| `KeystoreTheorems.ExportThenUnlockFails` | poc/wallet/keystore/addrmgr.go:168-175 | an export on an unlocked wallet makes the next Unlock fail |
| `KeystoreTheorems.ExportImport` | poc/wallet/keystore/manager.go:946-1163 | export and import into an empty wallet give the same id, remark, child numbers and addresses, after any passphrase changes |
| `KeystorePassphrases.PassphrasesStayApart` | poc/wallet/keystore/manager.go:1656-1663 | over runs without empty passphrases the common private passphrase differs from the public one |
| `KeystorePassphrases.EmptyCheckDisarmsTheGuard` | poc/wallet/keystore/addrmgr.go:144-152 | checking an empty passphrase on an unlocked account lets the two become equal |
| `KeystorePassphrases.GuardCanBeLost` | poc/wallet/keystore/addrmgr.go:144-152 | a run in which they do |
| `KeystorePassphrases.UnlockCanFail` | poc/wallet/keystore/manager.go:1300-1316 | a run (new, unlock, export, unlock) whose last Unlock fails with the right passphrase |
| `KeystoreManager.KeystoreManagerForPoC.Unlock` | poc/wallet/keystore/manager.go:1300-1316 | the loop over the map takes an Unlock step for some order and keeps the invariant |
| `KeystoreManager.KeystoreManagerForPoC.Lock` | poc/wallet/keystore/manager.go:1318-1326 | the loop takes the Lock step, also where managers share a master key |
| `KeystoreManager.KeystoreManagerForPoC.UseKeystore` | poc/wallet/keystore/manager.go:1254-1298 | opens the account exactly with the common passphrase and, if it is open already, an intact salt and a live master key; soundness is kept either way |
| `KeystoreManager.KeystoreManagerForPoC.SafelyCheck` | poc/wallet/keystore/addrmgr.go:168-175 | passes exactly with the common passphrase and, if open, an intact salt; no account, address or lock changes |
| `KeystoreManager.SealImported` | poc/wallet/keystore/manager.go:287-439 | without an invalid child below the child numbers, the two index loops of an import store exactly the public keys of all indices below them |
| `KeystoreManager.KeystoreManagerForPoC.NextAddresses` | poc/wallet/keystore/manager.go:1332-1371 | succeeds exactly if the account is managed, the number asked for is in range and enough usable indices are left; moves the child number to one past the last, adds exactly the issued addresses and keeps the invariant; a failed call changes nothing |
| `KeystoreManager.KeystoreManagerForPoC.ChangePrivPassphrase` | poc/wallet/keystore/manager.go:1739-1816 | the transaction over all accounts and the loop over the managers take a passphrase-change step for some order and keep the invariant; a refusal leaves the database as it was |
| `KeystoreManager.KeystoreManagerForPoC.StageAll` | poc/wallet/keystore/addrmgr.go:536-591 | checks every account and stages the same crypto key under the new master key |
| `KeystoreManager.KeystoreManagerForPoC.RepointAll` | poc/wallet/keystore/manager.go:1778-1814 | after the commit every manager shares the new master key and the old ones are zeroed |
| `KeystoreManager.KeystoreManagerForPoC.ExportKeystore` | poc/wallet/keystore/manager.go:1165-1191 | returns the stored account exactly with the passphrase it recognises, and changes no account |
| `KeystoreManager.KeystoreManagerForPoC.DeleteKeystore` | poc/wallet/keystore/manager.go:1193-1252 | removes the account exactly with the passphrase it recognises, and no other |
| `KeystoreManager.KeystoreManagerForPoC.ChangeRemark` | poc/wallet/keystore/manager.go:1616-1642 | changes the remark in database and memory |
| `AccountRow.HDAccountKeyRoundTrip` | poc/wallet/keystore/db.go:278-332 | the two encrypted keys survive serialization |
| `AccountRow.AccountInfoRoundTrip` | poc/wallet/keystore/db.go:239-274 | a stored account row reads back |
| `AccountRow.Layout` | poc/wallet/keystore/db.go:263-332 | where type, lengths and keys stand in a row |
| `AccountRow.DeserializeRowIff` | poc/wallet/keystore/db.go:239-260 | exactly the data that begins with a serialized row reads as that row; under five bytes is an error |
| `AccountRow.DeserializeHDAccountKeyIff` | poc/wallet/keystore/db.go:278-309 | exactly the data that begins with two serialized keys reads as them; under eight bytes is an error |
| `AccountRow.SerializeInPlace` | poc/wallet/keystore/db.go:313-332 | filling the buffer by offset gives the length-prefixed parts |
| `AccountRow.SlotKeyRoundTrip` | poc/wallet/keystore/db.go:592-615 | branch and index can be read back from a bucket key |
| `AccountRow.Uint32RoundTrip` | poc/wallet/keystore/db.go:76-80 | four little-endian bytes and 32-bit numbers correspond one to one |
| `AccountRow.Uint32IsLittleEndian` | poc/wallet/keystore/db.go:76-80 | the four bytes are the base-256 digits, least significant first |

## Left out

- SpaceKeeper.SpaceKeeper.ConfigureByFlags: one atomic step, although the source takes no stateLock at all and only keeps out a started plotter and a second configuration; calls that interleave with it are not modelled.
- Keeper: pushing to the plotter queue is one step, although addSpaces pushes without the queue's lock while Delete replaces the queue under it; an entry lost between the two is not modelled.
- SpaceKeeper.SpaceKeeper.DrainQueue: plots are complete and no call interleaves; interleavings are covered by the steps of Keeper.
- AccountRow.HDAccountKeyRoundTrip: for rows below 4 GiB, since the length field has 32 bits.
- AccountRow.DeserializeRowIff: a byte slice from the database has no capacity beyond its length, so reading past its end panics.
- BestProof.PoCMiner.GenerateBlocks: whether proof and signatures arrive in time and the chain accepts the block is one input per round.
- LatestTask.NoLostTask: task ids are fresh, as the uuids of the callers are.
- Routing.RepliesAreExact: the tree does not change while a request is under way, and messages are sets, so repeated delivery is not counted.
- KeystoreTheorems.ExportImport: an invalid child below the child numbers is excluded, because the import would retry it for ever.
- KeystoreSteps.NextIndices: a counter that passes 2^32 by skipping invalid children would wrap; the search ends there instead.
- KeystoreManager: NewKeystore, ImportKeystore, ChangePubPassphrase and the reopening are functions on the wallet value (module Keystore) and not methods of the class; what their transactions write is one step.
- updatePrivKeys leaves some addresses with keys when a child turns out invalid; the model fails without a change, and the invariant shows that the case does not arise.
- PlotMultiWS, MineMultiWS, StopMultiWS, RemoveMultiWS and DeleteMultiWS call the single operation for each sid; a run may contain any such sequence.
- WorkSpacePath after DeleteWS: the path list keeps the deleted entry; only sortedness and distinctness are stated.
- Liveness outside the stop protocol and the sender: sends that block with a lock held, channel capacity of the keeper's hand-off channel, `RemoteSuperior` rebirth.
- LRU eviction is an arbitrary set of other tasks dropped when one is added; the policy itself is not modelled.
- Keepalive timing, the aliveness monitor and dialling.
- JSON, hex and curve-point encodings, taken as invertible; proofs, signatures and the proof files on disk.
- SHA-256, scrypt, secretbox, PBKDF2, BLS and the elliptic curve: uninterpreted or symbolic, as described above.
- Block templates, coinbase assembly and chain processing; only the header fields that decide the target are modelled.
- The gRPC and HTTP server, command line, configuration and start-up code, which would only add easy members.
