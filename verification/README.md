# Kubit: a verified model of its inner algorithms and protocols

Kubit installs and watches Talos Linux clusters. Most of its code talks to the outside world; this project is about the
parts that do not, or that decide what happens when other parts of the world move at the same time: how much replicated
storage a cluster offers, how the browser keeps up with the server, who may change a cluster, how secrets are sealed,
edited and shared, which files Flux applies, when an alert is raised, which machine is at an address, which control
planes may go down, and how work is coalesced. Each component is a module in a file of its own; where the program changes
things in place the module has a class whose methods are proved against functions on values, and the results about whole
runs and histories are lemmas about those functions.

- **Capacity**: the binary search for usable storage, and the reason its inequality means what it should: a layout of
  every byte on so many different nodes exists exactly when the inequality holds. One direction builds the layout by
  wrapping the nodes around the bytes, the other counts copies by node and by byte. Machine words wrap around as in Go.
- **LiveHub**, **LiveClient**, **LiveSystem**, **LiveProgress**, **LiveSchedules**: live updates. The hub stores numbered
  frames in a ring and offers them to bounded queues that close on overflow; the client applies, skips, reconnects or
  reloads; the system is every interleaving of publishing, accepting, writing, delivering, disconnecting and restarting.
  The last two modules show how a client gets up to date again, and hold the schedules that show where the promises end.
- **ApplyLease**, **LeaseRuns**: the lock on a Kubernetes Lease as interleaved API calls with lost answers, time, deaths and
  takeovers, and how it changes hands.
- **SecretTree**, **SopsFile**, **SopsSealing**, **SopsRules**: the tree of an encrypted file, path-dependent sealing with
  its checksum, changing recipients and values, what each criterion seals and what the checksum notices, and the
  first-match rule list with the edits that connect clusters to an apps repository.
- **SecretPatch**, **SecretDocument**, **SecretRows**, **SecretReading**: editing a Secret in the browser, from the
  decrypted document to the rows, through the patch, back to the document and to the rows shown after it.
- **Kustomize**, **Unlisting**: which files Flux applies, listing a new file, taking a deleted one off again, and what that
  leaves as it was.
- **Confirm**, **ConfirmHistory**, **Alerts**, **AlertHistory**, **Watcher**: confirming faults over three checks, what
  that means over whole histories, the bounded alert log and all its histories, and the loop that keeps the two in step.
- **Registry**, **RegistryHistory**: machines under hardware and network addresses, and what their history says of them.
- **Power**, **OffMap**, **PowerRuns**, **PowerCycles**, **PowerTraps**: the guards before a control plane goes down, the
  table of nodes Kubit has switched off, all sequences of runs and looks that use them, what a run that goes through leaves
  behind, and the runs that go wrong.
- **Planner**, **Debouncer**, **PxeTracker**: coalesced plans, debounced refreshes, and machines booting over the network.

`dafny verify dfyconfig.toml` checks everything.

## What the proofs found

Where the code does not do what one would expect, the model follows the code, a lemma gives the input or the run, and
another one says exactly when the expectation holds.

- A browser that connected before the first frame was published remembers `lastSeq` 0 (`LiveSchedules.StuckRun`). The
  server takes 0 for a new client and replays nothing, so on each reconnection the browser refuses the next frame. It
  catches up exactly when it is not in that state (`LiveClient.CatchesUp`, `LiveClient.StaysStuck`).
- Start times are compared to the second. Two server lifetimes that share one can make a browser pass a frame unused
  (`LiveClient.SameSecondRestartSkips`, `LiveSchedules.ClashIsUnsafe`). Nothing is skipped in any schedule over given
  start times exactly when no two of them are equal and none but the last is empty (`LiveSchedules.StampsDecide`); at a
  single reconnection it depends on whether the browser reloads (`LiveClient.GreetingCovers`).
- A claim on the lease whose answer is lost keeps the cluster locked for its hour, also to the client that made it
  (`LeaseRuns.LostAnswerLocksOut`), and a process that comes back under the number it died with is kept out by its own claim
  (`LeaseRuns.RestartKeptOut`). Who gets past a claim, and when, is in `ApplyLease.ClaimLasts`.
- A `null` spelled out on a sealed path is left as it is by encryption and refused by decryption. A file opens exactly
  when there is none (`SopsFile.RoundTrip`).
- Adding a recipient keeps the recipients of the protected file, but when its rule has to be split the new rule drops
  the criteria for what is sealed (`SopsRules.SplitDropsCriteria`). The lookup stays the same exactly when there is no
  split or there are no criteria (`SopsRules.ProtectedUnchanged`).
- A row of the secret editor whose loaded key has blanks around it and whose value changes is written beside the old
  entry (`SecretPatch.SpacedIsNotShown`); without such a row the replay is exact (`SecretPatch.ReplayShowsRows`), and what
  was saved is read back as it was left when each text comes back from its encoding (`SecretReading.SavedIsReadBack`).
- The checksum of a file notices the change of any one covered value (`SopsSealing.OneChangeIsNoticed`), but not of its type,
  nor of where one value ends and the next begins (`SopsSealing.NotNoticed`).
- Deleting a path takes the first of several fields of that name; nothing is left there exactly when there was only one
  (`SecretTree.DeleteThenGet`).
- When the sum of all capacities overflows a 64-bit word the usable size may be too small, never too large
  (`Capacity.OverflowUnderestimates`); the answers are exact exactly when it does not (`Capacity.UsableByReplicas`).
- Taking a file off the lists again gives back the checkout before the listing exactly when the missing folders held
  nothing else, the entry was new, and the list above was not already empty in a folder of its own
  (`Kustomize.UnlistUndoes`).
- A reset between checks keeps a fault hushed that has gone away, so that its return is raised without a notification
  (`ConfirmHistory.ResetKeepsHush`); without resets only faults present from the first check are hushed
  (`ConfirmHistory.UnannouncedWithoutReset`, and `ConfirmHistory.HushedExactly` for all histories).
- With more than 500 events open, closing one leaves the list over its bound until the recovery is recorded
  (`AlertHistory.ClosingBreaksBound`). Closing keeps the bound exactly when the list is within the limit or has a closed
  event in it (`Alerts.ClosingKeepsBound`), and outside that window every list is bounded (`AlertHistory.AlwaysBounded`).
- A machine whose address another machine reports loses the address without a record in its list of addresses seen,
  unlike one that moves (`Registry.ForgetsOnlyLostAddress`).
- A shutdown that is given up on while the node still answers can be followed by a second one that passes the etcd check,
  so that two of three control planes go down (`PowerTraps.LingeringShutdown`). A single one is taken exactly when no
  other is still on its way down at the check (`PowerRuns.SafeExactlyWhenSettled`).
- Partial shutdowns never take the endpoint (`PowerRuns.PartialRunsSpareEndpoint`), but after a shutdown of the whole
  cluster one can: when the latest status is from before a look outside the watch loop that missed the endpoint
  (`PowerTraps.StaleStatusTakesEndpoint`). A selection with the endpoint is let through exactly when the table has it as
  switched off while the latest status shows it up (`PowerRuns.EndpointChosenExactly`), and never while no look since
  that status has missed it (`PowerRuns.EndpointSpared`).
- When another holder has the lease, a plan leaves it to a waiter to kick again. A plan that finds the lease taken just
  after the waiter has kicked takes it for one that still waits, and nobody follows up (`Planner.ReleaseMissed`). At rest
  the last plan counts exactly when it was not abandoned so, or by a wait that failed (`Planner.LastPlanCounts`).

## Model

| member | source | states |
|---|---|---|
| Capacity.FitsIffStorable | internal/config/storage.go:98-104 | the tested inequality holds if and only if that many bytes can each be put on `r` different nodes within every node's capacity |
| Capacity.Place | internal/config/storage.go:98-104 | builds such a layout, wrapping the nodes around the bytes, whenever the inequality holds |
| Capacity.PlacementFits | internal/config/storage.go:98-104 | any layout satisfies the inequality: copies counted by byte equal copies counted by node |
| Capacity.DownwardClosed | internal/config/storage.go:105-113 | fewer bytes can always be stored, which is what makes the binary search legitimate |
| Capacity.TestFits | internal/config/storage.go:98-104 | with wrapping sums a yes is always right, and a no as well while the total fits a word |
| Capacity.UsableBytes | internal/config/storage.go:89-114 | the search ends on the largest storable size while the total fits a word, on a storable one in any case, and on 0 for too few nodes; no product it forms overflows |
| Capacity.UsableByReplicas | internal/config/storage.go:81-87 | one answer for each replica count; all are exact if and only if the total fits a word, and then they never increase |
| Capacity.NothingStorableOnTooFewNodes | internal/config/validate.go:73-73 | nothing can be stored on more nodes than there are |
| Capacity.OverflowUnderestimates | internal/config/storage.go:93-97 | a total that wraps around makes the search start and end at 0 where 100 bytes fit on two nodes |
| LiveHub.Hub.Publish | internal/api/live.go:139-163 | appends one frame with the next number, offers it to every queue, and drops exactly the subscribers whose queue was full; the ring stays the tail of the log |
| LiveHub.Hub.Subscribe | internal/api/live.go:90-113 | after a shutdown nobody gets in; otherwise a new empty queue, and the replay that the log, not the ring's layout, determines |
| LiveHub.Hub.Replay | internal/api/live.go:101-110 | the frames read off the ring are the log from `since` on |
| LiveHub.ReplayIsComplete | internal/api/live.go:96-111 | a replay is refused if and only if more than 2000 frames were missed, and otherwise is since+1, since+2 and so on without a hole |
| LiveHub.Hub.CloseAll | internal/api/live.go:122-131 | after the last message every queue ends with what it held and nobody may join |
| LiveClient.LiveConnection.Apply | web/src/live.ts:19-93 | the handlers on module variables do what the pure client does, message by message |
| LiveClient.FollowsRun | web/src/live.ts:81-93 | a client fed a run of the log that starts no later than its next frame uses exactly the frames it has not used, in order, does nothing else, and ends at the run's end |
| LiveClient.RefusesGap | web/src/live.ts:81-93 | a run that starts beyond the next frame is refused with a reconnection and without an event |
| LiveClient.CatchesUp | web/src/live.ts:19-93 | on a connection that stays up a client ends on the server's latest frame if and only if it is not stuck at `lastSeq` 0, and then it has either reloaded once and used what came later, or used exactly what it missed |
| LiveClient.GreetingCovers | web/src/live.ts:66-79 | after a reconnection every frame of the greeted lifetime up to `lastSeq` has been used or reloaded on it if and only if the client reloads, because the greeting or the missing replay tells it to, or had no frame to its name |
| LiveClient.BecomesStuck | web/src/live.ts:66-79 | a first connection to a server that has published nothing leaves the client stuck as soon as something is published |
| LiveClient.StaysStuck | web/src/live.ts:19-93 | a client stuck at 0 uses nothing and reloads nothing on any connection to that server, and stays stuck |
| LiveClient.SameSecondRestartSkips | web/src/live.ts:66-79 | with a start time shared by two lifetimes a frame is passed unused |
| LiveClient.ReloadsCounted | web/src/live.ts:48-93 | on a connection the counter of wanted reloads grows by one for each reload and for each frame that asks for one, and by nothing else |
| LiveClient.StoppedSinceGreeting | web/src/live.ts:66-83 | the page counts the server as stopped if and only if it said so since the last greeting |
| LiveSchedules.StampsDecide | web/src/live.ts:66-79 | nothing is skipped in any schedule over given start times if and only if each but the last is not empty and differs from every later one |
| LiveSchedules.ClashIsUnsafe | web/src/live.ts:66-79 | for any two lifetimes that break that condition a schedule over exactly these start times passes a frame that was never used or reloaded |
| LiveSchedules.StuckRun | web/src/live.ts:19-93 | a schedule that leaves the client stuck at `lastSeq` 0 |
| LiveSystem.ClientFollowsLog | web/src/live.ts:19-93 | in every schedule, a greeted client reloaded as of some frame of the lifetime it follows and has since used exactly that lifetime's frames up to `lastSeq` |
| LiveSystem.NothingSkipped | web/src/live.ts:19-93 | in every schedule, each frame up to `lastSeq` was used or is covered by a reload begun at a greeting at or past it |
| LiveSystem.UsedInOrder | web/src/live.ts:81-93 | in every schedule, frames of one lifetime are used in strictly increasing order, so never twice, and `stopped` never counts |
| LiveSystem.NothingLostWhileOpen | internal/api/live.go:236-306 | in every schedule, what a subscription was sent and still has queued is its opening, its replay and all later frames without a hole, up to the present until its queue closes |
| LiveProgress.ReconnectionCatchesUp | web/src/live.ts:19-93 | from every reachable state a client that loses its connection and gets another one has the latest frame once it has handled what comes, if and only if it is not stuck, and has then reloaded or used exactly what it missed |
| LiveProgress.FrameArrives | internal/api/live.go:236-306 | to a client that is up to date a new frame comes, is used, and leaves it up to date |
| LiveProgress.RestartIsFollowed | web/src/live.ts:66-79 | a client that had been connected reloads as of frame 0 of a server that stopped and started again |
| LiveProgress.ShutdownIsSilent | internal/api/live.go:122-163 | once the queues are ended nobody gets in and nothing new is queued for anyone |
| ApplyLease.MutualExclusion | internal/cluster/lock.go:23-67 | in every interleaving at most one live client that wrote the lease is inside its unexpired window |
| ApplyLease.LeaseNamesHolder | internal/cluster/lock.go:30-58 | while a client is inside its window the lease is still its claim |
| ApplyLease.ReleaseFreesOnlyOwn | internal/cluster/lock.go:59-67 | a step that frees the lease is a client's own release of its own claim, never while another is inside its window |
| ApplyLease.TakeoverNeverInterrupts | internal/cluster/lock.go:89-111 | no write to the lease ever happens while a client is inside its window |
| ApplyLease.AloneAcquires | internal/cluster/lock.go:23-67 | undisturbed, a client gets the lock if and only if there is no lease or it is not held; otherwise it leaves the lease alone |
| ApplyLease.ClaimLasts | internal/cluster/lock.go:89-111 | a claim is taken over by an undisturbed client if and only if its hour is over or its process ran on the client's host, was another one and is dead; otherwise it stays |
| ApplyLease.UnclaimedIsTaken | internal/cluster/lock.go:106-111 | a lease without a holder, a time or a duration keeps nobody out |
| ApplyLease.DeathFreesHost | internal/cluster/lock.go:89-111 | when the process inside its window dies, the next client on its host gets the lock at once |
| ApplyLease.ReleaseFrees | internal/cluster/lock.go:51-66 | undisturbed, a release writes the lease without its holder if and only if the lease still names the client, and changes nothing else |
| ApplyLease.ReleasedIsAcquired | internal/cluster/lock.go:51-66 | after it any other idle client on any host gets the lock |
| LeaseRuns.UnansweredIsLetThrough | internal/cluster/lock.go:48-50 | a client whose first call is not answered goes on without the lock, and its unlock leaves the lease alone, which may name it all the same |
| LeaseRuns.LostAnswerLocksOut | internal/cluster/lock.go:32-50 | a claim whose answer is lost leaves the client idle and keeps even itself out |
| LeaseRuns.FailedReleaseKeepsLease | internal/cluster/lock.go:51-66 | a release that fails in one of its calls leaves the lease as it is |
| LeaseRuns.HandedOverAfterAnHour | internal/cluster/lock.go:23-58 | a second client is refused while the hour of the first lasts and takes over when it is over |
| LeaseRuns.LockIsHeld | internal/cluster/lock.go:23-58 | a run in which a client is inside its window, and one in which the lock has changed hands |
| LeaseRuns.RestartKeptOut | internal/cluster/lock.go:84-104 | a process that dies inside its window and comes back under its number is kept out by its own claim |
| SecretTree.TextTells | internal/sops/edit.go:155-178 | in the listing two different scalars of one type have different texts |
| SecretTree.SetThenGet | internal/sops/edit.go:84-112 | a value set at a path is found there |
| SecretTree.SetElsewhere | internal/sops/edit.go:84-112 | setting a path changes nothing at any path that branches off from it |
| SecretTree.DeleteElsewhere | internal/sops/edit.go:114-128 | deleting a path changes nothing at any path that branches off from it |
| SecretTree.DeleteThenGet | internal/sops/edit.go:114-128 | nothing is left at a deleted path, at any depth, if and only if the mapping it was in had the key only once |
| SopsFile.NodeRoundTrip | internal/sops/sops.go:263-401 | opening a sealed tree feeds the checksum the same bytes and gives back every typed value in its place, if and only if no null was spelled out on a sealed path |
| SopsFile.RoundTrip | internal/sops/sops.go:81-196 | a file that was encrypted opens exactly for holders of one of its recipients and without a spelled-out null on a sealed path, and gives back every typed value |
| SopsFile.NodeProtected | internal/sops/sops.go:97-125 | encryption seals every selected value under the key and its place and leaves every other value readable |
| SopsSealing.SealedOrLeft | internal/sops/sops.go:97-125 | every scalar of an encrypted file stands where it stood, sealed under the key and its path, or with the value it had, which an empty one always has |
| SopsSealing.DefaultSeals | internal/sops/sops.go:85-87 | without a criterion a value is sealed if and only if no key on its path ends in `_unencrypted` |
| SopsSealing.OneCriterionSeals | internal/sops/sops.go:54-79 | the meaning of each criterion by itself: an expression that matches a key, or a suffix that ends one, somewhere on the path |
| SopsSealing.CriteriaPrecedence | internal/sops/sops.go:54-79 | with several criteria a match of the unencrypted expression leaves a value readable, else the encrypted expression alone decides, else the encrypted suffix, else the unencrypted one |
| SopsSealing.OpensOnlyInPlace | internal/sops/sops.go:119-169 | a sealed value opens if and only if it is at the path and under the key it was sealed for, as long as no key of the paths has a colon |
| SopsSealing.OneChangeIsNoticed | internal/sops/sops.go:318-333 | two files with the same metadata that open do not differ in just one covered value of one type |
| SopsSealing.NotNoticed | internal/sops/sops.go:318-333 | changes the checksum does not notice: of a number to its text, and of where one of two neighbouring strings ends |
| SopsFile.EncryptSucceeds | internal/sops/sops.go:81-146 | encryption succeeds if and only if the recipients are usable, the file is not encrypted yet, has no alias, and the expressions it needs compile |
| SopsFile.SameMetadataSameValues | internal/sops/sops.go:148-196 | two files with the same metadata that open hold the same covered bytes in the same order: the checksum pins them |
| SopsFile.UnwrapWrapped | internal/sops/sops.go:411-453 | a wrapped data key is recovered by exactly the holders of a recipient's key |
| SopsFile.RekeyKeepsPlaintext | internal/sops/recipients.go:18-29 | changing the recipients of any file one can open succeeds, names exactly the new ones, wraps the new data key for them, opens exactly for them, and keeps the values and the criteria |
| SopsFile.EditSucceeds | internal/sops/edit.go:61-82 | an edit goes through if and only if the file opens, the edit gives a mapping without aliases or a second `sops` key, and recipients and expressions are usable |
| SopsFile.EditOpensToEdited | internal/sops/edit.go:61-82 | an edit that goes through keeps recipients and criteria and opens to the edited plaintext for the readers the file had, unless it spelled out a null where the rule seals |
| SopsRules.RuleFor | internal/sops/config.go:25-66 | the loop over the rules gives the recipients and the criteria of the first rule that matches, and its errors where an earlier rule is broken, none matches, or there are no recipients |
| SopsRules.AddRecipient | internal/sops/recipients.go:51-81 | the loops over the rule list and the samples do what the specification of the edit says |
| SopsRules.ProtectedUnchanged | internal/sops/recipients.go:51-81 | adding a recipient never changes the recipients or errors of the protected file's lookup, and changes the rest of it if and only if its rule is split and named criteria |
| SopsRules.SplitDropsCriteria | internal/sops/recipients.go:60-71 | a rule list where the split changes what of the protected file is sealed |
| SopsRules.GivesOnce | internal/sops/recipients.go:60-81 | a recipient a rule gains comes last, and one that is there is not added again |
| SopsRules.SamplesReadable | internal/sops/recipients.go:51-81 | a sample is readable by the recipient in the end if and only if its first rule then has an age list and is not the protected file's, or is that and had the recipient already |
| SopsRules.OthersOnlyGain | internal/sops/recipients.go:51-81 | any other file's lookup gains at most that recipient, loses none, and keeps its criteria |
| SopsRules.KeyAdded | internal/repo/apps.go:206-222 | in the repository's layout the edit for a cluster's Flux key changes that cluster's rule and no other |
| SopsRules.ConnectAllKeeps | internal/repo/apps.go:195-240 | every sequence of connections succeeds and keeps one rule for the protected file, one for each connected cluster, one for the rest, with exactly the readers the history gives |
| SopsRules.FoldersStayApart | internal/repo/apps.go:206-222 | after any sequence of connections a cluster's folder is readable by its first operators and its own Flux keys and by nobody else, and the protected file by the first operators only |
| SopsRules.EveryPath | internal/repo/apps.go:206-222 | after any sequence of connections every path that ends in `.sops.yaml` or `.sops.yml` is for the readers of the connected cluster whose folder it is in, or else, as the protected file is, for the very first operators; every other path has no rule |
| SecretPatch.PatchOf | web/src/secrets.ts:66-80 | the loops give the entries of dropped rows, then of renamed ones, to remove, and every changed row's value at its trimmed key to set |
| SecretPatch.KeyProblems | web/src/secrets.ts:105-118 | a row is reported if and only if its key is not well formed or a row before it has the same; so no problem is reported if and only if all keys are well formed and no key is used twice in either section |
| SecretPatch.TrimIs | web/src/secrets.ts:76-76 | trimming takes blanks off both ends, as many as there are, and nothing else |
| SecretPatch.AllowedByCode | web/src/secrets.ts:98-110 | the characters of a key, by their codes |
| SecretPatch.ReplayShowsRows | web/src/secrets.ts:66-80 | replaying the patch leaves exactly the entries the rows show, with swaps, renames onto deleted keys and untouched binary values, if and only if no row kept a blank-padded key with a new value |
| SecretPatch.SpacedIsNotShown | web/src/secrets.ts:74-77 | such a row leaves an entry that no row shows |
| SecretDocument.HandlePatch | internal/api/secrets.go:324-372 | for paths of any kind: all are checked, then all removes and then all sets run on the tree, and the first error ends the call |
| SecretDocument.PatchElsewhere | internal/api/secrets.go:360-372 | a patch of whatever paths changes nothing at a path that branches off from all of them |
| SecretDocument.PatchSets | internal/api/secrets.go:366-370 | a value that is set is there afterwards when the sets that follow go elsewhere |
| SecretDocument.PatchAtItsPaths | internal/api/secrets.go:360-372 | after a patch every value set is there unless a later one goes there, and in a document without double keys nothing is at a removed path unless something is set there |
| SecretDocument.PatchApplies | internal/api/secrets.go:360-372 | the page's patch of a tidy Secret is accepted, turns its entries into what the rows show and leaves the rest of the document as it was, in order |
| SecretRows.ListingIsEntries | internal/sops/edit.go:155-178 | the listing of a decrypted Secret gives each entry of its sections once, with its value |
| SecretRows.RowsOf | web/src/secrets.ts:43-58 | one row for each listed entry that lies directly in a section, with ids of its own and its origin |
| SecretRows.EditRoundTrip | web/src/secrets.ts:43-118 | from document to rows, through any edit the page accepts, to a document that holds what the rows show |
| SecretReading.NothingToSend | web/src/secrets.ts:66-80 | the patch is empty if and only if every row is as it was loaded and none is gone |
| SecretReading.UntouchedSendsNothing | web/src/secrets.ts:43-80 | the rows as they were loaded send nothing |
| SecretReading.SavedIsReadBack | web/src/secrets.ts:20-80 | the rows read from the patched document are exactly the rows that were left, by section, trimmed key, text and binary flag, if and only if no row is `Spaced` and every text put under `data` comes back from its encoding |
| Kustomize.Applied | internal/repo/kustomize.go:108-137 | the walk accepts a file if and only if every step on the way from the root is listed where there is a list, and no list is missing below one |
| Kustomize.Checkout.ListPath | internal/repo/kustomize.go:169-199 | the loops up and down the folders give the checkout the specification of listing gives, also where no list is found or the one found is broken |
| Kustomize.ListingAddsExactly | internal/repo/kustomize.go:157-199 | when the nearest list above is one Flux reaches, exactly the new file becomes applied and no other file's status changes |
| Kustomize.Checkout.UnlistPath | internal/repo/kustomize.go:201-220 | the upward loop ends and gives the checkout the specification of unlisting gives |
| Kustomize.UnlistUndoes | internal/repo/kustomize.go:201-255 | unlisting gives back exactly the checkout before the listing if and only if the missing folders held nothing else and the list above can lose the entry without loss |
| Unlisting.WithoutParts | internal/repo/kustomize.go:249-255 | taking an entry off a list takes it off wherever it stands and keeps every other one in order |
| Unlisting.UnlistedExactly | internal/repo/kustomize.go:201-255 | a kustomization goes if and only if its folder lies on the way up and nothing is left in it or in those below; the list above these loses the one entry; everything else stays |
| Unlisting.UnlistingKeepsOthers | internal/repo/kustomize.go:201-255 | Flux applies every remaining file after the unlisting if and only if it did before |
| Confirm.SplitsBack | internal/watch/confirm.go:31-83 | a key gives back the fault and the machine it was made of, whatever the machine's name |
| Confirm.Confirmer.Apply | internal/watch/confirm.go:44-78 | the loops over the maps, in any order, give the next state and one transition for each raised and each resolved fault, with the right notification flag |
| Confirm.Confirmer.Seed | internal/watch/confirm.go:33-40 | alerts left open in the confirmed kinds count as open and nothing is hushed |
| ConfirmHistory.CountIsRun | internal/watch/confirm.go:51-66 | a fault's count is the number of checks in a row, up to the last, that showed it |
| ConfirmHistory.OpenExactly | internal/watch/confirm.go:42-78 | a fault is open if and only if three checks in a row without a reset showed it, or it was open to begin with, and no check since showed it gone |
| ConfirmHistory.Alternate | internal/watch/confirm.go:51-77 | between two raises of a fault lies a resolve and between two resolves a raise |
| ConfirmHistory.HushedExactly | internal/watch/confirm.go:45-66 | a fault is hushed if and only if the first check of an unseeded run showed it and no check without it directly followed one with it |
| ConfirmHistory.UnannouncedWithoutReset | internal/watch/confirm.go:45-58 | without resets a raise is unannounced if and only if the run was not seeded and every check so far showed the fault |
| ConfirmHistory.ResetKeepsHush | internal/watch/confirm.go:42-66 | with a reset in between, a fault that went away and came back is raised unannounced |
| Alerts.AlertLog.AddLocked | internal/watch/alerts.go:134-150 | the eviction loop gives the list the specification gives, and the event its id and time |
| Alerts.OldestFirst | internal/watch/alerts.go:138-148 | age apart, a closed event is evicted only together with every older closed one |
| Alerts.KeptSize | internal/watch/alerts.go:138-148 | the list shrinks to 500 events or to its open ones, and without age no further |
| Alerts.AddKeeps | internal/watch/alerts.go:124-150 | an added event keeps ids increasing, one open event for a fault at most, and the list within bounds |
| Alerts.AddForgetsOld | internal/watch/alerts.go:138-148 | after an event is added no closed one of its cluster is older than seven days, and other clusters' lists are as they were |
| Alerts.RaiseOpens | internal/watch/alerts.go:44-64 | after a raise exactly that fault is open beside those that were |
| Alerts.RaiseIsUpToDate | internal/watch/alerts.go:44-64 | after a raise the open event for the fault has the severity and message raised |
| Alerts.ClosingKeepsBound | internal/watch/alerts.go:82-86 | closing an event keeps the list within its bound if and only if the list is not over the limit with all of it open |
| Alerts.ResolveKeeps | internal/watch/alerts.go:76-91 | a finished resolve keeps the log valid and the list within bounds |
| AlertHistory.AlwaysBounded | internal/watch/alerts.go:39-150 | in every history of critical sections the log is valid, and every cluster's list is bounded unless a recovery of that cluster has yet to be recorded |
| AlertHistory.ClosingBreaksBound | internal/watch/alerts.go:82-86 | after more than 500 raises, closing any of the events leaves the list over its bound |
| Alerts.ResolveOpens | internal/watch/alerts.go:76-91 | after a resolve exactly that fault is open no more |
| Alerts.AlertLog.Raise | internal/watch/alerts.go:44-64 | the log in place follows the specification; a fault is news if and only if it was not open or got worse; the event, new or brought up to date, is handed on unless nothing changed, and forwarded only as news |
| Alerts.AlertLog.Resolve | internal/watch/alerts.go:76-91 | tells whether the fault was open, hands on its end unforwarded and then the recovery as recorded, forwarded exactly when the event it ends was to be |
| Watcher.CheckKeepsStep | internal/watch/loop.go:260-299 | one applied check, handed on transition by transition, keeps confirmer and log in step |
| Watcher.OthersRaise | internal/watch/alerts.go:44-64 | what others raise, in other clusters or other kinds, leaves them in step |
| Watcher.OthersResolve | internal/watch/alerts.go:76-91 | what others resolve leaves them in step |
| Watcher.ClusterWatch.Tick | internal/watch/loop.go:205-289 | after every check, whichever branch it takes, the faults held open are exactly the cluster's open events of the four confirmed kinds; a check that may not judge resets the counts and opens or closes nothing; and the cluster's list stays within its bound |
| Watcher.HandedFaultSays | internal/watch/loop.go:290-299 | after a raise is handed on the fault is open, with the severity and message the check gave it |
| Watcher.RecoveriesTell | internal/watch/confirm.go:12-12 | a recovery is about what its fault was about, tells which of the four faults it ends, and is none of them |
| Watcher.MessagesTell | internal/watch/confirm.go:85-87 | so does its message, which begins with the machine where the fault is a machine's |
| Registry.Store.UpsertNode | internal/store/machines.go:72-113 | a report goes to the row of its hardware address, else to the machine at its address, else to a ghost row; the registry stays sound; every changed or dropped row is notified, and no other but the reported one when it was not seen for a while |
| Registry.ReportKeepsSound | internal/store/machines.go:72-113 | no two rows share an address, a ghost row holds its own address, and each row knows its key, after every report |
| Registry.AddressPointUpdate | internal/store/machines.go:82-107 | who is at which address changes at one point only: the reported machine moves, everyone else stays |
| Registry.AlwaysSound | internal/store/machines.go:72-265 | in every reachable state the registry is sound and at most one machine is at an address |
| Registry.NeverDropped | internal/store/machines.go:72-265 | in every history a machine once known by its hardware address stays known |
| Registry.RowsKept | internal/store/machines.go:82-107 | a machine known by hardware address is never dropped, a dropped row is the ghost the report takes over, and other rows lose at most an address |
| Registry.ForgetsOnlyLostAddress | internal/store/machines.go:129-163 | a row forgets an address it had if and only if another machine reports it and the row had not moved on from it |
| RegistryHistory.ReportFills | internal/store/machines.go:129-163 | field by field a report replaces what it tells and leaves the rest; cluster, hostname and role are emptied by a report in maintenance that names no cluster |
| RegistryHistory.EmptiedOnlyOnLeaving | internal/store/machines.go:129-163 | these three are emptied by no other report, and no other field by any |
| RegistryHistory.FirstReport | internal/store/machines.go:129-135 | a machine heard of for the first time is as it was reported |
| RegistryHistory.AddressesSeen | internal/store/machines.go:136-139 | the address a machine moves away from joins those it had, once, and none of them is lost |
| RegistryHistory.ClusterIsLatest | internal/store/machines.go:72-265 | in every history a machine is in the cluster named by the latest of the reports that name one, the reports in maintenance that name none, the first report of it, and the unassignments, also across a change of key |
| Registry.Store.GetNode | internal/store/machines.go:175-206 | finds a machine if and only if one is at the address, and for a real address the one, whatever the order of the rows |
| Registry.Store.UnassignMachine | internal/store/machines.go:237-265 | takes the machine out of its cluster by hardware address if known, else by address, and changes no other row |
| Power.CheckShutdown | internal/cluster/power.go:24-65 | a selection is whole or a permitted part exactly as the rules on members, endpoint and control planes say, and is refused otherwise |
| Power.PartLeavesMajority | internal/cluster/power.go:48-64 | a permitted part with a control plane leaves a strict majority of them up |
| Power.EtcdTolerance | internal/cluster/precheck.go:112-129 | etcd can do without a member if and only if there is no alarm, not exactly two members, and all are started and healthy |
| PowerRuns.AtMostOneTaken | internal/cluster/power.go:128-206 | over all sequences of restarts, partial shutdowns and power-ons, also ones that stop on error, at most one control plane is taken down by Kubit, so that a strict majority of two or more is left alone, provided no earlier request is still pending at a check; nodes a shutdown of the whole cluster takes are not counted |
| PowerRuns.SafeExactlyWhenSettled | internal/cluster/precheck.go:131-156 | after a passed check and the shutdown it allows a single control plane is taken if and only if no other was still on its way down |
| PowerTraps.LingeringShutdown | internal/cluster/power.go:250-276 | a run in which a shutdown given up on while the node still answers lets a second one pass the check, and two of three control planes are taken |
| PowerCycles.PassedIsAsked | internal/cluster/power.go:128-206 | a node that passes its check is asked and counts as taken; a shutdown, and no restart, marks it first |
| PowerCycles.RestartComesBack | internal/cluster/power.go:128-161 | a restart is confirmed only when the node has gone and come back, and then it is up and not taken, and the table of nodes switched off is as it was |
| PowerCycles.ShutdownTakesEffect | internal/cluster/power.go:250-276 | a shutdown is confirmed only when the node is down, and it stays marked and taken until it is back |
| PowerCycles.FailureTakesMarkOff | internal/cluster/power.go:250-276 | a run that fails leaves no mark on the node it shut down and every other mark as it was |
| PowerCycles.BeginLooksAgain | internal/cluster/power.go:161-182 | a partial shutdown that has the lock goes on only if no other control plane is switched off by then or was known down, and some node stays on |
| PowerCycles.WholeTakesTheRest | internal/api/power.go:36-89 | a shutdown of the whole cluster starts only when every node is selected and shown up, or known to be down |
| PowerCycles.ChosenLeavesOthersUp | internal/cluster/power.go:24-65 | a selection that is let through with a control plane takes no other one, and each it leaves out is neither switched off nor unreachable in the latest status |
| OffMap.OffExactly | internal/cluster/power.go:367-420 | a node counts as switched off if and only if its last mark stands, a look since found it unreachable, and none after that reached it |
| OffMap.OffTable.OffSeen | internal/cluster/power.go:406-420 | a look updates the table and tells whether the node is down because it was switched off |
| PowerCycles.MarkAllIsMarked | internal/cluster/power.go:367-420 | marking all nodes of a shutdown is marking one after the other, and no node that is not named |
| PowerRuns.PartialRunsSpareEndpoint | internal/cluster/power.go:24-65 | over all sequences of restarts, partial shutdowns and power-ons no partial shutdown ever selects, checks or asks the endpoint, whether it is up or not |
| PowerRuns.EndpointChosenExactly | internal/api/power.go:36-89 | a selection with the endpoint is let through if and only if it would be without one and the table has the endpoint as switched off, while the latest status shows it up |
| PowerRuns.EndpointSpared | internal/api/power.go:36-89 | with shutdowns of the whole cluster as well, the endpoint is spared as long as selections are made while no look since the latest status has missed it |
| PowerTraps.StaleStatusTakesEndpoint | internal/api/power.go:36-130 | a run, after a shutdown of the whole cluster, in which a partial shutdown asks an endpoint that is up |
| Planner.PlanSlot.KickPlan | internal/api/planner.go:80-95 | the slot in place follows the specification and tells whether a loop is to be started |
| Planner.PlanSlot.LoopTop | internal/api/planner.go:97-113 | one turn of the loop in place follows the specification: it starts the next plan if one was asked for and else ends the loop |
| Planner.NoLostWakeup | internal/api/planner.go:80-113 | in every interleaving at most one loop runs, and while something is asked for there is one |
| Planner.EveryKickIsAnswered | internal/api/planner.go:80-113 | once no loop is left a plan has started after every kick, and after every run end whose kick is in; there were no more plans than kicks |
| Planner.KickStartsPlan | internal/api/planner.go:80-113 | the same told by the run: once no loop is left, every kick has been followed by the start of a plan |
| Planner.CountsExactly | internal/api/planner.go:149-169 | a plan counts if and only if its making ended while no run was going on and nobody had cancelled it |
| Planner.RunIsFollowed | internal/api/planner.go:80-169 | a run in which a plan under way is cancelled by an operation and the one asked for at its end counts |
| Planner.LastPlanCounts | internal/api/planner.go:137-181 | a plan cancelled, skipped or dropped because of a run or a changed repository is never the last one; at rest the last plan counts if and only if it was not abandoned to another holder's lease |
| Planner.NothingAbandoned | internal/api/planner.go:171-181 | no plan is abandoned unless a wait for a lease fails or a plan finds the lease taken while the waiter has kicked but not left |
| Planner.ReleaseMissed | internal/api/planner.go:171-181 | a run of the second kind: at rest, nobody waits and the last plan does not count |
| Planner.LoopsEnd | internal/api/planner.go:97-113 | a loop left to itself ends |
| Debouncer.Timers.Hit | internal/k8s/watch.go:89-104 | the first hit starts a burst and its timer, a later one resets the timer within the maximum wait, and a stopped debouncer ignores it |
| Debouncer.OneFireAfterHit | internal/k8s/watch.go:89-115 | in every run a hit whose key has nothing pending any more was followed by one fire of its burst and by no other, unless stopped |
| Debouncer.FiresInTime | internal/k8s/watch.go:89-115 | the timer of every burst that fired went off exactly when the delay without a hit or the maximum wait since the first was over, also when a timer was reset after it had gone off; one still pending later has its fire on the way |
| Debouncer.DueFires | internal/k8s/watch.go:106-115 | in every run a pending burst whose deadline has come can fire at once, in two steps at most |
| Debouncer.SingleHitFires | internal/k8s/watch.go:89-115 | a single hit fires after the delay, and its timer does not go off before |
| Debouncer.Timers.Stop | internal/k8s/watch.go:117-125 | stops the timers of all pending bursts and forgets them |
| PxeTracker.Tracker.Dhcp | internal/pxe/status.go:59-79 | the two maps stay inverse and bounded; a machine silent for a minute starts over and frees its address; a new one drops nobody unless the table is full, and then only those `Prune` may |
| PxeTracker.Tracker.Plain | internal/pxe/status.go:81-105 | the two maps stay inverse and bounded, a machine that boots over the network is left alone, and a new one drops others only as in `Dhcp` |
| PxeTracker.Tracker.Http | internal/pxe/status.go:107-138 | the address stays with the machine known there, else goes to the machine seen most recently without one, else to a new row; the maps stay inverse and bounded, and others are dropped only as in `Dhcp` |
| PxeTracker.Tracker.Prune | internal/pxe/status.go:166-183 | machines not seen for a day go, then those seen least recently, no more than needed, each with its address |

## Left out

- The outside world: Talos and Kubernetes clients, WebSocket and HTTP transport, git, files and processes appear as steps
  of an environment or as parameters.
- Cryptography and text: authenticated encryption, hashing and age are symbolic constructors that can be undone with the
  right key; regular expressions and the browser's base64 of UTF-8 are parameters; comments, anchors, number spelling and
  the rendering of YAML are not modelled, nor are nonces. Of the blanks that trimming knows, the four of ASCII text are.
- In-place editing of trees: `Set`, `Delete`, `Encrypt` and `Decrypt` rebuild the tree where the program changes nodes in
  place, so aliasing between nodes is not modelled; a tree with aliases is refused as in the program.
- The client's reloads: how several wanted reloads are merged into one and what a reload fetches; a reload counts from
  its beginning. Sequence numbers are unbounded, and messages are not encoded.
- LiveSystem.ClientFollowsLog: assumes that server lifetimes can be told apart by their start times, which is needed
  (see `LiveSchedules.StampsDecide`). The same goes for the other results of that module.
- ApplyLease.MutualExclusion: assumes that host names tell machines apart, that live clients have different holder
  strings and read one clock, and that nobody else writes or deletes the Lease. A client that was let through because the
  API did not answer is not a holder. Waiting for a release (`WaitApplyReleased`) is not modelled: it promises no progress.
- SopsRules.ConnectAllKeeps: is about the rules Kubit writes itself; regular expressions written by hand are in the model
  of lookup and of `AddRecipient`, not in that of the repository's layout.
- SecretDocument.PatchApplies: is about Secrets with no key twice and scalar entries; the rows of files of other kinds,
  whose keys are dotted paths, are not modelled, though the server's side of a patch is for any paths.
- Kustomize: resource entries are taken in their cleaned form and the three file names as one; empty folders, the lists of
  touched files and finding the Flux roots are not modelled.
- Watcher.ClusterWatch.Tick: takes the outcome of a check as given, with faults keyed as `badFacts` keys them; samples,
  health and refreshes are not modelled. Only one cluster's loop is, with every other writer of the shared log as
  an operation that may come in between.
- Alerts: time stamps are numbers instead of texts, and severities are the three there are.
- Registry.Store.UpsertNode: assumes that no hardware address looks like the key of a ghost row; hardware addresses are
  taken in their normal form.
- PowerRuns.AtMostOneTaken: takes the members of etcd to be the control planes and runs to follow each other, as the lease
  and the console arrange. Of a shutdown of the whole cluster only the marks are modelled, and the nodes it takes count
  as going down by themselves; removing nodes and applying configurations are not modelled, since they do not ask etcd
  first. The condition on pending requests is needed, see `PowerRuns.SafeExactlyWhenSettled`.
- OffMap: the annotation on Kubernetes nodes that tells other processes of a mark is not modelled; it only matters for
  nodes that cannot be reached, which count as down anyway.
- Planner.EveryKickIsAnswered: does not include the end of the server. How long a wait for another holder's lease takes,
  and why it fails, is left open.
- Debouncer.FiresInTime: assumes that the runtime lets a timer go off at its time; how late its function comes to the lock
  is left open.
- PxeTracker.Tracker.Prune: drops the oldest machines one at a time instead of sorting them first; the text log and the
  stream of changes are not modelled.
- Progress of the lease, of `Converge` and of waiting for nodes; validation, defaults, views, formatting, tokens and
  credentials, which would add only easy members.
