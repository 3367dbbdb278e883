# A verified model of the PPVPN client's state machines

A Dafny model of the parts of the client where a wrong step loses something: a saved login, a user's
log view, a daemon's socket, the identity of a build. Each part is modelled in the form the code
has. Code that changes fields step by step is a class whose methods are proved against a function of
the old state; code that computes is functions and lemmas. The theorems are about whole runs, every
interleaving and every input.

`dafny verify dfyconfig.toml` checks the whole project.

## What is modelled

* **The device login** (`crates/account/src/auth.rs`). `Credentials` is the persisted three-slot
  blob behind its write-through cache. `AuthProtocol` is activation, prepare/commit refresh, restore
  and logout as a machine: one input is one saved-credential or backend step of the operation that
  holds the credential lock, or a `cancel` or `start` by another task, a crash, or the next
  operation. A run is a fold over any sequence of inputs, so a statement about every sequence is
  about every interleaving, crash point and failed store call. `AuthSafety`, `AuthRefresh`,
  `AuthRestore` and `AuthTrust` prove what all runs keep. `Auth` is the coordinator's own methods,
  each proved to take the machine's steps, to store what it stores and to ask the backend what it
  asks, so the theorems hold of them; `AuthReports` says what one call comes to by requests, answers
  and slots. `LoginFlow` and `Polling` are the generations, the pending authorization and the
  polling loop with its bound (RFC 8628, sections 3.2 and 3.5).
* **The log view** (`apps/linux/UI/LogsPage.cs`). `LogText` is text as a join of lines, `LogView`
  the edits on values and their refinement of a full render, `LogsPage` the local functions in
  place.
* **The daemon** (`crates/cli/src/daemon.rs`). `Engine` is what the engine keeps applied,
  `ShadowState` the daemon's held request and the settings saved from it, `OverlappingCalls` calls
  that are served at the same time, `DaemonCalls` engine and daemon as objects, `SingleDaemon` the
  lock, socket, secret and record of any number of processes.
* **The build id** (`crates/service/build_id.rs`, and its copy in `crates/desktop/build.rs`):
  `BuildStream`, `BuildInputs`, `BuildId`.
* **The tray menu** (`apps/linux/Tray/StatusNotifierItem.cs`): `MenuLayout`.
* **The stepped clock** (`apps/dotnet-shared/PPVPN.App.Core.Tests/TestHost.cs`): `SteppedClock` on
  values, `SteppedTimes` with timer objects.
* **Durations** (`crates/cli/src/cli.rs`): `Durations`, the parser against its printer.

## Where the code does not do what one would expect

The model follows the code. Each of these is a theorem with its exact condition, most with a concrete case.

* `activate` leaves the pending-refresh slot alone. An interrupted refresh of an old login, a
  completed sign-in and a refresh end with the *old* login's rotated credential as the active one
  (`AuthRefresh.StalePreparedReplacesTheNewLogin`). A completed activation keeps the prepared
  credential's provenance exactly when none was prepared
  (`AuthRefresh.ActivationKeepsProvenanceIffNonePrepared`).
* `refresh_or_clear` without an active credential fails with `NoCredential`, which counts as
  terminal, so it clears an interrupted sign-in that `restore` could have finished
  (`AuthRefresh.RefreshOrClearDropsAnInterruptedSignIn`). It keeps every sign-in the backend did not
  reject exactly when an active credential is saved at the call
  (`AuthRefresh.RefreshOrClearKeepsTheSignInIffActive`); for one ended call
  `AuthRefresh.RefreshOrClearLosesIff` has both causes of a loss.
* The separator before a log entry is decided by lengths, so a blank first entry swallows the
  newline after it, and the next trim deletes too much (`LogView.BlankFirstEntryBreaksTheView`).
* A trim cuts as many buffer lines as the dropped entries have newlines in their markup. A log value
  with an escaped carriage return, which `apps/dotnet-shared/PPVPN.App.Core/ViewModels/LogEntry.cs`
  unquotes, takes one more, so a piece of it stays on top (`LogView.CarriageReturnBreaksTheView`).
  So does a paragraph separator; `LogText.CutIsRightIffPlain` and `LogText.NormalisedCutIsRightIff`
  say which entries are safe. With the blank entry, the exact condition is
  `LogView.FollowedIsRenderIff` for one edit and `LogView.ViewIsRenderIff` for all runs.
* The engine compares profiles by revision. If two profiles share one, the daemon's held request can
  name a node its own profile does not have (`ShadowState.SharedRevisionMakesReapplyReset`).
  Applying it again is quiet after all calls exactly when profiles that share a revision and a node
  have the same nodes and ingresses (`ShadowState.ReapplyIsQuietIff`).
* A daemon task changes the held request only after the engine is done, and other tasks run in
  between. Calls that overlap can leave it naming what is not live
  (`OverlappingCalls.OvertakenSelectionNamesTheWrongNode`): two calls out of the engine's order
  exactly when they say different things of something both are about
  (`OverlappingCalls.OvertakingNamesLiveIff`), any number, in all of the daemon's life, exactly when
  the last word on something differs (`OverlappingCalls.AnyOrderNamesLiveIff`).
* `parse_duration` trims the outside only: two accepted texts side by side parse as their sum
  exactly when no space ends up between them (`Durations.ParsesTogetherIff`).

## Model

| member | source | states |
|---|---|---|
| Credentials.Credentials.EnsureLoaded | crates/account/src/auth.rs:148-193 | a readable entry is loaded as the slots it has, version 0 as version 1, and kept if any slot is filled or its version is newer; only a corrupt or useless entry may be removed, and an unremovable one still reads as empty |
| Credentials.MeaningIsWhatWasWritten | crates/account/src/auth.rs:156-178 | whatever its version, a readable entry means its own slots; none and an unreadable one mean none |
| Credentials.SlotsAreSeparate | crates/account/src/auth.rs:130-137 | what is put into a slot is in that slot and in no other |
| Credentials.Credentials.Persist | crates/account/src/auth.rs:195-208 | the entry decodes to exactly the blob saved, an empty blob removes it, and a failed call leaves it as it was |
| Credentials.Credentials.Get | crates/account/src/auth.rs:210-212 | the first answer is the slot of what the entry decodes to, later ones the stored slot, in any sequence of calls and failures; reading changes no stored slot |
| Credentials.Credentials.Set | crates/account/src/auth.rs:214-225 | Ok leaves an entry that decodes to the old slots with one changed, Err changes none, a credential over 512 bytes is refused before the store is touched; cache and store agree after all |
| Credentials.Credentials.Delete | crates/account/src/auth.rs:227-238 | Ok empties one stored slot and keeps the others, Err keeps all |
| Credentials.Credentials.DeleteIf | crates/account/src/auth.rs:241-246 | the slot is emptied only while it holds the expected credential |
| Credentials.Credentials.Clear | crates/account/src/auth.rs:249-257 | Ok leaves no entry and empty slots, Err leaves everything |
| AuthProtocol.TraceIsRun | crates/account/src/auth.rs:642-782 | a trace written state by state is a run of the machine, which is how the methods' steps become runs |
| AuthSafety.TerminalIsRejection | crates/account/src/api.rs:64-97 | exactly 401, and 403 other than 403012, is terminal; nothing transient, rate-limited or undecodable is |
| Errors.RetriedAre | crates/account/src/api.rs:89-101 | asked again are exactly a failed connection, 429 and 500 to 599; rate-limited is exactly 429, a disabled team exactly 403 with its code |
| AuthSafety.InvRun | crates/account/src/auth.rs:618-782 | what every step of activate, refresh, restore and logout keeps about the three slots, in all runs |
| AuthSafety.ActivationLosesNothing | crates/account/src/auth.rs:642-691 | from the moment the activate request is sent, under any cancels, crashes and failed writes, the login is saved as pending or as the issued active one, unless the backend was already asked to revoke the issued one |
| AuthSafety.ActivationOutcome | crates/account/src/auth.rs:618-691 | Cancelled: the pending credential and the issued one are not saved and the backend was asked to revoke what was issued; Ok: the issued one is active and nothing is pending |
| AuthSafety.RevokedBeforeDropped | crates/account/src/auth.rs:618-638 | revocation is recorded only by trying it, and an issued credential is dropped only after the backend was asked to revoke it |
| AuthSafety.RevokedWasAsked | crates/account/src/auth.rs:630-638 | in every run, a credential marked as revoked is among the requests sent |
| AuthSafety.ActivationSucceedsForTheCurrentLogin | crates/account/src/auth.rs:642-691 | activate returns Ok only while the expected generation is current at its last check |
| AuthSafety.ClearingWasAnswered | crates/account/src/auth.rs:728-768 | credentials are about to be cleared for a backend error only because a request of the operation at work was answered with that error, and nothing but cancels has happened since |
| AuthSafety.ActiveIsLostOnlyBy | crates/account/src/auth.rs:618-782 | in every run, also one that begins signed out, each step at which a saved active credential disappears is a logout's, a clear's for which the backend has just rejected the login, or the cleanup's of exactly the credential that activation was issued |
| AuthTrust.ActiveWasTrusted | crates/account/src/auth.rs:662-675 | wherever in a run a credential becomes active, an answer had issued it with an access token that was not refused |
| AuthSafety.PendingIsLostOnlyBy | crates/account/src/auth.rs:618-782 | in every run, each step at which a login waiting to be activated leaves its slot is a later activation's taking the slot, the drop of one whose issued credential is saved as active or that was settled, the cleanup of a cancelled or refused activation after the backend was asked to revoke, a logout's, or a clear's after a rejection just answered or without an active credential |
| AuthRefresh.CommitIsWriteAhead | crates/account/src/auth.rs:695-726 | a commit is sent only for the credential already saved as prepared, in every run |
| AuthRefresh.PreparedBelongsToActive | crates/account/src/auth.rs:695-782 | without an activation in the run, a saved prepared credential was prepared from the saved active one or its commit issued it |
| AuthRefresh.ActivationLeavesPreparedAlone | crates/account/src/auth.rs:642-691 | no run of activate touches the prepared credential |
| AuthRefresh.ActivationKeepsProvenanceIffNonePrepared | crates/account/src/auth.rs:642-691 | a completed activation keeps the prepared credential's provenance if and only if none was prepared |
| AuthRefresh.ActivationKeepsProvenanceIff | crates/account/src/auth.rs:618-691 | at any point of an activation, failed and cancelled ones included, the provenance is kept if and only if none was prepared or the active credential is still the old one |
| AuthRefresh.QuietActivation | crates/account/src/auth.rs:642-691 | an undisturbed activation takes eleven steps and ends with the issued credential active and nothing pending |
| AuthRefresh.QuietResumedRefresh | crates/account/src/auth.rs:695-726 | an undisturbed refresh commits a prepared credential it finds and ends with its rotation active |
| AuthRefresh.StalePreparedReplacesTheNewLogin | crates/account/src/auth.rs:642-726 | the concrete run in which a stale prepared credential replaces a newer login |
| AuthRefresh.RefreshResumes | crates/account/src/auth.rs:695-768 | with a repeatable commit, a refresh, refresh_or_clear or restore completed after any number of interrupted ones ends with the rotated credential active and nothing prepared; until then the prepared credential stays saved, unless the backend rejected the login in this run and it was cleared |
| AuthRestore.RestoreFinishesActivation | crates/account/src/auth.rs:744-768 | with a repeatable activation answered with a trusted access token and nothing prepared, however often restore is interrupted, and even if the backend issues the waiting credential itself or it is active already: the sign-in still waits, or is done, or was rejected and cleared; a completed restore has the credential it comes to active, or what that was rotated to once a commit was asked for |
| AuthRefresh.RefreshOrClearLosesIff | crates/account/src/auth.rs:695-738 | an ended call the store did not cut short ends with NoCredential if and only if no active credential was saved, and loses an interrupted sign-in if and only if none was or the backend rejected the login at a prepare or commit of this call |
| AuthRefresh.RefreshOrClearKeepsTheSignInIffActive | crates/account/src/auth.rs:307-313 | whatever store and backend do, refresh_or_clear keeps a sign-in the backend did not reject if and only if an active credential is saved when it is called |
| AuthRefresh.RefreshOrClearDropsAnInterruptedSignIn | crates/account/src/auth.rs:730-738 | without an active credential two undisturbed steps clear every slot, whatever sign-in was interrupted |
| Auth.Auth.ModelIsRun | crates/account/src/auth.rs:454-782 | the methods' slots, generation and requests to the backend are those of a run of the machine from where this process began |
| Auth.Auth.Activate | crates/account/src/auth.rs:642-691 | told by requests, answers and slots: a failed request leaves the login pending; a refused access token or a login no longer current is given up by revoke and cleanup; Ok means the issued credential, with a trusted token, is active, nothing is pending, the account was read and the expected generation is current |
| Auth.Auth.ActivationIsSaved | crates/account/src/auth.rs:642-691 | Ok: the stored active credential is the issued one and nothing is pending; Cancelled: neither the pending nor the issued credential is stored, and the issued one's revocation was tried |
| Auth.Auth.CleanupCancelledActivation | crates/account/src/auth.rs:618-628 | asks for the revocation of what was issued, and of nothing else; Ok leaves the slots without the issued and the pending credential, each only if it was still there |
| Auth.Auth.Refresh | crates/account/src/auth.rs:695-726 | told by requests, answers and slots: a prepare only if none is saved, then the commit of what is prepared; a failed or refused answer is what is reported |
| Auth.Auth.CommitPrepared | crates/account/src/auth.rs:715-726 | the commit's answer decides: failed or refused it is reported and active and prepared stay as they were; trusted it is active and nothing is prepared, or the store failed |
| Auth.Auth.PrepareCredential | crates/account/src/auth.rs:700-714 | the saved prepared credential, or else the one prepared from the active credential, saved before it is used |
| Auth.Auth.RefreshOrClear | crates/account/src/auth.rs:730-738 | the refresh's outcome, and nothing saved if that is terminal, unless the store fails to clear |
| Auth.Auth.Restore | crates/account/src/auth.rs:744-768 | Ok: an unsettled pending credential was activated, a settled one dropped, and then the session refreshed or, without one, nothing asked and signed out; a terminal error leaves nothing saved |
| Auth.Auth.Logout | crates/account/src/auth.rs:773-782 | Ok leaves nothing saved whatever the revoke answered, Err leaves everything; running logins are cancelled either way, and the backend is asked to revoke the active credential unless a store call other than the clear's failed |
| Auth.Auth.Perform | crates/account/src/auth.rs:642-782 | any operation, called when none is at work, runs to an end with the machine's outcome |
| LoginFlow.PendingIsTheCurrentLogins | crates/account/src/auth.rs:454-521 | over all interleavings a stored pending authorization was written by the start whose generation is current |
| LoginFlow.StaleTasksDisturbNothing | crates/account/src/auth.rs:601-616 | a late start response, a stale slow_down and a stale finish change nothing of a newer login |
| LoginFlow.IntervalCountsSlowDowns | crates/account/src/auth.rs:601-609 | the interval is the granted one plus five seconds for each slow-down of that login and no other's |
| LoginFlow.OthersKeepRely | crates/account/src/auth.rs:454-616 | whatever other tasks do, a poller's login keeps its device code and expiry and its interval only grows |
| LoginFlow.StartedIff | crates/account/src/auth.rs:485-504 | a login is started only with a trusted page, a code of 32 characters (one, from a local backend), and a lifetime and interval |
| LoginFlow.GrantedForSeconds | crates/account/src/auth.rs:505-513 | its lifetime and interval are the granted numbers of seconds |
| Polling.Logins.Cancel | crates/account/src/auth.rs:454-458 | the login's critical section as the interleaving machine has it |
| Polling.Logins.SlowDown | crates/account/src/auth.rs:601-609 | only the login it was called for is slowed down |
| Polling.Logins.Finish | crates/account/src/auth.rs:611-616 | only the login it was called for is ended |
| Polling.Logins.Remember | crates/account/src/auth.rs:485-514 | a bad answer is refused, a late one is cancelled, and only an accepted one is stored, with its code and the seconds of lifetime and interval it was granted |
| Polling.Logins.Start | crates/account/src/auth.rs:463-521 | a started login is the current one, is pending, has not expired and polls no faster than once a second |
| Polling.Logins.PollUntilDone | crates/account/src/auth.rs:527-599 | polling ends for every answer sequence; n requests take less than the lifetime, n*I < E, and n*I + 5n(n-1)/2 < E when each is slowed down; what ends it is that the login is no longer pending or current, the expiry or the answer that decides |
| Polling.Logins.Heed | crates/account/src/auth.rs:560-598 | one answer: slow_down and 429 slow the login down, a pending and a transient one leave it, any other ends it with its result |
| Polling.SumBelowClosed | crates/account/src/auth.rs:601-609 | the closed form of the slow-downs' total used in that bound |
| LogText.CutLeavesTheRestIff | apps/linux/UI/LogsPage.cs:184-192 | deleting the first sum(shownLines[..first]) lines of a render leaves the render of the rest if and only if that sum is the lines they take in the buffer |
| LogText.CutIsRightIffPlain | apps/linux/UI/LogsPage.cs:143-146 | where entries are shown with the newlines of their markup, it is if and only if none of them has a paragraph separator or a carriage return that is not right before a newline |
| LogText.NormalisedCutIsRightIff | apps/linux/UI/LogsPage.cs:143-146 | where the markup's CR LF and CR are shown as newlines, the cut is right if and only if every markup cut off has plain line ends |
| LogText.CutIsRightIffEach | apps/linux/UI/LogsPage.cs:184-192 | however entries are shown, if none is counted as more lines than it takes, the cut is right if and only if each entry's count is |
| LogText.CountsRightIff | apps/linux/UI/LogsPage.cs:146 | the same of one entry's count |
| LogText.LineStartAfter | apps/linux/UI/LogsPage.cs:186-190 | what follows whole lines begins at the line after them, whatever ends them, and earlier lines begin before it |
| LogText.AppendIsRenderIff | apps/linux/UI/LogsPage.cs:136-150 | appending equals re-rendering if and only if there is text already, or nothing follows an empty first entry |
| LogView.CoalescingLosesNothing | apps/linux/UI/LogsPage.cs:199-218 | in every run at most one Sync is queued, and the view is out of date only while one is |
| LogView.ViewIsRender | apps/linux/UI/LogsPage.cs:132-219 | in every run whose collections have nothing after a blank first entry and only entries counted as the lines they take, the buffer is the newline-join of what is shown, the line counts are the buffer's, and with nothing queued it is the render of VisibleEntries |
| LogView.ViewIsRenderIff | apps/linux/UI/LogsPage.cs:132-219 | for whatever collections may occur, all runs over them are full renders throughout if and only if none has something after a blank first entry and no lines are counted wrong that one of them loses in going over into another |
| LogView.RebuiltIsRenderIff | apps/linux/UI/LogsPage.cs:158-168 | a rebuild is a full render if and only if no blank first entry is followed by another |
| LogView.FollowedIsRenderIff | apps/linux/UI/LogsPage.cs:172-195 | a trim and append keeps a render a render if and only if the lines cut off are counted right and what it appends fits what it kept |
| LogView.TrimsIffOverlapping | apps/linux/UI/LogsPage.cs:172-184 | for distinct entries a trim succeeds if and only if some non-empty suffix of what is shown begins what is visible |
| LogView.ShowsWhatWasGivenLast | apps/linux/UI/LogsPage.cs:199-219 | the page shows the collection as given last: when it opens, after a theme change, and whenever no Sync is queued |
| LogView.BlankFirstEntryBreaksTheView | apps/linux/UI/LogsPage.cs:136-195 | the concrete view that loses an entry's text after a blank first entry |
| LogView.CarriageReturnBreaksTheView | apps/linux/UI/LogsPage.cs:184-192 | the concrete view that keeps the rest of an entry with a carriage return after the entry is gone |
| LogsPage.Page.Append | apps/linux/UI/LogsPage.cs:136-150 | one insertion at the end does what appending entry by entry does, to the text and both lists |
| LogsPage.Page.Rebuild | apps/linux/UI/LogsPage.cs:158-168 | the view afterwards depends on what is visible only |
| LogsPage.Page.TrimAndAppend | apps/linux/UI/LogsPage.cs:172-195 | true exactly when what is shown continues as what is visible, with the edited view; false leaves everything untouched |
| LogsPage.Page.Sync | apps/linux/UI/LogsPage.cs:202-206 | the flag is down and the view is trimmed and appended, rendering the new entries only, or rebuilt |
| LogsPage.Page.OnCollectionChanged | apps/linux/UI/LogsPage.cs:208-213 | a callback is posted unless one is waiting |
| LogsPage.Page.RunPosted | apps/linux/UI/LogsPage.cs:199-213 | a posted callback is the machine's step |
| ShadowState.HeldRequestNamesLive | crates/cli/src/daemon.rs:280-331 | after any calls served one after the other, however the engine answers them, the held request names exactly the live mode, selection, pins and rule-set hosts |
| ShadowState.ApplyIsHeld | crates/cli/src/daemon.rs:372-393 | after an accepted apply the held request has the request's profile, mode and hosts, the selection made and the pins the profile has; a refused one changes nothing |
| ShadowState.CallsChangeOnly | crates/cli/src/daemon.rs:291-331 | a selection changes the held selection only, a pin its node's pins, a mode the mode, and a failed call nothing |
| ShadowState.CallsDoAsAsked | crates/core/src/engine/selection.rs:15-98 | what the live profile has is selected or pinned and nothing else changes; what it does not have changes nothing |
| ShadowState.QuietIffProfileHasAll | crates/core/src/engine/lifecycle.rs:147-181 | an apply resets and clears nothing if and only if its profile has the selection and every pin |
| ShadowState.ReapplyIsQuietIff | crates/cli/src/daemon.rs:291-393 | after any calls, applying the held request again is reported as no change, resets and clears nothing and asks for what is live, if and only if profiles that share a revision and a node have the same nodes and ingresses |
| ShadowState.SharedRevisionMakesReapplyReset | crates/core/src/engine/lifecycle.rs:183-206 | the concrete calls after which it does reset, when two profiles share a revision |
| ShadowState.Record | crates/cli/src/commands.rs:276-298 | the loop removes exactly the cleared nodes' pins and takes over a reset selection; unchanged settings are reported as such |
| ShadowState.SavedSettingsAreAFixedPoint | crates/cli/src/commands.rs:244-301 | the settings saved after a successful apply ask for what is live, reset and clear nothing when applied again, and are saved as they are |
| OverlappingCalls.ServedAloneIsNext | crates/cli/src/daemon.rs:291-331 | the engine's half of a call and the held request's half right after it are the call |
| OverlappingCalls.InOrderNamesLive | crates/cli/src/daemon.rs:200-210 | however the tasks of several connections overlap, once no call is half done the held request names what is live, if the tasks change it in the engine's order |
| OverlappingCalls.OverlappingCallsCatchUp | crates/cli/src/daemon.rs:200-210 | the same when a change overtakes others that say nothing different from it |
| OverlappingCalls.OvertakingNamesLiveIff | crates/cli/src/daemon.rs:291-393 | when the later of two half-done calls changes the held request first, it names what is live if and only if the two say the same of everything both are about |
| OverlappingCalls.OrderMattersUnlessAgreed | crates/cli/src/daemon.rs:291-393 | two changes can be made in either order if and only if they agree |
| OverlappingCalls.AnyOrderNamesLiveIff | crates/cli/src/daemon.rs:291-393 | in every run, however calls overlap and their tasks run on, whenever none is half done the held request names what is live if and only if the order in which it was told and the engine's have the same last word on everything |
| OverlappingCalls.OvertakenSelectionNamesTheWrongNode | crates/cli/src/daemon.rs:291-297 | the concrete case: two selections at once, and the held request names the node that is not live |
| DaemonCalls.ProxyEngine.SortPins | crates/core/src/engine/lifecycle.rs:155-181 | a pin is kept exactly if the profile has it, and otherwise cleared |
| DaemonCalls.ProxyEngine.PinsAreDistinct | crates/core/src/request.rs:192-203 | the pins are refused exactly if a node is pinned twice |
| DaemonCalls.ProxyEngine.Apply | crates/core/src/engine/lifecycle.rs:136-316 | an apply that fails leaves what is live, an unchanged one too, any other makes the request live |
| DaemonCalls.ProxyEngine.SelectNode | crates/core/src/engine/selection.rs:15-49 | only a node of the live profile is selected, and a failure changes nothing |
| DaemonCalls.ProxyEngine.PinIngress | crates/core/src/engine/selection.rs:51-98 | only an ingress of the live profile is pinned, and a failure changes nothing |
| DaemonCalls.DaemonProcess.AskEngine | crates/cli/src/daemon.rs:269-331 | the engine does the call's half, and the held request is as it was until the change is made |
| DaemonCalls.DaemonProcess.Remember | crates/cli/src/daemon.rs:431-435 | the held request changes in what the call was about and in nothing else |
| DaemonCalls.DaemonProcess.ServeAlone | crates/cli/src/daemon.rs:269-331 | without another call in between, engine and held request change together |
| DaemonCalls.DaemonProcess.AskToApply | crates/cli/src/daemon.rs:372-393 | what is to be held is the request itself, hosts included, less what the engine cleared, with what it selected |
| SingleDaemon.InvRun | crates/cli/src/daemon.rs:33-232 | what every step, failure and kill of every process keeps about lock and files |
| SingleDaemon.OneDaemonWithItsOwnFiles | crates/cli/src/daemon.rs:33-191 | at most one process is past the lock, and a serving daemon's socket, secret and record are its own |
| SingleDaemon.NobodyTouchesAServingDaemon | crates/cli/src/daemon.rs:75-232 | no other process's start, stale-socket removal, cleanup or death changes a serving daemon's files |
| SingleDaemon.NewDaemonServesIff | crates/cli/src/daemon.rs:134-191 | whatever was left behind, a new daemon gets to serve if and only if the lock is free and the socket's path is free or a socket |
| SingleDaemon.StoppedLeavesNothing | crates/cli/src/daemon.rs:194-232 | a daemon that was stopped and whose system calls work is gone without its socket, secret and record, whatever other processes do meanwhile |
| SingleDaemon.StoppingTakesFourSteps | crates/cli/src/daemon.rs:221-232 | stopping removes each file that can be removed, leaves each that cannot, and frees the lock |
| SingleDaemon.StepsAreARun | crates/cli/src/daemon.rs:134-232 | one process's own steps are a run of the machine of all processes |
| SingleDaemon.RuntimeDirectory.Acquire | crates/cli/src/daemon.rs:33-65 | taking the lock is the machine's step, and a held lock refuses |
| SingleDaemon.RuntimeDirectory.Listen | crates/cli/src/daemon.rs:156-191 | every way through listen, failures between any two system calls included, is the machine's steps; Ok means all three files are its own |
| SingleDaemon.RuntimeDirectory.Cleanup | crates/cli/src/daemon.rs:221-232 | each removal that works takes its own file and each that fails leaves it, another process's record is kept, and the lock is free |
| BuildStream.StreamRoundTrip | crates/service/build_id.rs:72-80 | every stream of NUL-free names and lengths below 2^64 reads back as exactly those files, in order |
| BuildStream.LittleEndianRoundTrip | crates/service/build_id.rs:78 | a length that fits its bytes is read back from them |
| BuildStream.FrameIs | crates/service/build_id.rs:76-79 | a file is its name, a NUL, its length in eight bytes with the lowest first, and its bytes |
| BuildStream.SortSorts | crates/service/build_id.rs:67 | sorting keeps the files and orders them by name |
| BuildStream.BeforeIff | crates/service/build_id.rs:67 | names are ordered byte by byte: where they first differ the first ends or has the smaller byte |
| BuildStream.SortedIsUnique | crates/service/build_id.rs:67 | a set of files has one sorted order |
| BuildStream.SameBytesIffSameFiles | crates/service/build_id.rs:72-80 | two lists of distinctly named files hash the same bytes if and only if they are the same set of files |
| BuildInputs.WalkIsDistinct | crates/service/build_id.rs:15-37 | every file of a tree gets its own name |
| BuildInputs.WalkFindsIff | crates/service/build_id.rs:15-37 | a walk finds exactly the files there are, each under its names joined by slashes |
| BuildInputs.InputsAre | crates/service/build_id.rs:45-66 | the inputs are exactly Cargo.toml and Cargo.lock if present, the files of src, and of engine-host and ppvpn-core with a manifest, that and their sources |
| BuildInputs.SiblingsAreApart | crates/service/build_id.rs:30-37 | two entries of one directory have no path in common |
| BuildInputs.SameTreeSameFiles | crates/service/build_id.rs:15-29 | listing every directory in another order finds the same files under the same names |
| BuildInputs.InputsAreDistinct | crates/service/build_id.rs:39-66 | the manifest, the lock, the sources and the prefixed names of the linked crates are all different |
| BuildInputs.SameIdIffSameFiles | crates/service/build_id.rs:39-80 | two source trees give the id the same bytes if and only if they have the same files under the same names |
| BuildInputs.ListingOrderDoesNotMatter | crates/service/build_id.rs:15-80 | the listing order of directories does not show in the id |
| BuildId.PrefixedWalk | crates/service/build_id.rs:57-64 | prefixing a crate's own names gives the names below the crate's prefix |
| BuildId.WalkDirectory | crates/service/build_id.rs:15-29 | pushes exactly the files below the directory, in listing order |
| BuildId.ServiceBuildInputs | crates/service/build_id.rs:39-69 | fails exactly when a source directory cannot be listed; otherwise the sorted files of the whole tree |
| BuildId.ServiceBuildStream | crates/service/build_id.rs:72-80 | what is fed to the hasher is the stream of the sorted inputs |
| MenuLayout.LabelRoundTrip | apps/linux/Tray/StatusNotifierItem.cs:418-419 | a label's doubled underscores read back as the caption |
| MenuLayout.PropertiesRoundTrip | apps/linux/Tray/StatusNotifierItem.cs:396-438 | caption, enabled, toggle and checked of an entry read back from its properties; separators and the root are told apart |
| MenuLayout.FlatteningIsALayout | apps/linux/Tray/StatusNotifierItem.cs:564-585 | every child id is present and greater than its parent's |
| MenuLayout.ReadingBackGivesTheMenu | apps/linux/Tray/StatusNotifierItem.cs:379-394 | written from id 0, the flattened menu is the menu: whole at a negative depth, cut at d levels for d >= 0 |
| MenuLayout.DeepEnoughIsWhole | apps/linux/Tray/StatusNotifierItem.cs:379-394 | a depth the menu does not reach is as good as a negative one |
| MenuLayout.IdsArePreorder | apps/linux/Tray/StatusNotifierItem.cs:573-583 | written whole, the ids come as 0, 1, 2, ...: preorder, each once |
| MenuLayout.Builder.Add | apps/linux/Tray/StatusNotifierItem.cs:577-582 | numbers a list and everything below it from the next free id, and leaves earlier nodes alone |
| MenuLayout.Build | apps/linux/Tray/StatusNotifierItem.cs:573-585 | the nodes are a flattening of the menu with the ids 0..n |
| MenuLayout.WriteNode | apps/linux/Tray/StatusNotifierItem.cs:379-394 | writes the node and its children to the depth, and ends for every depth |
| SteppedClock.NextDueIsEarliest | apps/dotnet-shared/PPVPN.App.Core.Tests/TestHost.cs:276-277 | the timer chosen is due, none is due earlier and none listed before it is due as early; none is chosen exactly when none is due |
| SteppedClock.TiesFireInListOrder | apps/dotnet-shared/PPVPN.App.Core.Tests/TestHost.cs:270-282 | timers due at one instant fire in the order in which they are listed |
| SteppedClock.AdvancesOneWay | apps/dotnet-shared/PPVPN.App.Core.Tests/TestHost.cs:270-282 | an advance has one outcome, whatever the callbacks do |
| SteppedClock.AdvancingIsAdditive | apps/dotnet-shared/PPVPN.App.Core.Tests/TestHost.cs:270-282 | advancing twice is advancing once to the later instant: same firings, same order, same readings, same state, for any callbacks |
| SteppedClock.AdvancingSplits | apps/dotnet-shared/PPVPN.App.Core.Tests/TestHost.cs:270-282 | an advance that ends can be made in two |
| SteppedClock.AdvancingKeepsTimeOrder | apps/dotnet-shared/PPVPN.App.Core.Tests/TestHost.cs:270-303 | timers fire in time order with the clock at their due time, the clock never goes back, nothing pending is late and nothing is left due |
| SteppedClock.Advanced | apps/dotnet-shared/PPVPN.App.Core.Tests/TestHost.cs:270-303 | with callbacks that register nothing, advancing ends after exactly as many firings as were due |
| SteppedClock.EachFiresAsOftenAsDue | apps/dotnet-shared/PPVPN.App.Core.Tests/TestHost.cs:270-303 | a one-shot timer fires once, a periodic one (end - due) / period + 1 times, one not due never |
| SteppedTimes.FiresAsOftenAsDue | apps/dotnet-shared/PPVPN.App.Core.Tests/TestHost.cs:270-303 | the same of a timer that the callbacks leave alone, whatever they create, change and dispose |
| SteppedTimes.CreatedFiresAsAsked | apps/dotnet-shared/PPVPN.App.Core.Tests/TestHost.cs:262-268 | a new timer does not fire before its wait is over, and then once, or once more every period |
| SteppedTimes.AdvancedIsAdditive | apps/dotnet-shared/PPVPN.App.Core.Tests/TestHost.cs:270-282 | the same additivity of what the method Advance computes |
| SteppedTimes.DisposedNeverFires | apps/dotnet-shared/PPVPN.App.Core.Tests/TestHost.cs:305-312 | a disposed timer never fires again, whatever the callbacks do |
| SteppedTimes.ChangedAgainFiresOnce | apps/dotnet-shared/PPVPN.App.Core.Tests/TestHost.cs:289-303 | a debounce, with any callbacks that leave the timer alone: changed again before it was due, a one-shot timer fires once, for the second wait only |
| SteppedTimes.SteppedTimer.Change | apps/dotnet-shared/PPVPN.App.Core.Tests/TestHost.cs:289-297 | only this timer's entry of the clock changes, to the new wait from now |
| SteppedTimes.SteppedTimer.Fire | apps/dotnet-shared/PPVPN.App.Core.Tests/TestHost.cs:299-303 | the timer is rearmed from its due time, or not at all, and then its callback changes the clock, whatever timers it creates, changes and disposes |
| SteppedTimes.SteppedTimer.Dispose | apps/dotnet-shared/PPVPN.App.Core.Tests/TestHost.cs:305-312 | the timer leaves the clock, which is otherwise as it was |
| SteppedTimes.SteppedTime.CreateTimer | apps/dotnet-shared/PPVPN.App.Core.Tests/TestHost.cs:262-268 | a new timer is listed last and due as asked |
| SteppedTimes.SteppedTime.FindNext | apps/dotnet-shared/PPVPN.App.Core.Tests/TestHost.cs:276-277 | the scan finds the scheduler's next timer |
| SteppedTimes.SteppedTime.RunActions | apps/dotnet-shared/PPVPN.App.Core.Tests/TestHost.cs:299-312 | what a callback does to the timer objects is what it does to the clock's value |
| SteppedTimes.SteppedTime.Advance | apps/dotnet-shared/PPVPN.App.Core.Tests/TestHost.cs:270-282 | with any callbacks, whenever the advance ends the loop ends, in the scheduler's state |
| SteppedTimes.QuietScriptEnds | apps/dotnet-shared/PPVPN.App.Core.Tests/TestHost.cs:270-303 | where callbacks register nothing it always ends, after all that was due |
| SteppedTimes.ScriptsAreWellBehaved | apps/dotnet-shared/PPVPN.App.Core.Tests/TestHost.cs:262-312 | callbacks that create, change and dispose timers, asking only for times to come, meet all that the order of time asks of them |
| Durations.AcceptsExactlyPrintedSegments | crates/cli/src/cli.rs:240-267 | a text is accepted if and only if, spaces around it aside, it is a printed non-empty list of number-unit segments, and it means their sum |
| Durations.ParsesTogetherIff | crates/cli/src/cli.rs:240-267 | two accepted texts side by side parse as their sum if and only if no space ends up between them |
| Durations.PrintedReadsBack | crates/cli/src/cli.rs:246-265 | a printed list of segments reads back as that list |
| Durations.WhatReadsIsPrinted | crates/cli/src/cli.rs:246-265 | whatever reads is the printing of what was read |
| Durations.NaturalReadsBack | crates/cli/src/cli.rs:247-250 | a printed number's digits are worth the number |
| Durations.DigitsAreWorth | crates/cli/src/cli.rs:247-250 | zeros before the digits do not matter |
| Durations.PointDivides | crates/cli/src/cli.rs:247-250 | a decimal point divides by ten for each digit after it |
| Durations.UnitsRelate | crates/cli/src/cli.rs:254-260 | an hour is sixty minutes, a minute sixty seconds, a second a thousand milliseconds |
| Durations.UnitsAreWritten | crates/cli/src/cli.rs:254-260 | the units are written ms, s, m and h |
| Durations.SpacesAroundDoNotMatter | crates/cli/src/cli.rs:243 | blanks, tabs and line ends around a text change nothing |
| Durations.ParseDuration | crates/cli/src/cli.rs:240-267 | the loop ends, because every round consumes text, with the parser's answer |

## Left out

* HTTP, TLS, JSON, base64 and the access token's audience and expiry checks: a backend answer is any value, and whether its access token is refused is part of it.
* The credential blob's JSON: any coding that reads back what it wrote; bytes it cannot read are corrupt.
* Operating-system keychains, flock, /proc and signals: a store whose failed calls change nothing, a lock released with its process, a map of files, and kills at any step.
* Generation wrap-around at 2^64: generations are unbounded.
* Which generation a crashed process's tasks expect: a crash starts again from generation 0, as a new process does.
* `Auth` holds the generation only; the pending authorization, which none of its credential methods reads, is in LoginFlow and Polling.
* Polling.Logins.Start: whether a verification URL is trusted is a boolean of the answer; the URL check itself is not modelled.
* Timer slack: sleeping takes at least as long as asked, and an answer may take any time.
* The text view's widgets, scrolling and colours, and the markup parser: an entry is its markup and the text it is shown as, whatever its neighbours are, and lines are read off the buffer's text as a whole. The separator test reads the length of the shown text where the code reads the markup's: an entry's markup is empty exactly when its text is.
* More than one process on one credential store: the theorems are about one process at a time, which is the only writer, while CLI runs at the same time have locks and caches of their own.
* Engine internals: decoding a profile, translating it, rule sets, the runtime and its events are abstract; a failed call changes nothing, and what the engine does for one call is one step.
* ShadowState.SavedSettingsAreAFixedPoint: assumes the settings loaded after the apply are those the request was made of; nobody else edits the file in between.
* `stop_daemon` and the control client: waiting for a process record to disappear, and a signal, which is a kill or a request to stop here.
* SHA-256 and its hex form: the byte stream fed to it is what is modelled.
* Lossy conversion of file names that are not UTF-8, and links that leave or loop in a source tree: names are bytes, and a listing is a finite tree.
* The D-Bus message's byte layout, 32-bit ids and depths, revisions, events and group properties of the tray menu.
* SteppedTimes.SteppedTime.Advance: promises nothing of an advance that never ends, as callbacks that keep asking for the present make it.
* Changing a timer after it was disposed: it is on no clock any more, so nothing shows.
* Rounding of f64 and the overflow and nanosecond limits of Duration: numbers are exact decimals.
* Perf scripts, installers, push agents, settings pages, other view models and the packaging: they would add only easy members.
