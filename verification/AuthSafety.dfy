/** What every run of the credential protocol keeps. */
module AuthSafety {
  import opened Wrappers
  import opened Errors
  import opened Credentials
  import opened AuthProtocol

  // ---- The invariant of all runs --------------------------------------

  /** The credential is still saved somewhere, or giving it up was already tried. */
  predicate Held(saved: Slots, a: Activation) {
    || saved.pendingActivation == Some(a.pending)
    || (a.issued.Some? && saved.active == a.issued)
    || a.revoked
  }

  /** Why an activation cleans up: it was cancelled, or the access token was refused. */
  predicate CleanupCause(error: AuthError) {
    error.Cancelled? || error.Untrusted?
  }

  predicate ActivationInv(saved: Slots, a: Activation, step: ActivateStep) {
    var pendingSaved := saved.pendingActivation == Some(a.pending);
    var issuedSaved := a.issued.Some? && saved.active == a.issued;
    match step
    case SavePending => !a.sent && a.issued.None? && !a.revoked
    case CheckBeforeRequest | ReadPrevious => !a.sent && a.issued.None? && !a.revoked && pendingSaved
    case AwaitTokens => a.sent && a.issued.None? && !a.revoked && pendingSaved
    case CheckAfterTokens(_) | ValidateAccess(_) | SaveIssued => a.issued.Some? && pendingSaved
    case CheckAfterSave | DropPending => issuedSaved && pendingSaved
    case FetchAccount | CheckAtEnd => issuedSaved && saved.pendingActivation.None?
    case Revoke(error) => CleanupCause(error) && a.issued.Some? && Held(saved, a)
    case DropIssued(error) => CleanupCause(error) && a.issued.Some? && a.revoked
    case DropCancelled(error) =>
      CleanupCause(error) && (a.sent ==> a.revoked) && (a.issued.Some? ==> a.revoked && saved.active != a.issued)
  }

  predicate RefreshInv(saved: Slots, step: RefreshStep) {
    match step
    case ReadActive => true
    case ReadPrepared(current) => saved.active == Some(current)
    case Prepare(current) => saved.active == Some(current) && saved.pendingRefresh.None?
    case SavePrepared(current, _) => saved.active == Some(current) && saved.pendingRefresh.None?
    case Commit(prepared) => saved.pendingRefresh == Some(prepared)
    case CheckRotated(prepared, _) => saved.pendingRefresh == Some(prepared)
    case SaveRotated(prepared, _) => saved.pendingRefresh == Some(prepared)
    case DropPrepared(prepared, rotated) => saved.pendingRefresh == Some(prepared) && saved.active == Some(rotated)
  }

  predicate EndedActivationInv(saved: Slots, a: Activation, outcome: Outcome) {
    && (a.sent ==> Held(saved, a))
    && (outcome == Success ==> a.issued.Some? && saved.active == a.issued && saved.pendingActivation.None?)
    && (outcome == Failure(Cancelled) ==>
          && saved.pendingActivation != Some(a.pending)
          && (a.issued.Some? ==> a.revoked && saved.active != a.issued))
  }

  predicate Inv(s: State) {
    match s.pc
    case Activating(a, step) => ActivationInv(s.saved, a, step)
    case Refreshing(_, step) => RefreshInv(s.saved, step)
    case Restoring(ComparePending(pending)) => s.saved.pendingActivation == Some(pending)
    case Restoring(DropSettled) => s.saved.pendingActivation.Some? && s.saved.active == s.saved.pendingActivation
    case Clearing(error, after) =>
      && error.IsTerminal()
      && (error.NoCredential? ==> s.saved.active.None?)
      && (after.Some? && after.value.sent ==> Held(s.saved, after.value))
    case Done(outcome, of) => of.Some? ==> EndedActivationInv(s.saved, of.value, outcome)
    case Down(interrupted) => interrupted.Some? && interrupted.value.sent ==> Held(s.saved, interrupted.value)
    case _ => true
  }

  lemma InvActivate(s: State, a: Activation, step: ActivateStep, env: Env)
    requires ActivationInv(s.saved, a, step)
    ensures Inv(NextActivate(s, a, step, env))
  {
    match step
    case SavePending | CheckBeforeRequest | ReadPrevious | AwaitTokens =>
    case CheckAfterTokens(_) | ValidateAccess(_) | SaveIssued =>
    case CheckAfterSave | DropPending | FetchAccount | CheckAtEnd =>
    case Revoke(_) | DropIssued(_) | DropCancelled(_) =>
  }

  lemma InvRefresh(s: State, orClear: bool, step: RefreshStep, env: Env)
    requires RefreshInv(s.saved, step)
    ensures Inv(NextRefresh(s, orClear, step, env))
  {
  }

  lemma InvRestore(s: State, step: RestoreStep, env: Env)
    requires Inv(s) && s.pc == Restoring(step)
    ensures Inv(NextRestore(s, step, env))
  {
  }

  lemma InvStep(s: State, input: Input)
    requires Inv(s)
    ensures Inv(Next(s, input))
  {
    if input.Work? {
      match s.pc
      case Activating(a, step) => InvActivate(s, a, step, input.env);
      case Refreshing(orClear, step) => InvRefresh(s, orClear, step, input.env);
      case Restoring(step) => InvRestore(s, step, input.env);
      case _ =>
    }
  }

  lemma {:induction false} InvRun(s: State, inputs: seq<Input>)
    requires Inv(s)
    ensures Inv(Run(s, inputs))
  {
    if inputs != [] {
      InvRun(s, inputs[..|inputs| - 1]);
      InvStep(Run(s, inputs[..|inputs| - 1]), inputs[|inputs| - 1]);
    }
  }

  // ---- Activation -----------------------------------------------------

  /**
    From the moment the activate request is sent, in every interleaving, at every crash
    point and after every failed store call, the login is saved as pending or as active,
    unless the issued credential's revocation was already attempted.
   */
  lemma {:induction false} ActivationLosesNothing(s: State, inputs: seq<Input>)
    requires s.pc.Idle?
    ensures var t := Run(s, inputs);
            var current := CurrentActivation(t.pc);
            current.Some? && current.value.sent ==>
              Held(t.saved, current.value) && RevocationAsked(t)
  {
    InvRun(s, inputs);
    RevokedWasAsked(s, inputs);
    var t := Run(s, inputs);
    if t.pc.Activating? && t.pc.activation.sent {
      SentIsHeld(t.saved, t.pc.activation, t.pc.activate);
    }
  }

  lemma SentIsHeld(saved: Slots, a: Activation, step: ActivateStep)
    requires ActivationInv(saved, a, step) && a.sent
    ensures Held(saved, a)
  {
  }

  /** What each way out of `activate` leaves saved. */
  lemma {:induction false} ActivationOutcome(s: State, inputs: seq<Input>)
    requires s.pc.Idle?
    ensures var t := Run(s, inputs);
            t.pc.Done? && t.pc.of.Some? ==>
              var a := t.pc.of.value;
              && (t.pc.outcome == Failure(Cancelled) ==>
                    && t.saved.pendingActivation != Some(a.pending)
                    && (a.issued.Some? ==> a.revoked && ToRevoke(a.issued.value) in t.asked && t.saved.active != a.issued))
              && (t.pc.outcome == Success ==>
                    a.issued.Some? && t.saved.active == a.issued && t.saved.pendingActivation.None?)
  {
    InvRun(s, inputs);
    RevokedWasAsked(s, inputs);
  }

  /** A revocation is recorded only by trying one, and nothing issued is dropped before that. */
  lemma {:induction false} RevokedBeforeDropped(s: State, inputs: seq<Input>, input: Input)
    requires s.pc.Idle?
    ensures var t := Run(s, inputs);
            var u := Next(t, input);
            t.pc.Activating? && u.pc.Activating? ==>
              && (u.pc.activation.revoked != t.pc.activation.revoked ==> t.pc.activate.Revoke?)
              && (t.saved.active != u.saved.active && u.saved.active != u.pc.activation.issued ==>
                    && t.pc.activation.revoked && t.saved.active == t.pc.activation.issued
                    && ToRevoke(t.saved.active.value) in t.asked)
  {
    InvRun(s, inputs);
    RevokedWasAsked(s, inputs);
  }

  /** The current activation's revocation, if it is marked as tried, was asked of the backend. */
  predicate RevocationAsked(s: State) {
    var current := CurrentActivation(s.pc);
    current.Some? && current.value.revoked ==>
      current.value.issued.Some? && ToRevoke(current.value.issued.value) in s.asked
  }

  lemma RevocationAskedStep(s: State, input: Input)
    requires Inv(s) && RevocationAsked(s)
    ensures RevocationAsked(Next(s, input))
  {
  }

  /** In every run, an issued credential marked as revoked was sent to be revoked. */
  lemma {:induction false} RevokedWasAsked(s: State, inputs: seq<Input>)
    requires s.pc.Idle?
    ensures RevocationAsked(Run(s, inputs))
  {
    if inputs != [] {
      RevokedWasAsked(s, inputs[..|inputs| - 1]);
      InvRun(s, inputs[..|inputs| - 1]);
      RevocationAskedStep(Run(s, inputs[..|inputs| - 1]), inputs[|inputs| - 1]);
    }
  }

  /** `activate` succeeds only while the login it was called for is the current one. */
  lemma {:induction false} ActivationSucceedsForTheCurrentLogin(s: State, inputs: seq<Input>, input: Input)
    requires s.pc.Idle?
    ensures var t := Run(s, inputs);
            var u := Next(t, input);
            t.pc.Activating? && u.pc.Done? && u.pc.outcome == Success ==>
              && u.pc.of == Some(t.pc.activation)
              && (t.pc.activation.expected.Some? ==> t.pc.activation.expected.value == u.generation)
  {
    InvRun(s, inputs);
    var t := Run(s, inputs);
    if t.pc.Activating? && input.Work? {
      match t.pc.activate
      case DropCancelled(cause) =>
      case _ =>
    }
  }

  // ---- What can remove the saved login ---------------------------------

  /** Exactly 401, and 403 unless it names a disabled team, is terminal; nothing worth retrying is. */
  lemma TerminalIsRejection(e: ApiError)
    ensures e.IsTerminalCredential() <==> RejectsTheLogin(e)
    ensures RejectsTheLogin(e) ==> !e.IsTransient() && !e.IsRateLimited() && !e.Decode?
  {
  }

  /** The step about to be taken may take the active credential away. */
  predicate RemovesActive(s: State, input: Input) {
    input.Work? &&
    match s.pc
    case LoggingOut(step) => step.ClearAll?
    case Clearing(Api(e), _) => RejectsTheLogin(e)
    case Activating(a, DropIssued(_)) => a.revoked && a.issued.Some? && s.saved.active == a.issued
    case _ => false
  }

  lemma ActiveLossStep(s: State, input: Input)
    requires Inv(s)
    requires s.saved.active.Some? && Next(s, input).saved.active.None?
    ensures RemovesActive(s, input)
  {
    if s.pc.Clearing? && s.pc.error.Api? {
      TerminalIsRejection(s.pc.error.api);
    }
  }

  /** The backend has answered a step with `e`, and the credentials have been about to be cleared ever since. */
  ghost predicate JustAnswered(s: State, inputs: seq<Input>, e: ApiError) {
    inputs != [] &&
    var before := Run(s, inputs[..|inputs| - 1]);
    AnswerAt(before, inputs[|inputs| - 1]) == Some(e)
    || (before.pc.Clearing? && JustAnswered(s, inputs[..|inputs| - 1], e))
  }

  lemma ClearingBegins(before: State, input: Input, e: ApiError)
    requires Inv(before) && Next(before, input).pc.Clearing? && Next(before, input).pc.error == Api(e)
    ensures (before.pc.Clearing? && before.pc.error == Api(e)) || AnswerAt(before, input) == Some(e)
  {
  }

  /** Credentials are about to be cleared for a backend error only because the backend has just answered this operation with it. */
  lemma {:induction false} ClearingWasAnswered(s: State, inputs: seq<Input>, e: ApiError)
    requires s.pc.Idle?
    requires Run(s, inputs).pc.Clearing? && Run(s, inputs).pc.error == Api(e)
    ensures JustAnswered(s, inputs, e)
  {
    var last := |inputs| - 1;
    var before := Run(s, inputs[..last]);
    InvRun(s, inputs[..last]);
    ClearingBegins(before, inputs[last], e);
    if before.pc.Clearing? && before.pc.error == Api(e) {
      ClearingWasAnswered(s, inputs[..last], e);
    }
  }

  /** The step `k` of a run may take the active credential away, and a rejection that makes it has just been answered. */
  ghost predicate LosesActiveAt(s: State, inputs: seq<Input>, k: nat)
    requires k < |inputs|
  {
    var t := Run(s, inputs[..k]);
    && RemovesActive(t, inputs[k])
    && (t.pc.Clearing? ==> t.pc.error.Api? && JustAnswered(s, inputs[..k], t.pc.error.api))
  }

  lemma RunOfOneMore(s: State, inputs: seq<Input>, k: nat)
    requires k < |inputs|
    ensures Run(s, inputs[..k + 1]) == Next(Run(s, inputs[..k]), inputs[k])
  {
    assert inputs[..k + 1][..k] == inputs[..k];
  }

  /**
    Wherever in a run a saved active credential disappears, it is by a logout, by a clear
    for which the backend has just rejected the login, or by the cleanup of exactly the
    credential that activation was issued, after trying to revoke it.
   */
  lemma {:induction false} ActiveIsLostOnlyBy(s: State, inputs: seq<Input>, k: nat)
    requires s.pc.Idle? && k < |inputs|
    requires Run(s, inputs[..k]).saved.active.Some? && Run(s, inputs[..k + 1]).saved.active.None?
    ensures LosesActiveAt(s, inputs, k)
  {
    var before := Run(s, inputs[..k]);
    RunOfOneMore(s, inputs, k);
    InvRun(s, inputs[..k]);
    ActiveLossStep(before, inputs[k]);
    if before.pc.Clearing? {
      ClearingWasAnswered(s, inputs[..k], before.pc.error.api);
    }
  }

  // ---- What can remove a login waiting to be activated -------------------

  /** The step about to be taken may take `pending` out of its slot. */
  predicate RemovesPending(s: State, input: Input, pending: Token) {
    input.Work? &&
    match s.pc
    case Activating(a, SavePending) => a.pending != pending
    case Activating(a, DropPending) => a.pending == pending && a.issued.Some? && s.saved.active == a.issued
    case Activating(a, DropCancelled(error)) =>
      a.pending == pending && CleanupCause(error) && (a.sent ==> a.issued.Some? && ToRevoke(a.issued.value) in s.asked)
    case Restoring(DropSettled) => s.saved.active == Some(pending)
    case LoggingOut(ClearAll) => true
    case Clearing(Api(e), _) => RejectsTheLogin(e)
    case Clearing(NoCredential, _) => s.saved.active.None?
    case _ => false
  }

  lemma PendingLossStep(s: State, input: Input, pending: Token)
    requires Inv(s) && RevocationAsked(s)
    requires s.saved.pendingActivation == Some(pending) && Next(s, input).saved.pendingActivation != Some(pending)
    ensures RemovesPending(s, input, pending)
  {
    if s.pc.Clearing? && s.pc.error.Api? {
      TerminalIsRejection(s.pc.error.api);
    }
  }

  ghost predicate LosesPendingAt(s: State, inputs: seq<Input>, k: nat, pending: Token)
    requires k < |inputs|
  {
    var t := Run(s, inputs[..k]);
    && RemovesPending(t, inputs[k], pending)
    && (t.pc.Clearing? && t.pc.error.Api? ==> JustAnswered(s, inputs[..k], t.pc.error.api))
  }

  /**
    Wherever in a run a login waiting to be activated leaves its slot, it is because a later
    activation takes the slot, the credential issued for it is saved as active, it was
    itself the active one, a cancelled or refused activation is cleaned up after what was
    issued was sent to be revoked, of a logout, or of a clear for which the backend has just
    rejected the login or no active credential was left.
   */
  lemma {:induction false} PendingIsLostOnlyBy(s: State, inputs: seq<Input>, k: nat, pending: Token)
    requires s.pc.Idle? && k < |inputs|
    requires Run(s, inputs[..k]).saved.pendingActivation == Some(pending)
    requires Run(s, inputs[..k + 1]).saved.pendingActivation != Some(pending)
    ensures LosesPendingAt(s, inputs, k, pending)
  {
    var before := Run(s, inputs[..k]);
    RunOfOneMore(s, inputs, k);
    InvRun(s, inputs[..k]);
    RevokedWasAsked(s, inputs[..k]);
    PendingLossStep(before, inputs[k], pending);
    if before.pc.Clearing? && before.pc.error.Api? {
      ClearingWasAnswered(s, inputs[..k], before.pc.error.api);
    }
  }
}
