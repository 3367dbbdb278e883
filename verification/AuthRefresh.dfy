/** The prepare/commit refresh: write-ahead, resumable, and what an activation does to it. */
module AuthRefresh {
  import opened Wrappers
  import opened Errors
  import opened Credentials
  import opened AuthProtocol
  import opened AuthSafety

  /** A commit is sent only for the credential already saved as prepared; this needs no assumption about the run. */
  lemma {:induction false} CommitIsWriteAhead(s: State, inputs: seq<Input>)
    requires s.pc.Idle?
    ensures var t := Run(s, inputs);
            t.pc.Refreshing? && t.pc.refresh.Commit? ==> t.saved.pendingRefresh == Some(t.pc.refresh.prepared)
  {
    InvRun(s, inputs);
  }

  // ---- Where a saved prepared credential comes from --------------------

  /** The saved prepared credential was prepared from the saved active one, or its commit issued it. */
  predicate Provenance(s: State) {
    s.saved.pendingRefresh.Some? ==>
      && s.saved.active.Some?
      && var link := (s.saved.pendingRefresh.value, s.saved.active.value);
         link in s.ledger.preparedFrom || link in s.ledger.committed
  }

  predicate NoActivation(inputs: seq<Input>) {
    forall i :: 0 <= i < |inputs| && inputs[i].Begin? ==> !inputs[i].op.Activate?
  }

  predicate ProvenanceInv(s: State) {
    && Provenance(s)
    && s.saved.pendingActivation.None?
    && match s.pc
       case Activating(_, _) => false
       case Restoring(step) => step.FindPending? || step.FindActive?
       case Refreshing(_, step) =>
         && RefreshInv(s.saved, step)
         && (match step
             case SavePrepared(current, prepared) => (prepared, current) in s.ledger.preparedFrom
             case CheckRotated(prepared, tokens) => (prepared, tokens.refresh) in s.ledger.committed
             case SaveRotated(prepared, rotated) => (prepared, rotated) in s.ledger.committed
             case _ => true)
       case _ => true
  }

  lemma ProvenanceStep(s: State, input: Input)
    requires ProvenanceInv(s)
    requires input.Begin? ==> !input.op.Activate?
    ensures ProvenanceInv(Next(s, input))
  {
  }

  lemma {:induction false} ProvenanceRun(s: State, inputs: seq<Input>)
    requires ProvenanceInv(s) && NoActivation(inputs)
    ensures ProvenanceInv(Run(s, inputs))
  {
    if inputs != [] {
      ProvenanceRun(s, inputs[..|inputs| - 1]);
      ProvenanceStep(Run(s, inputs[..|inputs| - 1]), inputs[|inputs| - 1]);
    }
  }

  /** In every run of refresh, refresh_or_clear, logout and restore without a pending activation. */
  lemma {:induction false} PreparedBelongsToActive(s: State, inputs: seq<Input>)
    requires s.pc.Idle? && s.saved.pendingActivation.None? && Provenance(s) && NoActivation(inputs)
    ensures Provenance(Run(s, inputs))
  {
    ProvenanceRun(s, inputs);
  }

  // ---- An activation in between ----------------------------------------

  predicate Uninterrupted(inputs: seq<Input>) {
    forall i :: 0 <= i < |inputs| ==> inputs[i].Work? || inputs[i].Bump?
  }

  /** An activation begun in `s` has come to `t`: it left what is prepared alone, and the active credential is the old one, the issued one or none. */
  predicate LeftPreparedAlone(s: State, t: State) {
    && t.saved.pendingRefresh == s.saved.pendingRefresh && t.ledger == s.ledger
    && Inv(t) && ((t.pc.Activating? && !t.pc.activation.clearOnTerminal) || (t.pc.Done? && t.pc.of.Some?))
    && (t.saved.active == s.saved.active || t.saved.active.None? || t.saved.active == CurrentActivation(t.pc).value.issued)
  }

  lemma PreparedAloneStep(s: State, t: State, input: Input)
    requires LeftPreparedAlone(s, t) && (input.Work? || input.Bump?)
    ensures LeftPreparedAlone(s, Next(t, input))
  {
    InvStep(t, input);
  }

  lemma {:induction false} ActivationLeavesPreparedAlone(s: State, pending: Token, expected: Option<nat>, rest: seq<Input>)
    requires s.pc.IsReady() && Uninterrupted(rest)
    ensures LeftPreparedAlone(s, Run(Next(s, Begin(Activate(pending, expected))), rest))
  {
    if rest != [] {
      ActivationLeavesPreparedAlone(s, pending, expected, rest[..|rest| - 1]);
      PreparedAloneStep(s, Run(Next(s, Begin(Activate(pending, expected))), rest[..|rest| - 1]), rest[|rest| - 1]);
    }
  }

  /** The backend has not handed this credential out before. */
  ghost predicate Fresh(s: State, issued: Option<Token>) {
    forall link :: link in s.ledger.preparedFrom || link in s.ledger.committed ==> Some(link.1) != issued
  }

  /**
    A completed activation that was issued a fresh credential keeps the provenance of the
    saved prepared credential if and only if there was none when it was called.
   */
  lemma ActivationKeepsProvenanceIffNonePrepared(s: State, pending: Token, expected: Option<nat>, rest: seq<Input>)
    requires s.pc.IsReady() && Uninterrupted(rest)
    requires var t := Run(Next(s, Begin(Activate(pending, expected))), rest);
             && t.pc.Done? && t.pc.outcome == Success && t.pc.of.Some? && Fresh(s, t.pc.of.value.issued)
    ensures Provenance(Run(Next(s, Begin(Activate(pending, expected))), rest)) <==> s.saved.pendingRefresh.None?
  {
    ActivationLeavesPreparedAlone(s, pending, expected, rest);
    var t := Run(Next(s, Begin(Activate(pending, expected))), rest);
    if t.saved.pendingRefresh.Some? {
      var link := (t.saved.pendingRefresh.value, t.saved.active.value);
      assert Some(link.1) == t.pc.of.value.issued;
    }
  }

  /**
    At any point of an activation, ended or not: the provenance of the saved prepared
    credential is lost exactly when one was prepared and the active credential is no
    longer the one it was called with.
   */
  lemma {:induction false} ActivationKeepsProvenanceIff(s: State, pending: Token, expected: Option<nat>, rest: seq<Input>)
    requires s.pc.IsReady() && Uninterrupted(rest) && Provenance(s)
    requires var t := Run(Next(s, Begin(Activate(pending, expected))), rest);
             CurrentActivation(t.pc).Some? ==> Fresh(s, CurrentActivation(t.pc).value.issued)
    ensures var t := Run(Next(s, Begin(Activate(pending, expected))), rest);
            Provenance(t) <==> s.saved.pendingRefresh.None? || t.saved.active == s.saved.active
  {
    ActivationLeavesPreparedAlone(s, pending, expected, rest);
    var t := Run(Next(s, Begin(Activate(pending, expected))), rest);
    if t.saved.pendingRefresh.Some? && t.saved.active.Some? {
      var link := (t.saved.pendingRefresh.value, t.saved.active.value);
      assert t.saved.active == s.saved.active || Some(link.1) == CurrentActivation(t.pc).value.issued;
    }
  }

  /** A quiet activation: three steps to the request. */
  lemma QuietRequest(begun: State, a: Activation, issued: Token)
    requires begun.pc == Activating(a, SavePending) && a == Activation(a.pending, None, false, false, None, false)
    requires |a.pending| <= MAX_REFRESH_TOKEN_LEN
    ensures var t := After(begun, Quiet(issued), 3);
            && t.saved == begun.saved.(pendingActivation := Some(a.pending))
            && t.pc == Activating(a.(sent := true), AwaitTokens)
  {
    var q := Quiet(issued);
    assert After(begun, q, 1) == Next(begun, q);
    assert After(begun, q, 1).pc.activate == CheckBeforeRequest;
    assert After(begun, q, 2).pc.activate == ReadPrevious;
  }

  /** Three more to having tokens worth saving. */
  lemma QuietAnswer(begun: State, a: Activation, issued: Token)
    requires After(begun, Quiet(issued), 3).pc == Activating(a, AwaitTokens) && a.expected.None?
    ensures var t := After(begun, Quiet(issued), 6);
            && t.saved == After(begun, Quiet(issued), 3).saved
            && t.pc == Activating(a.(issued := Some(issued)), SaveIssued)
  {
    var q := Quiet(issued);
    assert After(begun, q, 4).pc.activate == CheckAfterTokens(None);
    assert After(begun, q, 5).pc.activate == ValidateAccess(None);
  }

  /** And five to the end. */
  lemma QuietSettling(begun: State, a: Activation, issued: Token)
    requires After(begun, Quiet(issued), 6).pc == Activating(a, SaveIssued)
    requires a.expected.None? && a.issued == Some(issued) && |issued| <= MAX_REFRESH_TOKEN_LEN
    ensures var t := After(begun, Quiet(issued), 11);
            && t.pc == Done(Success, Some(a))
            && t.saved == After(begun, Quiet(issued), 6).saved.(active := Some(issued), pendingActivation := None)
  {
    var q := Quiet(issued);
    assert After(begun, q, 7).pc.activate == CheckAfterSave;
    assert After(begun, q, 8).pc.activate == DropPending;
    assert After(begun, q, 9).pc.activate == FetchAccount;
    assert After(begun, q, 10).pc.activate == CheckAtEnd;
  }

  /** A quiet activation takes eleven steps, and the issued credential is the saved login. */
  lemma QuietActivation(s: State, pending: Token, issued: Token)
    requires s.pc.IsReady() && |pending| <= MAX_REFRESH_TOKEN_LEN && |issued| <= MAX_REFRESH_TOKEN_LEN
    ensures var t := Run(Next(s, Begin(Activate(pending, None))), seq(11, _ => Quiet(issued)));
            && t.pc.Done? && t.pc.outcome == Success
            && t.saved == s.saved.(active := Some(issued), pendingActivation := None)
  {
    var begun := Next(s, Begin(Activate(pending, None)));
    var a := Activation(pending, None, false, false, None, false);
    RunOfRepeated(begun, Quiet(issued), 11);
    QuietRequest(begun, a, issued);
    QuietAnswer(begun, a.(sent := true), issued);
    QuietSettling(begun, a.(sent := true, issued := Some(issued)), issued);
  }

  /** A quiet refresh that finds a prepared credential commits it, whoever it was prepared for. */
  lemma QuietResumedRefresh(s: State, rotated: Token)
    requires s.pc.IsReady() && |rotated| <= MAX_REFRESH_TOKEN_LEN
    requires s.saved.active.Some? && s.saved.pendingRefresh.Some?
    ensures var t := Run(Next(s, Begin(Refresh)), seq(6, _ => Quiet(rotated)));
            && t.pc == Done(Success, None)
            && t.saved == s.saved.(active := Some(rotated), pendingRefresh := None)
            && t.ledger.committed == s.ledger.committed + {(s.saved.pendingRefresh.value, rotated)}
  {
    var begun := Next(s, Begin(Refresh));
    var q := Quiet(rotated);
    RunOfRepeated(begun, q, 6);
    var prepared := s.saved.pendingRefresh.value;
    assert After(begun, q, 1) == Next(begun, q);
    assert After(begun, q, 1).pc.refresh == ReadPrepared(s.saved.active.value);
    assert After(begun, q, 2).pc.refresh == Commit(prepared);
    assert After(begun, q, 3).pc.refresh == CheckRotated(prepared, Tokens(rotated, None));
    assert After(begun, q, 4).pc.refresh == SaveRotated(prepared, rotated);
    assert After(begun, q, 5).pc.refresh == DropPrepared(prepared, rotated);
  }

  /**
    What the provenance is for: an interrupted refresh of an old login, then a completed
    sign-in, then a refresh, ends with the old login's rotated credential as the active
    one. The new login's credential is not saved anywhere any more.
   */
  lemma StalePreparedReplacesTheNewLogin()
    ensures
      var s := State(Slots(Some("old"), None, Some("prepared")), 0, Idle, Ledger({("prepared", "old")}, {}), [], []);
      && Provenance(s)
      && var signedIn := Run(Next(s, Begin(Activate("pending", None))), seq(11, _ => Quiet("new")));
      && signedIn.pc.Done? && signedIn.pc.outcome == Success && signedIn.saved.active == Some("new")
      && !Provenance(signedIn)
      && var refreshed := Run(Next(signedIn, Begin(Refresh)), seq(6, _ => Quiet("rotated old")));
      && refreshed.pc == Done(Success, None) && refreshed.saved == Slots(Some("rotated old"), None, None)
  {
    var s := State(Slots(Some("old"), None, Some("prepared")), 0, Idle, Ledger({("prepared", "old")}, {}), [], []);
    QuietActivation(s, "pending", "new");
    var signedIn := Run(Next(s, Begin(Activate("pending", None))), seq(11, _ => Quiet("new")));
    ActivationLeavesPreparedAlone(s, "pending", None, seq(11, _ => Quiet("new")));
    assert "old" != "new";
    QuietResumedRefresh(signedIn, "rotated old");
  }

  // ---- Rejections ---------------------------------------------------------

  /** The backend answers what this step asks with a rejection of the login for good. */
  predicate RejectedAt(s: State, input: Input) {
    AnswerAt(s, input).Some? && RejectsTheLogin(AnswerAt(s, input).value)
  }

  /** So it answered some step of this run. */
  predicate Rejected(begun: State, rest: seq<Input>) {
    rest != [] &&
    var last := |rest| - 1;
    Rejected(begun, rest[..last]) || RejectedAt(Run(begun, rest[..last]), rest[last])
  }

  lemma {:induction false} RejectedSomewhere(begun: State, rest: seq<Input>) returns (j: nat)
    requires Rejected(begun, rest)
    ensures j < |rest| && RejectedAt(Run(begun, rest[..j]), rest[j])
  {
    var last := |rest| - 1;
    if RejectedAt(Run(begun, rest[..last]), rest[last]) {
      j := last;
    } else {
      j := RejectedSomewhere(begun, rest[..last]);
      assert rest[..last][..j] == rest[..j];
    }
  }

  lemma {:induction false} RejectedSince(begun: State, rest: seq<Input>, j: nat)
    requires j < |rest| && RejectedAt(Run(begun, rest[..j]), rest[j])
    ensures Rejected(begun, rest)
  {
    var last := |rest| - 1;
    if j < last {
      assert rest[..last][..j] == rest[..j];
      RejectedSince(begun, rest[..last], j);
    }
  }

  lemma RejectedByAnAnswer(begun: State, rest: seq<Input>)
    ensures Rejected(begun, rest) <==> exists j :: 0 <= j < |rest| && RejectedAt(Run(begun, rest[..j]), rest[j])
  {
    if Rejected(begun, rest) {
      var j := RejectedSomewhere(begun, rest);
    }
    if j :| 0 <= j < |rest| && RejectedAt(Run(begun, rest[..j]), rest[j]) {
      RejectedSince(begun, rest, j);
    }
  }

  // ---- Resuming ---------------------------------------------------------

  /** Along this run, committing `prepared` again answers with the same credential again. */
  predicate Repeatable(s: State, inputs: seq<Input>, prepared: Token, rotated: Token) {
    inputs != [] ==>
      var before := Run(s, inputs[..|inputs| - 1]);
      var last := inputs[|inputs| - 1];
      && Repeatable(s, inputs[..|inputs| - 1], prepared, rotated)
      && RepeatsAt(before, last, prepared, rotated)
  }

  predicate RepeatsAt(s: State, input: Input, prepared: Token, rotated: Token) {
    s.pc.Refreshing? && s.pc.refresh == Commit(prepared) && input.Work? && input.env.tokens.Ok? ==>
      input.env.tokens.value.refresh == rotated
  }

  predicate Refreshes(op: Op) {
    op.Refresh? || op.RefreshOrClear? || op.Restore?
  }

  /** Only operations that refresh run, and none completes before the end of `inputs`. */
  predicate OnlyInterruptedRefreshes(s: State, inputs: seq<Input>) {
    forall i :: 0 <= i < |inputs| ==>
      && (inputs[i].Begin? ==> Refreshes(inputs[i].op))
      && (i > 0 ==> Run(s, inputs[..i]).pc != Done(Success, None))
  }

  /** `prepared` waits to be committed; its rotation may already be saved as active. */
  predicate Resumable(s: State, active: Token, prepared: Token, rotated: Token) {
    && s.saved.pendingActivation.None? && s.saved.pendingRefresh == Some(prepared)
    && (s.saved.active == Some(active) || s.saved.active == Some(rotated))
    && match s.pc
       case Refreshing(_, step) =>
         RefreshInv(s.saved, step) && !step.Prepare? && !step.SavePrepared?
         && (step.CheckRotated? ==> step.tokens.refresh == rotated)
         && (step.SaveRotated? ==> step.rotated == rotated)
         && (step.DropPrepared? ==> step.rotated == rotated)
       case Restoring(step) => step.FindPending? || step.FindActive?
       case Clearing(error, _) => error.Api? && RejectsTheLogin(error.api)
       case _ => s.pc.IsReady()
  }

  predicate Resumed(s: State, rotated: Token) {
    s.saved == Slots(Some(rotated), None, None) && s.pc == Done(Success, None)
  }

  /** Nothing is saved, and nothing comes of it. */
  predicate SignedOutForGood(s: State) {
    && s.saved == EMPTY
    && match s.pc
       case Refreshing(_, step) => step.ReadActive?
       case Restoring(step) => step.FindPending? || step.FindActive?
       case Clearing(error, _) => error == NoCredential
       case _ => s.pc.IsReady() && !(s.pc.Done? && s.pc.outcome == Success)
  }

  /** Where a run of refreshes that began with `prepared` saved has come to. */
  predicate ResumeInv(s: State, active: Token, prepared: Token, rotated: Token, rejected: bool) {
    || (Resumable(s, active, prepared, rotated) && (s.pc.Clearing? ==> rejected))
    || Resumed(s, rotated)
    || (SignedOutForGood(s) && rejected)
  }

  lemma ResumeRefreshing(s: State, env: Env, active: Token, prepared: Token, rotated: Token)
    requires s.pc.Refreshing? && Resumable(s, active, prepared, rotated) && RepeatsAt(s, Work(env), prepared, rotated)
    ensures var t := NextRefresh(s, s.pc.orClear, s.pc.refresh, env);
            || (Resumable(t, active, prepared, rotated) && (t.pc.Clearing? ==> RejectedAt(s, Work(env))))
            || Resumed(t, rotated)
    ensures NextRefresh(s, s.pc.orClear, s.pc.refresh, env).pc == Done(Success, None) ==>
              Resumed(NextRefresh(s, s.pc.orClear, s.pc.refresh, env), rotated)
  {
  }

  lemma ResumeStep(s: State, input: Input, active: Token, prepared: Token, rotated: Token, rejected: bool)
    requires ResumeInv(s, active, prepared, rotated, rejected) && !Resumed(s, rotated)
    requires input.Begin? ==> Refreshes(input.op)
    requires RepeatsAt(s, input, prepared, rotated)
    ensures ResumeInv(Next(s, input), active, prepared, rotated, rejected || RejectedAt(s, input))
    ensures Next(s, input).pc == Done(Success, None) ==> Resumed(Next(s, input), rotated) || s.pc == Done(Success, None)
  {
    if s.pc.Refreshing? && input.Work? && Resumable(s, active, prepared, rotated) {
      ResumeRefreshing(s, input.env, active, prepared, rotated);
    }
  }

  /**
    With a repeatable commit, a refresh of any kind completed after any number of
    interrupted ones (crashes, failed saves, refused or lost answers) ends with the rotated
    credential active and nothing prepared. Until then the prepared credential stays saved,
    unless the backend rejected the login in an answer of this run and it was cleared.
   */
  lemma {:induction false} RefreshResumes(s: State, inputs: seq<Input>, active: Token, prepared: Token, rotated: Token)
    requires s.pc.IsReady() && s.pc != Done(Success, None) && s.saved == Slots(Some(active), None, Some(prepared))
    requires OnlyInterruptedRefreshes(s, inputs) && Repeatable(s, inputs, prepared, rotated)
    ensures var t := Run(s, inputs);
            || Resumable(t, active, prepared, rotated)
            || Resumed(t, rotated)
            || (SignedOutForGood(t) && exists j :: 0 <= j < |inputs| && RejectedAt(Run(s, inputs[..j]), inputs[j]))
    ensures Run(s, inputs).pc == Done(Success, None) ==> Resumed(Run(s, inputs), rotated)
  {
    ResumeRun(s, inputs, active, prepared, rotated);
    RejectedByAnAnswer(s, inputs);
  }

  lemma {:induction false} ResumeRun(s: State, inputs: seq<Input>, active: Token, prepared: Token, rotated: Token)
    requires s.pc.IsReady() && s.pc != Done(Success, None) && s.saved == Slots(Some(active), None, Some(prepared))
    requires OnlyInterruptedRefreshes(s, inputs) && Repeatable(s, inputs, prepared, rotated)
    ensures ResumeInv(Run(s, inputs), active, prepared, rotated, Rejected(s, inputs))
    ensures Run(s, inputs).pc == Done(Success, None) ==> Resumed(Run(s, inputs), rotated)
  {
    if inputs != [] {
      var last := |inputs| - 1;
      assert forall i :: 0 <= i < last ==> inputs[..last][..i] == inputs[..i];
      ResumeRun(s, inputs[..last], active, prepared, rotated);
      assert last > 0 ==> Run(s, inputs[..last]).pc != Done(Success, None);
      ResumeStep(Run(s, inputs[..last]), inputs[last], active, prepared, rotated, Rejected(s, inputs[..last]));
    }
  }

  // ---- refresh_or_clear and a pending activation ------------------------

  /** A refresh_or_clear called with `pending` waiting to be activated: how far it is, and what it has left saved. */
  predicate RefreshOrClearInv(s: State, pending: Token, hadActive: bool, rejected: bool) {
    var kept := s.saved.pendingActivation == Some(pending);
    match s.pc
    case Refreshing(orClear, step) =>
      orClear && kept && !rejected && s.saved.active.Some? == hadActive && (!hadActive ==> step.ReadActive?)
    case Clearing(error, _) =>
      && kept && error.IsTerminal() && (error.NoCredential? || error.Api?)
      && (error.NoCredential? <==> !hadActive) && (rejected <==> error.Api?)
    case Done(Failure(error), _) =>
      && (if error.IsTerminal() then s.saved == EMPTY else kept)
      && (!error.Store? ==> (error.NoCredential? <==> !hadActive) && (rejected <==> error.Api? && error.IsTerminal()))
    case Done(Success, _) => kept && hadActive && !rejected
    case _ => false
  }

  lemma RefreshOrClearStep(s: State, pending: Token, hadActive: bool, rejected: bool, env: Env)
    requires RefreshOrClearInv(s, pending, hadActive, rejected)
    ensures RefreshOrClearInv(Next(s, Work(env)), pending, hadActive, rejected || RejectedAt(s, Work(env)))
  {
    match s.pc
    case Refreshing(_, step) =>
    case _ =>
  }

  lemma {:induction false} RefreshOrClearRun(s: State, pending: Token, rest: seq<Input>)
    requires s.pc.IsReady() && s.saved.pendingActivation == Some(pending) && Uninterrupted(rest)
    ensures var begun := Next(s, Begin(RefreshOrClear));
            RefreshOrClearInv(Run(begun, rest), pending, s.saved.active.Some?, Rejected(begun, rest))
  {
    if rest != [] {
      var begun, last := Next(s, Begin(RefreshOrClear)), |rest| - 1;
      RefreshOrClearRun(s, pending, rest[..last]);
      if rest[last].Work? {
        RefreshOrClearStep(Run(begun, rest[..last]), pending, s.saved.active.Some?, Rejected(begun, rest[..last]), rest[last].env);
      }
    }
  }

  /**
    One ended call of refresh_or_clear, made while `pending` waits to be activated and not
    cut short by the store: it ends with NoCredential if and only if no active credential
    was saved, and it loses the sign-in if and only if none was, or the backend answered a
    prepare or commit of this call that the login can never work again.
   */
  lemma {:induction false} RefreshOrClearLosesIff(s: State, pending: Token, rest: seq<Input>)
    requires s.pc.IsReady() && s.saved.pendingActivation == Some(pending) && Uninterrupted(rest)
    requires var t := Run(Next(s, Begin(RefreshOrClear)), rest);
             t.pc.Done? && !(t.pc.outcome.Failure? && t.pc.outcome.error.Store?)
    ensures var begun := Next(s, Begin(RefreshOrClear));
            var t := Run(begun, rest);
            && (t.pc.outcome == Failure(NoCredential) <==> s.saved.active.None?)
            && (t.saved.pendingActivation != Some(pending) <==>
                  || s.saved.active.None?
                  || exists j :: 0 <= j < |rest| && Run(begun, rest[..j]).pc.Refreshing? && RejectedAt(Run(begun, rest[..j]), rest[j]))
  {
    var begun := Next(s, Begin(RefreshOrClear));
    RefreshOrClearRun(s, pending, rest);
    forall j | 0 <= j < |rest| && RejectedAt(Run(begun, rest[..j]), rest[j])
      ensures Run(begun, rest[..j]).pc.Refreshing?
    {
      assert Uninterrupted(rest[..j]);
      RefreshOrClearRun(s, pending, rest[..j]);
    }
    RejectedByAnAnswer(Next(s, Begin(RefreshOrClear)), rest);
  }

  /** A sign-in waiting to be activated outlives this much of a refresh_or_clear, unless the backend rejected the login in it. */
  ghost predicate KeptUnlessRejected(s: State, pending: Token, rest: seq<Input>) {
    var begun := Next(s, Begin(RefreshOrClear));
    Run(begun, rest).saved.pendingActivation == Some(pending)
    || exists j :: 0 <= j < |rest| && RejectedAt(Run(begun, rest[..j]), rest[j])
  }

  /** Whatever store and backend do, refresh_or_clear keeps an interrupted sign-in the backend did not reject if and only if an active credential is saved when it is called. */
  lemma {:induction false} RefreshOrClearKeepsTheSignInIffActive(s: State, pending: Token)
    requires s.pc.IsReady() && s.saved.pendingActivation == Some(pending)
    ensures (forall rest :: Uninterrupted(rest) ==> KeptUnlessRejected(s, pending, rest)) <==> s.saved.active.Some?
  {
    if s.saved.active.Some? {
      forall rest | Uninterrupted(rest)
        ensures KeptUnlessRejected(s, pending, rest)
      {
        KeptWithActive(s, pending, rest);
      }
    } else {
      LostWithoutActive(s, pending);
      assert Uninterrupted(seq(2, _ => Quiet("any")));
    }
  }

  lemma KeptWithActive(s: State, pending: Token, rest: seq<Input>)
    requires s.pc.IsReady() && s.saved.pendingActivation == Some(pending) && s.saved.active.Some? && Uninterrupted(rest)
    ensures KeptUnlessRejected(s, pending, rest)
  {
    var begun := Next(s, Begin(RefreshOrClear));
    RejectedByAnAnswer(begun, rest);
    if !Rejected(begun, rest) {
      RefreshOrClearRun(s, pending, rest);
      NotRejectedIsKept(Run(begun, rest), pending);
    }
  }

  lemma NotRejectedIsKept(t: State, pending: Token)
    requires RefreshOrClearInv(t, pending, true, false)
    ensures t.saved.pendingActivation == Some(pending)
  {
  }

  lemma LostWithoutActive(s: State, pending: Token)
    requires s.pc.IsReady() && s.saved.pendingActivation == Some(pending) && s.saved.active.None?
    ensures !KeptUnlessRejected(s, pending, seq(2, _ => Quiet("any")))
  {
    var rest := seq(2, _ => Quiet("any"));
    RefreshOrClearDropsAnInterruptedSignIn(s, "any");
    RefreshOrClearRun(s, pending, rest);
    RejectedByAnAnswer(Next(s, Begin(RefreshOrClear)), rest);
  }

  /** Without an active credential, two undisturbed steps clear whatever sign-in was interrupted. */
  lemma {:induction false} RefreshOrClearDropsAnInterruptedSignIn(s: State, token: Token)
    requires s.pc.IsReady() && s.saved.active.None?
    ensures Run(Next(s, Begin(RefreshOrClear)), seq(2, _ => Quiet(token)))
              == s.(saved := EMPTY, pc := Done(Failure(NoCredential), None))
  {
    var begun := Next(s, Begin(RefreshOrClear));
    RunOfRepeated(begun, Quiet(token), 2);
    var failed := After(begun, Quiet(token), 1);
    assert failed == Next(After(begun, Quiet(token), 0), Quiet(token)) == Next(begun, Quiet(token));
    assert failed == s.(pc := Clearing(NoCredential, None));
    assert After(begun, Quiet(token), 2) == Next(failed, Quiet(token));
  }
}
