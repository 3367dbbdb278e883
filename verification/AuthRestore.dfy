/** An interrupted sign-in, and what restore makes of it after any number of further interruptions. */
module AuthRestore {
  import opened Wrappers
  import opened Errors
  import opened Credentials
  import opened AuthProtocol
  import opened AuthSafety
  import opened AuthRefresh

  // ---- Where a rotated credential comes from -------------------------------

  /** A credential prepared from `x` was committed, and `y` issued for it. */
  ghost predicate Rotates(l: Ledger, x: Token, y: Token) {
    exists p :: (p, x) in l.preparedFrom && (p, y) in l.committed
  }

  ghost predicate DescendsIn(l: Ledger, from: Token, to: Token, rotations: nat)
    decreases rotations
  {
    if rotations == 0 then from == to
    else exists x :: DescendsIn(l, from, x, rotations - 1) && Rotates(l, x, to)
  }

  /** `to` is `from` after any number of rotations. */
  ghost predicate Descends(l: Ledger, from: Token, to: Token) {
    exists rotations: nat :: DescendsIn(l, from, to, rotations)
  }

  predicate Grows(l: Ledger, m: Ledger) {
    l.preparedFrom <= m.preparedFrom && l.committed <= m.committed
  }

  lemma {:induction false} StillDescendsIn(l: Ledger, m: Ledger, from: Token, to: Token, rotations: nat)
    requires Grows(l, m) && DescendsIn(l, from, to, rotations)
    ensures DescendsIn(m, from, to, rotations)
    decreases rotations
  {
    if rotations > 0 {
      var x :| DescendsIn(l, from, x, rotations - 1) && Rotates(l, x, to);
      StillDescendsIn(l, m, from, x, rotations - 1);
      var p :| (p, x) in l.preparedFrom && (p, to) in l.committed;
      assert (p, x) in m.preparedFrom && (p, to) in m.committed;
      assert Rotates(m, x, to);
    }
  }

  lemma StillDescends(l: Ledger, m: Ledger, from: Token, to: Token)
    requires Grows(l, m) && Descends(l, from, to)
    ensures Descends(m, from, to)
  {
    var rotations: nat :| DescendsIn(l, from, to, rotations);
    StillDescendsIn(l, m, from, to, rotations);
  }

  lemma RotationDescends(l: Ledger, from: Token, x: Token, p: Token, to: Token)
    requires Descends(l, from, x) && (p, x) in l.preparedFrom && (p, to) in l.committed
    ensures Descends(l, from, to)
  {
    var rotations: nat :| DescendsIn(l, from, x, rotations);
    assert Rotates(l, x, to);
    assert DescendsIn(l, from, to, rotations + 1);
  }

  lemma IssuedDescends(l: Ledger, issued: Token)
    ensures Descends(l, issued, issued)
  {
    assert DescendsIn(l, issued, issued, 0);
  }

  // ---- The run ---------------------------------------------------------------

  predicate OnlyRestores(inputs: seq<Input>) {
    forall i :: 0 <= i < |inputs| && inputs[i].Begin? ==> inputs[i].op == Restore
  }

  /** Activating `pending` is answered, if at all, with `issued` and an access token to be trusted. */
  predicate AnswersActivation(s: State, input: Input, pending: Token, issued: Token) {
    s.pc.Activating? && s.pc.activate.AwaitTokens? && s.pc.activation.pending == pending && input.Work? && input.env.tokens.Ok? ==>
      input.env.tokens.value == Tokens(issued, None)
  }

  predicate RepeatableActivation(s: State, inputs: seq<Input>, pending: Token, issued: Token) {
    inputs != [] ==>
      var last := |inputs| - 1;
      && RepeatableActivation(s, inputs[..last], pending, issued)
      && AnswersActivation(Run(s, inputs[..last]), inputs[last], pending, issued)
  }

  /** A commit was asked for after the first `before` requests. */
  predicate CommitAsked(asked: seq<Request>, before: nat) {
    exists i :: before <= i < |asked| && asked[i].ToCommit?
  }

  /** The credential the sign-in comes to: the waiting one, if it is active already, or else the one issued for it. */
  function Root(first: State, pending: Token, issued: Token): Token {
    if first.saved.active == Some(pending) then pending else issued
  }

  /** The sign-in still waits to be activated, or is just being activated again or found settled. */
  predicate Waiting(s: State, first: State, pending: Token, issued: Token) {
    && s.saved.pendingActivation == Some(pending) && s.saved.pendingRefresh.None?
    && !CommitAsked(s.asked, |first.asked|)
    && (s.saved.active == first.saved.active || s.saved.active == Some(Root(first, pending, issued)))
    && match s.pc
       case Activating(a, step) =>
         && first.saved.active != Some(pending) && ActivationInv(s.saved, a, step)
         && a.pending == pending && a.expected.None? && a.clearOnTerminal && (a.issued.Some? ==> a.issued == Some(issued))
         && (match step
             case CheckAfterTokens(refused) => refused.None?
             case ValidateAccess(refused) => refused.None?
             case FetchAccount | CheckAtEnd | Revoke(_) | DropIssued(_) | DropCancelled(_) => false
             case _ => true)
       case Restoring(step) =>
         step.FindPending? || step == ComparePending(pending) || (step.DropSettled? && s.saved.active == Some(pending))
       case Clearing(error, _) => error.Api?
       case _ => s.pc.IsReady() && (s.pc.Done? && s.pc.outcome == Success ==> s.pc == first.pc)
  }

  /** What is prepared was prepared from a credential of this login. */
  ghost predicate PreparedDescends(s: State, issued: Token) {
    s.saved.pendingRefresh.Some? ==>
      exists x :: Descends(s.ledger, issued, x) && (s.saved.pendingRefresh.value, x) in s.ledger.preparedFrom
  }

  /** The sign-in is done: what is active is the issued credential or what it was rotated to. */
  ghost predicate SignedIn(s: State, first: State, issued: Token) {
    && s.saved.pendingActivation.None? && s.saved.active.Some? && Descends(s.ledger, issued, s.saved.active.value)
    && PreparedDescends(s, issued)
    && (!CommitAsked(s.asked, |first.asked|) ==> s.saved.active == Some(issued))
    && match s.pc
       case Activating(a, step) => (step.FetchAccount? || step.CheckAtEnd?) && a.expected.None? && a.clearOnTerminal
       case Restoring(step) => step.FindPending? || step.FindActive?
       case Refreshing(orClear, step) =>
         && orClear && RefreshInv(s.saved, step)
         && (match step
             case SavePrepared(current, prepared) => (prepared, current) in s.ledger.preparedFrom
             case CheckRotated(prepared, tokens) =>
               (prepared, tokens.refresh) in s.ledger.committed && CommitAsked(s.asked, |first.asked|)
             case SaveRotated(prepared, rotated) =>
               (prepared, rotated) in s.ledger.committed && CommitAsked(s.asked, |first.asked|)
             case _ => true)
       case Clearing(error, _) => error.Api?
       case _ => s.pc.IsReady()
  }

  ghost predicate RestoreInv(s: State, first: State, pending: Token, issued: Token, rejected: bool) {
    && |first.asked| <= |s.asked|
    && (|| (Waiting(s, first, pending, issued) && (s.pc.Clearing? ==> rejected))
        || (SignedIn(s, first, Root(first, pending, issued)) && (s.pc.Clearing? ==> rejected))
        || (SignedOutForGood(s) && rejected))
  }

  lemma WaitingActivating(s: State, first: State, env: Env, pending: Token, issued: Token)
    requires |first.asked| <= |s.asked| && Waiting(s, first, pending, issued) && s.pc.Activating?
    requires AnswersActivation(s, Work(env), pending, issued)
    ensures var t := Next(s, Work(env));
            || (Waiting(t, first, pending, issued) && (t.pc.Clearing? ==> RejectedAt(s, Work(env))))
            || (SignedIn(t, first, Root(first, pending, issued)) && !t.pc.Clearing?)
  {
    IssuedDescends(s.ledger, issued);
    match s.pc.activate
    case SavePending | CheckBeforeRequest | ReadPrevious | AwaitTokens =>
    case CheckAfterTokens(_) | ValidateAccess(_) | SaveIssued =>
    case _ =>
  }

  lemma WaitingStep(s: State, first: State, input: Input, pending: Token, issued: Token, rejected: bool)
    requires |first.asked| <= |s.asked| && Waiting(s, first, pending, issued) && (s.pc.Clearing? ==> rejected)
    requires input.Begin? ==> input.op == Restore
    requires AnswersActivation(s, input, pending, issued)
    ensures RestoreInv(Next(s, input), first, pending, issued, rejected || RejectedAt(s, input))
  {
    if s.pc.Activating? && input.Work? {
      WaitingActivating(s, first, input.env, pending, issued);
    } else {
      IssuedDescends(s.ledger, Root(first, pending, issued));
    }
  }

  lemma CommitStaysAsked(asked: seq<Request>, more: seq<Request>, before: nat)
    requires asked <= more
    ensures CommitAsked(asked, before) ==> CommitAsked(more, before)
    ensures |asked| < |more| && before <= |asked| && more[|asked|].ToCommit? ==> CommitAsked(more, before)
  {
  }

  lemma StillPreparedDescends(s: State, t: State, issued: Token)
    requires PreparedDescends(s, issued) && Grows(s.ledger, t.ledger) && t.saved.pendingRefresh == s.saved.pendingRefresh
    ensures PreparedDescends(t, issued)
  {
    if s.saved.pendingRefresh.Some? {
      var x :| Descends(s.ledger, issued, x) && (s.saved.pendingRefresh.value, x) in s.ledger.preparedFrom;
      StillDescends(s.ledger, t.ledger, issued, x);
      assert (t.saved.pendingRefresh.value, x) in t.ledger.preparedFrom;
    }
  }

  lemma SignedInRefreshing(s: State, first: State, env: Env, issued: Token)
    requires |first.asked| <= |s.asked| && SignedIn(s, first, issued) && s.pc.Refreshing?
    ensures var t := Next(s, Work(env));
            SignedIn(t, first, issued) && (t.pc.Clearing? ==> RejectedAt(s, Work(env)))
  {
    var t := Next(s, Work(env));
    assert s.asked <= t.asked;
    CommitStaysAsked(s.asked, t.asked, |first.asked|);
    StillDescends(s.ledger, t.ledger, issued, s.saved.active.value);
    match s.pc.refresh
    case SavePrepared(current, prepared) =>
      if t.saved.pendingRefresh.Some? {
        assert Descends(t.ledger, issued, current) && (prepared, current) in t.ledger.preparedFrom;
      }
    case SaveRotated(prepared, rotated) =>
      StillPreparedDescends(s, t, issued);
      var x :| Descends(s.ledger, issued, x) && (prepared, x) in s.ledger.preparedFrom;
      RotationDescends(s.ledger, issued, x, prepared, rotated);
    case DropPrepared(_, _) =>
    case _ => StillPreparedDescends(s, t, issued);
  }

  lemma SignedInStep(s: State, first: State, input: Input, pending: Token, issued: Token, rejected: bool)
    requires |first.asked| <= |s.asked| && SignedIn(s, first, Root(first, pending, issued)) && (s.pc.Clearing? ==> rejected)
    requires input.Begin? ==> input.op == Restore
    ensures RestoreInv(Next(s, input), first, pending, issued, rejected || RejectedAt(s, input))
  {
    var t := Next(s, input);
    if s.pc.Refreshing? && input.Work? {
      SignedInRefreshing(s, first, input.env, Root(first, pending, issued));
    } else {
      assert s.asked <= t.asked;
      CommitStaysAsked(s.asked, t.asked, |first.asked|);
    }
  }

  lemma RestoreStep(s: State, first: State, input: Input, pending: Token, issued: Token, rejected: bool)
    requires RestoreInv(s, first, pending, issued, rejected)
    requires input.Begin? ==> input.op == Restore
    requires AnswersActivation(s, input, pending, issued)
    ensures RestoreInv(Next(s, input), first, pending, issued, rejected || RejectedAt(s, input))
  {
    if Waiting(s, first, pending, issued) && (s.pc.Clearing? ==> rejected) {
      WaitingStep(s, first, input, pending, issued, rejected);
    } else if SignedIn(s, first, Root(first, pending, issued)) && (s.pc.Clearing? ==> rejected) {
      SignedInStep(s, first, input, pending, issued, rejected);
    }
  }

  lemma {:induction false} RestoreRun(first: State, inputs: seq<Input>, pending: Token, issued: Token)
    requires first.pc.IsReady() && first.saved.pendingActivation == Some(pending) && first.saved.pendingRefresh.None?
    requires OnlyRestores(inputs) && RepeatableActivation(first, inputs, pending, issued)
    ensures RestoreInv(Run(first, inputs), first, pending, issued, Rejected(first, inputs))
  {
    if inputs != [] {
      var last := |inputs| - 1;
      RestoreRun(first, inputs[..last], pending, issued);
      RestoreStep(Run(first, inputs[..last]), first, inputs[last], pending, issued, Rejected(first, inputs[..last]));
    }
  }

  lemma SucceedsSignedIn(t: State, first: State, pending: Token, issued: Token, rejected: bool)
    requires RestoreInv(t, first, pending, issued, rejected)
    ensures t.saved.pendingActivation == Some(pending) || SignedIn(t, first, Root(first, pending, issued)) || (t.saved == EMPTY && rejected)
    ensures t.pc.Done? && t.pc.outcome == Success && t.pc != first.pc ==> SignedIn(t, first, Root(first, pending, issued))
  {
  }

  /**
    With a repeatable activation and nothing prepared, however often restore is interrupted
    (crashes, failed saves, failed and lost answers), and whether or not the backend issues
    the waiting credential itself: the sign-in still waits, or the active credential is the
    issued one (the waiting one, where that was active already) or what it was rotated to, or the backend rejected the login in an answer of this run and everything was
    cleared. A completed restore leaves the second, as SignedIn says it: the issued
    credential itself, as long as no commit was asked for.
   */
  lemma {:induction false} RestoreFinishesActivation(first: State, inputs: seq<Input>, pending: Token, issued: Token)
    requires first.pc.IsReady() && first.saved.pendingActivation == Some(pending) && first.saved.pendingRefresh.None?
    requires OnlyRestores(inputs) && RepeatableActivation(first, inputs, pending, issued)
    ensures var t := Run(first, inputs);
            || t.saved.pendingActivation == Some(pending)
            || SignedIn(t, first, Root(first, pending, issued))
            || (t.saved == EMPTY && exists j :: 0 <= j < |inputs| && RejectedAt(Run(first, inputs[..j]), inputs[j]))
    ensures var t := Run(first, inputs);
            t.pc.Done? && t.pc.outcome == Success && t.pc != first.pc ==>
              SignedIn(t, first, Root(first, pending, issued))
  {
    RestoreRun(first, inputs, pending, issued);
    RejectedByAnAnswer(first, inputs);
    SucceedsSignedIn(Run(first, inputs), first, pending, issued, Rejected(first, inputs));
  }
}
