/**
  `Auth` (crates/account/src/auth.rs) in its own form: methods over the credential cache
  and the login generation. Every method is proved to take the steps of the machine in
  AuthProtocol, whatever the store and the backend answer and whenever other tasks
  cancel, so what AuthSafety and AuthRefresh prove of all runs holds of these methods.
 */
module Auth {
  import opened Wrappers
  import opened Errors
  import opened Credentials
  import opened AuthProtocol
  import opened AuthSafety
  import opened AuthReports

  // ---- The machine's credential calls, by step ---------------------------

  /** A step that writes `value` to `slot` and goes on to `ok`. */
  datatype Writing = Writing(slot: Slot, value: Option<Token>, ok: Pc)

  function WritingAt(pc: Pc): Option<Writing> {
    match pc
    case Activating(a, SavePending) =>
      Some(Writing(PendingActivation, Some(a.pending), Activating(a, CheckBeforeRequest)))
    case Activating(a, SaveIssued) =>
      if a.issued.Some? then Some(Writing(Active, a.issued, Activating(a, CheckAfterSave))) else None
    case Activating(a, DropPending) =>
      Some(Writing(PendingActivation, None, Activating(a, FetchAccount)))
    case Refreshing(orClear, SavePrepared(_, prepared)) =>
      Some(Writing(PendingRefresh, Some(prepared), Refreshing(orClear, Commit(prepared))))
    case Refreshing(orClear, SaveRotated(prepared, rotated)) =>
      Some(Writing(Active, Some(rotated), Refreshing(orClear, DropPrepared(prepared, rotated))))
    case Refreshing(_, DropPrepared(_, _)) =>
      Some(Writing(PendingRefresh, None, Done(Success, None)))
    case Restoring(DropSettled) =>
      Some(Writing(PendingActivation, None, Restoring(FindActive)))
    case _ => None
  }

  /** A step that only reads: where it goes on when the call does not fail. */
  function ReadingAt(s: State): Option<Pc> {
    match s.pc
    case Activating(a, ReadPrevious) => Some(Activating(a.(sent := true), AwaitTokens))
    case Refreshing(orClear, ReadActive) =>
      Some(if s.saved.active.None? then FailRefresh(s, orClear, NoCredential).pc
           else Refreshing(orClear, ReadPrepared(s.saved.active.value)))
    case Refreshing(orClear, ReadPrepared(current)) =>
      Some(Refreshing(orClear,
                      if s.saved.pendingRefresh.Some? then Commit(s.saved.pendingRefresh.value) else Prepare(current)))
    case Restoring(FindPending) =>
      Some(Restoring(if s.saved.pendingActivation.Some? then ComparePending(s.saved.pendingActivation.value) else FindActive))
    case Restoring(ComparePending(pending)) =>
      Some(if s.saved.active == Some(pending) then Restoring(DropSettled)
           else Activating(Activation(pending, None, true, false, None, false), SavePending))
    case Restoring(FindActive) =>
      Some(if s.saved.active.None? then Done(SignedOut, None) else Refreshing(true, ReadActive))
    case _ => None
  }

  /** How the operation under way ends when one of its steps fails. */
  function Failed(s: State, error: AuthError): State {
    match s.pc
    case Activating(a, _) => FailActivation(s, a, error)
    case Refreshing(orClear, _) => FailRefresh(s, orClear, error)
    case _ => Fail(s, error)
  }

  lemma WritingStep(s: State, env: Env)
    requires WritingAt(s.pc).Some?
    ensures var w := WritingAt(s.pc).value;
            var error := if w.value.Some? then SaveError(env, w.value.value) else CallError(env);
            Next(s, Work(env)) ==
              if error.Some? then Failed(s, error.value) else s.(saved := s.saved.Put(w.slot, w.value), pc := w.ok)
  {
  }

  lemma ReadingStep(s: State, env: Env)
    requires ReadingAt(s).Some?
    ensures Next(s, Work(env)) ==
              if CallError(env).Some? then Failed(s, CallError(env).value) else s.(pc := ReadingAt(s).value)
  {
  }

  /** The environment of a step that made one credential call. */
  ghost function StoreEnv<T>(r: Result<T, AuthError>): Env {
    Env(if r.Err? && r.error.Store? then Some(r.error.store) else None, Err(Transport), Err(Transport), Ok(()))
  }

  ghost const NOTHING := Env(None, Err(Transport), Err(Transport), Ok(()))

  /** The backend: it may answer anything, and remembers what it was asked and what it answered. */
  class Backend {
    var asked: seq<Request>
    var answered: seq<Answer>

    constructor ()
      ensures asked == [] && answered == []
    {
      asked, answered := [], [];
    }

    method PostActivate(pending: Token, replaced: Option<Token>) returns (r: Result<Tokens, ApiError>)
      modifies this
      ensures asked == old(asked) + [ToActivate(pending, replaced)] && answered == old(answered) + [TokensAnswer(r)]
    {
      asked := asked + [ToActivate(pending, replaced)];
      r := *;
      answered := answered + [TokensAnswer(r)];
    }

    method PostRefresh(current: Token) returns (r: Result<Token, ApiError>)
      modifies this
      ensures asked == old(asked) + [ToPrepare(current)] && answered == old(answered) + [PreparedAnswer(r)]
    {
      asked := asked + [ToPrepare(current)];
      r := *;
      answered := answered + [PreparedAnswer(r)];
    }

    method PostCommit(prepared: Token) returns (r: Result<Tokens, ApiError>)
      modifies this
      ensures asked == old(asked) + [ToCommit(prepared)] && answered == old(answered) + [TokensAnswer(r)]
    {
      asked := asked + [ToCommit(prepared)];
      r := *;
      answered := answered + [TokensAnswer(r)];
    }

    method PostRevoke(refresh: Token) returns (r: Result<(), ApiError>)
      modifies this
      ensures asked == old(asked) + [ToRevoke(refresh)] && answered == old(answered) + [RevokeAnswer]
    {
      asked := asked + [ToRevoke(refresh)];
      r := *;
      answered := answered + [RevokeAnswer];
    }

    method Account() returns (r: Result<(), ApiError>)
      modifies this
      ensures asked == old(asked) + [ToReadAccount] && answered == old(answered) + [AccountAnswer(r)]
    {
      asked := asked + [ToReadAccount];
      r := *;
      answered := answered + [AccountAnswer(r)];
    }
  }

  class Auth {
    const api: Backend
    const credentials: Credentials
    var generation: nat

    /** The machine this process runs: its states so far, what took it from each to the next, and where it is. */
    ghost const origin: State
    ghost var states: seq<State>
    ghost var inputs: seq<Input>
    ghost var model: State

    ghost predicate Valid()
      reads this, api, credentials, credentials.platform
    {
      && credentials.Valid()
      && origin.pc.Idle? && IsTrace(states, inputs) && states[0] == origin && states[|inputs|] == model
      && model.saved == credentials.Stored() && model.asked == api.asked && model.answered == api.answered
      && model.generation == generation
    }

    /** A process starting over whatever an earlier one left saved. */
    constructor (api: Backend, credentials: Credentials, ghost ledger: Ledger)
      requires credentials.Valid()
      ensures Valid() && this.api == api && this.credentials == credentials
      ensures generation == 0 && inputs == []
      ensures model == origin == State(credentials.Stored(), 0, Idle, ledger, api.asked, api.answered)
    {
      this.api := api;
      this.credentials := credentials;
      generation := 0;
      model := State(credentials.Stored(), 0, Idle, ledger, api.asked, api.answered);
      origin := State(credentials.Stored(), 0, Idle, ledger, api.asked, api.answered);
      states := [State(credentials.Stored(), 0, Idle, ledger, api.asked, api.answered)];
      inputs := [];
    }

    /** What the machine has done is a run, so every theorem about runs speaks of it. */
    lemma ModelIsRun()
      requires Valid()
      ensures model == Run(origin, inputs)
    {
      TraceIsRun(states, inputs, |inputs|);
      assert inputs[..|inputs|] == inputs;
    }

    /** The machine takes the step the code has just taken, to `next`. */
    ghost method Advance(input: Input, next: State)
      requires origin.pc.Idle? && IsTrace(states, inputs) && states[0] == origin && states[|inputs|] == model
      requires next == Next(model, input)
      modifies this`states, this`inputs, this`model
      ensures IsTrace(states, inputs) && states[0] == origin && states[|inputs|] == model
      ensures model == next
    {
      states := states + [next];
      inputs := inputs + [input];
      model := next;
    }

    /** Takes the credential lock for `op`. */
    ghost method Lock(op: Op)
      requires Valid() && model.pc.IsReady()
      modifies this`states, this`inputs, this`model
      ensures Valid() && model == Start(old(model), op)
    {
      Advance(Begin(op), Start(model, op));
    }

    /** The generation moves on, so whoever expects the old one fails its next check. */
    method Cancel()
      requires Valid()
      modifies this`generation, this`states, this`inputs, this`model
      ensures Valid() && generation == old(generation) + 1
      ensures model == old(model).(generation := generation)
    {
      generation := generation + 1;
      Advance(Bump, model.(generation := generation));
    }

    /** While this task waits, other tasks cancel or start any number of logins. */
    method OtherTasks()
      requires Valid()
      modifies this`generation, this`states, this`inputs, this`model
      ensures Valid() && generation >= old(generation)
      ensures model == old(model).(generation := generation)
    {
      var times: nat := *;
      while times > 0
        invariant Valid() && generation >= old(generation)
        invariant model == old(model).(generation := generation)
      {
        Cancel();
        times := times - 1;
      }
    }

    // ---- One step each ---------------------------------------------------

    method Save(slot: Slot, value: Token) returns (r: Result<(), AuthError>)
      requires Valid() && WritingAt(model.pc).Some?
      requires WritingAt(model.pc).value.slot == slot && WritingAt(model.pc).value.value == Some(value)
      modifies this`states, this`inputs, this`model, credentials`cache, credentials.platform
      ensures Valid()
      ensures model == if r.Err? then Failed(old(model), r.error)
                       else old(model).(saved := old(model).saved.Put(slot, Some(value)), pc := WritingAt(old(model).pc).value.ok)
      ensures r.Err? ==> IsStoreTrouble(r.error)
    {
      r := credentials.Set(slot, value);
      WritingStep(model, StoreEnv(r));
      Advance(Work(StoreEnv(r)), Next(model, Work(StoreEnv(r))));
    }

    method Drop(slot: Slot) returns (r: Result<(), AuthError>)
      requires Valid() && WritingAt(model.pc).Some?
      requires WritingAt(model.pc).value.slot == slot && WritingAt(model.pc).value.value == None
      modifies this`states, this`inputs, this`model, credentials`cache, credentials.platform
      ensures Valid() && (r.Err? ==> r.error.Store?)
      ensures model == if r.Err? then Failed(old(model), r.error)
                       else old(model).(saved := old(model).saved.Put(slot, None), pc := WritingAt(old(model).pc).value.ok)
    {
      r := credentials.Delete(slot);
      WritingStep(model, StoreEnv(r));
      Advance(Work(StoreEnv(r)), Next(model, Work(StoreEnv(r))));
    }

    method Read(slot: Slot) returns (r: Result<Option<Token>, AuthError>)
      requires Valid() && ReadingAt(model).Some?
      modifies this`states, this`inputs, this`model, credentials`cache, credentials.platform
      ensures Valid()
      ensures if r.Ok? then r.value == model.saved.Get(slot) else r.error.Store?
      ensures model == if r.Err? then Failed(old(model), r.error) else old(model).(pc := ReadingAt(old(model)).value)
    {
      r := credentials.Get(slot);
      ReadingStep(model, StoreEnv(r));
      Advance(Work(StoreEnv(r)), Next(model, Work(StoreEnv(r))));
    }

    /** `expect_generation`: is the login `activate` serves still the current one? */
    method ExpectGeneration(expected: Option<nat>, ghost after: ActivateStep) returns (current: bool)
      requires Valid() && model.pc.Activating? && model.pc.activation.expected == expected
      requires match model.pc.activate
               case CheckBeforeRequest => after == ReadPrevious
               case CheckAfterTokens(refused) => after == ValidateAccess(refused)
               case CheckAfterSave => after == DropPending
               case _ => false
      modifies this`generation, this`states, this`inputs, this`model
      ensures Valid() && (current <==> expected.None? || expected.value == generation)
      ensures model.saved == old(model).saved && model.ledger == old(model).ledger && model.asked == old(model).asked && model.answered == old(model).answered
      ensures model.pc == if current then Activating(old(model).pc.activation, after)
                          else Cleanup(old(model), old(model).pc.activation, Cancelled).pc
    {
      OtherTasks();
      current := expected.None? || expected.value == generation;
      Advance(Work(NOTHING), Next(model, Work(NOTHING)));
    }

    /** The last check: passing it is what makes `activate` succeed. */
    method ExpectGenerationAtEnd(expected: Option<nat>) returns (current: bool)
      requires Valid() && model.pc.Activating? && model.pc.activation.expected == expected && model.pc.activate.CheckAtEnd?
      modifies this`generation, this`states, this`inputs, this`model
      ensures Valid() && (current <==> expected.None? || expected.value == generation)
      ensures model.saved == old(model).saved && model.ledger == old(model).ledger && model.asked == old(model).asked && model.answered == old(model).answered
      ensures model.pc == if current then Done(Success, Some(old(model).pc.activation))
                          else Cleanup(old(model), old(model).pc.activation, Cancelled).pc
    {
      OtherTasks();
      current := expected.None? || expected.value == generation;
      Advance(Work(NOTHING), Next(model, Work(NOTHING)));
    }

    /** How `activate` ends: the machine has just ended this call with the same result. */
    ghost predicate EndedWith(call: Activation, r: Result<(), AuthError>)
      reads this
    {
      match r
      case Ok(_) => model.pc.Done? && model.pc.outcome == Success && IsCall(model.pc.of, call)
      case Err(e) =>
        if call.clearOnTerminal && e.IsTerminal() then
          model.pc.Clearing? && model.pc.error == e && IsCall(model.pc.after, call)
        else
          model.pc.Done? && model.pc.outcome == Failure(e) && IsCall(model.pc.of, call)
    }

    ghost predicate IsCall(ended: Option<Activation>, call: Activation) {
      ended.Some? && Call(ended.value) == Call(call)
    }

    /** What stays the same from the beginning to the end of one `activate`. */
    ghost function Call(a: Activation): Activation {
      a.(sent := false, issued := None, revoked := false)
    }

    // ---- activate -----------------------------------------------------------

    /** `revoke`; what it answers does not matter. */
    method RevokeIssued(refresh: Token, ghost a: Activation, ghost cause: AuthError)
      requires Valid() && model.pc == Activating(a, Revoke(cause)) && a.issued == Some(refresh)
      modifies this`states, this`inputs, this`model, api
      ensures Valid() && model.saved == old(model).saved && model.pc == Activating(a.(revoked := true), DropIssued(cause))
      ensures api.asked == old(api.asked) + [ToRevoke(refresh)] && api.answered == old(api.answered) + [RevokeAnswer]
    {
      var _ := api.PostRevoke(refresh);
      Advance(Work(NOTHING), Next(model, Work(NOTHING)));
    }

    method DropIssuedCredential(refresh: Token, ghost a: Activation, ghost cause: AuthError) returns (r: Result<(), AuthError>)
      requires Valid() && model.pc == Activating(a, DropIssued(cause)) && a.issued == Some(refresh)
      modifies this`states, this`inputs, this`model, credentials`cache, credentials.platform
      ensures Valid()
      ensures if r.Err? then EndedWith(a, r) && model.saved == old(model).saved
              else model == old(model).(saved := WithoutExpected(old(model).saved, Active, refresh),
                                        pc := Activating(a, DropCancelled(cause)))
      ensures r.Err? ==> r.error.Store? && model.asked == old(model).asked && model.answered == old(model).answered
    {
      r := credentials.DeleteIf(Active, refresh);
      Advance(Work(StoreEnv(r)), Next(model, Work(StoreEnv(r))));
    }

    method DropPendingCredential(pending: Token, ghost a: Activation, ghost cause: AuthError) returns (r: Result<(), AuthError>)
      requires Valid() && model.pc == Activating(a, DropCancelled(cause)) && a.pending == pending && !cause.IsTerminal()
      modifies this`states, this`inputs, this`model, credentials`cache, credentials.platform
      ensures Valid() && EndedWith(a, Err(if r.Ok? then cause else r.error))
      ensures model.saved == if r.Ok? then WithoutExpected(old(model).saved, PendingActivation, pending) else old(model).saved
      ensures r.Err? ==> r.error.Store?
      ensures model.asked == old(model).asked && model.answered == old(model).answered
    {
      r := credentials.DeleteIf(PendingActivation, pending);
      Advance(Work(StoreEnv(r)), Next(model, Work(StoreEnv(r))));
    }

    method CleanupCancelledActivation(pending: Token, active: Option<Token>, ghost a: Activation, ghost cause: AuthError)
      returns (r: Result<(), AuthError>)
      requires Valid() && a.pending == pending && a.issued == active && !cause.IsTerminal()
      requires model.pc == Cleanup(model, a, cause).pc
      modifies this`states, this`inputs, this`model, credentials`cache, credentials.platform, api
      ensures Valid() && EndedWith(a, Err(if r.Ok? then cause else r.error))
      ensures api.asked == if active.Some? then old(api.asked) + [ToRevoke(active.value)] else old(api.asked)
      ensures api.answered == if active.Some? then old(api.answered) + [RevokeAnswer] else old(api.answered)
      ensures r.Err? ==> r.error.Store?
      ensures r.Ok? ==> credentials.Stored() == CleanedUp(old(credentials.Stored()), pending, active)
      ensures r.Err? && active.None? ==> credentials.Stored() == old(credentials.Stored())
    {
      if active.Some? {
        RevokeIssued(active.value, a, cause);
        r := DropIssuedCredential(active.value, a.(revoked := true), cause);
        if r.Err? {
          return;
        }
        r := DropPendingCredential(pending, a.(revoked := true), cause);
      } else {
        r := DropPendingCredential(pending, a, cause);
      }
    }

    /** Cleans up, then fails with `cause`, or with what the cleanup failed with. */
    method CleanupAndFail(pending: Token, active: Option<Token>, ghost a: Activation, cause: AuthError)
      returns (r: Result<(), AuthError>)
      requires Valid() && a.pending == pending && a.issued == active && !cause.IsTerminal()
      requires model.pc == Cleanup(model, a, cause).pc
      modifies this`states, this`inputs, this`model, credentials`cache, credentials.platform, api
      ensures Valid() && r.Err? && EndedWith(a, r)
      ensures api.asked == if active.Some? then old(api.asked) + [ToRevoke(active.value)] else old(api.asked)
      ensures api.answered == if active.Some? then old(api.answered) + [RevokeAnswer] else old(api.answered)
      ensures (r == Err(cause) && credentials.Stored() == CleanedUp(old(credentials.Stored()), pending, active))
              || (r.error.Store? && (active.None? ==> credentials.Stored() == old(credentials.Stored())))
    {
      var cleaned := CleanupCancelledActivation(pending, active, a, cause);
      r := Err(if cleaned.Ok? then cause else cleaned.error);
    }

    method RequestActivation(pending: Token, previous: Option<Token>, ghost a: Activation)
      returns (r: Result<Tokens, ApiError>, ghost b: Activation)
      requires Valid() && model.pc == Activating(a, AwaitTokens) && a.pending == pending && previous == model.saved.active
      modifies this`states, this`inputs, this`model, api
      ensures Valid() && model.saved == old(model).saved
      ensures api.asked == old(api.asked) + [ToActivateWith(pending, previous)] && api.answered == old(api.answered) + [TokensAnswer(r)]
      ensures r.Ok? ==>
                && b == a.(issued := Some(r.value.refresh))
                && model.pc == Activating(b, CheckAfterTokens(r.value.refused))
      ensures r.Err? ==> EndedWith(a, Err(Api(r.error)))
    {
      var replaced := if previous == Some(pending) then None else previous;
      r := api.PostActivate(pending, replaced);
      b := if r.Ok? then a.(issued := Some(r.value.refresh)) else a;
      Advance(Work(NOTHING.(tokens := r)), Next(model, Work(NOTHING.(tokens := r))));
    }

    method RequestAccount(ghost a: Activation) returns (r: Result<(), ApiError>)
      requires Valid() && model.pc == Activating(a, FetchAccount)
      modifies this`states, this`inputs, this`model, api
      ensures Valid()
      ensures model.saved == old(model).saved && api.asked == old(api.asked) + [ToReadAccount]
      ensures api.answered == old(api.answered) + [AccountAnswer(r)]
      ensures r.Ok? ==> model.pc == Activating(a, CheckAtEnd)
      ensures r.Err? ==> EndedWith(a, Err(Api(r.error)))
    {
      r := api.Account();
      Advance(Work(NOTHING.(account := r)), Next(model, Work(NOTHING.(account := r))));
    }

    /** `access_token`: is the bearer token one this app may use? */
    method ValidateAccessToken(tokens: Tokens, ghost a: Activation) returns (refused: Option<Refusal>)
      requires Valid() && model.pc == Activating(a, ValidateAccess(tokens.refused))
      modifies this`states, this`inputs, this`model
      ensures Valid() && refused == tokens.refused
      ensures model == if refused.Some? then Cleanup(old(model), a, Untrusted(refused.value))
                       else old(model).(pc := Activating(a, SaveIssued))
    {
      refused := tokens.refused;
      Advance(Work(NOTHING), Next(model, Work(NOTHING)));
    }

    /** From the machine's SavePending step to the end of this activation, whichever way it goes. */
    method Activate(pending: Token, expected: Option<nat>, ghost a: Activation) returns (r: Result<(), AuthError>)
      requires Valid() && model.pc == Activating(a, SavePending)
      requires a == Activation(pending, expected, a.clearOnTerminal, false, None, false)
      modifies this`generation, this`states, this`inputs, this`model, credentials`cache, credentials.platform, api
      ensures Valid() && EndedWith(a, r)
      ensures old(api.asked) <= api.asked && old(api.answered) <= api.answered
      ensures ActivationReport(pending, old(credentials.Stored()), credentials.Stored(), api.asked[|old(api.asked)|..], api.answered[|old(api.answered)|..], r)
      ensures r == Err(Cancelled) ==> expected.Some? && expected.value != generation
      ensures r.Ok? && expected.Some? ==> expected.value == generation
    {
      r := Save(PendingActivation, pending);
      if r.Err? {
        return;
      }
      var current := ExpectGeneration(expected, ReadPrevious);
      if !current {
        r := CleanupAndFail(pending, None, a, Cancelled);
        return;
      }
      var active := Read(Active);
      if active.Err? {
        return Err(active.error);
      }
      r := AskForActivation(pending, active.value, expected, a.(sent := true));
    }

    /** The pending credential is saved, and the login was still the current one. */
    method AskForActivation(pending: Token, previous: Option<Token>, expected: Option<nat>, ghost a: Activation)
      returns (r: Result<(), AuthError>)
      requires Valid() && model.pc == Activating(a, AwaitTokens) && previous == credentials.Stored().active
      requires a == Activation(pending, expected, a.clearOnTerminal, true, None, false)
      modifies this`generation, this`states, this`inputs, this`model, credentials`cache, credentials.platform, api
      ensures Valid() && EndedWith(a, r)
      ensures old(api.asked) <= api.asked && old(api.answered) <= api.answered
      ensures AskedReport(pending, old(credentials.Stored()), credentials.Stored(), api.asked[|old(api.asked)|..], api.answered[|old(api.answered)|..], r)
      ensures r == Err(Cancelled) ==> expected.Some? && expected.value != generation
      ensures r.Ok? && expected.Some? ==> expected.value == generation
    {
      ghost var waiting := credentials.Stored();
      var answer, b := RequestActivation(pending, previous, a);
      if answer.Err? {
        return Err(Api(answer.error));
      }
      r := AcceptTokens(pending, expected, answer.value, b);
      AskedThenIssued(pending, answer.value, waiting, credentials.Stored(),
                      old(api.asked), api.asked, old(api.answered), api.answered, r);
    }

    /** The second part of `activate`: the backend has issued `tokens`. */
    method AcceptTokens(pending: Token, expected: Option<nat>, tokens: Tokens, ghost a: Activation) returns (r: Result<(), AuthError>)
      requires Valid() && model.pc == Activating(a, CheckAfterTokens(tokens.refused))
      requires a.pending == pending && a.expected == expected && a.issued == Some(tokens.refresh)
      modifies this`generation, this`states, this`inputs, this`model, credentials`cache, credentials.platform, api
      ensures Valid() && EndedWith(a, r)
      ensures r.Ok? ==> model.pc.of.value.issued == Some(tokens.refresh)
      ensures old(api.asked) <= api.asked && old(api.answered) <= api.answered
      ensures IssuedReport(pending, tokens, old(credentials.Stored()), credentials.Stored(), api.asked[|old(api.asked)|..], api.answered[|old(api.answered)|..], r)
      ensures r == Err(Cancelled) ==> expected.Some? && expected.value != generation
      ensures r.Ok? && expected.Some? ==> expected.value == generation
    {
      var current := ExpectGeneration(expected, ValidateAccess(tokens.refused));
      if !current {
        r := CleanupAndFail(pending, Some(tokens.refresh), a, Cancelled);
        return;
      }
      var refused := ValidateAccessToken(tokens, a);
      if refused.Some? {
        r := CleanupAndFail(pending, Some(tokens.refresh), a, Untrusted(refused.value));
        return;
      }
      r := SaveIssuedCredential(pending, expected, tokens, a);
    }

    /** The third part: the access token is trusted. */
    method SaveIssuedCredential(pending: Token, expected: Option<nat>, tokens: Tokens, ghost a: Activation) returns (r: Result<(), AuthError>)
      requires Valid() && model.pc == Activating(a, SaveIssued) && tokens.refused.None?
      requires a.pending == pending && a.expected == expected && a.issued == Some(tokens.refresh)
      modifies this`generation, this`states, this`inputs, this`model, credentials`cache, credentials.platform, api
      ensures Valid() && EndedWith(a, r)
      ensures r.Ok? ==> model.pc.of.value.issued == Some(tokens.refresh)
      ensures old(api.asked) <= api.asked && old(api.answered) <= api.answered
      ensures IssuedReport(pending, tokens, old(credentials.Stored()), credentials.Stored(), api.asked[|old(api.asked)|..], api.answered[|old(api.answered)|..], r)
      ensures r == Err(Cancelled) ==> expected.Some? && expected.value != generation
      ensures r.Ok? && expected.Some? ==> expected.value == generation
    {
      r := Save(Active, tokens.refresh);
      if r.Err? {
        return;
      }
      var current := ExpectGeneration(expected, DropPending);
      if !current {
        r := CleanupAndFail(pending, Some(tokens.refresh), a, Cancelled);
        return;
      }
      r := SettleActivation(pending, expected, tokens, a);
    }

    /** The last part of `activate`: the issued credential is saved as the active one. */
    method SettleActivation(pending: Token, expected: Option<nat>, tokens: Tokens, ghost a: Activation) returns (r: Result<(), AuthError>)
      requires Valid() && model.pc == Activating(a, DropPending)
      requires a.pending == pending && a.expected == expected && a.issued == Some(tokens.refresh)
      modifies this`generation, this`states, this`inputs, this`model, credentials`cache, credentials.platform, api
      ensures Valid() && EndedWith(a, r)
      ensures r.Ok? ==>
                && model.pc.of == Some(a)
                && credentials.Stored() == old(credentials.Stored()).(pendingActivation := None)
                && api.asked == old(api.asked) + [ToReadAccount]
      ensures old(api.asked) <= api.asked && old(api.answered) <= api.answered
      ensures SettleReport(pending, tokens, old(credentials.Stored()), credentials.Stored(), api.asked[|old(api.asked)|..], api.answered[|old(api.answered)|..], r)
      ensures r == Err(Cancelled) ==> expected.Some? && expected.value != generation
      ensures r.Ok? && expected.Some? ==> expected.value == generation
    {
      r := Drop(PendingActivation);
      if r.Err? {
        return;
      }
      var account := RequestAccount(a);
      if account.Err? {
        return Err(Api(account.error));
      }
      var current := ExpectGenerationAtEnd(expected);
      if !current {
        r := CleanupAndFail(pending, Some(tokens.refresh), a, Cancelled);
      }
    }

    /** What a caller of `activate` may rely on, read off the saved slots. */
    lemma ActivationIsSaved(call: Activation, r: Result<(), AuthError>)
      requires Valid() && EndedWith(call, r)
      ensures r == Err(Cancelled) ==> credentials.Stored().pendingActivation != Some(call.pending)
      ensures r.Ok? ==>
                && credentials.Stored().pendingActivation.None?
                && model.pc.of.value.issued.Some? && credentials.Stored().active == model.pc.of.value.issued
      ensures r == Err(Cancelled) && model.pc.of.value.issued.Some? ==>
                model.pc.of.value.revoked && ToRevoke(model.pc.of.value.issued.value) in api.asked
                && credentials.Stored().active != model.pc.of.value.issued
    {
      ModelIsRun();
      ActivationOutcome(origin, inputs);
    }

    // ---- refresh ------------------------------------------------------------

    ghost predicate RefreshEnded(orClear: bool, r: Result<(), AuthError>)
      reads this
    {
      match r
      case Ok(_) => model.pc == Done(Success, None)
      case Err(e) => model.pc == if orClear && e.IsTerminal() then Clearing(e, None) else Done(Failure(e), None)
    }

    method RequestPrepared(current: Token, ghost orClear: bool) returns (r: Result<Token, ApiError>)
      requires Valid() && model.pc == Refreshing(orClear, Prepare(current))
      modifies this`states, this`inputs, this`model, api
      ensures Valid() && model.saved == old(model).saved
      ensures r.Ok? ==> model.pc == Refreshing(orClear, SavePrepared(current, r.value))
      ensures r.Err? ==> RefreshEnded(orClear, Err(Api(r.error)))
      ensures api.asked == old(api.asked) + [ToPrepare(current)] && api.answered == old(api.answered) + [PreparedAnswer(r)]
    {
      r := api.PostRefresh(current);
      Advance(Work(NOTHING.(prepared := r)), Next(model, Work(NOTHING.(prepared := r))));
    }

    method RequestCommit(prepared: Token, ghost orClear: bool) returns (r: Result<Tokens, ApiError>)
      requires Valid() && model.pc == Refreshing(orClear, Commit(prepared))
      modifies this`states, this`inputs, this`model, api
      ensures Valid() && model.saved == old(model).saved
      ensures r.Ok? ==> model.pc == Refreshing(orClear, CheckRotated(prepared, r.value))
      ensures r.Err? ==> RefreshEnded(orClear, Err(Api(r.error)))
      ensures api.asked == old(api.asked) + [ToCommit(prepared)] && api.answered == old(api.answered) + [TokensAnswer(r)]
      ensures r.Ok? ==> (prepared, r.value.refresh) in model.ledger.committed
    {
      r := api.PostCommit(prepared);
      Advance(Work(NOTHING.(tokens := r)), Next(model, Work(NOTHING.(tokens := r))));
    }

    method ValidateRotatedToken(prepared: Token, tokens: Tokens, ghost orClear: bool) returns (r: Result<(), AuthError>)
      requires Valid() && model.pc == Refreshing(orClear, CheckRotated(prepared, tokens))
      modifies this`states, this`inputs, this`model
      ensures Valid() && model.saved == old(model).saved && model.ledger == old(model).ledger
      ensures r.Ok? ==> model.pc == Refreshing(orClear, SaveRotated(prepared, tokens.refresh))
      ensures r.Err? ==> r.error.Untrusted? && RefreshEnded(orClear, r)
      ensures r == if tokens.refused.Some? then Err(Untrusted(tokens.refused.value)) else Ok(())
      ensures model.asked == old(model).asked && model.answered == old(model).answered
    {
      r := if tokens.refused.Some? then Err(Untrusted(tokens.refused.value)) else Ok(());
      Advance(Work(NOTHING), Next(model, Work(NOTHING)));
    }

    /** From the machine's ReadActive step to the end of this refresh; a terminal error of refresh_or_clear is still to be followed by a clear. */
    method Refresh(ghost orClear: bool) returns (r: Result<(), AuthError>)
      requires Valid() && model.pc == Refreshing(orClear, ReadActive)
      modifies this`states, this`inputs, this`model, credentials`cache, credentials.platform, api
      ensures Valid() && RefreshEnded(orClear, r)
      ensures old(api.asked) <= api.asked && old(api.answered) <= api.answered
      ensures RefreshReport(old(credentials.Stored()), credentials.Stored(), api.asked[|old(api.asked)|..], api.answered[|old(api.answered)|..], r)
    {
      var current := Read(Active);
      if current.Err? {
        return Err(current.error);
      }
      if current.value.None? {
        return Err(NoCredential);
      }
      var prepared := PrepareCredential(current.value.value, orClear);
      if prepared.Err? {
        return Err(prepared.error);
      }
      ghost var found := api.asked == old(api.asked);
      r := CommitPrepared(prepared.value, orClear);
      if found {
        FoundThenCommitted(old(credentials.Stored()), credentials.Stored(),
                           old(api.asked), api.asked, old(api.answered), api.answered, prepared.value, r);
      } else {
        PreparedThenCommitted(old(credentials.Stored()), credentials.Stored(),
                              old(api.asked), api.asked, old(api.answered), api.answered, prepared.value, r);
      }
    }

    /** The first half of `refresh`: find what to commit, or have it prepared and save it. */
    method PrepareCredential(current: Token, ghost orClear: bool) returns (r: Result<Token, AuthError>)
      requires Valid() && model.pc == Refreshing(orClear, ReadPrepared(current))
      modifies this`states, this`inputs, this`model, credentials`cache, credentials.platform, api
      ensures Valid()
      ensures if r.Ok? then model.pc == Refreshing(orClear, Commit(r.value)) else RefreshEnded(orClear, Err(r.error))
      ensures old(api.asked) <= api.asked && old(api.answered) <= api.answered
      ensures PrepareReport(old(credentials.Stored()), credentials.Stored(), current, api.asked[|old(api.asked)|..], api.answered[|old(api.answered)|..], r)
    {
      var saved := Read(PendingRefresh);
      if saved.Err? {
        return Err(saved.error);
      }
      if saved.value.Some? {
        return Ok(saved.value.value);
      }
      var response := RequestPrepared(current, orClear);
      if response.Err? {
        return Err(Api(response.error));
      }
      var kept := Save(PendingRefresh, response.value);
      if kept.Err? {
        return Err(kept.error);
      }
      r := Ok(response.value);
    }

    /** The second half of `refresh`: commit what is saved as prepared. */
    method CommitPrepared(prepared: Token, ghost orClear: bool) returns (r: Result<(), AuthError>)
      requires Valid() && model.pc == Refreshing(orClear, Commit(prepared))
      modifies this`states, this`inputs, this`model, credentials`cache, credentials.platform, api
      ensures Valid() && RefreshEnded(orClear, r)
      ensures r.Ok? ==>
                && credentials.Stored().active.Some? && (prepared, credentials.Stored().active.value) in model.ledger.committed
                && credentials.Stored() == old(credentials.Stored()).(active := credentials.Stored().active, pendingRefresh := None)
                && api.asked == old(api.asked) + [ToCommit(prepared)]
      ensures old(api.asked) <= api.asked && old(api.answered) <= api.answered
      ensures CommitReport(old(credentials.Stored()), credentials.Stored(), prepared, api.asked[|old(api.asked)|..], api.answered[|old(api.answered)|..], r)
    {
      var tokens := RequestCommit(prepared, orClear);
      if tokens.Err? {
        return Err(Api(tokens.error));
      }
      r := ValidateRotatedToken(prepared, tokens.value, orClear);
      if r.Err? {
        return;
      }
      r := Save(Active, tokens.value.refresh);
      if r.Err? {
        return;
      }
      r := Drop(PendingRefresh);
    }

    /** `credentials.clear()`, after a terminal error or at the end of a logout. */
    method ClearCredentials(ghost result: Outcome) returns (r: Result<(), AuthError>)
      requires Valid()
      requires if model.pc.Clearing? then result == Failure(model.pc.error)
               else model.pc == LoggingOut(ClearAll) && result == Success
      modifies this`states, this`inputs, this`model, credentials`cache, credentials.platform
      ensures Valid()
      ensures r.Ok? ==> model == old(model).(saved := EMPTY, pc := Done(result, None))
      ensures r.Err? ==> r.error.Store? && model == old(model).(pc := Done(Failure(r.error), None))
      ensures var failed := credentials.platform.failures - old(credentials.platform.failures); failed >= 0 && (r.Err? ==> failed > 0)
    {
      r := credentials.Clear();
      Advance(Work(StoreEnv(r)), Next(model, Work(StoreEnv(r))));
    }

    /** A refresh that ends with empty slots when its error is terminal. */
    method RefreshOrClear() returns (r: Result<(), AuthError>, ghost refreshed: Result<(), AuthError>, ghost between: Slots)
      requires Valid() && model.pc == Refreshing(true, ReadActive)
      modifies this`states, this`inputs, this`model, credentials`cache, credentials.platform, api
      ensures Valid() && model.pc == Done(if r.Ok? then Success else Failure(r.error), None)
      ensures r.Err? && r.error.IsTerminal() ==> credentials.Stored() == EMPTY
      ensures old(api.asked) <= api.asked && old(api.answered) <= api.answered
      ensures RefreshReport(old(credentials.Stored()), between, api.asked[|old(api.asked)|..], api.answered[|old(api.answered)|..], refreshed)
      ensures if refreshed.Ok? || !refreshed.error.IsTerminal() then r == refreshed && credentials.Stored() == between
              else if r == refreshed then credentials.Stored() == EMPTY
              else r.Err? && r.error.Store? && credentials.Stored() == between
    {
      r := Refresh(true);
      refreshed, between := r, credentials.Stored();
      if r.Err? && r.error.IsTerminal() {
        var cleared := ClearCredentials(Failure(r.error));
        if cleared.Err? {
          r := cleared;
        }
      }
    }

    /**
      From the slots `was`, a restore has gone through with these requests and answers: an
      unsettled pending credential was activated, a settled one dropped, and then the
      session refreshed or nothing asked.
     */
    ghost predicate Restored(was: Slots, asked: seq<Request>, answered: seq<Answer>, signedIn: bool)
      reads this, credentials, credentials.platform
    {
      if was.pendingActivation.Some? && was.pendingActivation != was.active then
        signedIn && ActivationReport(was.pendingActivation.value, was, credentials.Stored(), asked, answered, Ok(()))
      else if was.active.Some? then
        signedIn && RefreshReport(was.(pendingActivation := None), credentials.Stored(), asked, answered, Ok(()))
      else
        !signedIn && credentials.Stored() == was && asked == [] && answered == []
    }

    /** The start of the application: an activation goes before a refresh, and `false` stands for no login at all. */
    method Restore() returns (r: Result<bool, AuthError>)
      requires Valid() && model.pc == Restoring(FindPending)
      modifies this`generation, this`states, this`inputs, this`model, credentials`cache, credentials.platform, api
      ensures Valid() && model.pc.Done?
      ensures model.pc.outcome == match r { case Ok(signedIn) => if signedIn then Success else SignedOut case Err(e) => Failure(e) }
      ensures r.Err? && r.error.IsTerminal() ==> credentials.Stored() == EMPTY
      ensures r == Ok(false) ==> credentials.Stored().active.None?
      ensures old(api.asked) <= api.asked && old(api.answered) <= api.answered
      ensures r.Ok? ==> Restored(old(credentials.Stored()), api.asked[|old(api.asked)|..], api.answered[|old(api.answered)|..], r.value)
    {
      var pending := Read(PendingActivation);
      if pending.Err? {
        return Err(pending.error);
      }
      if pending.value.Some? {
        var active := Read(Active);
        if active.Err? {
          return Err(active.error);
        }
        if active.value == pending.value {
          var settled := Drop(PendingActivation);
          if settled.Err? {
            return Err(settled.error);
          }
        } else {
          r := ResumeActivation(pending.value.value);
          return;
        }
      }
      r := ResumeSession();
    }

    /** The part of `restore` that refreshes the session, if there is one. */
    method ResumeSession() returns (r: Result<bool, AuthError>)
      requires Valid() && model.pc == Restoring(FindActive)
      modifies this`states, this`inputs, this`model, credentials`cache, credentials.platform, api
      ensures Valid() && model.pc.Done?
      ensures model.pc.outcome == match r { case Ok(signedIn) => if signedIn then Success else SignedOut case Err(e) => Failure(e) }
      ensures r.Err? && r.error.IsTerminal() ==> credentials.Stored() == EMPTY
      ensures old(api.asked) <= api.asked && old(api.answered) <= api.answered
      ensures r == Ok(true) ==> RefreshReport(old(credentials.Stored()), credentials.Stored(), api.asked[|old(api.asked)|..], api.answered[|old(api.answered)|..], Ok(()))
      ensures r == Ok(false) ==>
                old(credentials.Stored()).active.None? && credentials.Stored() == old(credentials.Stored())
                && api.asked == old(api.asked) && api.answered == old(api.answered)
      ensures r == Ok(true) ==> old(credentials.Stored()).active.Some?
    {
      var active := Read(Active);
      if active.Err? {
        return Err(active.error);
      }
      if active.value.None? {
        return Ok(false);
      }
      var refreshed, _, _ := RefreshOrClear();
      r := if refreshed.Ok? then Ok(true) else Err(refreshed.error);
    }

    /** The part of `restore` that finishes an interrupted activation. */
    method ResumeActivation(pending: Token) returns (r: Result<bool, AuthError>)
      requires Valid() && model.pc == Activating(Activation(pending, None, true, false, None, false), SavePending)
      modifies this`generation, this`states, this`inputs, this`model, credentials`cache, credentials.platform, api
      ensures Valid() && model.pc.Done?
      ensures r != Ok(false) && model.pc.outcome == if r.Ok? then Success else Failure(r.error)
      ensures r.Err? && r.error.IsTerminal() ==> credentials.Stored() == EMPTY
      ensures old(api.asked) <= api.asked && old(api.answered) <= api.answered
      ensures r.Ok? ==> ActivationReport(pending, old(credentials.Stored()), credentials.Stored(), api.asked[|old(api.asked)|..], api.answered[|old(api.answered)|..], Ok(()))
    {
      var activated := Activate(pending, None, Activation(pending, None, true, false, None, false));
      if activated.Err? {
        if activated.error.IsTerminal() {
          var cleared := ClearCredentials(Failure(activated.error));
          if cleared.Err? {
            return Err(cleared.error);
          }
        }
        return Err(activated.error);
      }
      r := Ok(true);
    }

    /**
      Whatever the revocation answers, only the store decides whether this succeeds. The
      revocation is asked for if the credential can be read: no store call fails, but for the
      one that makes the final clear fail.
     */
    method Logout() returns (r: Result<(), AuthError>)
      requires Valid() && model.pc == LoggingOut(CancelLogins)
      modifies this`generation, this`states, this`inputs, this`model, credentials`cache, credentials.platform, api
      ensures Valid() && generation > old(generation)
      ensures model.pc == Done(if r.Ok? then Success else Failure(r.error), None)
      ensures credentials.Stored() == if r.Ok? then EMPTY else old(credentials.Stored())
      ensures var active := old(credentials.Stored()).active;
              || api.asked == old(api.asked)
              || (active.Some? && api.asked == old(api.asked) + [ToRevoke(active.value)])
      ensures var failed := credentials.platform.failures - old(credentials.platform.failures);
              failed <= (if r.Err? then 1 else 0) && old(credentials.Stored()).active.Some? ==> api.asked != old(api.asked)
    {
      generation := generation + 1;
      Advance(Work(NOTHING), model.(generation := generation, pc := LoggingOut(FindSession)));
      var active := credentials.Get(Active);
      Advance(Work(StoreEnv(active)), Next(model, Work(StoreEnv(active))));
      if active.Ok? && active.value.Some? {
        var _ := api.PostRevoke(active.value.value);
        Advance(Work(NOTHING), Next(model, Work(NOTHING)));
      }
      r := ClearCredentials(Success);
    }

    /** One public operation: takes the credential lock and runs to its end. */
    method Perform(op: Op) returns (outcome: Outcome)
      requires Valid() && model.pc.IsReady()
      modifies this`generation, this`states, this`inputs, this`model, credentials`cache, credentials.platform, api
      ensures Valid() && model.pc.Done? && model.pc.outcome == outcome
    {
      Lock(op);
      match op {
        case Activate(pending, expected) =>
          var r := Activate(pending, expected, Activation(pending, expected, false, false, None, false));
          outcome := if r.Ok? then Success else Failure(r.error);
        case Refresh =>
          var r := Refresh(false);
          outcome := if r.Ok? then Success else Failure(r.error);
        case RefreshOrClear =>
          var r, _, _ := RefreshOrClear();
          outcome := if r.Ok? then Success else Failure(r.error);
        case Restore =>
          var r := Restore();
          outcome := match r case Ok(signedIn) => (if signedIn then Success else SignedOut) case Err(e) => Failure(e);
        case Logout =>
          var r := Logout();
          outcome := if r.Ok? then Success else Failure(r.error);
      }
    }
  }
}
