/**
  The credential protocol of crates/account/src/auth.rs as a machine: activation,
  refresh, restore and logout, one saved-credential or backend step at a time.

  `Next` consumes one input: a step of the operation that holds the credential lock
  (with everything the environment decides about it), a `cancel` or `start` by another
  task, a crash, or the next operation. A run is a fold of `Next` over any sequence of
  inputs, so a statement about every input sequence is about every interleaving, every
  crash point and every failed store call.
 */
module AuthProtocol {
  import opened Wrappers
  import opened Errors
  import opened Credentials

  /** An answered activation or commit; `refused` says why its access token is not trusted, if it is not. */
  datatype Tokens = Tokens(refresh: Token, refused: Option<Refusal>)

  /** What the environment decides about one step; each step looks at the part it needs. */
  datatype Env = Env(
    store: Option<StoreError>,
    tokens: Result<Tokens, ApiError>,
    prepared: Result<Token, ApiError>,
    account: Result<(), ApiError>)

  datatype Op =
    | Activate(pending: Token, expected: Option<nat>)
    | Refresh
    | RefreshOrClear
    | Restore
    | Logout

  datatype Input = Work(env: Env) | Bump | Crash | Begin(op: Op)

  datatype Outcome = Success | SignedOut | Failure(error: AuthError)

  /** One call of `activate`: its arguments, and what has happened in it so far. */
  datatype Activation = Activation(
    pending: Token,
    expected: Option<nat>,
    clearOnTerminal: bool,
    sent: bool,
    issued: Option<Token>,
    revoked: bool)

  datatype ActivateStep =
    | SavePending
    | CheckBeforeRequest
    | ReadPrevious
    | AwaitTokens
    | CheckAfterTokens(refused: Option<Refusal>)
    | ValidateAccess(refused: Option<Refusal>)
    | SaveIssued
    | CheckAfterSave
    | DropPending
    | FetchAccount
    | CheckAtEnd
    | Revoke(error: AuthError)
    | DropIssued(error: AuthError)
    | DropCancelled(error: AuthError)

  datatype RefreshStep =
    | ReadActive
    | ReadPrepared(current: Token)
    | Prepare(current: Token)
    | SavePrepared(current: Token, prepared: Token)
    | Commit(prepared: Token)
    | CheckRotated(prepared: Token, tokens: Tokens)
    | SaveRotated(prepared: Token, rotated: Token)
    | DropPrepared(prepared: Token, rotated: Token)

  datatype RestoreStep = FindPending | ComparePending(pending: Token) | DropSettled | FindActive

  datatype LogoutStep = CancelLogins | FindSession | RevokeSession | ClearAll

  datatype Pc =
    | Idle
    | Activating(activation: Activation, activate: ActivateStep)
    | Refreshing(orClear: bool, refresh: RefreshStep)
    | Restoring(restore: RestoreStep)
    | LoggingOut(logout: LogoutStep)
    | Clearing(error: AuthError, after: Option<Activation>)
    | Done(outcome: Outcome, of: Option<Activation>)
    | Down(interrupted: Option<Activation>)
  {
    /** No operation holds the credential lock. */
    predicate IsReady() {
      Idle? || Done? || Down?
    }
  }

  /** What the backend has answered: which credential a prepared one came from, and what its commit issued. */
  datatype Ledger = Ledger(preparedFrom: set<(Token, Token)>, committed: set<(Token, Token)>)

  /** What is asked of the backend. */
  datatype Request =
    | ToActivate(pending: Token, replaced: Option<Token>)
    | ToReadAccount
    | ToPrepare(current: Token)
    | ToCommit(prepared: Token)
    | ToRevoke(refresh: Token)

  /** What comes back for a request. Nobody looks at how a revocation went. */
  datatype Answer =
    | TokensAnswer(tokens: Result<Tokens, ApiError>)
    | PreparedAnswer(prepared: Result<Token, ApiError>)
    | AccountAnswer(account: Result<(), ApiError>)
    | RevokeAnswer

  /** `asked`: the requests that came back so far, in order; `answered`: what came back for each. */
  datatype State = State(saved: Slots, generation: nat, pc: Pc, ledger: Ledger, asked: seq<Request>, answered: seq<Answer>)

  // ---- Steps ----------------------------------------------------------

  /** Whether saving `value` fails, and how. */
  function SaveError(env: Env, value: Token): Option<AuthError> {
    if |value| > MAX_REFRESH_TOKEN_LEN then
      Some(Untrusted(CredentialTooLarge))
    else
      CallError(env)
  }

  function CallError(env: Env): Option<AuthError> {
    match env.store
    case None => None
    case Some(error) => Some(Store(error))
  }

  predicate Expects(s: State, a: Activation) {
    a.expected.None? || a.expected.value == s.generation
  }

  function FailActivation(s: State, a: Activation, error: AuthError): State {
    s.(pc := if a.clearOnTerminal && error.IsTerminal() then Clearing(error, Some(a)) else Done(Failure(error), Some(a)))
  }

  /** `cleanup_cancelled_activation`: revoke and drop what was issued, then drop the pending credential. */
  function Cleanup(s: State, a: Activation, error: AuthError): State {
    s.(pc := Activating(a, if a.issued.Some? then Revoke(error) else DropCancelled(error)))
  }

  function NextActivate(s: State, a: Activation, step: ActivateStep, env: Env): State {
    match step
    case SavePending =>
      var error := SaveError(env, a.pending);
      if error.Some? then FailActivation(s, a, error.value)
      else s.(saved := s.saved.Put(PendingActivation, Some(a.pending)), pc := Activating(a, CheckBeforeRequest))
    case CheckBeforeRequest =>
      if !Expects(s, a) then Cleanup(s, a, Cancelled) else s.(pc := Activating(a, ReadPrevious))
    case ReadPrevious =>
      var error := CallError(env);
      if error.Some? then FailActivation(s, a, error.value)
      else s.(pc := Activating(a.(sent := true), AwaitTokens))
    case AwaitTokens =>
      (match env.tokens
       case Err(error) => FailActivation(s, a, Api(error))
       case Ok(tokens) => s.(pc := Activating(a.(issued := Some(tokens.refresh)), CheckAfterTokens(tokens.refused))))
    case CheckAfterTokens(refused) =>
      if !Expects(s, a) then Cleanup(s, a, Cancelled) else s.(pc := Activating(a, ValidateAccess(refused)))
    case ValidateAccess(refused) =>
      if refused.Some? then Cleanup(s, a, Untrusted(refused.value)) else s.(pc := Activating(a, SaveIssued))
    case SaveIssued =>
      if a.issued.None? then s else
      var error := SaveError(env, a.issued.value);
      if error.Some? then FailActivation(s, a, error.value)
      else s.(saved := s.saved.Put(Active, a.issued), pc := Activating(a, CheckAfterSave))
    case CheckAfterSave =>
      if !Expects(s, a) then Cleanup(s, a, Cancelled) else s.(pc := Activating(a, DropPending))
    case DropPending =>
      var error := CallError(env);
      if error.Some? then FailActivation(s, a, error.value)
      else s.(saved := s.saved.Put(PendingActivation, None), pc := Activating(a, FetchAccount))
    case FetchAccount =>
      (match env.account
       case Err(error) => FailActivation(s, a, Api(error))
       case Ok(_) => s.(pc := Activating(a, CheckAtEnd)))
    case CheckAtEnd =>
      if !Expects(s, a) then Cleanup(s, a, Cancelled) else s.(pc := Done(Success, Some(a)))
    case Revoke(cause) =>
      s.(pc := Activating(a.(revoked := true), DropIssued(cause)))
    case DropIssued(cause) =>
      if a.issued.None? then s else
      var error := CallError(env);
      if error.Some? then FailActivation(s, a, error.value)
      else s.(saved := WithoutExpected(s.saved, Active, a.issued.value), pc := Activating(a, DropCancelled(cause)))
    case DropCancelled(cause) =>
      var error := CallError(env);
      if error.Some? then FailActivation(s, a, error.value)
      else FailActivation(s.(saved := WithoutExpected(s.saved, PendingActivation, a.pending)), a, cause)
  }

  function FailRefresh(s: State, orClear: bool, error: AuthError): State {
    s.(pc := if orClear && error.IsTerminal() then Clearing(error, None) else Done(Failure(error), None))
  }

  function NextRefresh(s: State, orClear: bool, step: RefreshStep, env: Env): State {
    match step
    case ReadActive =>
      var error := CallError(env);
      if error.Some? then FailRefresh(s, orClear, error.value)
      else if s.saved.active.None? then FailRefresh(s, orClear, NoCredential)
      else s.(pc := Refreshing(orClear, ReadPrepared(s.saved.active.value)))
    case ReadPrepared(current) =>
      var error := CallError(env);
      if error.Some? then FailRefresh(s, orClear, error.value)
      else if s.saved.pendingRefresh.Some? then s.(pc := Refreshing(orClear, Commit(s.saved.pendingRefresh.value)))
      else s.(pc := Refreshing(orClear, Prepare(current)))
    case Prepare(current) =>
      (match env.prepared
       case Err(error) => FailRefresh(s, orClear, Api(error))
       case Ok(prepared) =>
         s.(pc := Refreshing(orClear, SavePrepared(current, prepared)),
            ledger := s.ledger.(preparedFrom := s.ledger.preparedFrom + {(prepared, current)})))
    case SavePrepared(current, prepared) =>
      var error := SaveError(env, prepared);
      if error.Some? then FailRefresh(s, orClear, error.value)
      else s.(saved := s.saved.Put(PendingRefresh, Some(prepared)), pc := Refreshing(orClear, Commit(prepared)))
    case Commit(prepared) =>
      (match env.tokens
       case Err(error) => FailRefresh(s, orClear, Api(error))
       case Ok(tokens) =>
         s.(pc := Refreshing(orClear, CheckRotated(prepared, tokens)),
            ledger := s.ledger.(committed := s.ledger.committed + {(prepared, tokens.refresh)})))
    case CheckRotated(prepared, tokens) =>
      if tokens.refused.Some? then FailRefresh(s, orClear, Untrusted(tokens.refused.value))
      else s.(pc := Refreshing(orClear, SaveRotated(prepared, tokens.refresh)))
    case SaveRotated(prepared, rotated) =>
      var error := SaveError(env, rotated);
      if error.Some? then FailRefresh(s, orClear, error.value)
      else s.(saved := s.saved.Put(Active, Some(rotated)), pc := Refreshing(orClear, DropPrepared(prepared, rotated)))
    case DropPrepared(_, _) =>
      var error := CallError(env);
      if error.Some? then FailRefresh(s, orClear, error.value)
      else s.(saved := s.saved.Put(PendingRefresh, None), pc := Done(Success, None))
  }

  function Fail(s: State, error: AuthError): State {
    s.(pc := Done(Failure(error), None))
  }

  function NextRestore(s: State, step: RestoreStep, env: Env): State {
    var error := CallError(env);
    if error.Some? then Fail(s, error.value) else
    match step
    case FindPending =>
      s.(pc := Restoring(if s.saved.pendingActivation.Some? then ComparePending(s.saved.pendingActivation.value) else FindActive))
    case ComparePending(pending) =>
      if s.saved.active == Some(pending) then s.(pc := Restoring(DropSettled))
      else s.(pc := Activating(Activation(pending, None, true, false, None, false), SavePending))
    case DropSettled =>
      s.(saved := s.saved.Put(PendingActivation, None), pc := Restoring(FindActive))
    case FindActive =>
      s.(pc := if s.saved.active.None? then Done(SignedOut, None) else Refreshing(true, ReadActive))
  }

  function NextLogout(s: State, step: LogoutStep, env: Env): State {
    match step
    case CancelLogins => s.(generation := s.generation + 1, pc := LoggingOut(FindSession))
    case FindSession =>
      s.(pc := LoggingOut(if env.store.None? && s.saved.active.Some? then RevokeSession else ClearAll))
    case RevokeSession => s.(pc := LoggingOut(ClearAll))
    case ClearAll =>
      var error := CallError(env);
      if error.Some? then Fail(s, error.value) else s.(saved := EMPTY, pc := Done(Success, None))
  }

  function NextClear(s: State, cause: AuthError, env: Env): State {
    var error := CallError(env);
    if error.Some? then Fail(s, error.value) else s.(saved := EMPTY, pc := Done(Failure(cause), None))
  }

  function Start(s: State, op: Op): State {
    match op
    case Activate(pending, expected) =>
      s.(pc := Activating(Activation(pending, expected, false, false, None, false), SavePending))
    case Refresh => s.(pc := Refreshing(false, ReadActive))
    case RefreshOrClear => s.(pc := Refreshing(true, ReadActive))
    case Restore => s.(pc := Restoring(FindPending))
    case Logout => s.(pc := LoggingOut(CancelLogins))
  }

  /** The activation under way, or the one that has just ended. */
  function CurrentActivation(pc: Pc): Option<Activation> {
    match pc
    case Activating(a, _) => Some(a)
    case Clearing(_, after) => after
    case Done(_, of) => of
    case Down(interrupted) => interrupted
    case _ => None
  }

  /** The requests that came back by the end of a step. */
  function AskedAfter(s: State, input: Input): seq<Request> {
    if !input.Work? then s.asked else
    match s.pc
    case Activating(a, AwaitTokens) =>
      s.asked + [ToActivate(a.pending, if s.saved.active == Some(a.pending) then None else s.saved.active)]
    case Activating(_, FetchAccount) => s.asked + [ToReadAccount]
    case Activating(a, Revoke(_)) => if a.issued.Some? then s.asked + [ToRevoke(a.issued.value)] else s.asked
    case Refreshing(_, Prepare(current)) => s.asked + [ToPrepare(current)]
    case Refreshing(_, Commit(prepared)) => s.asked + [ToCommit(prepared)]
    case LoggingOut(RevokeSession) =>
      if s.saved.active.Some? then s.asked + [ToRevoke(s.saved.active.value)] else s.asked
    case _ => s.asked
  }

  /** What came back for them. */
  function AnsweredAfter(s: State, input: Input): seq<Answer> {
    if !input.Work? then s.answered else
    match s.pc
    case Activating(_, AwaitTokens) => s.answered + [TokensAnswer(input.env.tokens)]
    case Activating(_, FetchAccount) => s.answered + [AccountAnswer(input.env.account)]
    case Activating(a, Revoke(_)) => if a.issued.Some? then s.answered + [RevokeAnswer] else s.answered
    case Refreshing(_, Prepare(_)) => s.answered + [PreparedAnswer(input.env.prepared)]
    case Refreshing(_, Commit(_)) => s.answered + [TokensAnswer(input.env.tokens)]
    case LoggingOut(RevokeSession) => if s.saved.active.Some? then s.answered + [RevokeAnswer] else s.answered
    case _ => s.answered
  }

  /** The error the backend answers to a step that asks it something. */
  function AnswerAt(s: State, input: Input): Option<ApiError> {
    if !input.Work? then None else
    match s.pc
    case Activating(_, AwaitTokens) => ErrorOf(input.env.tokens)
    case Activating(_, FetchAccount) => ErrorOf(input.env.account)
    case Refreshing(_, Prepare(_)) => ErrorOf(input.env.prepared)
    case Refreshing(_, Commit(_)) => ErrorOf(input.env.tokens)
    case _ => None
  }

  function ErrorOf<T>(r: Result<T, ApiError>): Option<ApiError> {
    match r
    case Ok(_) => None
    case Err(e) => Some(e)
  }

  function Next(s: State, input: Input): State {
    Moved(s, input).(asked := AskedAfter(s, input), answered := AnsweredAfter(s, input))
  }

  /** A step, but for the request it makes. */
  function Moved(s: State, input: Input): State {
    match input
    case Bump => s.(generation := s.generation + 1)
    case Crash => s.(pc := Down(CurrentActivation(s.pc)), generation := 0)
    case Begin(op) => if s.pc.IsReady() then Start(s, op) else s
    case Work(env) =>
      match s.pc
      case Activating(a, step) => NextActivate(s, a, step, env)
      case Refreshing(orClear, step) => NextRefresh(s, orClear, step, env)
      case Restoring(step) => NextRestore(s, step, env)
      case LoggingOut(step) => NextLogout(s, step, env)
      case Clearing(error, _) => NextClear(s, error, env)
      case Idle | Done(_, _) | Down(_) => s
  }

  /** The state after `inputs`, one after the other. */
  function Run(s: State, inputs: seq<Input>): State {
    if inputs == [] then s else Next(Run(s, inputs[..|inputs| - 1]), inputs[|inputs| - 1])
  }

  /** A run written down state by state. */
  ghost predicate IsTrace(states: seq<State>, inputs: seq<Input>) {
    && |states| == |inputs| + 1
    && forall i :: 0 <= i < |inputs| ==> states[i + 1] == Next(states[i], inputs[i])
  }

  lemma {:induction false} TraceIsRun(states: seq<State>, inputs: seq<Input>, k: nat)
    requires IsTrace(states, inputs) && k <= |inputs|
    ensures states[k] == Run(states[0], inputs[..k])
  {
    if k > 0 {
      TraceIsRun(states, inputs, k - 1);
      assert inputs[..k][..k - 1] == inputs[..k - 1];
      assert states[k - 1 + 1] == Next(states[k - 1], inputs[k - 1]);
    } else {
      assert inputs[..0] == [];
    }
  }

  // ---- The same step again and again -----------------------------------

  function After(s: State, input: Input, n: nat): State {
    if n == 0 then s else Next(After(s, input, n - 1), input)
  }

  lemma {:induction false} RunOfRepeated(s: State, input: Input, n: nat)
    ensures Run(s, seq(n, _ => input)) == After(s, input, n)
  {
    if n != 0 {
      RunOfRepeated(s, input, n - 1);
      assert seq(n, _ => input)[..n - 1] == seq(n - 1, _ => input);
    }
  }

  /** An environment in which no store call fails and every backend call answers `token`. */
  function Quiet(token: Token): Input {
    Work(Env(None, Ok(Tokens(token, None)), Ok(token), Ok(())))
  }
}
