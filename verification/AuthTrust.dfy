/** Over all runs, only a credential that came with an access token to be trusted becomes the active one. */
module AuthTrust {
  import opened Wrappers
  import opened Errors
  import opened Credentials
  import opened AuthProtocol
  import opened AuthSafety

  /** An activation or a commit was answered with `refresh`, and an access token the app may use. */
  predicate WasTrusted(s: State, refresh: Token) {
    TokensAnswer(Ok(Tokens(refresh, None))) in s.answered
  }

  /** What the step goes by was answered. */
  predicate GoesByAnswers(s: State) {
    match s.pc
    case Activating(a, CheckAfterTokens(refused)) => a.issued.Some? && TokensAnswer(Ok(Tokens(a.issued.value, refused))) in s.answered
    case Activating(a, ValidateAccess(refused)) => a.issued.Some? && TokensAnswer(Ok(Tokens(a.issued.value, refused))) in s.answered
    case Activating(a, SaveIssued) => a.issued.Some? && WasTrusted(s, a.issued.value)
    case Refreshing(_, CheckRotated(_, tokens)) => TokensAnswer(Ok(tokens)) in s.answered
    case Refreshing(_, SaveRotated(_, rotated)) => WasTrusted(s, rotated)
    case _ => true
  }

  lemma GoesByAnswersStep(s: State, input: Input)
    requires GoesByAnswers(s)
    ensures GoesByAnswers(Next(s, input))
    ensures var t := Next(s, input);
            t.saved.active.Some? && t.saved.active != s.saved.active ==> WasTrusted(t, t.saved.active.value)
  {
    assert forall x :: x in s.answered ==> x in Next(s, input).answered;
    if s.pc.Activating? {
      match s.pc.activate
      case AwaitTokens | CheckAfterTokens(_) | ValidateAccess(_) | SaveIssued =>
      case _ =>
    }
  }

  lemma {:induction false} GoesByAnswersRun(s: State, inputs: seq<Input>)
    requires s.pc.Idle?
    ensures GoesByAnswers(Run(s, inputs))
  {
    if inputs != [] {
      GoesByAnswersRun(s, inputs[..|inputs| - 1]);
      GoesByAnswersStep(Run(s, inputs[..|inputs| - 1]), inputs[|inputs| - 1]);
    }
  }

  /** Wherever in a run a credential becomes active, the backend had issued it with an access token the app may use. */
  lemma {:induction false} ActiveWasTrusted(s: State, inputs: seq<Input>, k: nat)
    requires s.pc.Idle? && k < |inputs|
    ensures var t, u := Run(s, inputs[..k]), Run(s, inputs[..k + 1]);
            u.saved.active.Some? && u.saved.active != t.saved.active ==>
              TokensAnswer(Ok(Tokens(u.saved.active.value, None))) in u.answered
  {
    RunOfOneMore(s, inputs, k);
    GoesByAnswersRun(s, inputs[..k]);
    GoesByAnswersStep(Run(s, inputs[..k]), inputs[k]);
  }
}
