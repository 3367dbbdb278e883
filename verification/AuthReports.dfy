/**
  What one call of activate or refresh comes to, told by what it asked of the backend, what
  came back, and what was saved before and after (crates/account/src/auth.rs). Nothing here
  speaks of the machine's steps.
 */
module AuthReports {
  import opened Wrappers
  import opened Errors
  import opened Credentials
  import opened AuthProtocol

  type Reported = Result<(), AuthError>

  /** The store failed, or what was to be saved is too large for it. */
  predicate IsStoreTrouble(e: AuthError) {
    e.Store? || e == Untrusted(CredentialTooLarge)
  }

  /** A commit that fails or is refused leaves everything as it was; a trusted one is saved as far as the store lets it. */
  predicate CommitReport(was: Slots, now: Slots, prepared: Token, asked: seq<Request>, answered: seq<Answer>, r: Reported) {
    && asked == [ToCommit(prepared)] && |answered| == 1
    && match answered[0]
       case TokensAnswer(Err(e)) => r == Err(Api(e)) && now == was
       case TokensAnswer(Ok(Tokens(_, Some(why)))) => r == Err(Untrusted(why)) && now == was
       case TokensAnswer(Ok(Tokens(rotated, None))) =>
         if r.Ok? then now == was.(active := Some(rotated), pendingRefresh := None)
         else IsStoreTrouble(r.error) && (now == was || now == was.(active := Some(rotated)))
       case _ => false
  }

  /** What to commit: the credential prepared already, or one prepared from the active credential now. */
  predicate PrepareReport(
      was: Slots, now: Slots, current: Token, asked: seq<Request>, answered: seq<Answer>, r: Result<Token, AuthError>)
  {
    if asked == [] then
      answered == [] && now == was && (if r.Ok? then was.pendingRefresh == Some(r.value) else r.error.Store?)
    else
      && was.pendingRefresh.None? && asked == [ToPrepare(current)] && |answered| == 1 && answered[0].PreparedAnswer?
      && match answered[0].prepared
         case Err(e) => r == Err(Api(e)) && now == was
         case Ok(prepared) =>
           if r.Ok? then r == Ok(prepared) && now == was.(pendingRefresh := Some(prepared))
           else IsStoreTrouble(r.error) && now == was
  }

  predicate RefreshReport(was: Slots, now: Slots, asked: seq<Request>, answered: seq<Answer>, r: Reported) {
    if asked == [] then
      answered == [] && r.Err? && now == was && (r.error.Store? || (r.error == NoCredential && was.active.None?))
    else if was.active.None? then false
    else if was.pendingRefresh.Some? then CommitReport(was, now, was.pendingRefresh.value, asked, answered, r)
    else
      && asked[0] == ToPrepare(was.active.value) && |answered| == |asked| && answered[0].PreparedAnswer?
      && match answered[0].prepared
         case Err(e) => |asked| == 1 && r == Err(Api(e)) && now == was
         case Ok(prepared) =>
           if |asked| == 1 then r.Err? && IsStoreTrouble(r.error) && now == was
           else CommitReport(was.(pendingRefresh := Some(prepared)), now, prepared, asked[1..], answered[1..], r)
  }

  /** The slots without the issued credential, if it is the active one, and without the pending one. */
  function CleanedUp(saved: Slots, pending: Token, issued: Option<Token>): Slots {
    WithoutExpected(if issued.Some? then WithoutExpected(saved, Active, issued.value) else saved, PendingActivation, pending)
  }

  /** The request names the credential it replaces, unless that is the pending one itself. */
  function ToActivateWith(pending: Token, previous: Option<Token>): Request {
    ToActivate(pending, if previous == Some(pending) then None else previous)
  }

  /** What was issued is sent to be revoked, and dropped with the pending credential unless the store fails. */
  predicate GivenUp(pending: Token, tokens: Tokens, held: Slots, now: Slots, asked: seq<Request>, answered: seq<Answer>, r: Reported) {
    && asked == [ToRevoke(tokens.refresh)] && answered == [RevokeAnswer] && r.Err?
    && (r.error.Store?
        || ((r.error.Cancelled? || (tokens.refused.Some? && r.error == Untrusted(tokens.refused.value)))
            && now == CleanedUp(held, pending, Some(tokens.refresh))))
  }

  /** The issued credential is active and nothing pending: the account decides. */
  predicate AccountReport(pending: Token, refresh: Token, done: Slots, now: Slots, asked: seq<Request>, answered: seq<Answer>, r: Reported) {
    && asked != [] && asked[0] == ToReadAccount && |answered| == |asked| && answered[0].AccountAnswer?
    && match answered[0].account
       case Err(e) => |asked| == 1 && r == Err(Api(e)) && now == done
       case Ok(_) =>
         if |asked| == 1 then r.Ok? && now == done
         else GivenUp(pending, Tokens(refresh, None), done, now, asked[1..], answered[1..], r)
  }

  /** The backend has issued `tokens`: without trust in the access token they are given up. */
  predicate IssuedReport(pending: Token, tokens: Tokens, waiting: Slots, now: Slots, asked: seq<Request>, answered: seq<Answer>, r: Reported) {
    var saved := waiting.(active := Some(tokens.refresh));
    if asked == [] then
      answered == [] && tokens.refused.None? && r.Err? && IsStoreTrouble(r.error) && (now == waiting || now == saved)
    else if asked[0].ToRevoke? then
      || GivenUp(pending, tokens, waiting, now, asked, answered, r)
      || (tokens.refused.None? && GivenUp(pending, tokens, saved, now, asked, answered, r))
    else
      tokens.refused.None? && AccountReport(pending, tokens.refresh, saved.(pendingActivation := None), now, asked, answered, r)
  }

  /** The same when the issued credential is already saved as active in `saved`. */
  predicate SettleReport(pending: Token, tokens: Tokens, saved: Slots, now: Slots, asked: seq<Request>, answered: seq<Answer>, r: Reported) {
    if asked == [] then
      answered == [] && r.Err? && IsStoreTrouble(r.error) && now == saved
    else
      AccountReport(pending, tokens.refresh, saved.(pendingActivation := None), now, asked, answered, r)
  }

  /** The same when the pending credential is saved in `waiting`, and the login still the current one. */
  predicate AskedReport(pending: Token, waiting: Slots, now: Slots, asked: seq<Request>, answered: seq<Answer>, r: Reported) {
    if asked == [] then
      answered == [] && r.Err? && r.error.Store? && now == waiting
    else
      && asked[0] == ToActivateWith(pending, waiting.active) && |answered| == |asked| && answered[0].TokensAnswer?
      && match answered[0].tokens
         case Err(e) => |asked| == 1 && r == Err(Api(e)) && now == waiting
         case Ok(tokens) => IssuedReport(pending, tokens, waiting, now, asked[1..], answered[1..], r)
  }

  /** Without a request, the store failed or the login was cancelled before it. */
  predicate ActivationReport(pending: Token, was: Slots, now: Slots, asked: seq<Request>, answered: seq<Answer>, r: Reported) {
    var waiting := was.(pendingActivation := Some(pending));
    || AskedReport(pending, waiting, now, asked, answered, r)
    || (asked == [] && answered == [] && r.Err? &&
          if r.error.Cancelled? then now == CleanedUp(waiting, pending, None)
          else IsStoreTrouble(r.error) && (now == was || now == waiting))
  }

  lemma SinceFirst<T>(before: seq<T>, first: T, now: seq<T>)
    requires before + [first] <= now
    ensures |before| < |now| && now[|before|..][0] == first && now[|before|..][1..] == now[|before| + 1..]
  {
    assert (before + [first])[|before|] == first;
  }

  lemma AskedThenIssued(
      pending: Token, tokens: Tokens, waiting: Slots, now: Slots,
      before: seq<Request>, asked: seq<Request>, answers: seq<Answer>, answered: seq<Answer>, r: Reported)
    requires before + [ToActivateWith(pending, waiting.active)] <= asked && answers + [TokensAnswer(Ok(tokens))] <= answered
    requires IssuedReport(pending, tokens, waiting, now, asked[|before| + 1..], answered[|answers| + 1..], r)
    ensures AskedReport(pending, waiting, now, asked[|before|..], answered[|answers|..], r)
  {
    SinceFirst(before, ToActivateWith(pending, waiting.active), asked);
    SinceFirst(answers, TokensAnswer(Ok(tokens)), answered);
  }

  /** A call that succeeds was given a credential and an access token to be trusted, and that credential is active. */
  lemma ActivationReportOk(pending: Token, was: Slots, now: Slots, asked: seq<Request>, answered: seq<Answer>, r: Reported)
    requires ActivationReport(pending, was, now, asked, answered, r) && r.Ok?
    ensures asked == [ToActivateWith(pending, was.active), ToReadAccount]
    ensures now.active.Some? && now == was.(active := now.active, pendingActivation := None)
    ensures answered == [TokensAnswer(Ok(Tokens(now.active.value, None))), AccountAnswer(Ok(()))]
  {
    assert asked[1..] != [] && asked[1..][0] == asked[1] && answered[1..][0] == answered[1];
    assert answered[0] == TokensAnswer(Ok(Tokens(now.active.value, None)));
    assert answered[1].account.value == ();
    assert answered[1] == AccountAnswer(Ok(()));
  }

  lemma FoundThenCommitted(
      was: Slots, now: Slots, before: seq<Request>, asked: seq<Request>, answers: seq<Answer>, answered: seq<Answer>,
      prepared: Token, r: Reported)
    requires before <= asked && answers <= answered && was.active.Some? && was.pendingRefresh == Some(prepared)
    requires CommitReport(was, now, prepared, asked[|before|..], answered[|answers|..], r)
    ensures RefreshReport(was, now, asked[|before|..], answered[|answers|..], r)
  {
  }

  lemma PreparedThenCommitted(
      was: Slots, now: Slots, before: seq<Request>, asked: seq<Request>, answers: seq<Answer>, answered: seq<Answer>,
      prepared: Token, r: Reported)
    requires was.active.Some? && was.pendingRefresh.None?
    requires before + [ToPrepare(was.active.value)] <= asked && answers + [PreparedAnswer(Ok(prepared))] <= answered
    requires CommitReport(was.(pendingRefresh := Some(prepared)), now, prepared, asked[|before| + 1..], answered[|answers| + 1..], r)
    ensures RefreshReport(was, now, asked[|before|..], answered[|answers|..], r)
  {
    SinceFirst(before, ToPrepare(was.active.value), asked);
    SinceFirst(answers, PreparedAnswer(Ok(prepared)), answered);
  }
}
