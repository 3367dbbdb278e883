/**
  What a backend call, a credential store call and a login step can fail with
  (crates/account/src/api.rs, crates/account/src/auth.rs), and the
  classification that decides whether a saved login is kept or cleared.
 */
module Errors {
  import opened Wrappers

  const UNAUTHORIZED := 401
  const FORBIDDEN := 403
  const TOO_MANY_REQUESTS := 429
  /** The backend's problem codes: `403012` for a suspended team, and every other text. */
  datatype ProblemCode = TeamDisabled | OtherCode(text: string)

  datatype ApiError =
    | Transport
    | Status(status: nat, code: Option<ProblemCode>)
    | Decode
    | Config
  {
    predicate IsTeamDisabled() {
      Status? && status == FORBIDDEN && code == Some(TeamDisabled)
    }

    predicate IsTerminalCredential() {
      !IsTeamDisabled() && Status? && (status == UNAUTHORIZED || status == FORBIDDEN)
    }

    predicate IsRateLimited() {
      Status? && status == TOO_MANY_REQUESTS
    }

    predicate IsServerError() {
      Status? && 500 <= status < 600
    }

    predicate IsTransient() {
      match this
      case Transport => true
      case Status(_, _) => status == TOO_MANY_REQUESTS || IsServerError()
      case Decode | Config => false
    }
  }

  datatype StoreFailure = StoreFailure(locked: bool, message: string)

  datatype StoreError = StoreError(detail: string, locked: bool)

  /** Why an answer is refused. */
  datatype Refusal =
    | CredentialTooLarge
    | InvalidTransaction
    | UntrustedVerificationUrl
    | MissingCredential
    | UnknownStatus
    | InvalidAccessToken
    | RestrictedSession

  datatype AuthError =
    | Api(api: ApiError)
    | Store(store: StoreError)
    | Cancelled
    | Denied
    | Expired
    | Untrusted(what: Refusal)
    | NoCredential
  {
    predicate IsTerminal() {
      match this
      case Api(error) => error.IsTerminalCredential()
      case NoCredential => true
      case _ => false
    }
  }

  /** The only backend answers that say a saved login can never work again: 401, and 403 unless it names a disabled team. */
  predicate RejectsTheLogin(e: ApiError) {
    match e
    case Status(401, _) => true
    case Status(403, code) => code != Some(TeamDisabled)
    case _ => false
  }

  /** What is asked again: a failed connection, 429, and 500 to 599. */
  lemma RetriedAre(e: ApiError)
    ensures e.IsTransient() <==> match e
                                 case Transport => true
                                 case Status(status, _) => status == 429 || 500 <= status <= 599
                                 case Decode | Config => false
    ensures e.IsRateLimited() <==> e.Status? && e.status == 429
    ensures e.IsTeamDisabled() <==> e == Status(403, Some(TeamDisabled))
  {
  }
}
