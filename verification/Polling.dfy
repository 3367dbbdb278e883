/**
  The login coordinator's methods over the shared flow state, and the polling loop with
  its bound (`start`, `cancel`, `poll_until_done` in crates/account/src/auth.rs; RFC 8628,
  sections 3.2 and 3.5).
 */
module Polling {
  import opened Wrappers
  import opened Errors
  import opened LoginFlow

  const MIN_REFRESH_TOKEN_LEN := 40

  type Token = string

  /** 0 + 1 + ... + (n - 1). */
  function SumBelow(n: nat): nat {
    if n == 0 then 0 else SumBelow(n - 1) + n - 1
  }

  lemma {:induction false} SumBelowClosed(n: nat)
    ensures 2 * SumBelow(n) == n * (n - 1)
  {
    if n > 0 {
      SumBelowClosed(n - 1);
    }
  }

  datatype TokenStatus =
    | AuthorizationPending
    | SlowDown
    | AccessDenied
    | ExpiredToken
    | Authorized(refresh: Option<Token>)
    | OtherStatus

  type Answer = Result<TokenStatus, ApiError>

  /** An answer that ends the polling, and how; the others are asked again. */
  predicate Decides(answer: Answer, r: Result<Token, AuthError>) {
    match answer
    case Ok(Authorized(Some(refresh))) =>
      r == if |refresh| >= 40 then Ok(refresh) else Err(Untrusted(MissingCredential))
    case Ok(Authorized(None)) => r == Err(Untrusted(MissingCredential))
    case Ok(AccessDenied) => r == Err(Denied)
    case Ok(ExpiredToken) => r == Err(Expired)
    case Ok(OtherStatus) => r == Err(Untrusted(UnknownStatus))
    case Ok(AuthorizationPending) | Ok(SlowDown) => false
    case Err(error) => r == Err(Api(error)) && !error.IsTransient() && !error.IsRateLimited()
  }

  /** The backend's two public device endpoints: they may answer anything. */
  method RequestDeviceCode() returns (r: Result<Created, ApiError>) {
    r := *;
  }

  method RequestToken(deviceCode: string) returns (r: Answer) {
    r := *;
  }

  method SomeNumber() returns (n: nat) {
    n := *;
  }

  /** Time only moves on, and sleeping takes at least as long as asked. */
  class Clock {
    var now: int

    constructor (now: int)
      ensures this.now == now
    {
      this.now := now;
    }

    method Sleep(duration: int)
      requires duration >= 0
      modifies this
      ensures now >= old(now) + duration
    {
      var late := SomeNumber();
      now := now + duration + late;
    }
  }

  class Logins {
    const clock: Clock
    var generation: nat
    var pending: Option<Authorization>

    ghost function State(): Flow
      reads this
    {
      Flow(generation, pending)
    }

    ghost predicate Valid()
      reads this
    {
      pending.Some? ==> pending.value.interval > 0
    }

    constructor (clock: Clock)
      ensures Valid() && State() == INITIAL.flow && this.clock == clock
    {
      this.clock := clock;
      generation := 0;
      pending := None;
    }

    method Cancel()
      requires Valid()
      modifies this
      ensures Valid() && State() == Invalidated(old(State()))
    {
      generation := generation + 1;
      pending := None;
    }

    method SlowDown(login: nat)
      requires Valid()
      modifies this
      ensures Valid() && State() == SlowedDown(old(State()), login)
    {
      if generation != login {
        return;
      }
      if pending.Some? {
        pending := Some(pending.value.(interval := pending.value.interval + SLOW_DOWN_STEP));
      }
    }

    method Finish(login: nat)
      requires Valid()
      modifies this
      ensures Valid() && State() == Finished(old(State()), login)
    {
      if generation == login {
        pending := None;
      }
    }

    /** The end of `start`: a late response to a superseded request is refused. */
    method Remember(login: nat, created: Created, trustsLocal: bool) returns (r: Result<(), AuthError>)
      requires Valid()
      modifies this
      ensures Valid()
      ensures r == (match Checked(created, trustsLocal)
                    case Some(error) => Err(error)
                    case None => if old(generation) == login then Ok(()) else Err(Cancelled))
      ensures State() == if r.Ok? then Remembered(old(State()), login, Granted(created, clock.now)) else old(State())
      ensures r.Ok? ==>
                && pending.Some? && pending.value.deviceCode == created.deviceCode
                && pending.value.expiresAt == clock.now + created.expiresIn * 1_000_000_000
                && pending.value.interval == created.interval * 1_000_000_000
                && created.trustedUrl && (trustsLocal || |created.deviceCode| >= 32)
    {
      if |created.deviceCode| < (if trustsLocal then 1 else MIN_DEVICE_CODE_LEN) || created.expiresIn == 0 || created.interval == 0 {
        return Err(Untrusted(InvalidTransaction));
      }
      if !created.trustedUrl {
        return Err(Untrusted(UntrustedVerificationUrl));
      }
      var now := clock.now;
      if generation != login {
        return Err(Cancelled);
      }
      pending := Some(Authorization(created.deviceCode, now + created.expiresIn * SECOND, created.interval * SECOND));
      r := Ok(());
    }

    /** Requests a device code and remembers it; `login` is the generation it stands for. */
    method Start(trustsLocal: bool) returns (r: Result<nat, AuthError>)
      requires Valid()
      modifies this, clock
      ensures Valid() && generation > old(generation)
      ensures r.Ok? ==> r.value == generation && pending.Some? && pending.value.expiresAt > clock.now && pending.value.interval >= SECOND
    {
      Cancel();
      var login := generation;
      OtherLogins(login);
      var answer := RequestDeviceCode();
      if answer.Err? {
        return Err(Api(answer.error));
      }
      var remembered := Remember(login, answer.value, trustsLocal);
      r := if remembered.Ok? then Ok(login) else Err(remembered.error);
    }

    /** Other tasks at work while the login `login` waits: any of the critical sections, except writing its authorization. */
    method OtherLogins(login: nat)
      requires Valid()
      modifies this, clock
      ensures Valid() && Rely(old(State()), State(), login) && clock.now >= old(clock.now)
    {
      var times := SomeNumber();
      while times > 0
        invariant Valid() && Rely(old(State()), State(), login) && clock.now >= old(clock.now)
      {
        var other := SomeNumber();
        if {
          case true => Cancel();
          case true => SlowDown(other);
          case true => Finish(other);
          case other != login =>
            var created := RequestDeviceCode();
            if created.Ok? {
              var _ := Remember(other, created.value, false);
            }
          case true => clock.Sleep(other);
        }
        times := times - 1;
      }
    }

    /** What one answer does to the login: it ends it, slows it down or leaves it. */
    method Heed(login: nat, response: Answer) returns (decided: Option<Result<Token, AuthError>>, slow: bool)
      requires Valid()
      modifies this
      ensures Valid()
      ensures decided.Some? ==> Decides(response, decided.value) && State() == Finished(old(State()), login)
      ensures decided.None? ==> State() == if slow then SlowedDown(old(State()), login) else old(State())
      ensures slow <==> response == Ok(TokenStatus.SlowDown) || (response.Err? && response.error.Status? && response.error.status == 429)
      ensures decided.None? <==> slow || response == Ok(AuthorizationPending) || (response.Err? && response.error.IsTransient())
    {
      decided, slow := None, false;
      match response {
        case Err(error) =>
          if error.IsRateLimited() {
            SlowDown(login);
            slow := true;
          } else if !error.IsTransient() {
            Finish(login);
            decided := Some(Err(Api(error)));
          }
        case Ok(AuthorizationPending) =>
        case Ok(SlowDown) =>
          SlowDown(login);
          slow := true;
        case Ok(AccessDenied) =>
          Finish(login);
          decided := Some(Err(Denied));
        case Ok(ExpiredToken) =>
          Finish(login);
          decided := Some(Err(Expired));
        case Ok(Authorized(refresh)) =>
          Finish(login);
          decided := Some(if refresh.Some? && |refresh.value| >= MIN_REFRESH_TOKEN_LEN then Ok(refresh.value)
                          else Err(Untrusted(MissingCredential)));
        case Ok(OtherStatus) =>
          Finish(login);
          decided := Some(Err(Untrusted(UnknownStatus)));
      }
    }

    /**
      Polls until the user decides, the code expires or `login` is superseded: `asked`
      token requests are sent, and `slowed` of them are answered slow_down or 429.
     */
    method PollUntilDone(login: nat) returns (r: Result<Token, AuthError>, ghost asked: nat, ghost slowed: nat, ghost last: Option<Answer>)
      requires Valid()
      modifies this, clock
      ensures Valid()
      ensures old(pending).None? || old(generation) != login ==> asked == 0 && r == Err(Cancelled)
      ensures || r == Err(Cancelled)
              || (r == Err(Expired) && clock.now >= old(pending).value.expiresAt)
              || (last.Some? && Decides(last.value, r))
      ensures r == Err(Cancelled) ==> generation != login || pending.None?
      ensures r != Err(Cancelled) && generation == login ==> pending.None?
      ensures asked > 0 ==>
                asked * old(pending).value.interval < old(pending).value.expiresAt - old(clock.now)
      ensures asked > 0 && slowed == asked ==>
                asked * old(pending).value.interval + SLOW_DOWN_STEP * SumBelow(asked)
                  < old(pending).value.expiresAt - old(clock.now)
    {
      asked, slowed, last := 0, 0, None;
      ghost var first := if pending.Some? then pending.value else Authorization("", 0, 1);
      ghost var start := clock.now;
      ghost var waited := 0;
      while true
        invariant Valid() && slowed <= asked && start <= clock.now
        invariant generation == login && pending.Some? ==>
                    && old(generation) == login && old(pending).Some?
                    && pending.value.expiresAt == first.expiresAt
                    && pending.value.interval >= first.interval + SLOW_DOWN_STEP * slowed
        invariant asked > 0 ==> old(generation) == login && old(pending).Some? && waited < first.expiresAt - start
        invariant asked * first.interval <= waited <= clock.now - start
        invariant slowed == asked ==> asked * first.interval + SLOW_DOWN_STEP * SumBelow(asked) <= waited
        decreases first.expiresAt - clock.now
      {
        if pending.None? || generation != login {
          return Err(Cancelled), asked, slowed, last;
        }
        var held := pending.value;
        var now := clock.now;
        if now >= held.expiresAt {
          Finish(login);
          return Err(Expired), asked, slowed, last;
        }
        var wait := if held.interval < held.expiresAt - now then held.interval else held.expiresAt - now;
        clock.Sleep(wait);
        OtherLogins(login);
        if generation != login {
          return Err(Cancelled), asked, slowed, last;
        }
        if clock.now >= held.expiresAt {
          Finish(login);
          return Err(Expired), asked, slowed, last;
        }
        assert (asked + 1) * first.interval == asked * first.interval + first.interval;
        asked, waited := asked + 1, waited + wait;
        var response := RequestToken(held.deviceCode);
        last := Some(response);
        OtherLogins(login);
        if generation != login {
          return Err(Cancelled), asked, slowed, last;
        }
        var decided, slow := Heed(login, response);
        if decided.Some? {
          return decided.value, asked, slowed, last;
        }
        slowed := if slow then slowed + 1 else slowed;
      }
    }
  }
}
