/**
  Device logins (`FlowState`, `start`, `cancel`, `slow_down`, `finish` in
  crates/account/src/auth.rs): one generation counter and at most one pending
  authorization, shared by any number of starts, cancels and pollers.
 */
module LoginFlow {
  import opened Wrappers
  import opened Errors

  /** Instants and durations are in nanoseconds. */
  const SECOND := 1_000_000_000
  const SLOW_DOWN_STEP := 5 * SECOND
  const MIN_DEVICE_CODE_LEN := 32

  datatype Authorization = Authorization(deviceCode: string, expiresAt: int, interval: int)

  datatype Flow = Flow(generation: nat, pending: Option<Authorization>)

  // ---- The critical sections ------------------------------------------

  function Invalidated(f: Flow): Flow {
    Flow(f.generation + 1, None)
  }

  function Remembered(f: Flow, generation: nat, authorization: Authorization): Flow {
    if f.generation != generation then f else f.(pending := Some(authorization))
  }

  function SlowedDown(f: Flow, generation: nat): Flow {
    if f.generation != generation || f.pending.None? then f
    else f.(pending := Some(f.pending.value.(interval := f.pending.value.interval + SLOW_DOWN_STEP)))
  }

  function Finished(f: Flow, generation: nat): Flow {
    if f.generation == generation then f.(pending := None) else f
  }

  /** What the backend answers to a device-code request, as far as `start` looks at it. */
  datatype Created = Created(deviceCode: string, expiresIn: nat, interval: nat, trustedUrl: bool)

  /** What `start` accepts; a short device code only from a trusted local backend. */
  function Checked(created: Created, trustsLocal: bool): Option<AuthError> {
    if |created.deviceCode| < (if trustsLocal then 1 else MIN_DEVICE_CODE_LEN) || created.expiresIn == 0 || created.interval == 0 then
      Some(Untrusted(InvalidTransaction))
    else if !created.trustedUrl then
      Some(Untrusted(UntrustedVerificationUrl))
    else
      None
  }

  function Granted(created: Created, now: int): Authorization {
    Authorization(created.deviceCode, now + created.expiresIn * SECOND, created.interval * SECOND)
  }

  /** A login is started only with a trusted page, a device code of 32 characters (any, from a local backend), and some lifetime and interval. */
  lemma StartedIff(created: Created, trustsLocal: bool)
    ensures Checked(created, trustsLocal).None? <==>
              && created.trustedUrl && created.expiresIn > 0 && created.interval > 0
              && |created.deviceCode| >= 1 && (trustsLocal || |created.deviceCode| >= 32)
    ensures Checked(created, trustsLocal).Some? ==>
              Checked(created, trustsLocal).value.Untrusted?
              && (Checked(created, trustsLocal).value.what == UntrustedVerificationUrl ==> !created.trustedUrl)
  {
  }

  /** It gets the lifetime and the interval it was granted, in seconds. */
  lemma GrantedForSeconds(created: Created, now: int)
    ensures Granted(created, now).deviceCode == created.deviceCode
    ensures Granted(created, now).expiresAt - now == created.expiresIn * 1_000_000_000
    ensures Granted(created, now).interval == created.interval * 1_000_000_000
  {
  }

  // ---- All logins together ----------------------------------------------

  /** A start waiting for its device code, or a poller; both remember the generation they serve. */
  datatype Task = Starting(generation: nat) | Polling(generation: nat)

  datatype Event =
    | StartBegins(task: nat)
    | StartAnswered(task: nat, answer: Result<Created, ApiError>, trustsLocal: bool, now: int)
    | PollBegins(task: nat, generation: nat)
    | PollSlowsDown(task: nat)
    | PollFinishes(task: nat)
    | CancelAll

  /** `writer` is the generation of the start that wrote the pending authorization. */
  datatype System = System(flow: Flow, tasks: map<nat, Task>, writer: nat)

  const INITIAL := System(Flow(0, None), map[], 0)

  predicate IsStarting(s: System, task: nat) {
    task in s.tasks && s.tasks[task].Starting?
  }

  predicate IsPolling(s: System, task: nat) {
    task in s.tasks && s.tasks[task].Polling?
  }

  /** The event makes the late part of a start write the pending authorization. */
  predicate Writes(s: System, e: Event) {
    && e.StartAnswered? && IsStarting(s, e.task) && e.answer.Ok? && Checked(e.answer.value, e.trustsLocal).None?
    && s.tasks[e.task].generation == s.flow.generation
  }

  function Next(s: System, e: Event): System {
    match e
    case CancelAll => s.(flow := Invalidated(s.flow))
    case StartBegins(task) =>
      if task in s.tasks then s
      else s.(flow := Invalidated(s.flow), tasks := s.tasks[task := Starting(s.flow.generation + 1)])
    case StartAnswered(task, answer, trustsLocal, now) =>
      if !IsStarting(s, task) then s
      else
        var generation := s.tasks[task].generation;
        var left := s.(tasks := s.tasks - {task});
        if answer.Err? || Checked(answer.value, trustsLocal).Some? then left
        else left.(flow := Remembered(s.flow, generation, Granted(answer.value, now)),
                   writer := if s.flow.generation == generation then generation else s.writer)
    case PollBegins(task, generation) =>
      if task in s.tasks then s else s.(tasks := s.tasks[task := Polling(generation)])
    case PollSlowsDown(task) =>
      if IsPolling(s, task) then s.(flow := SlowedDown(s.flow, s.tasks[task].generation)) else s
    case PollFinishes(task) =>
      if IsPolling(s, task) then s.(flow := Finished(s.flow, s.tasks[task].generation), tasks := s.tasks - {task}) else s
  }

  function Run(s: System, events: seq<Event>): System {
    if events == [] then s else Next(Run(s, events[..|events| - 1]), events[|events| - 1])
  }

  ghost predicate Inv(s: System) {
    && (forall t :: t in s.tasks && s.tasks[t].Starting? ==> s.tasks[t].generation <= s.flow.generation)
    && (forall t, u :: t in s.tasks && u in s.tasks && t != u && s.tasks[t].Starting? && s.tasks[u].Starting? ==>
          s.tasks[t].generation != s.tasks[u].generation)
    && (s.flow.pending.Some? ==> s.writer == s.flow.generation && s.flow.pending.value.interval > 0)
  }

  lemma InvStep(s: System, e: Event)
    requires Inv(s)
    ensures Inv(Next(s, e))
  {
  }

  lemma {:induction false} InvRun(events: seq<Event>)
    ensures Inv(Run(INITIAL, events))
  {
    if events != [] {
      InvRun(events[..|events| - 1]);
      InvStep(Run(INITIAL, events[..|events| - 1]), events[|events| - 1]);
    }
  }

  /** Over all interleavings: what is pending was written by the start whose generation is current. */
  lemma {:induction false} PendingIsTheCurrentLogins(events: seq<Event>)
    ensures var s := Run(INITIAL, events); s.flow.pending.Some? ==> s.writer == s.flow.generation
  {
    InvRun(events);
  }

  /** The generation an event acts for, if it acts for one. */
  function Serves(s: System, e: Event): Option<nat> {
    match e
    case StartAnswered(task, _, _, _) => if IsStarting(s, task) then Some(s.tasks[task].generation) else None
    case PollSlowsDown(task) => if IsPolling(s, task) then Some(s.tasks[task].generation) else None
    case PollFinishes(task) => if IsPolling(s, task) then Some(s.tasks[task].generation) else None
    case _ => None
  }

  /** A late start response, a stale slow_down and a stale finish change nothing of a newer login; only cancel and start make a login stale. */
  lemma StaleTasksDisturbNothing(s: System, e: Event)
    requires Serves(s, e) != Some(s.flow.generation)
    ensures Next(s, e).flow == s.flow
            || ((e.CancelAll? || e.StartBegins?) && Next(s, e).flow == Flow(s.flow.generation + 1, None))
  {
  }

  // ---- The polling interval ---------------------------------------------

  /** The interval the backend granted the pending login, looked up in the history. */
  function GrantedInterval(events: seq<Event>): int {
    if events == [] then 0 else
    var before := events[..|events| - 1];
    var e := events[|events| - 1];
    if Writes(Run(INITIAL, before), e) then e.answer.value.interval * SECOND else GrantedInterval(before)
  }

  /** How often the pending login was slowed down since it was written, counted in the history. */
  function SlowDowns(events: seq<Event>): nat {
    if events == [] then 0 else
    var before := events[..|events| - 1];
    var e := events[|events| - 1];
    var s := Run(INITIAL, before);
    if Writes(s, e) then 0
    else if e.PollSlowsDown? && Serves(s, e) == Some(s.flow.generation) then SlowDowns(before) + 1
    else SlowDowns(before)
  }

  /** RFC 8628, section 3.5: the interval in use is the granted one plus five seconds for each slow-down of that login, and no other login's. */
  lemma {:induction false} IntervalCountsSlowDowns(events: seq<Event>)
    ensures var s := Run(INITIAL, events);
            s.flow.pending.Some? ==>
              s.flow.pending.value.interval == GrantedInterval(events) + 5 * SECOND * SlowDowns(events)
  {
    if events != [] {
      IntervalCountsSlowDowns(events[..|events| - 1]);
    }
  }

  // ---- What a poller may rely on ------------------------------------------

  /** From `f` to `g`, other tasks have left the login of `generation` alone, slowed it down or ended it. */
  predicate Rely(f: Flow, g: Flow, generation: nat) {
    && f.generation <= g.generation
    && (f.generation == g.generation == generation && g.pending.Some? ==>
          && f.pending.Some?
          && g.pending.value.deviceCode == f.pending.value.deviceCode
          && g.pending.value.expiresAt == f.pending.value.expiresAt
          && g.pending.value.interval >= f.pending.value.interval)
  }

  ghost predicate StartReturned(s: System, generation: nat) {
    && generation <= s.flow.generation
    && forall t :: t in s.tasks && s.tasks[t].Starting? ==> s.tasks[t].generation != generation
  }

  /** Once the start of a login has returned, any further events leave its poller what `Rely` says. */
  lemma {:induction false} OthersKeepRely(s: System, events: seq<Event>, generation: nat)
    requires StartReturned(s, generation)
    ensures StartReturned(Run(s, events), generation)
    ensures Rely(s.flow, Run(s, events).flow, generation)
  {
    if events != [] {
      OthersKeepRely(s, events[..|events| - 1], generation);
    }
  }
}
