/**
  One daemon per user (`DaemonLock`, `bind`, `listen`, `serve` and `cleanup` in
  crates/cli/src/daemon.rs): any number of processes take the lock, make their files,
  serve, clean up, fail or are killed, in any order.
 */
module SingleDaemon {
  import opened Wrappers

  /** A process, told apart from every other by its record (PID, executable and start). */
  type Process = nat

  /** What is at the control socket's path. */
  datatype SocketPath = Absent | Socket(owner: Process) | NotASocket

  datatype Phase =
    | Starting
    | Locked           // has the lock; creates the engine
    | Listening        // removes a stale socket
    | MakingSecret
    | Binding
    | Restricting      // sets the socket's permissions
    | Recording
    | Serving
    | RemovingSocket
    | RemovingSecret
    | RemovingRecord
    | Gone

  datatype World = World(
    lock: Option<Process>,
    socket: SocketPath,
    secret: Option<Process>,
    record: Option<Process>,
    phases: map<Process, Phase>)

  predicate HoldsLock(phase: Phase) {
    !phase.Starting? && !phase.Gone?
  }

  /** The step of `p` that `phase` is about to take; `ok` is whether the system call behind it works. */
  datatype Event = Spawn(p: Process) | Step(p: Process, ok: bool) | Kill(p: Process)

  function At(w: World, p: Process): Phase {
    if p in w.phases then w.phases[p] else Gone
  }

  function To(w: World, p: Process, phase: Phase): World {
    w.(phases := w.phases[p := phase])
  }

  /** `p` ends, by an error, at the end of `serve` or by a signal: its files stay as they are, its flock goes. */
  function Ended(w: World, p: Process): World {
    To(w.(lock := if w.lock == Some(p) then None else w.lock), p, Gone)
  }

  function Stepped(w: World, p: Process, ok: bool): World {
    match At(w, p)
    case Gone => w
    case Starting => if ok && w.lock.None? then To(w.(lock := Some(p)), p, Locked) else Ended(w, p)
    case Locked => if ok then To(w, p, Listening) else Ended(w, p)
    case Listening =>
      if !ok || w.socket.NotASocket? then Ended(w, p) else To(w.(socket := Absent), p, MakingSecret)
    case MakingSecret => if ok then To(w.(secret := Some(p)), p, Binding) else Ended(w, p)
    case Binding => if ok && w.socket.Absent? then To(w.(socket := Socket(p)), p, Restricting) else Ended(w, p)
    // A failure from here on leaves the socket behind.
    case Restricting => if ok then To(w, p, Recording) else Ended(w, p)
    case Recording => if ok then To(w.(record := Some(p)), p, Serving) else Ended(w, p)
    // `ok`: asked to stop; otherwise serving failed to set up its signals.
    case Serving => if ok then To(w, p, RemovingSocket) else Ended(w, p)
    case RemovingSocket => To(if ok then w.(socket := Absent) else w, p, RemovingSecret)
    case RemovingSecret => To(if ok then w.(secret := None) else w, p, RemovingRecord)
    case RemovingRecord => Ended(if ok && w.record == Some(p) then w.(record := None) else w, p)
  }

  function Next(w: World, e: Event): World {
    match e
    case Spawn(p) => if p in w.phases then w else To(w, p, Starting)
    case Kill(p) => if p in w.phases then Ended(w, p) else w
    case Step(p, ok) => Stepped(w, p, ok)
  }

  function Run(w: World, events: seq<Event>): World {
    if events == [] then w else Next(Run(w, events[..|events| - 1]), events[|events| - 1])
  }

  /** Before any daemon of this system: nobody runs, nobody holds the lock; the files may be left from before. */
  predicate Initial(w: World) {
    w.phases == map[] && w.lock.None?
  }

  predicate OwnFiles(w: World, p: Process) {
    match At(w, p)
    case MakingSecret => w.socket.Absent?
    case Binding => w.socket.Absent? && w.secret == Some(p)
    case Restricting | Recording => w.socket == Socket(p) && w.secret == Some(p)
    case Serving | RemovingSocket => w.socket == Socket(p) && w.secret == Some(p) && w.record == Some(p)
    case RemovingSecret => w.secret == Some(p) && w.record == Some(p)
    case RemovingRecord => w.record == Some(p)
    case _ => true
  }

  predicate Inv(w: World) {
    && (forall p :: p in w.phases ==> (HoldsLock(w.phases[p]) <==> w.lock == Some(p)))
    && (w.lock.Some? ==> w.lock.value in w.phases && OwnFiles(w, w.lock.value))
  }

  lemma InvStep(w: World, e: Event)
    requires Inv(w)
    ensures Inv(Next(w, e))
  {
    if e.Step? && e.p in w.phases {
      StepKeepsInv(w, e.p, e.ok);
    }
  }

  lemma {:induction false} StepKeepsInv(w: World, p: Process, ok: bool)
    requires Inv(w) && p in w.phases
    ensures Inv(Stepped(w, p, ok))
  {
    var u := Stepped(w, p, ok);
    assert forall q :: q in w.phases && q != p ==> u.phases[q] == w.phases[q];
    assert forall q :: q in u.phases ==> q in w.phases;
    assert w.lock.Some? && w.lock != Some(p) ==> At(w, p).Starting? || At(w, p).Gone?;
  }

  lemma {:induction false} InvRun(w: World, events: seq<Event>)
    requires Initial(w)
    ensures Inv(Run(w, events))
  {
    if events != [] {
      InvRun(w, events[..|events| - 1]);
      InvStep(Run(w, events[..|events| - 1]), events[|events| - 1]);
    }
  }

  /** Over all interleavings and kills: at most one process is past the lock, and a serving one's socket, secret and record are its own. */
  lemma {:induction false} OneDaemonWithItsOwnFiles(w: World, events: seq<Event>, p: Process, q: Process)
    requires Initial(w)
    ensures var u := Run(w, events);
            && (HoldsLock(At(u, p)) && HoldsLock(At(u, q)) ==> p == q)
            && (At(u, p).Serving? ==> u.socket == Socket(p) && u.secret == Some(p) && u.record == Some(p))
  {
    InvRun(w, events);
  }

  /** No process's step, stale-socket removal or cleanup changes a serving daemon's files, until that daemon itself is told to stop or ends. */
  lemma {:induction false} NobodyTouchesAServingDaemon(w: World, events: seq<Event>, e: Event, p: Process)
    requires Initial(w)
    requires At(Run(w, events), p).Serving?
    ensures var u := Run(w, events);
            var v := Next(u, e);
            && v.socket == u.socket && v.secret == u.secret && v.record == u.record
            && (At(v, p).Serving? || ((e.Step? || e.Kill?) && e.p == p))
  {
    InvRun(w, events);
    var u := Run(w, events);
    if e.Step? && e.p != p && e.p in u.phases {
      assert u.lock == Some(p);
      assert !HoldsLock(u.phases[e.p]);
    }
  }

  // ---- Stopping -------------------------------------------------------------

  /** Every step of `p` works. */
  predicate AllWork(events: seq<Event>, p: Process) {
    forall i :: 0 <= i < |events| && events[i].Step? && events[i].p == p ==> events[i].ok
  }

  /** How far a daemon that was told to stop has come. */
  predicate RemovedSoFar(w: World, p: Process) {
    match At(w, p)
    case RemovingSecret => w.socket.Absent?
    case RemovingRecord => w.socket.Absent? && w.secret.None?
    case _ => true
  }

  lemma {:induction false} RemovedRun(w: World, events: seq<Event>, p: Process)
    requires Initial(w) && AllWork(events, p)
    ensures RemovedSoFar(Run(w, events), p)
  {
    if events != [] {
      var last := |events| - 1;
      var u := Run(w, events[..last]);
      RemovedRun(w, events[..last], p);
      InvRun(w, events[..last]);
      var e := events[last];
      if e.Step? && e.p != p && e.p in u.phases && p in u.phases && HoldsLock(u.phases[p]) {
        assert u.lock == Some(p) && !HoldsLock(u.phases[e.p]);
      }
    }
  }

  /** A daemon that was told to stop and whose system calls work is gone without its socket, its secret and its record, whatever other processes do meanwhile, and leaves the lock free. */
  lemma {:induction false} StoppedLeavesNothing(w: World, events: seq<Event>, p: Process)
    requires Initial(w) && AllWork(events, p) && At(Run(w, events), p).RemovingRecord?
    ensures var v := Next(Run(w, events), Step(p, true));
            At(v, p).Gone? && v.lock.None? && v.socket.Absent? && v.secret.None? && v.record.None?
  {
    RemovedRun(w, events, p);
    InvRun(w, events);
  }

  /** It takes four steps: told to stop, and one for each file; each file that cannot be removed stays. */
  lemma StoppingTakesFourSteps(w: World, events: seq<Event>, p: Process, socket: bool, secret: bool, record: bool)
    requires Initial(w) && At(Run(w, events), p).Serving?
    ensures var v := StepsOf(Run(w, events), p, [true, socket, secret, record]);
            && At(v, p).Gone? && v.lock.None?
            && v.socket == (if socket then Absent else Socket(p))
            && v.secret == (if secret then None else Some(p))
            && v.record == (if record then None else Some(p))
  {
    InvRun(w, events);
    FourSteps(Run(w, events), p, true, socket, secret, record);
  }

  lemma FourSteps(u: World, p: Process, a: bool, b: bool, c: bool, d: bool)
    ensures StepsOf(u, p, [a, b, c, d]) == Stepped(Stepped(Stepped(Stepped(u, p, a), p, b), p, c), p, d)
  {
    assert StepsOf(u, p, [a]) == Stepped(u, p, a) by {
      assert [a][..0] == [];
    }
    OneMoreStep(u, p, [a], b);
    OneMoreStep(u, p, [a, b], c);
    OneMoreStep(u, p, [a, b, c], d);
    assert [a] + [b] == [a, b] && [a, b] + [c] == [a, b, c] && [a, b, c] + [d] == [a, b, c, d];
  }

  // ---- Recovery -------------------------------------------------------------

  function Bound(w: World, p: Process, steps: nat): World {
    if steps == 0 then w else Stepped(Bound(w, p, steps - 1), p, true)
  }

  /**
    Whatever killed and failed daemons left behind, a new process whose system calls work
    serves if and only if nobody holds the lock and the socket's path is free or a socket.
   */
  lemma {:induction false} NewDaemonServesIff(w: World, events: seq<Event>, p: Process)
    requires Initial(w)
    requires p !in Run(w, events).phases
    ensures var u := Run(w, events);
            At(Bound(Next(u, Spawn(p)), p, 7), p).Serving? <==> u.lock.None? && !u.socket.NotASocket?
  {
    InvRun(w, events);
    var u := Next(Run(w, events), Spawn(p));
    assert Bound(u, p, 1) == Stepped(u, p, true);
    assert Bound(u, p, 2) == Stepped(Bound(u, p, 1), p, true);
    assert Bound(u, p, 3) == Stepped(Bound(u, p, 2), p, true);
    assert Bound(u, p, 4) == Stepped(Bound(u, p, 3), p, true);
    assert Bound(u, p, 5) == Stepped(Bound(u, p, 4), p, true);
    assert Bound(u, p, 6) == Stepped(Bound(u, p, 5), p, true);
    if u.lock.Some? {
      assert At(Bound(u, p, 1), p).Gone?;
    } else if u.socket.NotASocket? {
      assert At(Bound(u, p, 3), p).Gone?;
    } else {
      assert At(Bound(u, p, 3), p).MakingSecret?;
      assert At(Bound(u, p, 5), p).Restricting?;
      assert At(Bound(u, p, 6), p).Recording?;
    }
  }

  // ---- The same, as one process runs it ---------------------------------------

  /** The steps of one process, each with whether its system call worked. */
  function StepsOf(w: World, p: Process, steps: seq<bool>): World {
    if steps == [] then w else Stepped(StepsOf(w, p, steps[..|steps| - 1]), p, steps[|steps| - 1])
  }

  lemma OneMoreStep(w: World, p: Process, steps: seq<bool>, ok: bool)
    ensures StepsOf(w, p, steps + [ok]) == Stepped(StepsOf(w, p, steps), p, ok)
  {
    assert (steps + [ok])[..|steps|] == steps;
  }

  lemma SamePhase(p: Process)
    ensures forall a: Phase, b: Phase :: map[p := a][p := b] == map[p := b]
  {
  }

  /** They are a run of the machine. */
  lemma {:induction false} StepsAreARun(w: World, p: Process, steps: seq<bool>)
    ensures StepsOf(w, p, steps) == Run(w, seq(|steps|, i requires 0 <= i < |steps| => Step(p, steps[i])))
  {
    if steps != [] {
      var last := |steps| - 1;
      StepsAreARun(w, p, steps[..last]);
      var events := seq(|steps|, i requires 0 <= i < |steps| => Step(p, steps[i]));
      assert events[..last] == seq(last, i requires 0 <= i < last => Step(p, steps[..last][i]));
    }
  }

  method Works() returns (ok: bool) {
    ok := *;
  }

  /** The runtime directory's files and the lock. */
  class RuntimeDirectory {
    var lock: Option<Process>
    var socket: SocketPath
    var secret: Option<Process>
    var record: Option<Process>

    constructor (socket: SocketPath, secret: Option<Process>, record: Option<Process>)
      ensures lock.None? && this.socket == socket && this.secret == secret && this.record == record
    {
      lock := None;
      this.socket, this.secret, this.record := socket, secret, record;
    }

    /** The world with `p` in `phase` and nobody else. */
    ghost function State(p: Process, phase: Phase): World
      reads this
    {
      World(lock, socket, secret, record, map[p := phase])
    }

    /** `DaemonLock::acquire`. */
    method Acquire(p: Process) returns (ok: bool)
      requires lock != Some(p)
      modifies this
      ensures old(lock).Some? ==> !ok
      ensures lock == (if ok then Some(p) else old(lock))
      ensures socket == old(socket) && secret == old(secret) && record == old(record)
      ensures State(p, if ok then Locked else Gone) == Stepped(old(State(p, Starting)), p, ok)
    {
      var opens := Works();
      ok := opens && lock.None?;
      if ok {
        lock := Some(p);
      }
      assert map[p := Starting][p := if ok then Locked else Gone] == map[p := if ok then Locked else Gone];
    }

    /** `Daemon::listen`: all files or an error, which drops the lock; `steps` are the machine's steps it takes. */
    method Listen(p: Process) returns (ok: bool, ghost steps: seq<bool>)
      requires lock == Some(p)
      modifies this
      ensures State(p, if ok then Serving else Gone) == StepsOf(old(State(p, Listening)), p, steps)
      ensures ok ==> lock == Some(p) && socket == Socket(p) && secret == Some(p) && record == Some(p)
      ensures old(socket).NotASocket? ==> !ok && socket == old(socket)
      ensures !ok ==> lock.None? && (record == old(record))
      ensures !ok ==> socket == old(socket) || socket == Absent || (socket == Socket(p) && secret == Some(p))
      ensures secret == old(secret) || secret == Some(p)
      ensures |steps| <= 5 && (ok <==> |steps| == 5 && steps == [true, true, true, true, true])
    {
      ghost var start := State(p, Listening);
      SamePhase(p);
      var works := Works();
      steps := [works];
      if !works || socket.NotASocket? {
        lock := None;
        return false, steps;
      }
      socket := Absent;
      assert State(p, MakingSecret) == StepsOf(start, p, steps);
      works := Works();
      OneMoreStep(start, p, steps, works);
      steps := steps + [works];
      if !works {
        lock := None;
        return false, steps;
      }
      secret := Some(p);
      assert State(p, Binding) == StepsOf(start, p, steps);
      works := Works();
      OneMoreStep(start, p, steps, works);
      steps := steps + [works];
      if !works {
        lock := None;
        return false, steps;
      }
      socket := Socket(p);
      assert State(p, Restricting) == StepsOf(start, p, steps);
      works := Works();
      OneMoreStep(start, p, steps, works);
      steps := steps + [works];
      if !works {
        lock := None;
        return false, steps;
      }
      assert State(p, Recording) == StepsOf(start, p, steps);
      works := Works();
      OneMoreStep(start, p, steps, works);
      steps := steps + [works];
      if !works {
        lock := None;
        return false, steps;
      }
      record := Some(p);
      ok := true;
    }

    /** `Daemon::cleanup`: best effort; the record only if it is still this process's. */
    method Cleanup(p: Process) returns (ghost steps: seq<bool>)
      requires lock == Some(p)
      modifies this
      ensures |steps| == 3 && State(p, Gone) == StepsOf(old(State(p, RemovingSocket)), p, steps)
      ensures lock.None?
      ensures socket == if steps[0] then Absent else old(socket)
      ensures secret == if steps[1] then None else old(secret)
      ensures record == if steps[2] && old(record) == Some(p) then None else old(record)
    {
      ghost var start := State(p, RemovingSocket);
      SamePhase(p);
      var works := Works();
      steps := [works];
      if works {
        socket := Absent;
      }
      assert State(p, RemovingSecret) == StepsOf(start, p, steps);
      works := Works();
      OneMoreStep(start, p, steps, works);
      steps := steps + [works];
      if works {
        secret := None;
      }
      assert State(p, RemovingRecord) == StepsOf(start, p, steps);
      works := Works();
      OneMoreStep(start, p, steps, works);
      steps := steps + [works];
      if works && record == Some(p) {
        record := None;
      }
      lock := None;
    }
  }
}
