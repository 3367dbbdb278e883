/**
  Calls to the daemon that overlap (crates/cli/src/daemon.rs): every connection has its own
  task, and a task first lets the engine do what is asked and only then changes the held
  request. In between, other tasks may do either.
 */
module OverlappingCalls {
  import opened Wrappers
  import opened Engine
  import opened ShadowState

  // ---- The two halves of a call ------------------------------------------------

  /** What a task has yet to change in the held request. */
  datatype Change = HoldRequest(request: ApplyRequest) | HoldSelected(node: NodeId) | HoldPin(node: NodeId, key: Option<Key>)

  function ApplyHalf(decoder: Decoder, live: Live, request: ApplyRequest, fails: bool): (Live, Option<Change>) {
    var (after, result) := AfterApply(decoder, live, request, fails);
    (after, if result.None? then None else Some(HoldRequest(Held(request, result.value))))
  }

  /** The engine's half: what is live afterwards, and what is left to be held. */
  function EngineHalf(decoder: Decoder, live: Live, held: Option<ApplyRequest>, call: Call, fails: bool): (Live, Option<Change>) {
    match call
    case Apply(request) => ApplyHalf(decoder, live, request, fails)
    case SetRoutingMode(mode) =>
      if held.None? then (live, None) else ApplyHalf(decoder, live, held.value.(mode := mode), fails)
    case SelectNode(node) =>
      var (after, ok) := AfterSelect(live, node, fails);
      (after, if ok then Some(HoldSelected(node)) else None)
    case PinIngress(node, key) =>
      var (after, ok) := AfterPin(live, node, key, fails);
      (after, if ok then Some(HoldPin(node, key)) else None)
  }

  /** The other half. */
  function Remembered(held: Option<ApplyRequest>, change: Change): Option<ApplyRequest> {
    match change
    case HoldRequest(request) => Some(request)
    case HoldSelected(node) => if held.None? then None else Some(held.value.(selected := Some(node)))
    case HoldPin(node, key) =>
      if held.None? then None else
      var others := Without(held.value.pins, {node});
      Some(held.value.(pins := if key.Some? then others + [Pin(node, key.value)] else others))
  }

  /** One half right after the other is a call served alone. */
  lemma {:induction false} ServedAloneIsNext(decoder: Decoder, d: Daemon, call: Call, fails: bool)
    ensures var (live, change) := EngineHalf(decoder, d.live, d.applied, call, fails);
            Next(decoder, d, call, fails) == Daemon(live, if change.None? then d.applied else Remembered(d.applied, change.value))
  {
  }

  /** `waiting`: the changes whose engine half is done, in the order the engine did them. */
  datatype System = System(live: Live, held: Option<ApplyRequest>, waiting: seq<Change>)

  const IDLE := System(Live(None, []), None, [])

  /**
    A mode change whose task read the held request some time ago is an apply of what it read.
    `Remembers(i)`: the task behind the i-th waiting change runs on.
   */
  datatype Event = Engine(call: Call, fails: bool) | Remembers(i: nat)

  function Step(decoder: Decoder, s: System, e: Event): System {
    match e
    case Engine(call, fails) =>
      var (live, change) := EngineHalf(decoder, s.live, s.held, call, fails);
      s.(live := live, waiting := if change.None? then s.waiting else s.waiting + [change.value])
    case Remembers(i) =>
      if i >= |s.waiting| then s
      else s.(held := Remembered(s.held, s.waiting[i]), waiting := s.waiting[..i] + s.waiting[i + 1..])
  }

  function RunAll(decoder: Decoder, events: seq<Event>): System {
    if events == [] then IDLE else Step(decoder, RunAll(decoder, events[..|events| - 1]), events[|events| - 1])
  }

  // ---- What a change writes ------------------------------------------------------

  /** What both the engine and the held request say. */
  datatype View = View(revision: string, mode: RoutingMode, selected: NodeId, pins: map<NodeId, Key>, hosts: seq<string>)

  function LiveView(live: Live): Option<View> {
    if live.applied.None? then None
    else Some(View(live.applied.value.profile.revision, live.applied.value.mode, live.applied.value.selected, live.applied.value.pins, live.hosts))
  }

  /** A request that can be held: its profile reads, its selection is named, its pins are of different nodes. */
  predicate IsHeld(decoder: Decoder, request: ApplyRequest) {
    Decode(decoder, request.profile).Some? && request.selected.Some? && DistinctNodes(request.pins)
  }

  function ViewOf(decoder: Decoder, request: ApplyRequest): View
    requires IsHeld(decoder, request)
  {
    View(Decode(decoder, request.profile).value.revision, request.mode, request.selected.value, PinMap(request.pins), request.hosts)
  }

  function HeldView(decoder: Decoder, held: Option<ApplyRequest>): Option<View>
    requires held.Some? ==> IsHeld(decoder, held.value)
  {
    if held.None? then None else Some(ViewOf(decoder, held.value))
  }

  datatype Effect = SetAll(view: View) | SetSelected(node: NodeId) | SetPin(node: NodeId, key: Option<Key>)

  function Pinned(pins: map<NodeId, Key>, node: NodeId, key: Option<Key>): map<NodeId, Key> {
    if key.None? then pins - {node} else pins[node := key.value]
  }

  function Does(e: Effect, v: Option<View>): Option<View> {
    match e
    case SetAll(view) => Some(view)
    case SetSelected(node) => if v.None? then None else Some(v.value.(selected := node))
    case SetPin(node, key) => if v.None? then None else Some(v.value.(pins := Pinned(v.value.pins, node, key)))
  }

  predicate IsChange(decoder: Decoder, c: Change) {
    c.HoldRequest? ==> IsHeld(decoder, c.request)
  }

  function EffectOf(decoder: Decoder, c: Change): Effect
    requires IsChange(decoder, c)
  {
    match c
    case HoldRequest(request) => SetAll(ViewOf(decoder, request))
    case HoldSelected(node) => SetSelected(node)
    case HoldPin(node, key) => SetPin(node, key)
  }

  function EffectsOf(decoder: Decoder, changes: seq<Change>): (es: seq<Effect>)
    requires forall c :: c in changes ==> IsChange(decoder, c)
    ensures |es| == |changes| && forall i :: 0 <= i < |es| ==> es[i] == EffectOf(decoder, changes[i])
  {
    seq(|changes|, i requires 0 <= i < |changes| => EffectOf(decoder, changes[i]))
  }

  function DoAll(es: seq<Effect>, v: Option<View>): Option<View> {
    if es == [] then v else Does(es[|es| - 1], DoAll(es[..|es| - 1], v))
  }

  // ---- Agreement --------------------------------------------------------------------

  function SelectedBy(e: Effect): Option<NodeId> {
    match e
    case SetAll(view) => Some(view.selected)
    case SetSelected(node) => Some(node)
    case SetPin(_, _) => None
  }

  /** Whether the effect says anything about the node's pin, and what. */
  function PinnedBy(e: Effect, node: NodeId): Option<Option<Key>> {
    match e
    case SetAll(view) => Some(if node in view.pins then Some(view.pins[node]) else None)
    case SetSelected(_) => None
    case SetPin(n, key) => if n == node then Some(key) else None
  }

  predicate Same<T(==)>(a: Option<T>, b: Option<T>) {
    a.Some? && b.Some? ==> a == b
  }

  /** Two effects say the same of everything both say something about. */
  ghost predicate Agree(a: Effect, b: Effect) {
    && Same(SelectedBy(a), SelectedBy(b))
    && (forall node :: Same(PinnedBy(a, node), PinnedBy(b, node)))
    && (a.SetAll? && b.SetAll? ==> a.view.revision == b.view.revision && a.view.mode == b.view.mode && a.view.hosts == b.view.hosts)
  }

  lemma AllAgree(a: Effect, b: Effect)
    requires a.SetAll? && b.SetAll?
    ensures Agree(a, b) <==> a == b
  {
    if Agree(a, b) {
      forall node
        ensures node in a.view.pins <==> node in b.view.pins
        ensures node in a.view.pins ==> a.view.pins[node] == b.view.pins[node]
      {
        assert Same(PinnedBy(a, node), PinnedBy(b, node));
      }
      assert a.view.pins == b.view.pins;
    }
  }

  lemma AllAgreesWithPin(a: Effect, b: Effect)
    requires a.SetAll? && b.SetPin?
    ensures Agree(a, b) <==> Does(b, Some(a.view)) == Some(a.view)
    ensures Agree(b, a) <==> Does(b, Some(a.view)) == Some(a.view)
  {
    var pins := Pinned(a.view.pins, b.node, b.key);
    if Agree(a, b) || Agree(b, a) {
      assert Same(PinnedBy(a, b.node), PinnedBy(b, b.node));
      assert pins == a.view.pins;
    }
    if pins == a.view.pins {
      assert b.key.Some? ==> pins[b.node] == b.key.value;
    }
  }

  lemma PinsAgree(a: Effect, b: Effect, v: Option<View>)
    requires a.SetPin? && b.SetPin? && v.Some?
    ensures Agree(a, b) <==> Does(a, Does(b, v)) == Does(b, Does(a, v))
  {
    var ab := Pinned(Pinned(v.value.pins, b.node, b.key), a.node, a.key);
    var ba := Pinned(Pinned(v.value.pins, a.node, a.key), b.node, b.key);
    if a.node != b.node || a.key == b.key {
      assert ab == ba;
    } else {
      assert !Same(PinnedBy(a, a.node), PinnedBy(b, a.node));
      assert a.key.Some? ==> a.node in ab && ab[a.node] == a.key.value;
      assert b.key.Some? ==> a.node in ba && ba[a.node] == b.key.value;
      assert ab != ba;
    }
  }

  /** The order of two effects does not matter if and only if they agree. */
  lemma {:induction false} OrderMattersUnlessAgreed(a: Effect, b: Effect, v: Option<View>)
    requires v.Some? || a.SetAll?
    ensures Does(a, Does(b, v)) == Does(b, Does(a, v)) <==> Agree(a, b)
  {
    if a.SetAll? && b.SetAll? {
      AllAgree(a, b);
    } else if a.SetAll? && b.SetPin? {
      AllAgreesWithPin(a, b);
    } else if a.SetPin? && b.SetAll? {
      AllAgreesWithPin(b, a);
    } else if a.SetPin? && b.SetPin? {
      PinsAgree(a, b, v);
    }
  }

  lemma AgreedOrder(a: Effect, b: Effect, v: Option<View>)
    requires Agree(a, b)
    ensures Does(a, Does(b, v)) == Does(b, Does(a, v))
  {
    if v.Some? || a.SetAll? {
      OrderMattersUnlessAgreed(a, b, v);
    } else if b.SetAll? && a.SetPin? {
      AllAgreesWithPin(b, a);
    }
  }

  /** An effect that agrees with those before it can as well come first. */
  lemma {:induction false} OvertakingAgreed(es: seq<Effect>, i: nat, v: Option<View>)
    requires i < |es| && forall j :: 0 <= j < i ==> Agree(es[j], es[i])
    ensures DoAll(es[..i] + es[i + 1..], Does(es[i], v)) == DoAll(es, v)
  {
    var last := |es| - 1;
    if i == last {
      assert es[..i] + es[i + 1..] == es[..i];
      FirstOrLast(es[..i], es[i], v);
    } else {
      OvertakingAgreed(es[..last], i, v);
      var rest := es[..i] + es[i + 1..];
      assert rest[..|rest| - 1] == es[..last][..i] + es[..last][i + 1..];
    }
  }

  lemma {:induction false} FirstOrLast(es: seq<Effect>, e: Effect, v: Option<View>)
    requires forall j :: 0 <= j < |es| ==> Agree(es[j], e)
    ensures DoAll(es, Does(e, v)) == Does(e, DoAll(es, v))
  {
    if es != [] {
      var last := es[|es| - 1];
      FirstOrLast(es[..|es| - 1], e, v);
      AgreedOrder(last, e, DoAll(es[..|es| - 1], v));
    }
  }

  // ---- All runs -------------------------------------------------------------------------

  /** Were everything waiting remembered in its order, the held request would name what is live. */
  ghost predicate Catches(decoder: Decoder, s: System) {
    && (s.held.Some? ==> IsHeld(decoder, s.held.value))
    && (forall c :: c in s.waiting ==> IsChange(decoder, c))
    && (s.held.None? && s.waiting != [] ==> s.waiting[0].HoldRequest?)
    && DoAll(EffectsOf(decoder, s.waiting), HeldView(decoder, s.held)) == LiveView(s.live)
  }

  lemma CatchesIsNamesLive(decoder: Decoder, s: System)
    requires s.held.Some? ==> IsHeld(decoder, s.held.value)
    ensures HeldView(decoder, s.held) == LiveView(s.live) <==> NamesLive(decoder, Daemon(s.live, s.held))
  {
  }

  lemma RememberedIsDone(decoder: Decoder, held: Option<ApplyRequest>, c: Change)
    requires (held.Some? ==> IsHeld(decoder, held.value)) && IsChange(decoder, c)
    ensures var after := Remembered(held, c);
            && (after.Some? ==> IsHeld(decoder, after.value))
            && HeldView(decoder, after) == Does(EffectOf(decoder, c), HeldView(decoder, held))
  {
    if c.HoldPin? && held.Some? {
      WithoutIsDistinct(held.value.pins, {c.node});
      PinMapWithout(held.value.pins, {c.node});
      if c.key.Some? {
        RepinnedMap(held.value.pins, c.node, c.key.value);
      }
    }
  }

  lemma AppliedIsDone(decoder: Decoder, live: Live, request: ApplyRequest, fails: bool)
    ensures var (after, change) := ApplyHalf(decoder, live, request, fails);
            if change.None? then after == live
            else IsChange(decoder, change.value) && change.value.HoldRequest?
                 && LiveView(after) == Does(EffectOf(decoder, change.value), LiveView(live))
  {
    if Accepts(decoder, request) {
      var p := Decode(decoder, request.profile).value;
      var cleared := ClearedPins(p, request.pins);
      ClearedNodes(p, request.pins);
      WithoutClearedIsKept(p, request.pins, NodesOf(cleared));
      WithoutIsDistinct(request.pins, NodesOf(cleared));
    }
  }

  lemma EngineIsDone(decoder: Decoder, live: Live, held: Option<ApplyRequest>, call: Call, fails: bool)
    ensures var (after, change) := EngineHalf(decoder, live, held, call, fails);
            if change.None? then after == live
            else IsChange(decoder, change.value) && (live.applied.None? ==> change.value.HoldRequest?)
                 && LiveView(after) == Does(EffectOf(decoder, change.value), LiveView(live))
  {
    match call
    case Apply(request) => AppliedIsDone(decoder, live, request, fails);
    case SetRoutingMode(mode) =>
      if held.Some? {
        AppliedIsDone(decoder, live, held.value.(mode := mode), fails);
      }
    case SelectNode(_) =>
    case PinIngress(_, _) =>
  }

  /** The waiting change agrees with every one it overtakes. */
  ghost predicate OvertakesAgreed(decoder: Decoder, s: System, i: nat)
    requires forall c :: c in s.waiting ==> IsChange(decoder, c)
  {
    i < |s.waiting| ==>
      forall j :: 0 <= j < i ==> Agree(EffectOf(decoder, s.waiting[j]), EffectOf(decoder, s.waiting[i]))
  }

  lemma EngineCatches(decoder: Decoder, s: System, call: Call, fails: bool)
    requires Catches(decoder, s)
    ensures Catches(decoder, Step(decoder, s, Engine(call, fails)))
  {
    EngineIsDone(decoder, s.live, s.held, call, fails);
    var (live, change) := EngineHalf(decoder, s.live, s.held, call, fails);
    if change.Some? {
      var waiting := s.waiting + [change.value];
      assert forall c :: c in waiting <==> c in s.waiting || c == change.value;
      var es := EffectsOf(decoder, waiting);
      assert es[..|es| - 1] == EffectsOf(decoder, s.waiting);
      if s.held.None? && s.waiting == [] {
        assert EffectsOf(decoder, s.waiting) == [];
        assert s.live.applied.None?;
      }
    }
  }

  lemma EffectsWithout(decoder: Decoder, changes: seq<Change>, i: nat)
    requires i < |changes| && forall c :: c in changes ==> IsChange(decoder, c)
    ensures forall c :: c in changes[..i] + changes[i + 1..] ==> IsChange(decoder, c)
    ensures var es := EffectsOf(decoder, changes); EffectsOf(decoder, changes[..i] + changes[i + 1..]) == es[..i] + es[i + 1..]
  {
    assert forall c :: c in changes[..i] + changes[i + 1..] ==> c in changes;
  }

  lemma RememberCatches(decoder: Decoder, s: System, i: nat)
    requires Catches(decoder, s) && OvertakesAgreed(decoder, s, i)
    ensures Catches(decoder, Step(decoder, s, Remembers(i)))
  {
    if i < |s.waiting| {
      var c := s.waiting[i];
      var rest := s.waiting[..i] + s.waiting[i + 1..];
      RememberedIsDone(decoder, s.held, c);
      var es := EffectsOf(decoder, s.waiting);
      OvertakingAgreed(es, i, HeldView(decoder, s.held));
      EffectsWithout(decoder, s.waiting, i);
      assert i > 0 ==> rest[0] == s.waiting[0];
    }
  }

  /** No remembered change overtakes one that it does not agree with. */
  ghost predicate NoClash(decoder: Decoder, events: seq<Event>) {
    events != [] ==>
      var last := |events| - 1;
      var before := RunAll(decoder, events[..last]);
      && NoClash(decoder, events[..last])
      && (events[last].Remembers? ==>
            (forall c :: c in before.waiting ==> IsChange(decoder, c)) && OvertakesAgreed(decoder, before, events[last].i))
  }

  lemma {:induction false} OverlappingCallsCatchUp(decoder: Decoder, events: seq<Event>)
    requires NoClash(decoder, events)
    ensures Catches(decoder, RunAll(decoder, events))
    ensures var s := RunAll(decoder, events); s.waiting == [] ==> NamesLive(decoder, Daemon(s.live, s.held))
  {
    if events != [] {
      var before := RunAll(decoder, events[..|events| - 1]);
      OverlappingCallsCatchUp(decoder, events[..|events| - 1]);
      match events[|events| - 1]
      case Engine(call, fails) => EngineCatches(decoder, before, call, fails);
      case Remembers(i) => RememberCatches(decoder, before, i);
    }
    CatchesIsNamesLive(decoder, RunAll(decoder, events));
  }

  predicate InOrder(events: seq<Event>) {
    forall k :: 0 <= k < |events| && events[k].Remembers? ==> events[k].i == 0
  }

  lemma {:induction false} InOrderIsNoClash(decoder: Decoder, events: seq<Event>)
    requires InOrder(events)
    ensures NoClash(decoder, events)
  {
    if events != [] {
      InOrderIsNoClash(decoder, events[..|events| - 1]);
      OverlappingCallsCatchUp(decoder, events[..|events| - 1]);
    }
  }

  /**
    However calls overlap, once none is half done the held request names what is live, as
    long as the tasks change it in the order in which the engine served them.
   */
  lemma {:induction false} InOrderNamesLive(decoder: Decoder, events: seq<Event>)
    requires InOrder(events) && RunAll(decoder, events).waiting == []
    ensures NamesLive(decoder, Daemon(RunAll(decoder, events).live, RunAll(decoder, events).held))
  {
    InOrderIsNoClash(decoder, events);
    OverlappingCallsCatchUp(decoder, events);
  }

  /**
    Out of order: of two half-done calls, let the later one be remembered first. Then the
    held request names what is live if and only if the two say the same of everything both
    are about.
   */
  lemma {:induction false} OvertakingNamesLiveIff(decoder: Decoder, events: seq<Event>)
    requires NoClash(decoder, events) && |RunAll(decoder, events).waiting| == 2
    ensures var s := RunAll(decoder, events);
            var t := Step(decoder, Step(decoder, s, Remembers(1)), Remembers(0));
            && t.waiting == [] && IsChange(decoder, s.waiting[0]) && IsChange(decoder, s.waiting[1])
            && (NamesLive(decoder, Daemon(t.live, t.held)) <==>
                  Agree(EffectOf(decoder, s.waiting[0]), EffectOf(decoder, s.waiting[1])))
  {
    OverlappingCallsCatchUp(decoder, events);
    var s := RunAll(decoder, events);
    var first, second, v := s.waiting[0], s.waiting[1], HeldView(decoder, s.held);
    var u := Step(decoder, s, Remembers(1));
    var t := Step(decoder, u, Remembers(0));
    assert first in s.waiting && second in s.waiting && u.waiting == [first] && t.waiting == [];
    RememberedIsDone(decoder, s.held, second);
    RememberedIsDone(decoder, u.held, first);
    var a, b := EffectOf(decoder, first), EffectOf(decoder, second);
    assert HeldView(decoder, t.held) == Does(a, Does(b, v));
    var es := EffectsOf(decoder, s.waiting);
    assert es == [a, b] && es[..1] == [a] && es[..1][..0] == [];
    assert DoAll([a], v) == Does(a, DoAll([], v));
    assert LiveView(t.live) == Does(b, Does(a, v));
    OrderMattersUnlessAgreed(a, b, v);
    CatchesIsNamesLive(decoder, t);
  }

  // ---- Any number, in any order -----------------------------------------------------------

  function AllBy(e: Effect): Option<(string, RoutingMode, seq<string>)> {
    if e.SetAll? then Some((e.view.revision, e.view.mode, e.view.hosts)) else None
  }

  /** What the last of the effects that say anything about it says. */
  function LastAll(es: seq<Effect>): Option<(string, RoutingMode, seq<string>)> {
    if es == [] then None
    else if AllBy(es[|es| - 1]).Some? then AllBy(es[|es| - 1])
    else LastAll(es[..|es| - 1])
  }

  function LastSelected(es: seq<Effect>): Option<NodeId> {
    if es == [] then None
    else if SelectedBy(es[|es| - 1]).Some? then SelectedBy(es[|es| - 1])
    else LastSelected(es[..|es| - 1])
  }

  function LastPinned(es: seq<Effect>, node: NodeId): Option<Option<Key>> {
    if es == [] then None
    else if PinnedBy(es[|es| - 1], node).Some? then PinnedBy(es[|es| - 1], node)
    else LastPinned(es[..|es| - 1], node)
  }

  /** Two orders of effects have the same last word on everything. */
  ghost predicate SameLastWord(a: seq<Effect>, b: seq<Effect>) {
    && LastAll(a) == LastAll(b) && LastSelected(a) == LastSelected(b)
    && forall node :: LastPinned(a, node) == LastPinned(b, node)
  }

  ghost predicate SetsAll(es: seq<Effect>) {
    exists i :: 0 <= i < |es| && es[i].SetAll?
  }

  function PinIn(v: View, node: NodeId): Option<Key> {
    if node in v.pins then Some(v.pins[node]) else None
  }

  function Or<T>(word: Option<T>, before: T): T {
    if word.Some? then word.value else before
  }

  lemma SetsAllSnoc(es: seq<Effect>)
    requires es != [] && SetsAll(es) && !es[|es| - 1].SetAll?
    ensures SetsAll(es[..|es| - 1])
  {
    var i :| 0 <= i < |es| && es[i].SetAll?;
    assert es[..|es| - 1][i].SetAll?;
  }

  /** The effects leave what the last word on it is, or what was there before. */
  lemma {:induction false} LastWordHolds(es: seq<Effect>, v: View)
    ensures var w := DoAll(es, Some(v));
            && w.Some?
            && (w.value.revision, w.value.mode, w.value.hosts) == Or(LastAll(es), (v.revision, v.mode, v.hosts))
            && w.value.selected == Or(LastSelected(es), v.selected)
            && forall node :: PinIn(w.value, node) == Or(LastPinned(es, node), PinIn(v, node))
  {
    if es != [] {
      LastWordHolds(es[..|es| - 1], v);
    }
  }

  /** From nothing, what there is comes from the first request held on. */
  lemma {:induction false} FromNothing(es: seq<Effect>, v: View)
    requires SetsAll(es)
    ensures DoAll(es, None) == DoAll(es, Some(v))
  {
    if !es[|es| - 1].SetAll? {
      SetsAllSnoc(es);
      FromNothing(es[..|es| - 1], v);
    }
  }

  lemma {:induction false} SaidIff(es: seq<Effect>)
    ensures LastAll(es).Some? <==> exists e :: e in es && AllBy(e).Some?
    ensures LastSelected(es).Some? <==> exists e :: e in es && SelectedBy(e).Some?
    ensures forall node :: LastPinned(es, node).Some? <==> exists e :: e in es && PinnedBy(e, node).Some?
  {
    if es != [] {
      var last := es[|es| - 1];
      SaidIff(es[..|es| - 1]);
      assert forall e :: e in es <==> e in es[..|es| - 1] || e == last;
    }
  }

  /** Two orders of the same effects come to the same if and only if they have the same last word on everything. */
  lemma SameEffectsIff(a: seq<Effect>, b: seq<Effect>, v: View)
    requires forall e :: e in a <==> e in b
    ensures DoAll(a, Some(v)) == DoAll(b, Some(v)) <==> SameLastWord(a, b)
  {
    LastWordHolds(a, v);
    LastWordHolds(b, v);
    SaidIff(a);
    SaidIff(b);
    var x, y := DoAll(a, Some(v)).value, DoAll(b, Some(v)).value;
    assert LastAll(a).Some? == LastAll(b).Some? && LastSelected(a).Some? == LastSelected(b).Some?;
    if SameLastWord(a, b) {
      assert forall node :: PinIn(x, node) == PinIn(y, node);
      SamePins(x, y);
    }
    if x == y {
      forall node
        ensures LastPinned(a, node) == LastPinned(b, node)
      {
        assert LastPinned(a, node).Some? == LastPinned(b, node).Some?;
        assert PinIn(x, node) == PinIn(y, node);
      }
    }
  }

  lemma SamePins(x: View, y: View)
    requires forall node :: PinIn(x, node) == PinIn(y, node)
    ensures x.pins == y.pins
  {
    forall node
      ensures node in x.pins <==> node in y.pins
      ensures node in x.pins ==> x.pins[node] == y.pins[node]
    {
      assert PinIn(x, node) == PinIn(y, node);
    }
  }

  /** The changes a run has made, in the order in which the engine did its halves. */
  function Engined(decoder: Decoder, events: seq<Event>): seq<Change> {
    if events == [] then [] else
    var init, last := events[..|events| - 1], events[|events| - 1];
    var s := RunAll(decoder, init);
    match last
    case Engine(call, fails) =>
      var change := EngineHalf(decoder, s.live, s.held, call, fails).1;
      Engined(decoder, init) + (if change.None? then [] else [change.value])
    case Remembers(_) => Engined(decoder, init)
  }

  /** Those remembered, in the order in which they were. */
  function Told(decoder: Decoder, events: seq<Event>): seq<Change> {
    if events == [] then [] else
    var init, last := events[..|events| - 1], events[|events| - 1];
    var s := RunAll(decoder, init);
    Told(decoder, init) + (if last.Remembers? && last.i < |s.waiting| then [s.waiting[last.i]] else [])
  }

  /** What is live is what the engine was asked for, what is held what was told of it, and what is missing waits. */
  ghost predicate Accounts(decoder: Decoder, s: System, engined: seq<Change>, told: seq<Change>) {
    && (s.held.Some? ==> IsHeld(decoder, s.held.value))
    && (forall c :: c in engined ==> IsChange(decoder, c))
    && (forall c :: c in engined <==> c in told || c in s.waiting)
    && (engined != [] ==> engined[0].HoldRequest?)
    && LiveView(s.live) == DoAll(EffectsOf(decoder, engined), None)
    && HeldView(decoder, s.held) == DoAll(EffectsOf(decoder, told), None)
  }

  lemma EffectsSnoc(decoder: Decoder, changes: seq<Change>, c: Change)
    requires (forall x :: x in changes ==> IsChange(decoder, x)) && IsChange(decoder, c)
    ensures (forall x :: x in changes + [c] ==> IsChange(decoder, x))
    ensures forall v :: DoAll(EffectsOf(decoder, changes + [c]), v) == Does(EffectOf(decoder, c), DoAll(EffectsOf(decoder, changes), v))
  {
    assert forall x :: x in changes + [c] <==> x in changes || x == c;
    var es := EffectsOf(decoder, changes + [c]);
    assert es[..|es| - 1] == EffectsOf(decoder, changes);
  }

  lemma EngineAccounts(decoder: Decoder, s: System, call: Call, fails: bool, engined: seq<Change>, told: seq<Change>)
    requires Accounts(decoder, s, engined, told)
    ensures var change := EngineHalf(decoder, s.live, s.held, call, fails).1;
            Accounts(decoder, Step(decoder, s, Engine(call, fails)), engined + (if change.None? then [] else [change.value]), told)
  {
    EngineIsDone(decoder, s.live, s.held, call, fails);
    var change := EngineHalf(decoder, s.live, s.held, call, fails).1;
    if change.None? {
      assert engined + [] == engined;
    } else {
      EffectsSnoc(decoder, engined, change.value);
      assert forall c :: c in s.waiting + [change.value] <==> c in s.waiting || c == change.value;
      if engined == [] {
        assert EffectsOf(decoder, engined) == [];
      }
    }
  }

  lemma RememberAccounts(decoder: Decoder, s: System, i: nat, engined: seq<Change>, told: seq<Change>)
    requires Accounts(decoder, s, engined, told)
    ensures Accounts(decoder, Step(decoder, s, Remembers(i)), engined, told + (if i < |s.waiting| then [s.waiting[i]] else []))
  {
    if i < |s.waiting| {
      var c, rest := s.waiting[i], s.waiting[..i] + s.waiting[i + 1..];
      assert s.waiting == s.waiting[..i] + [c] + s.waiting[i + 1..];
      assert forall x :: x in s.waiting <==> x == c || x in rest;
      RememberedIsDone(decoder, s.held, c);
      EffectsSnoc(decoder, told, c);
    } else {
      assert told + [] == told;
    }
  }

  lemma {:induction false} RunAccounts(decoder: Decoder, events: seq<Event>)
    ensures Accounts(decoder, RunAll(decoder, events), Engined(decoder, events), Told(decoder, events))
  {
    if events != [] {
      var init := events[..|events| - 1];
      var s := RunAll(decoder, init);
      RunAccounts(decoder, init);
      match events[|events| - 1]
      case Engine(call, fails) =>
        EngineAccounts(decoder, s, call, fails, Engined(decoder, init), Told(decoder, init));
        assert Told(decoder, events) == Told(decoder, init);
      case Remembers(i) =>
        RememberAccounts(decoder, s, i, Engined(decoder, init), Told(decoder, init));
    }
  }

  lemma EffectsIn(decoder: Decoder, a: seq<Change>, b: seq<Change>)
    requires (forall c :: c in a ==> IsChange(decoder, c)) && (forall c :: c in b ==> IsChange(decoder, c))
    requires forall c :: c in a ==> c in b
    ensures forall e :: e in EffectsOf(decoder, a) ==> e in EffectsOf(decoder, b)
  {
    forall e | e in EffectsOf(decoder, a)
      ensures e in EffectsOf(decoder, b)
    {
      var i :| 0 <= i < |a| && e == EffectOf(decoder, a[i]);
      assert a[i] in a && a[i] in b;
      var j :| 0 <= j < |b| && b[j] == a[i];
      assert EffectsOf(decoder, b)[j] == e;
    }
  }

  lemma OrdersCompared(decoder: Decoder, a: seq<Change>, b: seq<Change>)
    requires (forall c :: c in a ==> IsChange(decoder, c)) && forall c :: c in a <==> c in b
    requires a != [] ==> a[0].HoldRequest?
    ensures forall c :: c in b ==> IsChange(decoder, c)
    ensures DoAll(EffectsOf(decoder, a), None) == DoAll(EffectsOf(decoder, b), None)
       <==> SameLastWord(EffectsOf(decoder, a), EffectsOf(decoder, b))
  {
    var es, os := EffectsOf(decoder, a), EffectsOf(decoder, b);
    EffectsIn(decoder, a, b);
    EffectsIn(decoder, b, a);
    assert b != [] ==> b[0] in b;
    if a != [] {
      var first := a[0];
      assert es[0].SetAll? && first in a && first in b;
      var j :| 0 <= j < |b| && b[j] == first;
      assert os[j].SetAll?;
      FromNothing(es, es[0].view);
      FromNothing(os, es[0].view);
      SameEffectsIff(es, os, es[0].view);
    }
  }

  /**
    However calls overlap, and in whatever order their tasks run on, in all of the daemon's
    life: whenever no call is half done, the held request names what is live if and only if
    the order in which it was told and the engine's have the same last word on everything.
   */
  lemma {:induction false} AnyOrderNamesLiveIff(decoder: Decoder, events: seq<Event>)
    requires RunAll(decoder, events).waiting == []
    ensures var s := RunAll(decoder, events);
            var engined, told := Engined(decoder, events), Told(decoder, events);
            && (forall c :: c in engined ==> IsChange(decoder, c)) && (forall c :: c in told ==> IsChange(decoder, c))
            && (NamesLive(decoder, Daemon(s.live, s.held)) <==> SameLastWord(EffectsOf(decoder, engined), EffectsOf(decoder, told)))
  {
    RunAccounts(decoder, events);
    OrdersCompared(decoder, Engined(decoder, events), Told(decoder, events));
    CatchesIsNamesLive(decoder, RunAll(decoder, events));
  }

  /** The concrete case: two nodes are selected at once, and the first task comes last. */
  lemma OvertakenSelectionNamesTheWrongNode(decoder: Decoder, raw: Bytes, x: NodeId, y: NodeId)
    requires Decode(decoder, raw).Some? && x in Decode(decoder, raw).value.nodes && y in Decode(decoder, raw).value.nodes && x != y
    ensures var s := Step(decoder, Step(decoder, IDLE, Engine(Asking(raw, x).0, false)), Remembers(0));
            var both := Step(decoder, Step(decoder, s, Engine(SelectNode(x), false)), Engine(SelectNode(y), false));
            var t := Step(decoder, Step(decoder, both, Remembers(1)), Remembers(0));
            && t.waiting == [] && t.live.applied.Some? && t.live.applied.value.selected == y
            && t.held.Some? && t.held.value.selected == Some(x)
  {
    var s := Step(decoder, Step(decoder, IDLE, Engine(Asking(raw, x).0, false)), Remembers(0));
    var both := Step(decoder, Step(decoder, s, Engine(SelectNode(x), false)), Engine(SelectNode(y), false));
    assert both.waiting == [HoldSelected(x), HoldSelected(y)];
    var u := Step(decoder, both, Remembers(1));
    assert u.waiting == [HoldSelected(x)];
  }
}
