/**
  The daemon's copy of what is applied (crates/cli/src/daemon.rs) and what the CLI saves
  of it (crates/cli/src/commands.rs): both must name what is live, so that applying them
  again resets and clears nothing.
 */
module ShadowState {
  import opened Wrappers
  import opened Engine

  // ---- Pins as the daemon keeps them ------------------------------------

  /** The pins a list of requests stands for. */
  function PinMap(pins: seq<Pin>): map<NodeId, Key> {
    if pins == [] then map[] else
    var last := pins[|pins| - 1];
    PinMap(pins[..|pins| - 1])[last.node := last.key]
  }

  /** `pins.retain(|pin| pin.node_id != node)`. */
  function Without(pins: seq<Pin>, nodes: set<NodeId>): (kept: seq<Pin>)
    ensures forall pin :: pin in kept <==> pin in pins && pin.node !in nodes
  {
    if pins == [] then [] else
    var last := pins[|pins| - 1];
    var before := Without(pins[..|pins| - 1], nodes);
    assert pins == pins[..|pins| - 1] + [last];
    if last.node in nodes then before else before + [last]
  }

  function NodesOf(pins: seq<Pin>): set<NodeId> {
    set pin | pin in pins :: pin.node
  }

  lemma {:induction false} PinMapKeys(pins: seq<Pin>)
    ensures PinMap(pins).Keys == NodesOf(pins)
  {
    if pins != [] {
      PinMapKeys(pins[..|pins| - 1]);
      assert pins == pins[..|pins| - 1] + [pins[|pins| - 1]];
    }
  }

  lemma {:induction false} PinMapWithout(pins: seq<Pin>, nodes: set<NodeId>)
    ensures PinMap(Without(pins, nodes)) == PinMap(pins) - nodes
  {
    if pins != [] {
      PinMapWithout(pins[..|pins| - 1], nodes);
      var last := pins[|pins| - 1];
      var before := Without(pins[..|pins| - 1], nodes);
      assert last.node !in nodes ==> (before + [last])[..|before|] == before;
    }
  }

  lemma {:induction false} WithoutIsDistinct(pins: seq<Pin>, nodes: set<NodeId>)
    requires DistinctNodes(pins)
    ensures DistinctNodes(Without(pins, nodes))
  {
    if pins != [] {
      WithoutIsDistinct(pins[..|pins| - 1], nodes);
      var last := pins[|pins| - 1];
      var before := Without(pins[..|pins| - 1], nodes);
      assert forall i :: 0 <= i < |before| ==> before[i] in before;
    }
  }

  lemma {:induction false} ClearedAre(p: Profile, pins: seq<Pin>)
    ensures forall pin :: pin in ClearedPins(p, pins) <==> pin in pins && !Has(p, pin)
  {
    if pins != [] {
      ClearedAre(p, pins[..|pins| - 1]);
      assert pins == pins[..|pins| - 1] + [pins[|pins| - 1]];
    }
  }

  /** Dropping what the engine cleared leaves the pins it kept. */
  lemma {:induction false} WithoutClearedIsKept(p: Profile, pins: seq<Pin>, nodes: set<NodeId>)
    requires forall i :: 0 <= i < |pins| ==> (pins[i].node in nodes <==> !Has(p, pins[i]))
    ensures PinMap(Without(pins, nodes)) == KeptPins(p, pins)
  {
    if pins != [] {
      var last := pins[|pins| - 1];
      WithoutClearedIsKept(p, pins[..|pins| - 1], nodes);
      var before := Without(pins[..|pins| - 1], nodes);
      if last.node !in nodes {
        assert (before + [last])[..|before|] == before;
      }
    }
  }

  /** For distinct nodes, a node was cleared exactly if its one pin is not in the profile. */
  lemma ClearedNodes(p: Profile, pins: seq<Pin>)
    requires DistinctNodes(pins)
    ensures forall pin :: pin in pins ==> (pin.node in NodesOf(ClearedPins(p, pins)) <==> !Has(p, pin))
  {
    ClearedAre(p, pins);
    forall pin | pin in pins
      ensures pin.node in NodesOf(ClearedPins(p, pins)) <==> !Has(p, pin)
    {
      if pin.node in NodesOf(ClearedPins(p, pins)) {
        var other :| other in ClearedPins(p, pins) && other.node == pin.node;
        var i :| 0 <= i < |pins| && pins[i] == pin;
        var j :| 0 <= j < |pins| && pins[j] == other;
        assert i == j;
      }
    }
  }

  // ---- The daemon --------------------------------------------------------

  datatype Daemon = Daemon(live: Live, applied: Option<ApplyRequest>)

  const STARTED := Daemon(Live(None, []), None)

  datatype Call =
    | Apply(request: ApplyRequest)
    | SelectNode(node: NodeId)
    | PinIngress(node: NodeId, key: Option<Key>)
    | SetRoutingMode(mode: RoutingMode)

  /** What the daemon remembers of an applied request: what is live, not what was asked for. */
  function Held(request: ApplyRequest, result: ApplyResult): ApplyRequest {
    request.(selected := Some(result.selected), pins := Without(request.pins, NodesOf(result.cleared)))
  }

  function ApplyCall(decoder: Decoder, d: Daemon, request: ApplyRequest, fails: bool): Daemon {
    var (live, result) := AfterApply(decoder, d.live, request, fails);
    match result
    case None => d.(live := live)
    case Some(r) => Daemon(live, Some(Held(request, r)))
  }

  function Next(decoder: Decoder, d: Daemon, call: Call, fails: bool): Daemon {
    match call
    case Apply(request) => ApplyCall(decoder, d, request, fails)
    case SetRoutingMode(mode) =>
      if d.applied.None? then d else ApplyCall(decoder, d, d.applied.value.(mode := mode), fails)
    case SelectNode(node) =>
      var (live, ok) := AfterSelect(d.live, node, fails);
      if ok && d.applied.Some? then Daemon(live, Some(d.applied.value.(selected := Some(node))))
      else d.(live := live)
    case PinIngress(node, key) =>
      var (live, ok) := AfterPin(d.live, node, key, fails);
      if ok && d.applied.Some? then
        var others := Without(d.applied.value.pins, {node});
        Daemon(live, Some(d.applied.value.(pins := if key.Some? then others + [Pin(node, key.value)] else others)))
      else d.(live := live)
  }

  /** One call after the other, each with whether the engine failed it. */
  function Run(decoder: Decoder, d: Daemon, calls: seq<(Call, bool)>): Daemon {
    if calls == [] then d else
    var last := calls[|calls| - 1];
    Next(decoder, Run(decoder, d, calls[..|calls| - 1]), last.0, last.1)
  }

  /** The held request names exactly the live selection, pins and mode. */
  predicate NamesLive(decoder: Decoder, d: Daemon) {
    match (d.applied, d.live.applied)
    case (None, None) => true
    case (Some(held), Some(applied)) =>
      && held.mode == applied.mode && held.selected == Some(applied.selected) && held.hosts == d.live.hosts
      && PinMap(held.pins) == applied.pins && DistinctNodes(held.pins)
      && Decode(decoder, held.profile).Some?
      && Decode(decoder, held.profile).value.revision == applied.profile.revision
    case _ => false
  }

  lemma ApplyNamesLive(decoder: Decoder, d: Daemon, request: ApplyRequest, fails: bool)
    requires NamesLive(decoder, d)
    ensures NamesLive(decoder, ApplyCall(decoder, d, request, fails))
  {
    if Accepts(decoder, request) {
      var p := Decode(decoder, request.profile).value;
      var cleared := ClearedPins(p, request.pins);
      ClearedNodes(p, request.pins);
      WithoutClearedIsKept(p, request.pins, NodesOf(cleared));
      WithoutIsDistinct(request.pins, NodesOf(cleared));
    }
  }

  /**
    After an accepted apply the held request is the one made, with what the engine
    selected and without the pins it cleared; a refused one changes nothing.
   */
  lemma ApplyIsHeld(decoder: Decoder, d: Daemon, request: ApplyRequest, fails: bool)
    ensures var u := ApplyCall(decoder, d, request, fails);
            if Decode(decoder, request.profile).None? || !DistinctNodes(request.pins) || fails then u == d
            else
              var p := Decode(decoder, request.profile).value;
              && u.applied.Some?
              && u.applied.value.profile == request.profile && u.applied.value.mode == request.mode && u.applied.value.hosts == request.hosts
              && u.applied.value.selected ==
                   Some(if request.selected.Some? && request.selected.value in p.nodes then request.selected.value else p.defaultNode)
              && (forall pin :: pin in u.applied.value.pins <==> pin in request.pins && Has(p, pin))
  {
    if Accepts(decoder, request) {
      var p := Decode(decoder, request.profile).value;
      ClearedNodes(p, request.pins);
    }
  }

  /** A selection changes the held selection only, a pin the pins of its node only, a mode the mode, and a failed call nothing. */
  lemma CallsChangeOnly(decoder: Decoder, d: Daemon, call: Call, fails: bool)
    requires d.applied.Some? && NamesLive(decoder, d)
    ensures var u := Next(decoder, d, call, fails);
            && u.applied.Some?
            && match call
               case Apply(_) => true
               case SelectNode(node) => u.applied.value == d.applied.value.(selected := u.applied.value.selected)
               case PinIngress(node, _) =>
                 && u.applied.value == d.applied.value.(pins := u.applied.value.pins)
                 && forall pin: Pin :: pin.node != node ==> (pin in u.applied.value.pins <==> pin in d.applied.value.pins)
               case SetRoutingMode(mode) =>
                 && u.applied.value.profile == d.applied.value.profile && u.applied.value.hosts == d.applied.value.hosts
                 && (u.applied.value.mode == mode || u == d)
    ensures fails ==> Next(decoder, d, call, fails) == d
  {
    if call.SetRoutingMode? {
      ApplyIsHeld(decoder, d, d.applied.value.(mode := call.mode), fails);
    }
  }

  /** What the live profile has can be selected and pinned, and then is live; anything else changes nothing. */
  lemma CallsDoAsAsked(decoder: Decoder, d: Daemon, node: NodeId, key: Option<Key>)
    requires d.applied.Some? && NamesLive(decoder, d)
    ensures var live := d.live.applied.value;
            var selected := Next(decoder, d, SelectNode(node), false);
            if node in live.profile.nodes then
              selected.live.applied == Some(Applied(live.profile, live.mode, node, live.pins)) && selected.live.hosts == d.live.hosts
            else selected == d
    ensures var live := d.live.applied.value;
            var pinned := Next(decoder, d, PinIngress(node, key), false);
            if node in live.profile.nodes && (key.Some? ==> key.value in live.profile.nodes[node]) then
              && pinned.live.applied.Some? && pinned.live.hosts == d.live.hosts
              && pinned.live.applied.value == Applied(live.profile, live.mode, live.selected, pinned.live.applied.value.pins)
              && (node in pinned.live.applied.value.pins <==> key.Some?)
              && (key.Some? ==> pinned.live.applied.value.pins[node] == key.value)
              && (forall other :: other != node ==>
                    && (other in pinned.live.applied.value.pins <==> other in live.pins)
                    && (other in live.pins ==> pinned.live.applied.value.pins[other] == live.pins[other]))
            else pinned == d
  {
  }

  lemma RemovedThenSet(pins: map<NodeId, Key>, node: NodeId, key: Key)
    ensures (pins - {node})[node := key] == pins[node := key]
  {
  }

  /** `retain` and `push` are the map update the engine makes. */
  lemma RepinnedMap(pins: seq<Pin>, node: NodeId, key: Key)
    requires DistinctNodes(pins)
    ensures var repinned := Without(pins, {node}) + [Pin(node, key)];
            PinMap(repinned) == PinMap(pins)[node := key] && DistinctNodes(repinned)
  {
    var others := Without(pins, {node});
    PinMapWithout(pins, {node});
    WithoutIsDistinct(pins, {node});
    RemovedThenSet(PinMap(pins), node, key);
    assert (others + [Pin(node, key)])[..|others|] == others;
    assert forall i :: 0 <= i < |others| ==> others[i] in others;
  }

  lemma UnpinNamesLive(decoder: Decoder, d: Daemon, node: NodeId, fails: bool)
    requires NamesLive(decoder, d)
    ensures NamesLive(decoder, Next(decoder, d, PinIngress(node, None), fails))
  {
    if d.applied.Some? {
      PinMapWithout(d.applied.value.pins, {node});
      WithoutIsDistinct(d.applied.value.pins, {node});
    }
  }

  lemma RepinNamesLive(decoder: Decoder, d: Daemon, node: NodeId, key: Key, fails: bool)
    requires NamesLive(decoder, d)
    ensures NamesLive(decoder, Next(decoder, d, PinIngress(node, Some(key)), fails))
  {
    var (live, ok) := AfterPin(d.live, node, Some(key), fails);
    if d.applied.Some? && ok {
      var pins := d.applied.value.pins;
      RepinnedMap(pins, node, key);
      assert live.applied.value.pins == PinMap(pins)[node := key];
    }
  }

  /** After any calls, however the engine answers them, the held request names what is live. */
  lemma {:induction false} HeldRequestNamesLive(decoder: Decoder, calls: seq<(Call, bool)>)
    ensures NamesLive(decoder, Run(decoder, STARTED, calls))
  {
    if calls != [] {
      var before := Run(decoder, STARTED, calls[..|calls| - 1]);
      var last := calls[|calls| - 1];
      HeldRequestNamesLive(decoder, calls[..|calls| - 1]);
      match last.0
      case Apply(request) => ApplyNamesLive(decoder, before, request, last.1);
      case SetRoutingMode(mode) =>
        if before.applied.Some? {
          ApplyNamesLive(decoder, before, before.applied.value.(mode := mode), last.1);
        }
      case SelectNode(_) =>
      case PinIngress(node, None) => UnpinNamesLive(decoder, before, node, last.1);
      case PinIngress(node, Some(key)) => RepinNamesLive(decoder, before, node, key, last.1);
    }
  }

  // ---- Applying the held request again ------------------------------------

  /** The profile in the request still has everything the request names. */
  predicate HasAll(p: Profile, request: ApplyRequest) {
    (request.selected.Some? ==> request.selected.value in p.nodes) && (forall pin :: pin in request.pins ==> Has(p, pin))
  }

  /** Applying a request resets and clears nothing if and only if its own profile has what it names. */
  lemma QuietIffProfileHasAll(live: Live, p: Profile, request: ApplyRequest)
    ensures var r := ResultOf(live, p, request);
            !r.selectionReset && r.cleared == [] <==> HasAll(p, request)
  {
    ClearedAre(p, request.pins);
    var cleared := ClearedPins(p, request.pins);
    if cleared != [] {
      assert cleared[0] in cleared;
    }
  }

  /** Profiles with one revision that have a node in common have the same nodes, with the same ingresses. */
  ghost predicate RevisionsAgree(decoder: Decoder) {
    forall a: Bytes, b: Bytes, n: NodeId | Decode(decoder, a).Some? && Decode(decoder, b).Some? ::
      var p, q := Decode(decoder, a).value, Decode(decoder, b).value;
      p.revision == q.revision && n in p.nodes && n in q.nodes ==> p.nodes == q.nodes
  }

  /** Applying the held request again would change, reset and clear nothing, and asks for what is live. */
  ghost predicate QuietAgain(decoder: Decoder, d: Daemon) {
    d.applied.Some? ==>
      && Decode(decoder, d.applied.value.profile).Some? && d.live.applied.Some?
      && var p := Decode(decoder, d.applied.value.profile).value;
         var r := ResultOf(d.live, p, d.applied.value);
         !r.applied && !r.selectionReset && r.cleared == [] && SameKey(Wanted(p, d.applied.value), d.live.applied.value)
  }

  lemma {:induction false} AllKept(p: Profile, pins: seq<Pin>)
    requires forall i :: 0 <= i < |pins| ==> Has(p, pins[i])
    ensures KeptPins(p, pins) == PinMap(pins)
  {
    if pins != [] {
      AllKept(p, pins[..|pins| - 1]);
    }
  }

  ghost predicate Decoded(decoder: Decoder, p: Profile) {
    exists raw: Bytes :: Decode(decoder, raw) == Some(p)
  }

  ghost predicate Sound(decoder: Decoder, d: Daemon) {
    && NamesLive(decoder, d)
    && (d.applied.Some? ==>
          var p, live := Decode(decoder, d.applied.value.profile).value, d.live.applied.value;
          p.nodes == live.profile.nodes && HasAll(p, d.applied.value) && Decoded(decoder, live.profile))
  }

  lemma ApplyIsSound(decoder: Decoder, d: Daemon, request: ApplyRequest, fails: bool)
    requires RevisionsAgree(decoder) && Sound(decoder, d)
    ensures Sound(decoder, ApplyCall(decoder, d, request, fails))
  {
    ApplyNamesLive(decoder, d, request, fails);
    if Accepts(decoder, request) && !fails {
      var p := Decode(decoder, request.profile).value;
      ClearedNodes(p, request.pins);
      if d.live.applied.Some? && Unchanged(d.live, Wanted(p, request), request.hosts) {
        var live := d.live.applied.value;
        var raw: Bytes :| Decode(decoder, raw) == Some(live.profile);
        assert live.selected in p.nodes && live.selected in live.profile.nodes;
        assert p.nodes == live.profile.nodes;
      }
    }
  }

  lemma {:induction false} RunIsSound(decoder: Decoder, calls: seq<(Call, bool)>)
    requires RevisionsAgree(decoder)
    ensures Sound(decoder, Run(decoder, STARTED, calls))
  {
    HeldRequestNamesLive(decoder, calls);
    if calls != [] {
      var before := Run(decoder, STARTED, calls[..|calls| - 1]);
      var last := calls[|calls| - 1];
      RunIsSound(decoder, calls[..|calls| - 1]);
      match last.0
      case Apply(request) => ApplyIsSound(decoder, before, request, last.1);
      case SetRoutingMode(mode) =>
        if before.applied.Some? {
          ApplyIsSound(decoder, before, before.applied.value.(mode := mode), last.1);
        }
      case SelectNode(_) =>
      case PinIngress(_, _) =>
    }
  }

  /** Two profiles share a revision and the node `n`: the second request changes nothing, and is held while the first one's profile is live. */
  lemma SecondIsHeldOverTheFirst(decoder: Decoder, a: Bytes, b: Bytes, n: NodeId)
    requires Decode(decoder, a).Some? && Decode(decoder, b).Some?
    requires var p, q := Decode(decoder, a).value, Decode(decoder, b).value;
             p.revision == q.revision && n in p.nodes && n in q.nodes
    ensures Run(decoder, STARTED, [Asking(a, n), Asking(b, n)])
         == Daemon(Live(Some(Applied(Decode(decoder, a).value, Rules, n, map[])), []), Some(Asking(b, n).0.request))
  {
    var calls := [Asking(a, n), Asking(b, n)];
    assert calls[..1] == [Asking(a, n)] && calls[..1][..0] == [];
    var first := Run(decoder, STARTED, [Asking(a, n)]);
    assert [Asking(a, n)][..0] == [];
    assert first == Next(decoder, Run(decoder, STARTED, []), Asking(a, n).0, false);
    assert first == Daemon(Live(Some(Applied(Decode(decoder, a).value, Rules, n, map[])), []), Some(Asking(a, n).0.request));
  }

  function Asking(raw: Bytes, n: NodeId): (c: (Call, bool))
    ensures c.0.Apply?
  {
    (Apply(ApplyRequest(raw, Rules, Some(n), [], [])), false)
  }

  /** What only the first profile has can then be selected or pinned, and the held request's own profile does not have it. */
  lemma SelectedIsLoud(decoder: Decoder, a: Bytes, b: Bytes, n: NodeId, x: NodeId)
    requires Decode(decoder, a).Some? && Decode(decoder, b).Some?
    requires var p, q := Decode(decoder, a).value, Decode(decoder, b).value;
             p.revision == q.revision && n in p.nodes && n in q.nodes && x in p.nodes && x !in q.nodes
    ensures !QuietAgain(decoder, Run(decoder, STARTED, [Asking(a, n), Asking(b, n)] + [(SelectNode(x), false)]))
  {
    var calls := [Asking(a, n), Asking(b, n)];
    SecondIsHeldOverTheFirst(decoder, a, b, n);
    assert (calls + [(SelectNode(x), false)])[..2] == calls;
  }

  lemma PinnedIsLoud(decoder: Decoder, a: Bytes, b: Bytes, n: NodeId, x: NodeId, k: Key)
    requires Decode(decoder, a).Some? && Decode(decoder, b).Some?
    requires var p, q := Decode(decoder, a).value, Decode(decoder, b).value;
             p.revision == q.revision && n in p.nodes && n in q.nodes && Has(p, Pin(x, k)) && !Has(q, Pin(x, k))
    ensures !QuietAgain(decoder, Run(decoder, STARTED, [Asking(a, n), Asking(b, n)] + [(PinIngress(x, Some(k)), false)]))
  {
    var calls := [Asking(a, n), Asking(b, n)];
    SecondIsHeldOverTheFirst(decoder, a, b, n);
    assert (calls + [(PinIngress(x, Some(k)), false)])[..2] == calls;
    var d := Run(decoder, STARTED, calls + [(PinIngress(x, Some(k)), false)]);
    assert Without([], {x}) == [];
    assert d.applied.value.pins == [Pin(x, k)];
    ClearedAre(Decode(decoder, b).value, [Pin(x, k)]);
    assert Pin(x, k) in ClearedPins(Decode(decoder, b).value, [Pin(x, k)]);
  }

  lemma DisagreementIsLoud(decoder: Decoder, a: Bytes, b: Bytes, n: NodeId) returns (calls: seq<(Call, bool)>)
    requires Decode(decoder, a).Some? && Decode(decoder, b).Some?
    requires var p, q := Decode(decoder, a).value, Decode(decoder, b).value;
             p.revision == q.revision && n in p.nodes && n in q.nodes && p.nodes != q.nodes
    ensures !QuietAgain(decoder, Run(decoder, STARTED, calls))
  {
    var p, q := Decode(decoder, a).value, Decode(decoder, b).value;
    if x :| x in p.nodes && x !in q.nodes {
      calls := [Asking(a, n), Asking(b, n)] + [(SelectNode(x), false)];
      SelectedIsLoud(decoder, a, b, n, x);
    } else if x :| x in q.nodes && x !in p.nodes {
      calls := [Asking(b, n), Asking(a, n)] + [(SelectNode(x), false)];
      SelectedIsLoud(decoder, b, a, n, x);
    } else {
      var x :| x in p.nodes && p.nodes[x] != q.nodes[x];
      if k :| k in p.nodes[x] && k !in q.nodes[x] {
        calls := [Asking(a, n), Asking(b, n)] + [(PinIngress(x, Some(k)), false)];
        PinnedIsLoud(decoder, a, b, n, x, k);
      } else {
        var k :| k in q.nodes[x] && k !in p.nodes[x];
        calls := [Asking(b, n), Asking(a, n)] + [(PinIngress(x, Some(k)), false)];
        PinnedIsLoud(decoder, b, a, n, x, k);
      }
    }
  }

  /**
    After any calls, applying the held request again asks for what is live and changes,
    resets and clears nothing, if and only if profiles that share a revision and a node have the same nodes and ingresses.
   */
  lemma {:induction false} ReapplyIsQuietIff(decoder: Decoder)
    ensures (forall calls :: QuietAgain(decoder, Run(decoder, STARTED, calls))) <==> RevisionsAgree(decoder)
  {
    if RevisionsAgree(decoder) {
      forall calls
        ensures QuietAgain(decoder, Run(decoder, STARTED, calls))
      {
        RunIsSound(decoder, calls);
        var d := Run(decoder, STARTED, calls);
        if d.applied.Some? {
          var p := Decode(decoder, d.applied.value.profile).value;
          QuietIffProfileHasAll(d.live, p, d.applied.value);
          AllKept(p, d.applied.value.pins);
        }
      }
    } else {
      var a: Bytes, b: Bytes, n: NodeId :|
        && Decode(decoder, a).Some? && Decode(decoder, b).Some?
        && var p, q := Decode(decoder, a).value, Decode(decoder, b).value;
           p.revision == q.revision && n in p.nodes && n in q.nodes && p.nodes != q.nodes;
      var calls := DisagreementIsLoud(decoder, a, b, n);
    }
  }

  /**
    Without that, it can be loud: two profiles share a revision, applying the second
    changes nothing, and a node only the first has can still be selected.
   */
  lemma SharedRevisionMakesReapplyReset(decoder: Decoder, first: Bytes, second: Bytes)
    requires decoder(first) == Some(Profile("r", map[NodeId("a") := {}, NodeId("b") := {}], NodeId("a")))
    requires decoder(second) == Some(Profile("r", map[NodeId("a") := {}], NodeId("a")))
    ensures var ask := (raw: Bytes) => (Apply(ApplyRequest(raw, Rules, None, [], [])), false);
            var d := Next(decoder, Next(decoder, Next(decoder, STARTED, ask(first).0, false), ask(second).0, false), SelectNode(NodeId("b")), false);
            && d.applied.Some? && d.applied.value.profile == second
            && ResultOf(d.live, Decode(decoder, second).value, d.applied.value).selectionReset
  {
    var d1 := Next(decoder, STARTED, Apply(ApplyRequest(first, Rules, None, [], [])), false);
    assert NodeId("a") != NodeId("b") by {
      assert "a" != "b";
    }
    assert d1.live.applied.value.selected == NodeId("a");
  }

  // ---- What apply_and_start saves --------------------------------------------

  datatype Settings = Settings(mode: RoutingMode, selected: Option<NodeId>, pins: map<NodeId, Key>)

  /** A request made of settings; the pins travel in some order. */
  predicate IsRequestOf(request: ApplyRequest, settings: Settings) {
    request.mode == settings.mode && request.selected == settings.selected
    && PinMap(request.pins) == settings.pins && DistinctNodes(request.pins)
  }

  function Recorded(settings: Settings, result: ApplyResult): Settings {
    settings.(pins := settings.pins - NodesOf(result.cleared),
              selected := if result.selectionReset then Some(result.selected) else settings.selected)
  }

  /** The loop of `apply_and_start` over what the engine cleared, and the reset selection. */
  method Record(settings: Settings, result: ApplyResult) returns (saved: Settings, changed: bool)
    ensures saved == Recorded(settings, result)
    ensures saved.mode == settings.mode && saved.selected == if result.selectionReset then Some(result.selected) else settings.selected
    ensures forall node :: node in saved.pins <==> node in settings.pins && !exists pin :: pin in result.cleared && pin.node == node
    ensures forall node :: node in saved.pins ==> saved.pins[node] == settings.pins[node]
    ensures !changed ==> saved == settings
  {
    saved, changed := settings, false;
    var i := 0;
    while i < |result.cleared|
      invariant 0 <= i <= |result.cleared|
      invariant saved == settings.(pins := settings.pins - NodesOf(result.cleared[..i]))
      invariant !changed ==> saved == settings
    {
      var node := result.cleared[i].node;
      assert NodesOf(result.cleared[..i + 1]) == NodesOf(result.cleared[..i]) + {node} by {
        assert result.cleared[..i + 1] == result.cleared[..i] + [result.cleared[i]];
      }
      if node in saved.pins {
        saved := saved.(pins := saved.pins - {node});
        changed := true;
      }
      i := i + 1;
    }
    assert result.cleared[..i] == result.cleared;
    if result.selectionReset {
      saved := saved.(selected := Some(result.selected));
      changed := true;
    }
  }

  /** What is saved after a successful apply is a fixed point: applied again with the same profile it resets and clears nothing, asks for what is live and is saved as it is. */
  lemma SavedSettingsAreAFixedPoint(
      decoder: Decoder, live: Live, settings: Settings, request: ApplyRequest, again: ApplyRequest)
    requires Accepts(decoder, request) && IsRequestOf(request, settings)
    requires var p := Decode(decoder, request.profile).value;
             && again.profile == request.profile
             && IsRequestOf(again, Recorded(settings, ResultOf(live, p, request)))
    ensures var p := Decode(decoder, request.profile).value;
            var saved := Recorded(settings, ResultOf(live, p, request));
            && Accepts(decoder, again)
            && Wanted(p, again) == Wanted(p, request)
            && HasAll(p, again)
            && forall later: Live :: Recorded(saved, ResultOf(later, p, again)) == saved
  {
    var p := Decode(decoder, request.profile).value;
    var saved := Recorded(settings, ResultOf(live, p, request));
    var nodes := NodesOf(ClearedPins(p, request.pins));
    ClearedNodes(p, request.pins);
    PinMapWithout(request.pins, nodes);
    WithoutClearedIsKept(p, request.pins, nodes);
    KeptAreHad(p, request.pins);
    assert PinMap(again.pins) == KeptPins(p, request.pins);
    AllHadAreKept(p, again.pins);
    PinOf(again.pins);
    QuietIffProfileHasAll(live, p, again);
    assert NodesOf(ClearedPins(p, again.pins)) == {};
  }

  lemma {:induction false} KeptAreHad(p: Profile, pins: seq<Pin>)
    ensures forall node :: node in KeptPins(p, pins) ==> Has(p, Pin(node, KeptPins(p, pins)[node]))
  {
    if pins != [] {
      KeptAreHad(p, pins[..|pins| - 1]);
    }
  }

  /** Each of distinct pins is in the map they stand for. */
  lemma {:induction false} PinOf(pins: seq<Pin>)
    requires DistinctNodes(pins)
    ensures forall pin :: pin in pins ==> pin.node in PinMap(pins) && PinMap(pins)[pin.node] == pin.key
  {
    if pins != [] {
      PinOf(pins[..|pins| - 1]);
      assert pins == pins[..|pins| - 1] + [pins[|pins| - 1]];
    }
  }

  lemma {:induction false} AllHadAreKept(p: Profile, pins: seq<Pin>)
    requires DistinctNodes(pins)
    requires forall node :: node in PinMap(pins) ==> Has(p, Pin(node, PinMap(pins)[node]))
    ensures KeptPins(p, pins) == PinMap(pins)
  {
    PinOf(pins);
    if pins != [] {
      var before := pins[..|pins| - 1];
      var last := pins[|pins| - 1];
      assert pins == before + [last];
      PinMapKeys(before);
      PinOf(before);
      assert last.node !in PinMap(before);
      AllHadAreKept(p, before);
      assert last in pins;
    }
  }
}
