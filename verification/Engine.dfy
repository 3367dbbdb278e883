/**
  What the proxy engine keeps applied, and what apply, select_node and pin_ingress do to
  it (crates/core/src/engine/lifecycle.rs, crates/core/src/engine/selection.rs,
  crates/core/src/request.rs). Decoding a profile is an abstract function.
 */
module Engine {
  import opened Wrappers

  type Bytes = seq<bv8>

  /** A node's id, and an ingress's key within its node. */
  datatype NodeId = NodeId(text: string)
  datatype Key = Key(text: string)

  /** A profile's nodes, each with the keys of its ingresses, and the node it selects by itself. */
  datatype Profile = Profile(revision: string, nodes: map<NodeId, set<Key>>, defaultNode: NodeId)

  /** How a profile is decoded; a default node that is not in the profile is refused. */
  type Decoder = Bytes -> Option<Profile>

  function Decode(decoder: Decoder, raw: Bytes): Option<Profile> {
    var decoded := decoder(raw);
    if decoded.Some? && decoded.value.defaultNode in decoded.value.nodes then decoded else None
  }

  datatype RoutingMode = Rules | Global

  datatype Pin = Pin(node: NodeId, key: Key)

  datatype ApplyRequest = ApplyRequest(
    profile: Bytes,
    mode: RoutingMode,
    selected: Option<NodeId>,
    pins: seq<Pin>,
    hosts: seq<string>)

  datatype Applied = Applied(profile: Profile, mode: RoutingMode, selected: NodeId, pins: map<NodeId, Key>)

  datatype ApplyResult = ApplyResult(applied: bool, selected: NodeId, selectionReset: bool, cleared: seq<Pin>)

  /** What is live, and where rule sets may come from. */
  datatype Live = Live(applied: Option<Applied>, hosts: seq<string>)

  predicate Has(p: Profile, pin: Pin) {
    pin.node in p.nodes && pin.key in p.nodes[pin.node]
  }

  predicate DistinctNodes(pins: seq<Pin>) {
    forall i, j :: 0 <= i < j < |pins| ==> pins[i].node != pins[j].node
  }

  /** The pins of a request that the profile has, as the engine collects them. */
  function KeptPins(p: Profile, pins: seq<Pin>): map<NodeId, Key> {
    if pins == [] then map[] else
    var last := pins[|pins| - 1];
    var kept := KeptPins(p, pins[..|pins| - 1]);
    if Has(p, last) then kept[last.node := last.key] else kept
  }

  function ClearedPins(p: Profile, pins: seq<Pin>): seq<Pin> {
    if pins == [] then [] else
    var last := pins[|pins| - 1];
    var cleared := ClearedPins(p, pins[..|pins| - 1]);
    if Has(p, last) then cleared else cleared + [last]
  }

  function Selection(p: Profile, requested: Option<NodeId>): NodeId {
    if requested.Some? && requested.value in p.nodes then requested.value else p.defaultNode
  }

  /** What a request that is accepted asks to be live. */
  function Wanted(p: Profile, request: ApplyRequest): Applied {
    Applied(p, request.mode, Selection(p, request.selected), KeptPins(p, request.pins))
  }

  /** The engine's dedupe key. */
  predicate SameKey(a: Applied, b: Applied) {
    a.profile.revision == b.profile.revision && a.mode == b.mode && a.selected == b.selected && a.pins == b.pins
  }

  predicate Unchanged(live: Live, wanted: Applied, hosts: seq<string>) {
    live.hosts == hosts && live.applied.Some? && SameKey(live.applied.value, wanted)
  }

  predicate Accepts(decoder: Decoder, request: ApplyRequest) {
    Decode(decoder, request.profile).Some? && DistinctNodes(request.pins)
  }

  function ResultOf(live: Live, p: Profile, request: ApplyRequest): ApplyResult {
    ApplyResult(
      !Unchanged(live, Wanted(p, request), request.hosts),
      Selection(p, request.selected),
      request.selected.Some? && request.selected.value !in p.nodes,
      ClearedPins(p, request.pins))
  }

  /**
    What is live after `request`. `fails` is whether it is refused for another reason (a profile
    out of date, a host not allowed, a shutdown) or building or switching to it fails.
   */
  function AfterApply(decoder: Decoder, live: Live, request: ApplyRequest, fails: bool): (Live, Option<ApplyResult>) {
    if !Accepts(decoder, request) || fails then (live, None) else
    var p := Decode(decoder, request.profile).value;
    var wanted := Wanted(p, request);
    if Unchanged(live, wanted, request.hosts) then (live, Some(ResultOf(live, p, request)))
    else (Live(Some(wanted), request.hosts), Some(ResultOf(live, p, request)))
  }

  function AfterSelect(live: Live, node: NodeId, fails: bool): (Live, bool) {
    if live.applied.None? || node !in live.applied.value.profile.nodes || fails then (live, false)
    else (live.(applied := Some(live.applied.value.(selected := node))), true)
  }

  function AfterPin(live: Live, node: NodeId, key: Option<Key>, fails: bool): (Live, bool) {
    if live.applied.None? || node !in live.applied.value.profile.nodes || fails then (live, false)
    else
      var applied := live.applied.value;
      match key
      case None => (live.(applied := Some(applied.(pins := applied.pins - {node}))), true)
      case Some(k) =>
        if k !in applied.profile.nodes[node] then (live, false)
        else (live.(applied := Some(applied.(pins := applied.pins[node := k]))), true)
  }
}
