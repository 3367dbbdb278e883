/**
  The daemon's calls that change what is applied, with the engine they drive, as methods
  over mutable state (crates/cli/src/daemon.rs, crates/core/src/engine/lifecycle.rs).
 */
module DaemonCalls {
  import opened Wrappers
  import opened Engine
  import opened ShadowState
  import opened OverlappingCalls

  method Happens() returns (yes: bool) {
    yes := *;
  }

  class ProxyEngine {
    const decoder: Decoder
    var live: Live

    constructor (decoder: Decoder)
      ensures this.decoder == decoder && live == STARTED.live
    {
      this.decoder := decoder;
      live := Live(None, []);
    }

    /** The pins the profile has, and the others. */
    method SortPins(p: Profile, requested: seq<Pin>) returns (pins: map<NodeId, Key>, cleared: seq<Pin>)
      ensures pins == KeptPins(p, requested) && cleared == ClearedPins(p, requested)
    {
      pins, cleared := map[], [];
      var i := 0;
      while i < |requested|
        invariant 0 <= i <= |requested|
        invariant pins == KeptPins(p, requested[..i]) && cleared == ClearedPins(p, requested[..i])
      {
        assert requested[..i + 1][..i] == requested[..i];
        var pin := requested[i];
        if pin.node in p.nodes && pin.key in p.nodes[pin.node] {
          pins := pins[pin.node := pin.key];
        } else {
          cleared := cleared + [pin];
        }
        i := i + 1;
      }
      assert requested[..i] == requested;
    }

    /** Looks for two pins of one node. */
    method PinsAreDistinct(pins: seq<Pin>) returns (distinct: bool)
      ensures distinct == DistinctNodes(pins)
    {
      var pinned: set<NodeId> := {};
      var i := 0;
      while i < |pins|
        invariant 0 <= i <= |pins|
        invariant pinned == NodesOf(pins[..i]) && DistinctNodes(pins[..i])
      {
        assert pins[..i + 1] == pins[..i] + [pins[i]];
        if pins[i].node in pinned {
          ghost var earlier :| earlier in pins[..i] && earlier.node == pins[i].node;
          return false;
        }
        assert forall j :: 0 <= j < i ==> pins[..i][j] in pins[..i];
        pinned := pinned + {pins[i].node};
        i := i + 1;
      }
      assert pins[..i] == pins;
      return true;
    }

    method Apply(request: ApplyRequest) returns (r: Option<ApplyResult>, ghost fails: bool)
      modifies this
      ensures (live, r) == AfterApply(decoder, old(live), request, fails)
    {
      var refused := Happens();
      fails := refused;
      var decoded := Decode(decoder, request.profile);
      var distinct := PinsAreDistinct(request.pins);
      if refused || decoded.None? || !distinct {
        return None, fails;
      }
      var p := decoded.value;
      var selected, reset := p.defaultNode, request.selected.Some?;
      if request.selected.Some? && request.selected.value in p.nodes {
        selected, reset := request.selected.value, false;
      }
      var pins, cleared := SortPins(p, request.pins);
      var wanted := Applied(p, request.mode, selected, pins);
      if live.hosts == request.hosts && live.applied.Some? && SameKey(live.applied.value, wanted) {
        return Some(ApplyResult(false, selected, reset, cleared)), fails;
      }
      var broken := Happens();
      fails := broken;
      if broken {
        return None, fails;
      }
      live := Live(Some(wanted), request.hosts);
      r := Some(ApplyResult(true, selected, reset, cleared));
    }

    method SelectNode(node: NodeId) returns (ok: bool, ghost fails: bool)
      modifies this
      ensures (live, ok) == AfterSelect(old(live), node, fails)
    {
      var broken := Happens();
      fails := broken;
      if live.applied.None? || node !in live.applied.value.profile.nodes || broken {
        return false, fails;
      }
      live := live.(applied := Some(live.applied.value.(selected := node)));
      ok := true;
    }

    method PinIngress(node: NodeId, key: Option<Key>) returns (ok: bool, ghost fails: bool)
      modifies this
      ensures (live, ok) == AfterPin(old(live), node, key, fails)
    {
      var broken := Happens();
      fails := broken;
      if live.applied.None? || node !in live.applied.value.profile.nodes || broken {
        return false, fails;
      }
      var applied := live.applied.value;
      if key.Some? {
        if key.value !in applied.profile.nodes[node] {
          return false, fails;
        }
        live := live.(applied := Some(applied.(pins := applied.pins[node := key.value])));
      } else {
        live := live.(applied := Some(applied.(pins := applied.pins - {node})));
      }
      ok := true;
    }
  }

  class DaemonProcess {
    const engine: ProxyEngine
    var applied: Option<ApplyRequest>

    ghost function State(): Daemon
      reads this, engine
    {
      Daemon(engine.live, applied)
    }

    constructor (decoder: Decoder)
      ensures State() == STARTED && fresh(engine) && engine.decoder == decoder
    {
      engine := new ProxyEngine(decoder);
      applied := None;
    }

    /** The first half of a call: what the engine does; other tasks run while it does. */
    method AskEngine(call: Call) returns (change: Option<Change>, ghost fails: bool)
      modifies engine
      ensures (engine.live, change) == EngineHalf(engine.decoder, old(engine.live), applied, call, fails)
    {
      match call {
        case Apply(request) =>
          change, fails := AskToApply(request);
        case SetRoutingMode(mode) =>
          if applied.None? {
            return None, false;
          }
          change, fails := AskToApply(applied.value.(mode := mode));
        case SelectNode(node) =>
          var ok;
          ok, fails := engine.SelectNode(node);
          change := if ok then Some(HoldSelected(node)) else None;
        case PinIngress(node, key) =>
          var ok;
          ok, fails := engine.PinIngress(node, key);
          change := if ok then Some(HoldPin(node, key)) else None;
      }
    }

    /** What was applied is to be held less what the engine cleared, with the node it selected. */
    method AskToApply(request: ApplyRequest) returns (change: Option<Change>, ghost fails: bool)
      modifies engine
      ensures (engine.live, change) == ApplyHalf(engine.decoder, old(engine.live), request, fails)
      ensures change.Some? ==>
                && change.value.HoldRequest?
                && change.value.request == request.(selected := change.value.request.selected, pins := change.value.request.pins)
    {
      var result;
      result, fails := engine.Apply(request);
      if result.None? {
        return None, fails;
      }
      var held := request.(selected := Some(result.value.selected));
      var cleared := set pin | pin in result.value.cleared :: pin.node;
      change := Some(HoldRequest(held.(pins := Without(request.pins, cleared))));
    }

    /** The second half: the held request changes accordingly. */
    method Remember(change: Change)
      modifies this
      ensures applied == Remembered(old(applied), change)
    {
      match change {
        case HoldRequest(request) =>
          applied := Some(request);
        case HoldSelected(node) =>
          if applied.Some? {
            applied := Some(applied.value.(selected := Some(node)));
          }
        case HoldPin(node, key) =>
          if applied.Some? {
            var pins := Without(applied.value.pins, {node});
            if key.Some? {
              pins := pins + [Pin(node, key.value)];
            }
            applied := Some(applied.value.(pins := pins));
          }
      }
    }

    /** Serves one call with no other in between. */
    method ServeAlone(call: Call) returns (ok: bool, ghost fails: bool)
      modifies this, engine
      ensures State() == Next(engine.decoder, old(State()), call, fails)
    {
      var change;
      ghost var before := State();
      change, fails := AskEngine(call);
      ServedAloneIsNext(engine.decoder, before, call, fails);
      ok := change.Some?;
      if ok {
        Remember(change.value);
      }
    }
  }
}
