/** `service_build_inputs` and `service_build_id` as they run (crates/service/build_id.rs). */
module BuildId {
  import opened Wrappers
  import opened BuildStream
  import opened BuildInputs

  /** `format!("{prefix}/{name}")` for every input. */
  function Prefixed(prefix: Name, inputs: seq<Input>): seq<Input> {
    seq(|inputs|, i requires 0 <= i < |inputs| => inputs[i].(name := prefix + [SLASH] + inputs[i].name))
  }

  lemma PrefixedConcat(prefix: Name, a: seq<Input>, b: seq<Input>)
    ensures Prefixed(prefix, a + b) == Prefixed(prefix, a) + Prefixed(prefix, b)
  {
  }

  /** Prefixing a crate's own names gives the names below the crate's prefix. */
  lemma {:induction false} PrefixedWalk(prefix: Name, parent: Name, es: seq<Entry>)
    requires prefix != [] && parent != []
    ensures Prefixed(prefix, Walk(parent, es)) == Walk(Path(prefix, parent), es)
    decreases es
  {
    if es != [] {
      var path := Path(parent, es[0].name);
      assert Path(prefix, path) == Path(Path(prefix, parent), es[0].name);
      if es[0].node.Directory? {
        PrefixedWalk(prefix, path, es[0].node.entries);
      }
      PrefixedWalk(prefix, parent, es[1..]);
      PrefixedConcat(prefix, WalkNode(path, es[0].node), Walk(parent, es[1..]));
    }
  }

  lemma {:induction false} WalkConcat(parent: Name, a: seq<Entry>, b: seq<Entry>)
    ensures Walk(parent, a + b) == Walk(parent, a) + Walk(parent, b)
  {
    if a == [] {
      assert a + b == b;
    } else {
      assert (a + b)[1..] == a[1..] + b;
      WalkConcat(parent, a[1..], b);
    }
  }

  lemma Associate(a: seq<Input>, b: seq<Input>, c: seq<Input>)
    ensures a + (b + c) == a + b + c
  {
  }

  lemma WalkStep(parent: Name, es: seq<Entry>, i: nat)
    requires i < |es|
    ensures Walk(parent, es[..i + 1]) == Walk(parent, es[..i]) + WalkNode(Path(parent, es[i].name), es[i].node)
  {
    WalkConcat(parent, es[..i], [es[i]]);
    assert es[..i + 1] == es[..i] + [es[i]];
    WalkOfOne(parent, es[i]);
  }

  /** Pushes the files below a directory, as the file system lists it, onto `found`. */
  method WalkDirectory(parent: Name, es: seq<Entry>, found: seq<Input>) returns (inputs: seq<Input>)
    ensures inputs == found + Walk(parent, es)
    decreases es
  {
    inputs := found;
    var i := 0;
    while i < |es|
      invariant 0 <= i <= |es|
      invariant inputs == found + Walk(parent, es[..i])
    {
      var path := Path(parent, es[i].name);
      WalkStep(parent, es, i);
      Associate(found, Walk(parent, es[..i]), WalkNode(path, es[i].node));
      match es[i].node {
        case Directory(entries) => inputs := WalkDirectory(path, entries, inputs);
        case File(data) => inputs := inputs + [Input(path, data)];
        case Other =>
      }
      i := i + 1;
    }
    assert es[..i] == es;
  }

  lemma LinkedWalk(prefix: Name, crate: Crate)
    requires prefix != [] && crate.manifest.Some? && crate.src.Some?
    ensures Walk([], LinkedCrate(prefix, crate)) ==
              [Input(prefix + [SLASH] + CARGO_TOML, crate.manifest.value)] + Prefixed(prefix, Walk(SRC, crate.src.value))
  {
    var inside := [Entry(CARGO_TOML, File(crate.manifest.value)), Entry(SRC, Directory(crate.src.value))];
    PrefixedWalk(prefix, SRC, crate.src.value);
    WalkOfOne(prefix, inside[1]);
    assert inside[1..] == [inside[1]];
    assert Walk(prefix, inside) == WalkNode(Path(prefix, CARGO_TOML), inside[0].node) + Walk(prefix, inside[1..]);
    WalkOfOne([], Entry(prefix, Directory(inside)));
  }

  lemma WalkOfOne(parent: Name, e: Entry)
    ensures Walk(parent, [e]) == WalkNode(Path(parent, e.name), e.node)
  {
    assert [e][1..] == [];
    assert Walk(parent, [e][1..]) == [];
  }

  /** The part of the inputs a linked crate adds; without a manifest it is not there. */
  method AddLinkedCrate(prefix: Name, crate: Crate, found: seq<Input>) returns (r: Option<seq<Input>>)
    requires prefix != []
    ensures r.None? <==> crate.manifest.Some? && crate.src.None?
    ensures r.Some? ==> r.value == found + Walk([], LinkedCrate(prefix, crate))
  {
    if crate.manifest.None? {
      return Some(found);
    }
    if crate.src.None? {
      return None;
    }
    var inputs := found + [Input(prefix + [SLASH] + CARGO_TOML, crate.manifest.value)];
    var sources := WalkDirectory(SRC, crate.src.value, []);
    inputs := inputs + Prefixed(prefix, sources);
    LinkedWalk(prefix, crate);
    r := Some(inputs);
  }

  lemma FromNothing(a: seq<Input>)
    ensures [] + a == a
  {
  }

  lemma TreeWalk(s: Sources)
    requires Listable(s)
    ensures Inputs(s) ==
              Walk([], OptionalFile(CARGO_TOML, s.service.manifest)) + Walk([], OptionalFile(CARGO_LOCK, s.lock))
              + Walk(SRC, s.service.src.value)
              + Walk([], LinkedCrate(ENGINE_HOST, s.engineHost)) + Walk([], LinkedCrate(PPVPN_CORE, s.core))
  {
    var manifest, lock := OptionalFile(CARGO_TOML, s.service.manifest), OptionalFile(CARGO_LOCK, s.lock);
    var src := [Entry(SRC, Directory(s.service.src.value))];
    var host, core := LinkedCrate(ENGINE_HOST, s.engineHost), LinkedCrate(PPVPN_CORE, s.core);
    WalkConcat([], manifest, lock);
    WalkConcat([], manifest + lock, src);
    WalkConcat([], manifest + lock + src, host);
    WalkConcat([], manifest + lock + src + host, core);
    WalkOfOne([], src[0]);
  }

  method AddOptionalFile(name: Name, data: Option<Bytes>, found: seq<Input>) returns (inputs: seq<Input>)
    ensures inputs == found + Walk([], OptionalFile(name, data))
  {
    inputs := found;
    if data.Some? {
      inputs := inputs + [Input(name, data.value)];
      WalkOfOne([], Entry(name, File(data.value)));
    }
  }

  /** The files of the build id in name order, or no list when a source directory cannot be read. */
  method ServiceBuildInputs(s: Sources) returns (r: Option<seq<Input>>)
    ensures r.Some? <==> Listable(s)
    ensures r.Some? ==> r.value == SortByName(Inputs(s))
  {
    var inputs := AddOptionalFile(CARGO_TOML, s.service.manifest, []);
    inputs := AddOptionalFile(CARGO_LOCK, s.lock, inputs);
    if s.service.src.None? {
      return None;
    }
    inputs := WalkDirectory(SRC, s.service.src.value, inputs);
    var withHost := AddLinkedCrate(ENGINE_HOST, s.engineHost, inputs);
    if withHost.None? {
      return None;
    }
    var withCore := AddLinkedCrate(PPVPN_CORE, s.core, withHost.value);
    if withCore.None? {
      return None;
    }
    TreeWalk(s);
    FromNothing(Walk([], OptionalFile(CARGO_TOML, s.service.manifest)));
    r := Some(SortByName(withCore.value));
  }

  lemma {:induction false} StreamConcat(a: seq<Input>, b: seq<Input>)
    ensures Stream(a + b) == Stream(a) + Stream(b)
  {
    if a == [] {
      assert a + b == b;
    } else {
      assert (a + b)[1..] == a[1..] + b;
      StreamConcat(a[1..], b);
    }
  }

  lemma StreamStep(inputs: seq<Input>, i: nat)
    requires i < |inputs|
    ensures Stream(inputs[..i + 1]) == Stream(inputs[..i]) + Frame(inputs[i])
  {
    StreamConcat(inputs[..i], [inputs[i]]);
    assert inputs[..i + 1] == inputs[..i] + [inputs[i]];
    assert [inputs[i]][1..] == [];
    assert Stream([inputs[i]]) == Frame(inputs[i]) + Stream([inputs[i]][1..]);
  }

  /** The four updates for one file, after what was fed before. */
  method FeedFile(input: Input, hasher: Bytes) returns (fed: Bytes)
    ensures fed == hasher + Frame(input)
  {
    var length := LittleEndian(|input.data|, 8);
    fed := hasher + input.name;
    fed := fed + [NUL];
    fed := fed + length;
    fed := fed + input.data;
  }

  /** What `service_build_id` feeds its hasher. */
  method ServiceBuildStream(s: Sources) returns (fed: Option<Bytes>)
    ensures fed.Some? <==> Listable(s)
    ensures fed.Some? ==> fed.value == Hashed(Inputs(s))
  {
    var inputs := ServiceBuildInputs(s);
    if inputs.None? {
      return None;
    }
    var hasher: Bytes := [];
    var i := 0;
    while i < |inputs.value|
      invariant 0 <= i <= |inputs.value|
      invariant hasher == Stream(inputs.value[..i])
    {
      StreamStep(inputs.value, i);
      hasher := FeedFile(inputs.value[i], hasher);
      i := i + 1;
    }
    assert inputs.value[..i] == inputs.value;
    fed := Some(hasher);
  }
}
