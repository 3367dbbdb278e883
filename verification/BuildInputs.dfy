/**
  Which files make up the service's build id, and the id's byte stream
  (crates/service/build_id.rs; crates/desktop/build.rs carries the same code).
 */
module BuildInputs {
  import opened Wrappers
  import opened BuildStream

  const SLASH: byte := 47

  /** A directory's entries in the order the file system lists them; `Other` is neither a file nor a directory. */
  datatype Node = File(data: Bytes) | Directory(entries: seq<Entry>) | Other
  datatype Entry = Entry(name: Name, node: Node)

  /** A file name: not empty, no slash, no NUL. */
  predicate IsFileName(name: Name) {
    name != [] && SLASH !in name && NUL !in name
  }

  predicate WellFormed(es: seq<Entry>) {
    && (forall i :: 0 <= i < |es| ==> IsFileName(es[i].name))
    && (forall i, j :: 0 <= i < j < |es| ==> es[i].name != es[j].name)
    && (forall i :: 0 <= i < |es| && es[i].node.Directory? ==> WellFormed(es[i].node.entries))
  }

  // ---- The walk ------------------------------------------------------------

  function Path(parent: Name, name: Name): Name {
    if parent == [] then name else parent + [SLASH] + name
  }

  /** The files below `path`, with their names relative to the root. */
  function WalkNode(path: Name, node: Node): seq<Input>
    decreases node
  {
    match node
    case File(data) => [Input(path, data)]
    case Directory(entries) => Walk(path, entries)
    case Other => []
  }

  function Walk(parent: Name, es: seq<Entry>): seq<Input>
    decreases es
  {
    if es == [] then [] else WalkNode(Path(parent, es[0].name), es[0].node) + Walk(parent, es[1..])
  }

  lemma {:induction false} InWalk(parent: Name, es: seq<Entry>)
    ensures forall x :: x in Walk(parent, es) <==>
              exists i :: 0 <= i < |es| && x in WalkNode(Path(parent, es[i].name), es[i].node)
  {
    if es != [] {
      InWalk(parent, es[1..]);
      forall x
        ensures x in Walk(parent, es) <==> exists i :: 0 <= i < |es| && x in WalkNode(Path(parent, es[i].name), es[i].node)
      {
        if x in Walk(parent, es[1..]) {
          var k :| 0 <= k < |es[1..]| && x in WalkNode(Path(parent, es[1..][k].name), es[1..][k].node);
          assert x in WalkNode(Path(parent, es[k + 1].name), es[k + 1].node);
        }
        if i :| 0 <= i < |es| && x in WalkNode(Path(parent, es[i].name), es[i].node) {
          assert i > 0 ==> es[1..][i - 1] == es[i];
        }
      }
    }
  }

  // ---- Names are distinct --------------------------------------------------

  /** `name` is `base` itself or below it. */
  predicate Under(base: Name, name: Name) {
    name == base || base + [SLASH] <= name
  }

  lemma UnderIsTransitive(a: Name, b: Name, c: Name)
    requires Under(a, b) && Under(b, c)
    ensures Under(a, c)
  {
    if b != a && c != b {
      assert (b + [SLASH])[..|a| + 1] == b[..|a| + 1] == a + [SLASH];
    }
  }

  lemma {:induction false} WalkNodeIsUnder(path: Name, node: Node)
    requires path != []
    ensures forall x :: x in WalkNode(path, node) ==> Under(path, x.name)
    decreases node, 1
  {
    if node.Directory? {
      WalkIsUnder(path, node.entries);
    }
  }

  lemma {:induction false} WalkIsUnder(parent: Name, es: seq<Entry>)
    requires parent != []
    ensures forall x :: x in Walk(parent, es) ==> Under(parent, x.name)
    decreases es, 0
  {
    if es != [] {
      var path := Path(parent, es[0].name);
      WalkNodeIsUnder(path, es[0].node);
      WalkIsUnder(parent, es[1..]);
      forall x | x in WalkNode(path, es[0].node)
        ensures Under(parent, x.name)
      {
        UnderIsTransitive(parent, path, x.name);
      }
    }
  }

  function UpToSlash(s: Name): Name {
    if s == [] || s[0] == SLASH then [] else [s[0]] + UpToSlash(s[1..])
  }

  lemma {:induction false} UpToSlashOf(name: Name, rest: Name)
    requires SLASH !in name && (rest == [] || rest[0] == SLASH)
    ensures UpToSlash(name + rest) == name
  {
    if name == [] {
      assert name + rest == rest;
    } else {
      assert (name + rest)[1..] == name[1..] + rest;
      UpToSlashOf(name[1..], rest);
    }
  }

  /** The first component below `parent` of any path under an entry is the entry's name. */
  lemma FirstComponent(parent: Name, name: Name, x: Name)
    requires IsFileName(name) && Under(Path(parent, name), x)
    ensures var start := if parent == [] then 0 else |parent| + 1;
            start <= |x| && UpToSlash(x[start..]) == name
  {
    var start := if parent == [] then 0 else |parent| + 1;
    var path := Path(parent, name);
    assert path[start..] == name && x[..|path|] == path;
    var rest := x[|path|..];
    assert x[start..] == name + rest;
    assert rest != [] ==> rest[0] == x[|path|] == (path + [SLASH])[|path|];
    UpToSlashOf(name, rest);
  }

  /** Two different entries of one directory have no path in common. */
  lemma SiblingsAreApart(parent: Name, a: Name, b: Name, x: Name)
    requires IsFileName(a) && IsFileName(b)
    requires Under(Path(parent, a), x) && Under(Path(parent, b), x)
    ensures a == b
  {
    FirstComponent(parent, a, x);
    FirstComponent(parent, b, x);
  }

  lemma DistinctConcat(a: seq<Input>, b: seq<Input>)
    requires DistinctNames(a) && DistinctNames(b)
    requires forall x, y :: x in a && y in b ==> x.name != y.name
    ensures DistinctNames(a + b)
  {
    assert forall i :: 0 <= i < |a| ==> a[i] in a;
    assert forall j :: 0 <= j < |b| ==> b[j] in b;
  }

  lemma {:induction false} WalkNodeIsDistinct(path: Name, node: Node)
    requires path != [] && (node.Directory? ==> WellFormed(node.entries))
    ensures DistinctNames(WalkNode(path, node))
    decreases node, 1
  {
    if node.Directory? {
      WalkIsDistinct(path, node.entries);
    }
  }

  /** Every file of a tree has its own name. */
  lemma {:induction false} WalkIsDistinct(parent: Name, es: seq<Entry>)
    requires WellFormed(es)
    ensures DistinctNames(Walk(parent, es))
    decreases es, 0
  {
    if es != [] {
      var path := Path(parent, es[0].name);
      WalkNodeIsDistinct(path, es[0].node);
      WalkIsDistinct(parent, es[1..]);
      WalkNodeIsUnder(path, es[0].node);
      InWalk(parent, es[1..]);
      forall x, y | x in WalkNode(path, es[0].node) && y in Walk(parent, es[1..])
        ensures x.name != y.name
      {
        var k :| 0 <= k < |es[1..]| && y in WalkNode(Path(parent, es[1..][k].name), es[1..][k].node);
        WalkNodeIsUnder(Path(parent, es[1..][k].name), es[1..][k].node);
        if x.name == y.name {
          SiblingsAreApart(parent, es[0].name, es[k + 1].name, x.name);
        }
      }
      DistinctConcat(WalkNode(path, es[0].node), Walk(parent, es[1..]));
    }
  }

  predicate FilesFit(es: seq<Entry>) {
    forall i :: 0 <= i < |es| ==>
      match es[i].node
      case File(data) => |data| < U64_RANGE
      case Directory(entries) => FilesFit(entries)
      case Other => true
  }

  lemma {:induction false} WalkIsCarriable(parent: Name, es: seq<Entry>)
    requires WellFormed(es) && FilesFit(es) && NUL !in parent
    ensures forall x :: x in Walk(parent, es) ==> Carriable(x)
    decreases es
  {
    if es != [] {
      WalkIsCarriable(parent, es[1..]);
      if es[0].node.Directory? {
        WalkIsCarriable(Path(parent, es[0].name), es[0].node.entries);
      }
    }
  }

  // ---- Listing order ---------------------------------------------------------

  /** The same tree, whatever order its directories are listed in. */
  predicate SameNode(a: Node, b: Node)
    decreases a, 1
  {
    match (a, b)
    case (File(x), File(y)) => x == y
    case (Directory(xs), Directory(ys)) => Covers(xs, ys) && Covered(xs, ys)
    case (Other, Other) => true
    case _ => false
  }

  /** Every entry of `xs` is an entry of `ys`. */
  predicate Covers(xs: seq<Entry>, ys: seq<Entry>)
    decreases xs, 0
  {
    forall i :: 0 <= i < |xs| ==>
      exists j :: 0 <= j < |ys| && ys[j].name == xs[i].name && SameNode(xs[i].node, ys[j].node)
  }

  /** Every entry of `ys` is an entry of `xs`. */
  predicate Covered(xs: seq<Entry>, ys: seq<Entry>)
    decreases xs, 0
  {
    forall j :: 0 <= j < |ys| ==>
      exists i :: 0 <= i < |xs| && ys[j].name == xs[i].name && SameNode(xs[i].node, ys[j].node)
  }

  predicate SameTree(xs: seq<Entry>, ys: seq<Entry>) {
    Covers(xs, ys) && Covered(xs, ys)
  }

  lemma {:induction false} CoversFile(parent: Name, xs: seq<Entry>, ys: seq<Entry>, x: Input)
    requires Covers(xs, ys) && x in Walk(parent, xs)
    ensures x in Walk(parent, ys)
    decreases xs
  {
    InWalk(parent, xs);
    InWalk(parent, ys);
    var i :| 0 <= i < |xs| && x in WalkNode(Path(parent, xs[i].name), xs[i].node);
    var j :| 0 <= j < |ys| && ys[j].name == xs[i].name && SameNode(xs[i].node, ys[j].node);
    if xs[i].node.Directory? {
      CoversFile(Path(parent, xs[i].name), xs[i].node.entries, ys[j].node.entries, x);
    }
    assert x in WalkNode(Path(parent, ys[j].name), ys[j].node);
  }

  lemma {:induction false} CoveredFile(parent: Name, xs: seq<Entry>, ys: seq<Entry>, x: Input)
    requires Covered(xs, ys) && x in Walk(parent, ys)
    ensures x in Walk(parent, xs)
    decreases xs
  {
    InWalk(parent, xs);
    InWalk(parent, ys);
    var j :| 0 <= j < |ys| && x in WalkNode(Path(parent, ys[j].name), ys[j].node);
    var i :| 0 <= i < |xs| && ys[j].name == xs[i].name && SameNode(xs[i].node, ys[j].node);
    if xs[i].node.Directory? {
      CoveredFile(Path(parent, xs[i].name), xs[i].node.entries, ys[j].node.entries, x);
    }
    assert x in WalkNode(Path(parent, xs[i].name), xs[i].node);
  }

  /** The same tree listed in another order has the same files under the same names. */
  lemma {:induction false} SameTreeSameFiles(parent: Name, xs: seq<Entry>, ys: seq<Entry>)
    requires SameTree(xs, ys)
    ensures forall x :: x in Walk(parent, xs) <==> x in Walk(parent, ys)
  {
    forall x | x in Walk(parent, xs)
      ensures x in Walk(parent, ys)
    {
      CoversFile(parent, xs, ys, x);
    }
    forall x | x in Walk(parent, ys)
      ensures x in Walk(parent, xs)
    {
      CoveredFile(parent, xs, ys, x);
    }
  }

  // ---- The service's inputs --------------------------------------------------

  /** The fixed names, as their ASCII bytes. */
  const CARGO_TOML: Name := [67, 97, 114, 103, 111, 46, 116, 111, 109, 108]
  const CARGO_LOCK: Name := [67, 97, 114, 103, 111, 46, 108, 111, 99, 107]
  const SRC: Name := [115, 114, 99]
  const ENGINE_HOST: Name := [101, 110, 103, 105, 110, 101, 45, 104, 111, 115, 116]
  const PPVPN_CORE: Name := [112, 112, 118, 112, 110, 45, 99, 111, 114, 101]

  /** A crate's manifest, if it is a file, and its src directory, if it can be listed. */
  datatype Crate = Crate(manifest: Option<Bytes>, src: Option<seq<Entry>>)

  /** What the build script finds around the service's directory. */
  datatype Sources = Sources(service: Crate, lock: Option<Bytes>, engineHost: Crate, core: Crate)

  function OptionalFile(name: Name, data: Option<Bytes>): seq<Entry> {
    if data.Some? then [Entry(name, File(data.value))] else []
  }

  /** A linked crate counts only with its manifest. */
  function LinkedCrate(prefix: Name, crate: Crate): seq<Entry> {
    if crate.manifest.Some? && crate.src.Some? then
      [Entry(prefix, Directory([Entry(CARGO_TOML, File(crate.manifest.value)), Entry(SRC, Directory(crate.src.value))]))]
    else []
  }

  predicate Listable(s: Sources) {
    && s.service.src.Some?
    && (s.engineHost.manifest.Some? ==> s.engineHost.src.Some?)
    && (s.core.manifest.Some? ==> s.core.src.Some?)
  }

  /** The tree whose walk names every input: what the service's names are relative to. */
  function Tree(s: Sources): seq<Entry>
    requires Listable(s)
  {
    OptionalFile(CARGO_TOML, s.service.manifest) + OptionalFile(CARGO_LOCK, s.lock)
    + [Entry(SRC, Directory(s.service.src.value))]
    + LinkedCrate(ENGINE_HOST, s.engineHost) + LinkedCrate(PPVPN_CORE, s.core)
  }

  predicate SourcesWellFormed(s: Sources) {
    && Listable(s)
    && WellFormed(s.service.src.value) && FilesFit(s.service.src.value)
    && (s.lock.Some? ==> |s.lock.value| < U64_RANGE)
    && (s.service.manifest.Some? ==> |s.service.manifest.value| < U64_RANGE)
    && CrateWellFormed(s.engineHost) && CrateWellFormed(s.core)
  }

  predicate CrateWellFormed(c: Crate) {
    c.manifest.Some? && c.src.Some? ==>
      |c.manifest.value| < U64_RANGE && WellFormed(c.src.value) && FilesFit(c.src.value)
  }

  lemma FixedNames()
    ensures IsFileName(CARGO_TOML) && IsFileName(CARGO_LOCK) && IsFileName(SRC) && IsFileName(ENGINE_HOST) && IsFileName(PPVPN_CORE)
    ensures CARGO_TOML != CARGO_LOCK && CARGO_TOML != PPVPN_CORE && CARGO_LOCK != PPVPN_CORE
    ensures SRC != CARGO_TOML && SRC != CARGO_LOCK && SRC != ENGINE_HOST && SRC != PPVPN_CORE
    ensures ENGINE_HOST != CARGO_TOML && ENGINE_HOST != CARGO_LOCK && ENGINE_HOST != PPVPN_CORE
  {
    assert CARGO_TOML[6] != CARGO_LOCK[6] && CARGO_TOML[0] != PPVPN_CORE[0] && CARGO_LOCK[0] != PPVPN_CORE[0];
    assert |SRC| == 3 && |ENGINE_HOST| == 11 && |CARGO_TOML| == |CARGO_LOCK| == |PPVPN_CORE| == 10;
  }

  function NamesOf(es: seq<Entry>): set<Name> {
    set e | e in es :: e.name
  }

  lemma OneEntry(name: Name, node: Node)
    requires IsFileName(name)
    requires match node
             case File(data) => |data| < U64_RANGE
             case Directory(entries) => WellFormed(entries) && FilesFit(entries)
             case Other => true
    ensures var es := [Entry(name, node)]; WellFormed(es) && FilesFit(es) && NamesOf(es) == {name}
  {
  }

  lemma Together(a: seq<Entry>, b: seq<Entry>)
    requires WellFormed(a) && WellFormed(b) && FilesFit(a) && FilesFit(b)
    requires NamesOf(a) !! NamesOf(b)
    ensures WellFormed(a + b) && FilesFit(a + b) && NamesOf(a + b) == NamesOf(a) + NamesOf(b)
  {
    assert forall i :: 0 <= i < |a| ==> a[i] in a && a[i].name in NamesOf(a);
    assert forall j :: 0 <= j < |b| ==> b[j] in b && b[j].name in NamesOf(b);
  }

  lemma OptionalIsWellFormed(name: Name, data: Option<Bytes>)
    requires IsFileName(name) && (data.Some? ==> |data.value| < U64_RANGE)
    ensures var es := OptionalFile(name, data); WellFormed(es) && FilesFit(es) && NamesOf(es) <= {name}
  {
    if data.Some? {
      OneEntry(name, File(data.value));
    }
  }

  lemma CrateIsWellFormed(prefix: Name, c: Crate)
    requires CrateWellFormed(c) && IsFileName(prefix)
    ensures var es := LinkedCrate(prefix, c); WellFormed(es) && FilesFit(es) && NamesOf(es) <= {prefix}
  {
    FixedNames();
    if c.manifest.Some? && c.src.Some? {
      var manifest, src := [Entry(CARGO_TOML, File(c.manifest.value))], [Entry(SRC, Directory(c.src.value))];
      OneEntry(CARGO_TOML, File(c.manifest.value));
      OneEntry(SRC, Directory(c.src.value));
      Together(manifest, src);
      assert manifest + src == [Entry(CARGO_TOML, File(c.manifest.value)), Entry(SRC, Directory(c.src.value))];
      OneEntry(prefix, Directory(manifest + src));
    }
  }

  lemma FiveTogether(
      a: seq<Entry>, b: seq<Entry>, c: seq<Entry>, d: seq<Entry>, e: seq<Entry>,
      na: Name, nb: Name, nc: Name, nd: Name, ne: Name)
    requires WellFormed(a) && WellFormed(b) && WellFormed(c) && WellFormed(d) && WellFormed(e)
    requires FilesFit(a) && FilesFit(b) && FilesFit(c) && FilesFit(d) && FilesFit(e)
    requires NamesOf(a) <= {na} && NamesOf(b) <= {nb} && NamesOf(c) <= {nc} && NamesOf(d) <= {nd} && NamesOf(e) <= {ne}
    requires na != nb && na != nc && na != nd && na != ne && nb != nc && nb != nd && nb != ne
    requires nc != nd && nc != ne && nd != ne
    ensures WellFormed(a + b + c + d + e) && FilesFit(a + b + c + d + e)
  {
    Together(a, b);
    Together(a + b, c);
    Together(a + b + c, d);
    Together(a + b + c + d, e);
  }

  lemma TreeIsWellFormed(s: Sources)
    requires SourcesWellFormed(s)
    ensures WellFormed(Tree(s)) && FilesFit(Tree(s))
  {
    FixedNames();
    OptionalIsWellFormed(CARGO_TOML, s.service.manifest);
    OptionalIsWellFormed(CARGO_LOCK, s.lock);
    OneEntry(SRC, Directory(s.service.src.value));
    CrateIsWellFormed(ENGINE_HOST, s.engineHost);
    CrateIsWellFormed(PPVPN_CORE, s.core);
    FiveTogether(
      OptionalFile(CARGO_TOML, s.service.manifest), OptionalFile(CARGO_LOCK, s.lock),
      [Entry(SRC, Directory(s.service.src.value))],
      LinkedCrate(ENGINE_HOST, s.engineHost), LinkedCrate(PPVPN_CORE, s.core),
      CARGO_TOML, CARGO_LOCK, SRC, ENGINE_HOST, PPVPN_CORE);
  }

  /** The files of the build id, by name. */
  function Inputs(s: Sources): seq<Input>
    requires Listable(s)
  {
    Walk([], Tree(s))
  }

  /** All names are distinct, and the stream can carry every file. */
  lemma InputsAreDistinct(s: Sources)
    requires SourcesWellFormed(s)
    ensures DistinctNames(Inputs(s)) && forall x :: x in Inputs(s) ==> Carriable(x)
  {
    TreeIsWellFormed(s);
    WalkIsDistinct([], Tree(s));
    WalkIsCarriable([], Tree(s));
  }

  /** Two source trees give the id the same bytes if and only if they have the same files under the same names. */
  lemma SameIdIffSameFiles(s: Sources, t: Sources)
    requires SourcesWellFormed(s) && SourcesWellFormed(t)
    ensures Hashed(Inputs(s)) == Hashed(Inputs(t)) <==> (forall x :: x in Inputs(s) <==> x in Inputs(t))
  {
    InputsAreDistinct(s);
    InputsAreDistinct(t);
    SameBytesIffSameFiles(Inputs(s), Inputs(t));
  }

  /** However the directories are listed, the id is of the same bytes. */
  lemma ListingOrderDoesNotMatter(s: Sources, t: Sources)
    requires SourcesWellFormed(s) && SourcesWellFormed(t) && SameTree(Tree(s), Tree(t))
    ensures Hashed(Inputs(s)) == Hashed(Inputs(t))
  {
    SameTreeSameFiles([], Tree(s), Tree(t));
    SameIdIffSameFiles(s, t);
  }

  // ---- Which files these are -------------------------------------------------

  /** The file at this path, one name for each directory and its own. */
  predicate FileAt(es: seq<Entry>, path: seq<Name>, data: Bytes)
    decreases |path|, 0
  {
    path != [] && exists i :: 0 <= i < |es| && es[i].name == path[0] && FileUnder(es[i].node, path[1..], data)
  }

  predicate FileUnder(node: Node, path: seq<Name>, data: Bytes)
    decreases |path|, 1
  {
    if path == [] then node == File(data) else node.Directory? && FileAt(node.entries, path, data)
  }

  /** The path with a slash before each name but the first. */
  function Joined(parent: Name, path: seq<Name>): Name
    decreases |path|
  {
    if path == [] then parent else Joined(Path(parent, path[0]), path[1..])
  }

  /** A walk finds exactly the files there are, each under its path. */
  lemma {:induction false} WalkFindsIff(parent: Name, es: seq<Entry>, x: Input)
    ensures x in Walk(parent, es) <==> exists path :: FileAt(es, path, x.data) && x.name == Joined(parent, path)
    decreases es, 1
  {
    InWalk(parent, es);
    if x in Walk(parent, es) {
      var i :| 0 <= i < |es| && x in WalkNode(Path(parent, es[i].name), es[i].node);
      var rest := FoundUnder(Path(parent, es[i].name), es[i].node, x);
      var path := [es[i].name] + rest;
      assert path[1..] == rest;
      assert FileAt(es, path, x.data) && x.name == Joined(parent, path);
    }
    if path :| FileAt(es, path, x.data) && x.name == Joined(parent, path) {
      var i :| 0 <= i < |es| && es[i].name == path[0] && FileUnder(es[i].node, path[1..], x.data);
      UnderIsFound(Path(parent, es[i].name), es[i].node, path[1..], x);
    }
  }

  lemma {:induction false} FoundUnder(at: Name, node: Node, x: Input) returns (path: seq<Name>)
    requires x in WalkNode(at, node)
    ensures FileUnder(node, path, x.data) && x.name == Joined(at, path)
    decreases node, 0
  {
    path := [];
    if node.Directory? {
      WalkFindsIff(at, node.entries, x);
      path :| FileAt(node.entries, path, x.data) && x.name == Joined(at, path);
    }
  }

  lemma {:induction false} UnderIsFound(at: Name, node: Node, path: seq<Name>, x: Input)
    requires FileUnder(node, path, x.data) && x.name == Joined(at, path)
    ensures x in WalkNode(at, node)
    decreases node, 0
  {
    if node.Directory? {
      WalkFindsIff(at, node.entries, x);
    }
  }

  function Bytes8(s: string): Name {
    seq(|s|, i requires 0 <= i < |s| => (s[i] as int % 256) as byte)
  }

  /** The files of the id: the manifest and the lock if they are there, every file of the sources, and of each crate with a manifest that manifest and its sources, under the crate's name. */
  lemma InputsAre(s: Sources, x: Input)
    requires Listable(s)
    ensures x in Inputs(s) <==>
              || (s.service.manifest.Some? && x == Input(Bytes8("Cargo.toml"), s.service.manifest.value))
              || (s.lock.Some? && x == Input(Bytes8("Cargo.lock"), s.lock.value))
              || x in Walk(Bytes8("src"), s.service.src.value)
              || InCrate(Bytes8("engine-host"), s.engineHost, x)
              || InCrate(Bytes8("ppvpn-core"), s.core, x)
  {
    NamesAreSpelled();
    InWalk([], Tree(s));
    var manifest, lock := OptionalFile(CARGO_TOML, s.service.manifest), OptionalFile(CARGO_LOCK, s.lock);
    var src, host, core := [Entry(SRC, Directory(s.service.src.value))], LinkedCrate(ENGINE_HOST, s.engineHost), LinkedCrate(PPVPN_CORE, s.core);
    InWalkOfBoth([], manifest, lock, x);
    InWalkOfBoth([], manifest + lock, src, x);
    InWalkOfBoth([], manifest + lock + src, host, x);
    InWalkOfBoth([], manifest + lock + src + host, core, x);
    InOptional(CARGO_TOML, s.service.manifest, x);
    InOptional(CARGO_LOCK, s.lock, x);
    InLinked(ENGINE_HOST, s.engineHost, x);
    InLinked(PPVPN_CORE, s.core, x);
    InWalk([], src);
    assert src[0] == Entry(SRC, Directory(s.service.src.value));
  }

  predicate InCrate(prefix: Name, c: Crate, x: Input) {
    c.manifest.Some? && c.src.Some? &&
    (x == Input(prefix + [SLASH] + Bytes8("Cargo.toml"), c.manifest.value) || x in Walk(prefix + [SLASH] + Bytes8("src"), c.src.value))
  }

  lemma NamesAreSpelled()
    ensures CARGO_TOML == Bytes8("Cargo.toml") && CARGO_LOCK == Bytes8("Cargo.lock") && SRC == Bytes8("src")
    ensures ENGINE_HOST == Bytes8("engine-host") && PPVPN_CORE == Bytes8("ppvpn-core")
  {
  }

  lemma InWalkOfBoth(parent: Name, a: seq<Entry>, b: seq<Entry>, x: Input)
    ensures x in Walk(parent, a + b) <==> x in Walk(parent, a) || x in Walk(parent, b)
  {
    InWalk(parent, a);
    InWalk(parent, b);
    InWalk(parent, a + b);
    if i :| 0 <= i < |a + b| && x in WalkNode(Path(parent, (a + b)[i].name), (a + b)[i].node) {
      assert i < |a| ==> a[i] == (a + b)[i];
      assert i >= |a| ==> b[i - |a|] == (a + b)[i];
    }
    if i :| 0 <= i < |a| && x in WalkNode(Path(parent, a[i].name), a[i].node) {
      assert (a + b)[i] == a[i];
    }
    if i :| 0 <= i < |b| && x in WalkNode(Path(parent, b[i].name), b[i].node) {
      assert (a + b)[|a| + i] == b[i];
    }
  }

  lemma InOptional(name: Name, data: Option<Bytes>, x: Input)
    ensures x in Walk([], OptionalFile(name, data)) <==> data.Some? && x == Input(name, data.value)
  {
    InWalk([], OptionalFile(name, data));
  }

  lemma InLinked(prefix: Name, c: Crate, x: Input)
    requires prefix != []
    ensures x in Walk([], LinkedCrate(prefix, c)) <==>
              c.manifest.Some? && c.src.Some? &&
              (x == Input(prefix + [SLASH] + CARGO_TOML, c.manifest.value) || x in Walk(prefix + [SLASH] + SRC, c.src.value))
  {
    var es := LinkedCrate(prefix, c);
    InWalk([], es);
    if c.manifest.Some? && c.src.Some? {
      var inside := [Entry(CARGO_TOML, File(c.manifest.value)), Entry(SRC, Directory(c.src.value))];
      assert es == [Entry(prefix, Directory(inside))] && Path([], prefix) == prefix;
      assert x in Walk([], es) <==> x in WalkNode(prefix, es[0].node);
      InWalk(prefix, inside);
      assert WalkNode(Path(prefix, CARGO_TOML), inside[0].node) == [Input(prefix + [SLASH] + CARGO_TOML, c.manifest.value)];
      assert WalkNode(Path(prefix, SRC), inside[1].node) == Walk(prefix + [SLASH] + SRC, c.src.value);
      assert x in Walk(prefix, inside) <==>
        x in WalkNode(Path(prefix, inside[0].name), inside[0].node) || x in WalkNode(Path(prefix, inside[1].name), inside[1].node);
    }
  }
}
