/** The byte stream behind a build id: (name, bytes) pairs written one after the other, and read back. */
module BuildStream {
  import opened Wrappers

  newtype byte = x: int | 0 <= x < 256

  type Name = seq<byte>
  type Bytes = seq<byte>

  /** One input file: its relative name and its bytes. */
  datatype Input = Input(name: Name, data: Bytes)

  const NUL: byte := 0

  // ---- Little-endian lengths ----------------------------------------------

  function Power256(k: nat): (p: nat)
    ensures p > 0
  {
    if k == 0 then 1 else 256 * Power256(k - 1)
  }

  function LittleEndian(n: nat, k: nat): (bytes: Bytes)
    ensures |bytes| == k
  {
    if k == 0 then [] else [(n % 256) as byte] + LittleEndian(n / 256, k - 1)
  }

  function FromLittleEndian(bytes: Bytes): nat {
    if bytes == [] then 0 else bytes[0] as nat + 256 * FromLittleEndian(bytes[1..])
  }

  lemma {:induction false} LittleEndianRoundTrip(n: nat, k: nat)
    requires n < Power256(k)
    ensures FromLittleEndian(LittleEndian(n, k)) == n
  {
    if k > 0 {
      LittleEndianRoundTrip(n / 256, k - 1);
      assert LittleEndian(n, k)[1..] == LittleEndian(n / 256, k - 1);
    }
  }

  // ---- The stream --------------------------------------------------------

  /** What a length has to stay below to be written as a u64. */
  const U64_RANGE: nat := 0x1_0000_0000_0000_0000

  lemma U64Range()
    ensures Power256(8) == U64_RANGE
  {
    assert Power256(2) == 0x1_0000;
    assert Power256(4) == 0x1_0000_0000;
    assert Power256(6) == 0x1_0000_0000_0000;
  }

  function Frame(input: Input): Bytes {
    input.name + [NUL] + LittleEndian(|input.data|, 8) + input.data
  }

  lemma {:induction false} BytesOfLittleEndian(n: nat, k: nat, i: nat)
    requires i < k
    ensures LittleEndian(n, k)[i] as nat == n / Power256(i) % 256
  {
    if i > 0 {
      BytesOfLittleEndian(n / 256, k - 1, i - 1);
      DivideTwice(n, Power256(i - 1));
    }
  }

  lemma DivideTwice(n: nat, power: nat)
    requires power > 0
    ensures n / 256 / power == n / (256 * power)
  {
    var q, r := n / 256, n % 256;
    var s, t := q / power, q % power;
    assert n == 256 * q + r && q == power * s + t;
    assert n == 256 * power * s + (256 * t + r) by {
      assert 256 * (power * s) == 256 * power * s;
    }
    QuotientIs(n, 256 * power, s, 256 * t + r);
  }

  lemma AtLeastOnce(d: nat, times: int)
    requires times >= 1
    ensures d * times >= d
  {
    assert d * times == d * (times - 1) + d;
  }

  lemma QuotientIs(n: nat, d: nat, q: int, r: nat)
    requires r < d && n == d * q + r
    ensures n / d == q
  {
    var p, s := n / d, n % d;
    assert n == d * p + s && 0 <= s < d;
    assert d * (p - q) == d * p - d * q;
    assert d * (q - p) == d * q - d * p;
    if p > q {
      AtLeastOnce(d, p - q);
    } else if p < q {
      AtLeastOnce(d, q - p);
    }
  }

  /** Name, NUL, the length in eight bytes with the lowest first, data. */
  lemma FrameIs(input: Input, i: nat)
    requires i < 8
    ensures var f, n := Frame(input), |input.name|;
            && |f| == n + 9 + |input.data| && f[..n] == input.name && f[n] == 0
            && f[n + 1 + i] as nat == |input.data| / Power256(i) % 256
            && f[n + 9..] == input.data
  {
    BytesOfLittleEndian(|input.data|, 8, i);
  }

  function Stream(inputs: seq<Input>): Bytes {
    if inputs == [] then [] else Frame(inputs[0]) + Stream(inputs[1..])
  }

  function NulAt(s: Bytes): (at: nat)
    ensures at <= |s| && (at < |s| ==> s[at] == NUL)
  {
    if s == [] || s[0] == NUL then 0 else 1 + NulAt(s[1..])
  }

  /** Reads one file off the front: a name up to NUL, eight bytes of length, that many bytes. */
  function FirstFile(s: Bytes): (r: Option<(Input, nat)>)
    ensures r.Some? ==> 0 < r.value.1 <= |s|
  {
    var nul := NulAt(s);
    if nul + 9 > |s| then None else
    var length := FromLittleEndian(s[nul + 1..nul + 9]);
    if nul + 9 + length > |s| then None
    else Some((Input(s[..nul], s[nul + 9..nul + 9 + length]), nul + 9 + length))
  }

  /** Reads a whole stream back. */
  function Parse(s: Bytes): Option<seq<Input>>
    decreases |s|
  {
    if s == [] then Some([]) else
    match FirstFile(s)
    case None => None
    case Some((input, end)) =>
      var rest := Parse(s[end..]);
      if rest.None? then None else Some([input] + rest.value)
  }

  /** A file the stream can carry: no NUL in its name, and a length that fits. */
  predicate Carriable(input: Input) {
    NUL !in input.name && |input.data| < U64_RANGE
  }

  lemma {:induction false} NulAfterName(name: Name, rest: Bytes)
    requires NUL !in name
    ensures NulAt(name + [NUL] + rest) == |name|
  {
    var s := name + [NUL] + rest;
    if name != [] {
      assert s[0] == name[0];
      assert s[1..] == name[1..] + [NUL] + rest;
      NulAfterName(name[1..], rest);
    }
  }

  /** One file is read off the front of anything. */
  lemma FirstFileOfFrame(input: Input, rest: Bytes)
    requires Carriable(input)
    ensures FirstFile(Frame(input) + rest) == Some((input, |Frame(input)|))
  {
    var n := |input.name|;
    var length := LittleEndian(|input.data|, 8);
    var s := Frame(input) + rest;
    assert s == input.name + [NUL] + (length + input.data + rest);
    NulAfterName(input.name, length + input.data + rest);
    U64Range();
    LittleEndianRoundTrip(|input.data|, 8);
    assert s[..n] == input.name;
    assert s[n + 1..n + 9] == length;
    assert s[n + 9..n + 9 + |input.data|] == input.data;
  }

  lemma ParseAfter(s: Bytes, input: Input, end: nat, rest: seq<Input>)
    requires FirstFile(s) == Some((input, end)) && Parse(s[end..]) == Some(rest)
    ensures Parse(s) == Some([input] + rest)
  {
  }

  /** Every stream of carriable files reads back as exactly those files, in order. */
  lemma {:induction false} StreamRoundTrip(inputs: seq<Input>)
    requires forall i :: 0 <= i < |inputs| ==> Carriable(inputs[i])
    ensures Parse(Stream(inputs)) == Some(inputs)
  {
    if inputs != [] {
      var rest := Stream(inputs[1..]);
      StreamRoundTrip(inputs[1..]);
      FirstFileOfFrame(inputs[0], rest);
      assert (Frame(inputs[0]) + rest)[|Frame(inputs[0])|..] == rest;
      ParseAfter(Frame(inputs[0]) + rest, inputs[0], |Frame(inputs[0])|, inputs[1..]);
      assert inputs == [inputs[0]] + inputs[1..];
    }
  }

  // ---- Name order ------------------------------------------------------------

  /** Rust's order on strings: byte by byte. */
  predicate Before(a: Name, b: Name) {
    if b == [] then false
    else if a == [] then true
    else a[0] < b[0] || (a[0] == b[0] && Before(a[1..], b[1..]))
  }

  lemma {:induction false} BeforeIsTotal(a: Name, b: Name)
    ensures a == b || Before(a, b) || Before(b, a)
    ensures !(Before(a, b) && Before(b, a)) && !Before(a, a)
  {
    if a != [] {
      BeforeIsTotal(a[1..], a[1..]);
    }
    if a != [] && b != [] {
      BeforeIsTotal(a[1..], b[1..]);
      if a[0] == b[0] && a[1..] == b[1..] {
        assert a == [a[0]] + a[1..] == [b[0]] + b[1..] == b;
      }
    }
  }

  lemma {:induction false} BeforeIsTransitive(a: Name, b: Name, c: Name)
    requires Before(a, b) && Before(b, c)
    ensures Before(a, c)
  {
    if a != [] && a[0] == b[0] == c[0] {
      BeforeIsTransitive(a[1..], b[1..], c[1..]);
    }
  }

  /** `a` comes first: where they first differ it ends or has the smaller byte. */
  lemma {:induction false} BeforeIff(a: Name, b: Name)
    ensures Before(a, b) <==> exists k :: DiffersFirstAt(a, b, k)
  {
    if a == [] || b == [] {
      if b != [] {
        assert DiffersFirstAt(a, b, 0);
      }
    } else {
      BeforeIff(a[1..], b[1..]);
      if a[0] < b[0] {
        assert DiffersFirstAt(a, b, 0);
      }
      if k: nat :| DiffersFirstAt(a[1..], b[1..], k) && a[0] == b[0] {
        assert a[..k + 1] == [a[0]] + a[1..][..k] && b[..k + 1] == [b[0]] + b[1..][..k];
        assert DiffersFirstAt(a, b, k + 1);
      }
      if k: nat :| DiffersFirstAt(a, b, k) && k > 0 {
        assert a[0] == a[..k][0] == b[..k][0] == b[0];
        assert a[1..][..k - 1] == a[..k][1..] && b[1..][..k - 1] == b[..k][1..];
        assert DiffersFirstAt(a[1..], b[1..], k - 1);
      }
    }
  }

  predicate DiffersFirstAt(a: Name, b: Name, k: nat) {
    k <= |a| && k < |b| && a[..k] == b[..k] && (k == |a| || a[k] < b[k])
  }

  predicate DistinctNames(inputs: seq<Input>) {
    forall i, j :: 0 <= i < j < |inputs| ==> inputs[i].name != inputs[j].name
  }

  predicate Sorted(inputs: seq<Input>) {
    forall i, j :: 0 <= i < j < |inputs| ==> Before(inputs[i].name, inputs[j].name)
  }

  function Insert(input: Input, inputs: seq<Input>): seq<Input> {
    if inputs == [] || !Before(inputs[0].name, input.name) then [input] + inputs
    else [inputs[0]] + Insert(input, inputs[1..])
  }

  /** `sort_by` on the names. */
  function SortByName(inputs: seq<Input>): seq<Input> {
    if inputs == [] then [] else Insert(inputs[0], SortByName(inputs[1..]))
  }

  lemma {:induction false} InsertKeeps(input: Input, inputs: seq<Input>)
    ensures forall x :: x in Insert(input, inputs) <==> x == input || x in inputs
    ensures Sorted(inputs) && (forall x :: x in inputs ==> x.name != input.name) ==> Sorted(Insert(input, inputs))
  {
    if inputs != [] {
      assert inputs == [inputs[0]] + inputs[1..];
      BeforeIsTotal(input.name, inputs[0].name);
      if Before(inputs[0].name, input.name) {
        InsertKeeps(input, inputs[1..]);
        assert forall i :: 0 <= i < |Insert(input, inputs[1..])| ==> Insert(input, inputs[1..])[i] in Insert(input, inputs[1..]);
      } else {
        InsertFirst(input, inputs);
      }
    }
  }

  lemma InsertFirst(input: Input, inputs: seq<Input>)
    requires inputs != [] && !Before(inputs[0].name, input.name)
    ensures Sorted(inputs) && input.name != inputs[0].name ==> Sorted([input] + inputs)
  {
    BeforeIsTotal(input.name, inputs[0].name);
    if Sorted(inputs) && input.name != inputs[0].name {
      forall j | 0 < j < |inputs|
        ensures Before(input.name, inputs[j].name)
      {
        BeforeIsTransitive(input.name, inputs[0].name, inputs[j].name);
      }
    }
  }

  lemma {:induction false} SortSorts(inputs: seq<Input>)
    ensures forall x :: x in SortByName(inputs) <==> x in inputs
    ensures DistinctNames(inputs) ==> Sorted(SortByName(inputs))
  {
    if inputs != [] {
      SortSorts(inputs[1..]);
      InsertKeeps(inputs[0], SortByName(inputs[1..]));
      assert inputs == [inputs[0]] + inputs[1..];
      assert DistinctNames(inputs) ==> DistinctNames(inputs[1..]) && forall x :: x in inputs[1..] ==> x.name != inputs[0].name;
    }
  }

  /** A set of files has only one sorted order. */
  lemma {:induction false} SortedIsUnique(a: seq<Input>, b: seq<Input>)
    requires Sorted(a) && Sorted(b)
    requires forall x :: x in a <==> x in b
    ensures a == b
  {
    assert forall i :: 0 <= i < |a| ==> a[i] in b;
    assert forall i :: 0 <= i < |b| ==> b[i] in a;
    if a != [] && b != [] {
      SortedStartsSame(a, b);
      assert a == [a[0]] + a[1..] && b == [b[0]] + b[1..];
      SortedHeadIsAlone(a);
      SortedHeadIsAlone(b);
      forall x
        ensures x in a[1..] <==> x in b[1..]
      {
        assert x in a <==> x == a[0] || x in a[1..];
        assert x in b <==> x == b[0] || x in b[1..];
      }
      SortedIsUnique(a[1..], b[1..]);
    }
  }

  lemma SortedHeadIsAlone(a: seq<Input>)
    requires Sorted(a) && a != []
    ensures a[0] !in a[1..]
  {
    BeforeIsTotal(a[0].name, a[0].name);
    assert forall i :: 0 <= i < |a[1..]| ==> a[1..][i] == a[i + 1];
  }

  lemma SortedStartsSame(a: seq<Input>, b: seq<Input>)
    requires Sorted(a) && Sorted(b) && a != [] && b != []
    requires forall x :: x in a <==> x in b
    ensures a[0] == b[0]
  {
    assert a[0] in b && b[0] in a;
    var i :| 0 <= i < |b| && b[i] == a[0];
    var j :| 0 <= j < |a| && a[j] == b[0];
    BeforeIsTotal(a[0].name, b[0].name);
  }

  // ---- The id of a set of files ------------------------------------------------

  /** What is hashed for a list of files. */
  function Hashed(inputs: seq<Input>): Bytes {
    Stream(SortByName(inputs))
  }

  /** Two lists of distinctly named, carriable files hash the same bytes if and only if they are the same set of files. */
  lemma SameBytesIffSameFiles(a: seq<Input>, b: seq<Input>)
    requires DistinctNames(a) && DistinctNames(b)
    requires forall x :: x in a || x in b ==> Carriable(x)
    ensures Hashed(a) == Hashed(b) <==> (forall x :: x in a <==> x in b)
  {
    SortSorts(a);
    SortSorts(b);
    var sa, sb := SortByName(a), SortByName(b);
    if Hashed(a) == Hashed(b) {
      assert forall i :: 0 <= i < |sa| ==> sa[i] in sa;
      assert forall i :: 0 <= i < |sb| ==> sb[i] in sb;
      StreamRoundTrip(sa);
      StreamRoundTrip(sb);
      assert sa == sb;
    }
    if forall x :: x in a <==> x in b {
      SortedIsUnique(sa, sb);
    }
  }
}
