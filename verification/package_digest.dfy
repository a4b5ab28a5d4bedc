/**
 The portable digest of crates/kiteframe-core/src/canonical.rs: a Merkle tree over length-prefixed, domain-separated
 chunks. Two package trees have one digest exactly when they have the same canonical manifest, the same merged
 assets and, path by path, children of which the same holds, unless SHA-256 collides on what was hashed for them.

 SHA-256 is a parameter, and a manifest is its canonical JSON. Paths and texts are their UTF-8 bytes.
 */
module PackageDigest {
  import opened Outcomes
  import opened ByteStrings

  /** A byte string whose length is a 64-bit integer. */
  type Chunk = c: Bytes | |c| <= MAX_WORD

  // ---------------------------------------------------------------- length-prefixed encoding

  /** "kiteframe:v1" and a terminating zero. */
  const PREFIX: Bytes := [107, 105, 116, 101, 102, 114, 97, 109, 101, 58, 118, 49, 0]

  /** "portable-asset", "portable-child" and "portable-package". */
  const PORTABLE_ASSET: Chunk := [112, 111, 114, 116, 97, 98, 108, 101, 45, 97, 115, 115, 101, 116]
  const PORTABLE_CHILD: Chunk := [112, 111, 114, 116, 97, 98, 108, 101, 45, 99, 104, 105, 108, 100]
  const PORTABLE_PACKAGE: Chunk := [112, 111, 114, 116, 97, 98, 108, 101, 45, 112, 97, 99, 107, 97, 103, 101]

  function Prefixed(chunk: Chunk): Bytes {
    Word(|chunk|) + chunk
  }

  function PrefixedAll(chunks: seq<Chunk>): Bytes {
    if chunks == [] then [] else PrefixedAll(chunks[..|chunks| - 1]) + Prefixed(chunks[|chunks| - 1])
  }

  /** What `hash_domain` feeds to the hasher. */
  function Encoding(domain: Chunk, chunks: seq<Chunk>): Bytes {
    PREFIX + Prefixed(domain) + PrefixedAll(chunks)
  }

  /** A hasher and everything it has been fed. */
  class Hasher {
    const hash: Bytes -> Digest
    var fed: Bytes

    constructor (hash: Bytes -> Digest)
      ensures this.hash == hash && fed == []
    {
      this.hash := hash;
      fed := [];
    }

    method Update(bytes: Bytes)
      modifies this
      ensures fed == old(fed) + bytes
    {
      fed := fed + bytes;
    }

    method Finalize() returns (digest: Digest)
      ensures digest == hash(fed)
    {
      digest := hash(fed);
    }
  }

  method HashDomain(hash: Bytes -> Digest, domain: Chunk, chunks: seq<Chunk>) returns (digest: Digest)
    ensures digest == hash(Encoding(domain, chunks))
  {
    var hasher := new Hasher(hash);
    hasher.Update(PREFIX);
    hasher.Update(Word(|domain|));
    hasher.Update(domain);
    assert hasher.fed == PREFIX + Prefixed(domain) + PrefixedAll([]);
    for i := 0 to |chunks|
      invariant hasher.hash == hash && hasher.fed == PREFIX + Prefixed(domain) + PrefixedAll(chunks[..i])
    {
      hasher.Update(Word(|chunks[i]|));
      hasher.Update(chunks[i]);
      assert chunks[..i + 1][..i] == chunks[..i];
      assert hasher.fed == PREFIX + Prefixed(domain) + (PrefixedAll(chunks[..i]) + Prefixed(chunks[i]));
    }
    assert chunks[..|chunks|] == chunks;
    digest := hasher.Finalize();
  }

  lemma PrefixedFirst(a: Chunk, x: Bytes, b: Chunk, y: Bytes)
    requires Prefixed(a) + x == Prefixed(b) + y
    ensures a == b && x == y
  {
    assert Prefixed(a) + x == Word(|a|) + (a + x) && Prefixed(b) + y == Word(|b|) + (b + y);
    SplitAtSameLength(Word(|a|), a + x, Word(|b|), b + y);
    WordInjective(|a|, |b|);
    SplitAtSameLength(a, x, b, y);
  }

  lemma {:induction false} PrefixedAllFromFirst(chunks: seq<Chunk>)
    requires chunks != []
    ensures PrefixedAll(chunks) == Prefixed(chunks[0]) + PrefixedAll(chunks[1..])
  {
    if |chunks| > 1 {
      var last := |chunks| - 1;
      PrefixedAllFromFirst(chunks[..last]);
      assert chunks[1..][..last - 1] == chunks[..last][1..];
      assert chunks[1..][last - 1] == chunks[last];
    }
  }

  lemma {:induction false} PrefixedAllInjective(a: seq<Chunk>, b: seq<Chunk>)
    requires PrefixedAll(a) == PrefixedAll(b)
    ensures a == b
    decreases |a|
  {
    if a != [] {
      PrefixedAllFromFirst(a);
    }
    if b != [] {
      PrefixedAllFromFirst(b);
    }
    if a != [] && b != [] {
      PrefixedFirst(a[0], PrefixedAll(a[1..]), b[0], PrefixedAll(b[1..]));
      PrefixedAllInjective(a[1..], b[1..]);
      assert a == [a[0]] + a[1..] && b == [b[0]] + b[1..];
    }
  }

  /** The encoding determines its domain and its chunks, with no count of them. */
  lemma EncodingInjective(domain: Chunk, chunks: seq<Chunk>, domain': Chunk, chunks': seq<Chunk>)
    requires Encoding(domain, chunks) == Encoding(domain', chunks')
    ensures domain == domain' && chunks == chunks'
  {
    var tail, tail' := Prefixed(domain) + PrefixedAll(chunks), Prefixed(domain') + PrefixedAll(chunks');
    assert Encoding(domain, chunks) == PREFIX + tail && Encoding(domain', chunks') == PREFIX + tail';
    SplitAtSameLength(PREFIX, tail, PREFIX, tail');
    PrefixedFirst(domain, PrefixedAll(chunks), domain', PrefixedAll(chunks'));
    PrefixedAllInjective(chunks, chunks');
  }

  // ---------------------------------------------------------------- assets

  datatype Asset = Asset(path: Chunk, text: Chunk)

  /** Byte order on paths. */
  predicate Less(a: Bytes, b: Bytes) {
    b != [] && (a == [] || a[0] < b[0] || (a[0] == b[0] && Less(a[1..], b[1..])))
  }

  /** A `BTreeMap` from paths to texts, in iteration order. */
  predicate Ascending(assets: seq<Asset>) {
    forall i, j | 0 <= i < j < |assets| :: Less(assets[i].path, assets[j].path)
  }

  function Lookup(assets: seq<Asset>, path: Bytes): Option<Chunk> {
    if assets == [] then None
    else if assets[0].path == path then Some(assets[0].text)
    else Lookup(assets[1..], path)
  }

  /** `BTreeMap::insert`. */
  function Insert(assets: seq<Asset>, asset: Asset): seq<Asset> {
    if assets == [] then [asset]
    else if assets[0].path == asset.path then [asset] + assets[1..]
    else if Less(asset.path, assets[0].path) then [asset] + assets
    else [assets[0]] + Insert(assets[1..], asset)
  }

  /** `BTreeMap::extend`. */
  function Extend(assets: seq<Asset>, more: seq<Asset>): seq<Asset> {
    if more == [] then assets else Insert(Extend(assets, more[..|more| - 1]), more[|more| - 1])
  }

  /** Prompts, then skills, which replace a prompt of the same path. */
  function Merged(prompts: seq<Asset>, skills: seq<Asset>): seq<Asset> {
    Extend(Extend([], prompts), skills)
  }

  lemma {:induction false} LessTransitive(a: Bytes, b: Bytes, c: Bytes)
    requires Less(a, b) && Less(b, c)
    ensures Less(a, c)
  {
    if a != [] && a[0] == b[0] == c[0] {
      LessTransitive(a[1..], b[1..], c[1..]);
    }
  }

  lemma {:induction false} LessTotal(a: Bytes, b: Bytes)
    ensures a == b || Less(a, b) || Less(b, a)
    ensures !(Less(a, b) && Less(b, a)) && !Less(a, a)
    decreases |a| + |b|
  {
    if a != [] && b != [] && a[0] == b[0] {
      LessTotal(a[1..], b[1..]);
      assert a == [a[0]] + a[1..] && b == [b[0]] + b[1..];
    }
    LessIrreflexive(a);
  }

  lemma {:induction false} LessIrreflexive(a: Bytes)
    ensures !Less(a, a)
  {
    if a != [] {
      LessIrreflexive(a[1..]);
    }
  }

  /** The order compares the first byte in which the texts differ, and puts a prefix first. */
  lemma {:induction false} LessIsLexicographic(a: Bytes, b: Bytes)
    ensures Less(a, b) <==> exists k :: FirstDifference(a, b, k)
  {
    if a != [] && b != [] && a[0] == b[0] {
      LessIsLexicographic(a[1..], b[1..]);
      if k: nat :| FirstDifference(a[1..], b[1..], k) {
        assert forall i | 0 <= i < k + 1 :: a[i] == b[i] by {
          assert forall i | 0 < i < k + 1 :: a[i] == a[1..][i - 1] && b[i] == b[1..][i - 1];
        }
        assert FirstDifference(a, b, k + 1);
      }
      if k: nat :| FirstDifference(a, b, k) {
        assert k > 0;
        assert FirstDifference(a[1..], b[1..], k - 1);
      }
    } else if b != [] && (a == [] || a[0] < b[0]) {
      assert FirstDifference(a, b, 0);
    }
  }

  predicate FirstDifference(a: Bytes, b: Bytes, k: nat) {
    k <= |a| && k < |b| && (forall i | 0 <= i < k :: a[i] == b[i]) && (k == |a| || a[k] < b[k])
  }

  lemma AscendingTail(assets: seq<Asset>)
    requires Ascending(assets) && assets != []
    ensures Ascending(assets[1..])
  {}

  lemma {:induction false} InsertAscends(assets: seq<Asset>, asset: Asset)
    requires Ascending(assets)
    ensures Ascending(Insert(assets, asset))
    ensures forall i | 0 <= i < |Insert(assets, asset)| ::
              Insert(assets, asset)[i] == asset || Insert(assets, asset)[i] in assets
  {
    if assets != [] {
      LessTotal(asset.path, assets[0].path);
      if Less(assets[0].path, asset.path) {
        AscendingTail(assets);
        InsertAscends(assets[1..], asset);
        var rest := Insert(assets[1..], asset);
        forall i | 0 <= i < |rest|
          ensures Less(assets[0].path, rest[i].path)
        {
          if rest[i] != asset {
            assert rest[i] in assets[1..];
          }
        }
      } else if Less(asset.path, assets[0].path) {
        forall i | 0 < i < |assets|
          ensures Less(asset.path, assets[i].path)
        {
          LessTransitive(asset.path, assets[0].path, assets[i].path);
        }
      }
    }
  }

  lemma {:induction false} InsertLooksUp(assets: seq<Asset>, asset: Asset, path: Bytes)
    requires Ascending(assets)
    ensures Lookup(Insert(assets, asset), path) == if path == asset.path then Some(asset.text) else Lookup(assets, path)
  {
    if assets != [] {
      LessTotal(asset.path, assets[0].path);
      AscendingTail(assets);
      InsertLooksUp(assets[1..], asset, path);
    }
  }

  /** The last text given for a path, if any. */
  function LastOf(assets: seq<Asset>, path: Bytes): Option<Chunk> {
    if assets == [] then None
    else if assets[|assets| - 1].path == path then Some(assets[|assets| - 1].text)
    else LastOf(assets[..|assets| - 1], path)
  }

  lemma {:induction false} ExtendLooksUp(assets: seq<Asset>, more: seq<Asset>, path: Bytes)
    requires Ascending(assets)
    ensures Ascending(Extend(assets, more))
    ensures Lookup(Extend(assets, more), path) == if LastOf(more, path).Some? then LastOf(more, path) else Lookup(assets, path)
    decreases |more|
  {
    if more != [] {
      var earlier := Extend(assets, more[..|more| - 1]);
      ExtendLooksUp(assets, more[..|more| - 1], path);
      InsertAscends(earlier, more[|more| - 1]);
      InsertLooksUp(earlier, more[|more| - 1], path);
    }
  }

  /** In the merged map a path has its skill's text if it has a skill, and otherwise its prompt's. */
  lemma SkillsReplacePrompts(prompts: seq<Asset>, skills: seq<Asset>, path: Bytes)
    ensures Ascending(Merged(prompts, skills))
    ensures Lookup(Merged(prompts, skills), path) == if LastOf(skills, path).Some? then LastOf(skills, path) else LastOf(prompts, path)
  {
    ExtendLooksUp([], prompts, path);
    ExtendLooksUp(Extend([], prompts), skills, path);
  }

  // ---------------------------------------------------------------- package trees

  datatype AgentPackage = AgentPackage(manifest: Chunk, prompts: seq<Asset>, skills: seq<Asset>, subagents: Subagents)

  /** Children in path order. */
  datatype Subagents = NoSubagents | Subagent(path: Chunk, child: AgentPackage, rest: Subagents)

  function AssetInput(asset: Asset): Bytes {
    Encoding(PORTABLE_ASSET, [asset.path, asset.text])
  }

  function ChildInput(hash: Bytes -> Digest, path: Chunk, child: AgentPackage): Bytes
    decreases child, 4
  {
    Encoding(PORTABLE_CHILD, [path, PortableDigest(hash, child)])
  }

  function AssetInputs(assets: seq<Asset>): (inputs: seq<Bytes>)
    ensures |inputs| == |assets|
  {
    if assets == [] then [] else [AssetInput(assets[0])] + AssetInputs(assets[1..])
  }

  function ChildInputs(hash: Bytes -> Digest, subagents: Subagents): seq<Bytes>
    decreases subagents
  {
    match subagents
    case NoSubagents => []
    case Subagent(path, child, rest) => [ChildInput(hash, path, child)] + ChildInputs(hash, rest)
  }

  /** What is hashed for the entries of a package: its merged assets, then its children. */
  function EntryInputs(hash: Bytes -> Digest, package: AgentPackage): seq<Bytes>
    decreases package, 1
  {
    AssetInputs(Merged(package.prompts, package.skills)) + ChildInputs(hash, package.subagents)
  }

  function HashAll(hash: Bytes -> Digest, inputs: seq<Bytes>): (digests: seq<Chunk>)
    ensures |digests| == |inputs|
    ensures forall i | 0 <= i < |inputs| :: digests[i] == hash(inputs[i])
  {
    if inputs == [] then [] else HashAll(hash, inputs[..|inputs| - 1]) + [hash(inputs[|inputs| - 1])]
  }

  function PackageInput(hash: Bytes -> Digest, package: AgentPackage): Bytes
    decreases package, 2
  {
    Encoding(PORTABLE_PACKAGE, [package.manifest] + HashAll(hash, EntryInputs(hash, package)))
  }

  function PortableDigest(hash: Bytes -> Digest, package: AgentPackage): Digest
    decreases package, 3
  {
    hash(PackageInput(hash, package))
  }

  method MergeAssets(prompts: seq<Asset>, skills: seq<Asset>) returns (assets: seq<Asset>)
    ensures assets == Merged(prompts, skills)
  {
    assets := [];
    for i := 0 to |prompts|
      invariant assets == Extend([], prompts[..i])
    {
      assert prompts[..i + 1][..i] == prompts[..i];
      assets := Insert(assets, prompts[i]);
    }
    ghost var prompted := assets;
    assert prompts[..|prompts|] == prompts;
    for i := 0 to |skills|
      invariant assets == Extend(prompted, skills[..i])
    {
      assert skills[..i + 1][..i] == skills[..i];
      assets := Insert(assets, skills[i]);
    }
    assert skills[..|skills|] == skills;
  }

  lemma NothingToHash(hash: Bytes -> Digest)
    ensures HashAll(hash, []) == []
  {}

  lemma HashOneMore(hash: Bytes -> Digest, inputs: seq<Bytes>, input: Bytes)
    ensures HashAll(hash, inputs + [input]) == HashAll(hash, inputs) + [hash(input)]
  {
    assert (inputs + [input])[..|inputs|] == inputs;
  }

  method PushAssets(hash: Bytes -> Digest, chunks: seq<Chunk>, assets: seq<Asset>) returns (pushed: seq<Chunk>)
    ensures pushed == chunks + HashAll(hash, AssetInputs(assets))
  {
    hide HashAll, Encoding;
    pushed := chunks;
    NothingToHash(hash);
    ghost var inputs: seq<Bytes> := [];
    for i := 0 to |assets|
      invariant inputs + AssetInputs(assets[i..]) == AssetInputs(assets)
      invariant pushed == chunks + HashAll(hash, inputs)
    {
      var entry := HashDomain(hash, PORTABLE_ASSET, [assets[i].path, assets[i].text]);
      HashOneMore(hash, inputs, AssetInput(assets[i]));
      assert assets[i..][1..] == assets[i + 1..];
      inputs := inputs + [AssetInput(assets[i])];
      pushed := pushed + [entry];
    }
    assert inputs + [] == inputs;
  }

  method PushChildren(hash: Bytes -> Digest, chunks: seq<Chunk>, subagents: Subagents) returns (pushed: seq<Chunk>)
    ensures pushed == chunks + HashAll(hash, ChildInputs(hash, subagents))
  {
    hide HashAll, PortableDigest, Encoding;
    pushed := chunks;
    NothingToHash(hash);
    var left := subagents;
    ghost var inputs: seq<Bytes> := [];
    while left.Subagent?
      invariant inputs + ChildInputs(hash, left) == ChildInputs(hash, subagents)
      invariant pushed == chunks + HashAll(hash, inputs)
      decreases left
    {
      var entry := HashDomain(hash, PORTABLE_CHILD, [left.path, PortableDigest(hash, left.child)]);
      HashOneMore(hash, inputs, ChildInput(hash, left.path, left.child));
      inputs := inputs + [ChildInput(hash, left.path, left.child)];
      pushed := pushed + [entry];
      left := left.rest;
    }
    assert inputs + [] == inputs;
  }

  lemma HashBoth(hash: Bytes -> Digest, first: seq<Bytes>, second: seq<Bytes>)
    ensures HashAll(hash, first + second) == HashAll(hash, first) + HashAll(hash, second)
  {
    hide HashAll;
    var whole, parts := HashAll(hash, first + second), HashAll(hash, first) + HashAll(hash, second);
    forall i | 0 <= i < |first + second|
      ensures whole[i] == parts[i]
    {
    }
  }

  method ComputePortableDigest(hash: Bytes -> Digest, package: AgentPackage) returns (digest: Digest)
    ensures digest == PortableDigest(hash, package)
  {
    hide HashAll, AssetInputs, ChildInputs, Merged, Encoding;
    var chunks: seq<Chunk> := [package.manifest];
    var assets := MergeAssets(package.prompts, package.skills);
    chunks := PushAssets(hash, chunks, assets);
    chunks := PushChildren(hash, chunks, package.subagents);
    HashBoth(hash, AssetInputs(assets), ChildInputs(hash, package.subagents));
    assert chunks == [package.manifest] + HashAll(hash, EntryInputs(hash, package));
    digest := HashDomain(hash, PORTABLE_PACKAGE, chunks);
  }

  // ---------------------------------------------------------------- the digest is a commitment

  /** The same package to a reader: manifest, merged assets, and children at the same paths. */
  predicate Same(one: AgentPackage, other: AgentPackage) {
    && one.manifest == other.manifest
    && Merged(one.prompts, one.skills) == Merged(other.prompts, other.skills)
    && SameChildren(one.subagents, other.subagents)
  }

  predicate SameChildren(one: Subagents, other: Subagents) {
    match one
    case NoSubagents => other.NoSubagents?
    case Subagent(path, child, rest) =>
      other.Subagent? && path == other.path && Same(child, other.child) && SameChildren(rest, other.rest)
  }

  /** Everything hashed to compute a digest. */
  function Hashed(hash: Bytes -> Digest, package: AgentPackage): set<Bytes> {
    {PackageInput(hash, package)} + (set input | input in EntryInputs(hash, package)) + HashedBelow(hash, package.subagents)
  }

  function HashedBelow(hash: Bytes -> Digest, subagents: Subagents): set<Bytes> {
    match subagents
    case NoSubagents => {}
    case Subagent(_, child, rest) => Hashed(hash, child) + HashedBelow(hash, rest)
  }

  ghost predicate CollisionFree(hash: Bytes -> Digest, inputs: set<Bytes>) {
    forall x, y | x in inputs && y in inputs && hash(x) == hash(y) :: x == y
  }

  lemma {:induction false} HashAllInjective(hash: Bytes -> Digest, a: seq<Bytes>, b: seq<Bytes>, inputs: set<Bytes>)
    requires CollisionFree(hash, inputs) && HashAll(hash, a) == HashAll(hash, b)
    requires (forall x | x in a :: x in inputs) && forall y | y in b :: y in inputs
    ensures a == b
  {
    assert |a| == |b|;
    forall i | 0 <= i < |a|
      ensures a[i] == b[i]
    {
      assert HashAll(hash, a)[i] == HashAll(hash, b)[i];
      assert a[i] in inputs && b[i] in inputs;
    }
  }

  lemma DomainsDiffer()
    ensures PORTABLE_ASSET != PORTABLE_CHILD
  {
    assert PORTABLE_ASSET[9] != PORTABLE_CHILD[9];
  }

  lemma AssetInputInjective(one: Asset, other: Asset)
    requires AssetInput(one) == AssetInput(other)
    ensures one == other
  {
    var x, y: seq<Chunk> := [one.path, one.text], [other.path, other.text];
    EncodingInjective(PORTABLE_ASSET, x, PORTABLE_ASSET, y);
    assert x[0] == y[0] && x[1] == y[1];
  }

  lemma AssetsStartNoChildren(hash: Bytes -> Digest, assets: seq<Asset>, subagents: Subagents, subagents': Subagents)
    requires assets != []
    ensures AssetInputs(assets) + ChildInputs(hash, subagents) != ChildInputs(hash, subagents')
  {
    hide ChildInputs, AssetInput;
    AssetIsNoChild(hash, assets[0], subagents');
    assert (AssetInputs(assets) + ChildInputs(hash, subagents))[0] == AssetInput(assets[0]);
  }

  lemma NoAssets()
    ensures AssetInputs([]) == []
  {}

  lemma AssetComesFirst(hash: Bytes -> Digest, assets: seq<Asset>, subagents: Subagents)
    requires assets != []
    ensures AssetInputs(assets) + ChildInputs(hash, subagents)
         == [AssetInput(assets[0])] + (AssetInputs(assets[1..]) + ChildInputs(hash, subagents))
  {
    hide AssetInput, ChildInputs;
    Reassociate([AssetInput(assets[0])], AssetInputs(assets[1..]), ChildInputs(hash, subagents));
  }

  lemma Reassociate(a: seq<Bytes>, b: seq<Bytes>, c: seq<Bytes>)
    ensures (a + b) + c == a + (b + c)
  {}

  /** Domain separation tells where the assets end and the children begin. */
  lemma {:induction false} EntriesSplit(hash: Bytes -> Digest, assets: seq<Asset>, subagents: Subagents, assets': seq<Asset>, subagents': Subagents)
    requires AssetInputs(assets) + ChildInputs(hash, subagents) == AssetInputs(assets') + ChildInputs(hash, subagents')
    ensures assets == assets' && ChildInputs(hash, subagents) == ChildInputs(hash, subagents')
    decreases |assets| + |assets'|
  {
    hide AssetInput, AssetInputs, ChildInputs;
    NoAssets();
    var whole, whole' := AssetInputs(assets) + ChildInputs(hash, subagents), AssetInputs(assets') + ChildInputs(hash, subagents');
    if assets == [] && assets' == [] {
      assert whole == ChildInputs(hash, subagents) && whole' == ChildInputs(hash, subagents');
    } else if assets == [] {
      assert whole == ChildInputs(hash, subagents);
      AssetsStartNoChildren(hash, assets', subagents', subagents);
    } else if assets' == [] {
      assert whole' == ChildInputs(hash, subagents');
      AssetsStartNoChildren(hash, assets, subagents, subagents');
    } else {
      AssetComesFirst(hash, assets, subagents);
      AssetComesFirst(hash, assets', subagents');
      SplitAtSameLength([AssetInput(assets[0])], AssetInputs(assets[1..]) + ChildInputs(hash, subagents),
                        [AssetInput(assets'[0])], AssetInputs(assets'[1..]) + ChildInputs(hash, subagents'));
      assert AssetInput(assets[0]) == [AssetInput(assets'[0])][0];
      AssetInputInjective(assets[0], assets'[0]);
      EntriesSplit(hash, assets[1..], subagents, assets'[1..], subagents');
      assert assets == [assets[0]] + assets[1..] && assets' == [assets'[0]] + assets'[1..];
    }
  }

  lemma AssetIsNoChild(hash: Bytes -> Digest, asset: Asset, subagents: Subagents)
    ensures ChildInputs(hash, subagents) != [] ==> ChildInputs(hash, subagents)[0] != AssetInput(asset)
  {
    if subagents.Subagent? && ChildInput(hash, subagents.path, subagents.child) == AssetInput(asset) {
      EncodingInjective(PORTABLE_CHILD, [subagents.path, PortableDigest(hash, subagents.child)], PORTABLE_ASSET, [asset.path, asset.text]);
      DomainsDiffer();
    }
  }

  lemma PackageInputDetermines(hash: Bytes -> Digest, one: AgentPackage, other: AgentPackage)
    requires PackageInput(hash, one) == PackageInput(hash, other)
    ensures one.manifest == other.manifest
    ensures HashAll(hash, EntryInputs(hash, one)) == HashAll(hash, EntryInputs(hash, other))
  {
    var chunks, chunks' := [one.manifest] + HashAll(hash, EntryInputs(hash, one)), [other.manifest] + HashAll(hash, EntryInputs(hash, other));
    EncodingInjective(PORTABLE_PACKAGE, chunks, PORTABLE_PACKAGE, chunks');
    assert chunks[0] == chunks'[0] && chunks[1..] == chunks'[1..];
  }

  /** Equal digests: equal manifests, equal merged assets, and the same of the children at every path. */
  lemma {:induction false} DigestCommits(hash: Bytes -> Digest, one: AgentPackage, other: AgentPackage, inputs: set<Bytes>)
    requires PortableDigest(hash, one) == PortableDigest(hash, other)
    requires CollisionFree(hash, inputs) && Hashed(hash, one) <= inputs && Hashed(hash, other) <= inputs
    ensures Same(one, other)
    decreases one, 1
  {
    assert PackageInput(hash, one) in inputs && PackageInput(hash, other) in inputs;
    PackageInputDetermines(hash, one, other);
    HashAllInjective(hash, EntryInputs(hash, one), EntryInputs(hash, other), inputs);
    EntriesSplit(hash, Merged(one.prompts, one.skills), one.subagents, Merged(other.prompts, other.skills), other.subagents);
    ChildrenCommit(hash, one.subagents, other.subagents, inputs);
  }

  lemma {:induction false} ChildrenCommit(hash: Bytes -> Digest, one: Subagents, other: Subagents, inputs: set<Bytes>)
    requires ChildInputs(hash, one) == ChildInputs(hash, other)
    requires CollisionFree(hash, inputs) && HashedBelow(hash, one) <= inputs && HashedBelow(hash, other) <= inputs
    ensures SameChildren(one, other)
    decreases one, 0
  {
    var a, b := ChildInputs(hash, one), ChildInputs(hash, other);
    if one.Subagent? && other.Subagent? {
      assert a[0] == ChildInput(hash, one.path, one.child) && b[0] == ChildInput(hash, other.path, other.child);
      var x, y: seq<Chunk> := [one.path, PortableDigest(hash, one.child)], [other.path, PortableDigest(hash, other.child)];
      EncodingInjective(PORTABLE_CHILD, x, PORTABLE_CHILD, y);
      assert x[0] == y[0] && x[1] == y[1];
      DigestCommits(hash, one.child, other.child, inputs);
      assert a[1..] == ChildInputs(hash, one.rest) && b[1..] == ChildInputs(hash, other.rest);
      ChildrenCommit(hash, one.rest, other.rest, inputs);
    }
  }

  lemma {:induction false} SameHaveOneDigest(hash: Bytes -> Digest, one: AgentPackage, other: AgentPackage)
    requires Same(one, other)
    ensures PortableDigest(hash, one) == PortableDigest(hash, other)
    decreases one, 1
  {
    SameChildrenHaveOneInput(hash, one.subagents, other.subagents);
    assert EntryInputs(hash, one) == EntryInputs(hash, other);
    assert PackageInput(hash, one) == PackageInput(hash, other);
  }

  lemma {:induction false} SameChildrenHaveOneInput(hash: Bytes -> Digest, one: Subagents, other: Subagents)
    requires SameChildren(one, other)
    ensures ChildInputs(hash, one) == ChildInputs(hash, other)
    decreases one, 0
  {
    if one.Subagent? {
      SameHaveOneDigest(hash, one.child, other.child);
      SameChildrenHaveOneInput(hash, one.rest, other.rest);
    }
  }

  /** The portable digest is a Merkle commitment to the package tree. */
  lemma DigestIsCommitment(hash: Bytes -> Digest, one: AgentPackage, other: AgentPackage)
    requires CollisionFree(hash, Hashed(hash, one) + Hashed(hash, other))
    ensures PortableDigest(hash, one) == PortableDigest(hash, other) <==> Same(one, other)
  {
    if PortableDigest(hash, one) == PortableDigest(hash, other) {
      DigestCommits(hash, one, other, Hashed(hash, one) + Hashed(hash, other));
    }
    if Same(one, other) {
      SameHaveOneDigest(hash, one, other);
    }
  }
}
