/**
 Choosing one manifest of an OCI artifact index: `_filter_manifests` and the selection loop
 of `identify_specific_image` in `ironic/common/image_service.py`.
 */
module OciImages {
  import opened Wrappers
  import opened Strings

  datatype Layer = Layer(digest: Option<string>)

  /** The fields of a manifest that the selection looks at; `None` for an absent one. */
  datatype Manifest = Manifest(architecture: Option<string>, disktype: Option<string>,
                               artifactType: Option<string>, configMediaType: Option<string>,
                               digest: Option<string>, dockerDigest: Option<string>,
                               layers: seq<Layer>)

  /** The layers the registry answers with for a digest. */
  type Registry = Option<string> -> seq<Layer>

  const EMPTY_CONFIG := "application/vnd.oci.empty.v1+json"
  const MEDIA_OCI_MANIFEST_V1 := "application/vnd.oci.image.manifest.v1+json"

  /** Python's truth of an optional string. */
  predicate Given(o: Option<string>) {
    o.Some? && o.value != ""
  }

  // ---------------------------------------------------------------------------
  // Preferences
  // ---------------------------------------------------------------------------

  function PossibleArchitectures(cpuArch: string): set<string> {
    if cpuArch in {"x86_64", "amd64"} then {"x86_64", "amd64"}
    else if cpuArch in {"arm64", "aarch64"} then {"arm64", "aarch64"}
    else {cpuArch}
  }

  predicate Compatible(cpuArch: Option<string>, architecture: Option<string>) {
    Given(cpuArch) && Given(architecture) ==> architecture.value in PossibleArchitectures(cpuArch.value)
  }

  /** Small images first if the conductor serves them, raw ones first if the agent downloads. */
  function DiskPriority(source: Option<string>, disktype: Option<string>): Option<nat> {
    var local := source == Some("local");
    if disktype == Some("qcow2") then Some(if local then 1 else 3)
    else if disktype == Some("qemu") then Some(if local then 2 else 4)
    else if disktype == Some("raw") then Some(if local then 3 else 1)
    else if disktype == Some("applehv") then Some(if local then 4 else 2)
    else None
  }

  /** `None` for a disk type that is given but unknown. */
  function Priority(source: Option<string>, disktype: Option<string>): Option<nat> {
    if DiskPriority(source, disktype).Some? then DiskPriority(source, disktype)
    else if !Given(disktype) then Some(100)
    else None
  }

  function Normalized(disktype: Option<string>): Option<string> {
    if disktype == Some("applehv") then Some("raw")
    else if Given(disktype) && disktype != Some("raw") then Some("qcow2")
    else disktype
  }

  predicate IsOciArtifactImage(m: Manifest) {
    Given(m.artifactType) || m.configMediaType == Some(EMPTY_CONFIG)
  }

  function DigestOf(m: Manifest): Option<string> {
    if Given(m.digest) then m.digest else m.dockerDigest
  }

  function LayersOf(m: Manifest, registry: Registry): seq<Layer> {
    if m.layers != [] then m.layers else registry(DigestOf(m))
  }

  /** Without a disk type and not an artifact. */
  predicate IsBootc(m: Manifest) {
    !Given(m.disktype) && !IsOciArtifactImage(m)
  }

  // ---------------------------------------------------------------------------
  // What the choice should be
  // ---------------------------------------------------------------------------

  predicate Wanted(m: Manifest, source: Option<string>, cpuArch: Option<string>) {
    Compatible(cpuArch, m.architecture) && Priority(source, m.disktype).Some?
  }

  predicate Qualifies(ms: seq<Manifest>, source: Option<string>, cpuArch: Option<string>, i: int) {
    0 <= i < |ms| && Wanted(ms[i], source, cpuArch)
  }

  /** Better priority, or the same and earlier in the index. */
  predicate Before(ms: seq<Manifest>, source: Option<string>, i: int, j: int)
    requires 0 <= i < |ms| && Priority(source, ms[i].disktype).Some?
    requires 0 <= j < |ms| && Priority(source, ms[j].disktype).Some?
  {
    var p, q := Priority(source, ms[i].disktype).value, Priority(source, ms[j].disktype).value;
    p < q || (p == q && i < j)
  }

  /** Exactly the qualifying positions, best first. */
  ghost predicate Arranged(ms: seq<Manifest>, source: Option<string>, cpuArch: Option<string>, ps: seq<int>) {
    && (forall a :: 0 <= a < |ps| ==> Qualifies(ms, source, cpuArch, ps[a]))
    && (forall i :: Qualifies(ms, source, cpuArch, i) ==> i in ps)
    && (forall a, b :: 0 <= a < b < |ps| ==> Before(ms, source, ps[a], ps[b]))
  }

  predicate Acceptable(m: Manifest, registry: Registry) {
    IsBootc(m) || |LayersOf(m, registry)| == 1
  }

  predicate Eligible(ms: seq<Manifest>, registry: Registry, source: Option<string>, cpuArch: Option<string>, i: int) {
    Qualifies(ms, source, cpuArch, i) && Acceptable(ms[i], registry)
  }

  predicate IsBest(ms: seq<Manifest>, registry: Registry, source: Option<string>, cpuArch: Option<string>, i: int) {
    Eligible(ms, registry, source, cpuArch, i) &&
    forall j :: 0 <= j < |ms| && j != i && Eligible(ms, registry, source, cpuArch, j) ==> Before(ms, source, i, j)
  }

  /** The second field of `algorithm:hex`; there may be none. */
  function Checksum(digest: Option<string>): Option<string> {
    if digest.None? then None
    else
      var rest := AfterColon(digest.value);
      if rest.None? then None else Some(BeforeColon(rest.value))
  }

  function AfterColon(s: string): Option<string> {
    if s == "" then None else if s[0] == ':' then Some(s[1..]) else AfterColon(s[1..])
  }

  function BeforeColon(s: string): string {
    if s == "" || s[0] == ':' then "" else [s[0]] + BeforeColon(s[1..])
  }

  datatype Choice =
    | Chosen(bootc: bool, diskFormat: Option<string>, checksum: string, manifestDigest: Option<string>)
    | BadDigest
    | NothingFound
    | InvalidImageRef
    | InvalidParameterValue

  /** What is reported for the chosen manifest; a digest without a second field is an error. */
  function Report(m: Manifest, registry: Registry): Choice
    requires Acceptable(m, registry)
  {
    var checksum := Checksum(if IsBootc(m) then DigestOf(m) else LayersOf(m, registry)[0].digest);
    if checksum.None? then BadDigest
    else Chosen(IsBootc(m), if IsBootc(m) then Some("bootc") else Normalized(m.disktype),
                checksum.value, DigestOf(m))
  }

  /** Nothing if nothing is eligible, and otherwise the report on the best manifest. */
  ghost predicate Identified(ms: seq<Manifest>, registry: Registry, source: Option<string>,
                             cpuArch: Option<string>, r: Choice)
  {
    && (r.Chosen? || r.BadDigest? || r.NothingFound?)
    && (r.NothingFound? <==> forall i :: !Eligible(ms, registry, source, cpuArch, i))
    && (!r.NothingFound? ==> exists i :: IsBest(ms, registry, source, cpuArch, i) && r == Report(ms[i], registry))
  }

  // ---------------------------------------------------------------------------
  // The code
  // ---------------------------------------------------------------------------

  /** A manifest dictionary, with the two keys that the filter writes into it. */
  class ManifestEntry {
    const info: Manifest
    var priority: nat
    var diskType: Option<string>

    constructor (info: Manifest)
      ensures this.info == info
    {
      this.info, priority, diskType := info, 0, None;
    }
  }

  function Infos(entries: seq<ManifestEntry>): seq<Manifest> {
    seq(|entries|, i requires 0 <= i < |entries| => entries[i].info)
  }

  predicate Within(positions: seq<int>, n: int) {
    forall a :: 0 <= a < |positions| ==> 0 <= positions[a] < n
  }

  /** Where a new position goes in a stable sort by key: after all with a key no greater. */
  function Insert(sorted: seq<int>, keys: seq<nat>, i: int): seq<int>
    requires 0 <= i < |keys| && Within(sorted, |keys|)
  {
    if sorted != [] && keys[sorted[|sorted| - 1]] > keys[i]
    then Insert(sorted[..|sorted| - 1], keys, i) + [sorted[|sorted| - 1]]
    else sorted + [i]
  }

  predicate KeyBefore(keys: seq<nat>, i: int, j: int)
    requires 0 <= i < |keys| && 0 <= j < |keys|
  {
    keys[i] < keys[j] || (keys[i] == keys[j] && i < j)
  }

  predicate StablySorted(sorted: seq<int>, keys: seq<nat>) {
    Within(sorted, |keys|) &&
    forall a, b :: 0 <= a < b < |sorted| ==> KeyBefore(keys, sorted[a], sorted[b])
  }

  lemma AppendSorted(sorted: seq<int>, keys: seq<nat>, last: int)
    requires StablySorted(sorted, keys) && 0 <= last < |keys|
    requires forall p :: p in sorted ==> KeyBefore(keys, p, last)
    ensures StablySorted(sorted + [last], keys)
    ensures forall p :: p in sorted + [last] <==> p in sorted || p == last
  {
    forall a | 0 <= a < |sorted| ensures KeyBefore(keys, sorted[a], last) {
      assert sorted[a] in sorted;
    }
  }

  /** Of a sorted list, everything before the last comes before the last. */
  lemma LastIsLast(front: seq<int>, last: int, keys: seq<nat>)
    requires StablySorted(front + [last], keys)
    ensures StablySorted(front, keys) && 0 <= last < |keys|
    ensures forall p :: p in front ==> 0 <= p < |keys| && KeyBefore(keys, p, last)
  {
    var all := front + [last];
    assert all[|front|] == last;
    assert forall a :: 0 <= a < |front| ==> all[a] == front[a];
    forall p | p in front ensures 0 <= p < |keys| && KeyBefore(keys, p, last) {
      var a :| 0 <= a < |front| && front[a] == p;
      assert KeyBefore(keys, all[a], all[|front|]);
    }
  }

  lemma {:induction false} InsertKeepsSorted(sorted: seq<int>, keys: seq<nat>, i: int)
    requires StablySorted(sorted, keys) && 0 <= i < |keys| && Within(sorted, i)
    ensures forall p :: p in Insert(sorted, keys, i) <==> p == i || p in sorted
    ensures StablySorted(Insert(sorted, keys, i), keys)
  {
    if sorted == [] {
    } else {
      var front, last := sorted[..|sorted| - 1], sorted[|sorted| - 1];
      assert sorted == front + [last];
      LastIsLast(front, last, keys);
      if keys[last] > keys[i] {
        InsertKeepsSorted(front, keys, i);
        AppendSorted(Insert(front, keys, i), keys, last);
      } else {
        AppendSorted(sorted, keys, i);
      }
    }
  }

  /** Python's `sorted`: the positions in the order of their keys, equal keys as they were. */
  method SortedPositions(keys: seq<nat>) returns (order: seq<int>)
    ensures StablySorted(order, keys) && forall i :: 0 <= i < |keys| <==> i in order
  {
    order := [];
    for i := 0 to |keys|
      invariant StablySorted(order, keys) && forall p :: 0 <= p < i <==> p in order
    {
      forall a | 0 <= a < |order| ensures 0 <= order[a] < i {
        assert order[a] in order;
      }
      InsertKeepsSorted(order, keys, i);
      order := Insert(order, keys, i);
    }
  }

  /** One manifest: kept with its priority and normalized disk type, or passed over. */
  method Classify(manifest: ManifestEntry, source: Option<string>, cpuArch: Option<string>) returns (keep: bool)
    modifies manifest
    ensures keep <==> Wanted(manifest.info, source, cpuArch)
    ensures keep ==> Marked(manifest, source)
    ensures !keep ==> manifest.priority == old(manifest.priority) && manifest.diskType == old(manifest.diskType)
  {
    if !Compatible(cpuArch, manifest.info.architecture) {
      return false;
    }
    var disktype := manifest.info.disktype;
    if DiskPriority(source, disktype).Some? {
      manifest.priority := DiskPriority(source, disktype).value;
    } else if !Given(disktype) {
      manifest.priority := 100;
    } else {
      return false;
    }
    if disktype == Some("applehv") {
      disktype := Some("raw");
    } else if Given(disktype) && disktype != Some("raw") {
      disktype := Some("qcow2");
    }
    manifest.diskType := disktype;
    return true;
  }

  /** The qualifying positions below `n` in ascending order, and their priorities. */
  ghost predicate KeptBelow(ms: seq<Manifest>, source: Option<string>, cpuArch: Option<string>,
                            kept: seq<int>, keys: seq<nat>, n: int) {
    && |keys| == |kept|
    && (forall a :: 0 <= a < |kept| ==>
          kept[a] < n && Qualifies(ms, source, cpuArch, kept[a])
          && keys[a] == Priority(source, ms[kept[a]].disktype).value)
    && (forall a, b :: 0 <= a < b < |kept| ==> kept[a] < kept[b])
    && (forall i :: i < n && Qualifies(ms, source, cpuArch, i) ==> i in kept)
  }

  lemma Rearranged(ms: seq<Manifest>, source: Option<string>, cpuArch: Option<string>,
                   kept: seq<int>, keys: seq<nat>, order: seq<int>) returns (positions: seq<int>)
    requires KeptBelow(ms, source, cpuArch, kept, keys, |ms|)
    requires StablySorted(order, keys) && forall i :: 0 <= i < |keys| <==> i in order
    ensures |positions| == |order| && forall a :: 0 <= a < |order| ==> positions[a] == kept[order[a]]
    ensures Arranged(ms, source, cpuArch, positions)
  {
    positions := seq(|order|, a requires 0 <= a < |order| => kept[order[a]]);
    forall i | Qualifies(ms, source, cpuArch, i) ensures i in positions {
      var k :| 0 <= k < |kept| && kept[k] == i;
      assert k in order;
      var a :| 0 <= a < |order| && order[a] == k;
      assert positions[a] == i;
    }
    forall a, b | 0 <= a < b < |positions| ensures Before(ms, source, positions[a], positions[b]) {
      assert KeyBefore(keys, order[a], order[b]);
    }
  }

  /** The manifest carries what is written into a kept one. */
  ghost predicate Marked(manifest: ManifestEntry, source: Option<string>)
    reads manifest
  {
    Priority(source, manifest.info.disktype) == Some(manifest.priority)
    && manifest.diskType == Normalized(manifest.info.disktype)
  }

  ghost predicate AllMarked(manifests: seq<ManifestEntry>, source: Option<string>, cpuArch: Option<string>, n: int)
    reads manifests
  {
    forall i :: 0 <= i < n <= |manifests| && Wanted(manifests[i].info, source, cpuArch) ==>
      Marked(manifests[i], source)
  }

  lemma KeepOne(ms: seq<Manifest>, source: Option<string>, cpuArch: Option<string>,
                kept: seq<int>, keys: seq<nat>, n: int, keep: bool)
    requires KeptBelow(ms, source, cpuArch, kept, keys, n) && 0 <= n < |ms|
    requires keep <==> Wanted(ms[n], source, cpuArch)
    ensures if keep then
              KeptBelow(ms, source, cpuArch, kept + [n], keys + [Priority(source, ms[n].disktype).value], n + 1)
            else
              KeptBelow(ms, source, cpuArch, kept, keys, n + 1)
  {
    forall i | i < n + 1 && Qualifies(ms, source, cpuArch, i) ensures i in kept + [n] && (i < n ==> i in kept) {
      if i == n {
        assert (kept + [n])[|kept|] == n;
      }
    }
  }

  method FilterManifests(manifests: seq<ManifestEntry>, source: Option<string>, cpuArch: Option<string>)
    returns (sorted: seq<ManifestEntry>, ghost positions: seq<int>)
    modifies manifests
    ensures Arranged(Infos(manifests), source, cpuArch, positions) && |sorted| == |positions|
    ensures forall a :: 0 <= a < |sorted| ==> sorted[a] == manifests[positions[a]]
    ensures AllMarked(manifests, source, cpuArch, |manifests|)
  {
    ghost var ms := Infos(manifests);
    var newManifests: seq<ManifestEntry> := [];
    var keys: seq<nat> := [];
    ghost var kept: seq<int> := [];
    for n := 0 to |manifests|
      invariant KeptBelow(ms, source, cpuArch, kept, keys, n) && |newManifests| == |kept|
      invariant forall a :: 0 <= a < |kept| ==> newManifests[a] == manifests[kept[a]]
      invariant AllMarked(manifests, source, cpuArch, n)
    {
      var manifest := manifests[n];
      var keep := Classify(manifest, source, cpuArch);
      KeepOne(ms, source, cpuArch, kept, keys, n, keep);
      if keep {
        newManifests := newManifests + [manifest];
        keys := keys + [manifest.priority];
        kept := kept + [n];
      }
    }
    var order := SortedPositions(keys);
    sorted := seq(|order|, a requires 0 <= a < |order| => newManifests[order[a]]);
    positions := Rearranged(ms, source, cpuArch, kept, keys, order);
  }

  method IdentifySpecificImage(manifests: seq<ManifestEntry>, registry: Registry,
                               source: Option<string>, cpuArch: Option<string>)
    returns (r: Choice)
    modifies manifests
    ensures Identified(Infos(manifests), registry, source, cpuArch, r)
  {
    ghost var ms := Infos(manifests);
    var sortedManifests;
    ghost var positions;
    sortedManifests, positions := FilterManifests(manifests, source, cpuArch);
    for n := 0 to |sortedManifests|
      invariant forall a :: 0 <= a < n ==> !Acceptable(ms[positions[a]], registry)
    {
      var manifest := sortedManifests[n];
      var disktype := manifest.diskType;
      if !Given(disktype) && !IsOciArtifactImage(manifest.info) {
        disktype := Some("bootc");
      }
      var digest := if Given(manifest.info.digest) then manifest.info.digest else manifest.info.dockerDigest;
      var layers := manifest.info.layers;
      if layers == [] {
        layers := registry(digest);
      }
      if |layers| != 1 && disktype != Some("bootc") {
        continue;
      }
      FirstIsBest(ms, registry, source, cpuArch, positions, n);
      var checksum := Checksum(if disktype == Some("bootc") then digest else layers[0].digest);
      if checksum.None? {
        return BadDigest;
      }
      return Chosen(disktype == Some("bootc"), disktype, checksum.value, digest);
    }
    return NothingFound;
  }

  lemma FirstIsBest(ms: seq<Manifest>, registry: Registry, source: Option<string>, cpuArch: Option<string>,
                    positions: seq<int>, n: int)
    requires Arranged(ms, source, cpuArch, positions) && 0 <= n < |positions|
    requires forall a :: 0 <= a < n ==> !Acceptable(ms[positions[a]], registry)
    requires Acceptable(ms[positions[n]], registry)
    ensures IsBest(ms, registry, source, cpuArch, positions[n])
  {
    forall j | 0 <= j < |ms| && j != positions[n] && Eligible(ms, registry, source, cpuArch, j)
      ensures Before(ms, source, positions[n], j)
    {
      var b :| 0 <= b < |positions| && positions[b] == j;
      assert b > n;
    }
  }

  /** From the index on: a lone manifest is its own list, and a download through swift is refused. */
  method IdentifyFromIndex(manifests: seq<ManifestEntry>, mediaType: Option<string>, index: ManifestEntry,
                           registry: Registry, source: Option<string>, cpuArch: Option<string>)
    returns (r: Choice)
    modifies manifests, index
    ensures r == InvalidImageRef <==> manifests == [] && mediaType != Some("application/vnd.oci.image.manifest.v1+json")
    ensures r == InvalidParameterValue <==> r != InvalidImageRef && source == Some("swift")
    ensures r != InvalidImageRef && r != InvalidParameterValue ==>
              Identified(Infos(if manifests == [] then [index] else manifests), registry, source, cpuArch, r)
  {
    var considered := manifests;
    if |manifests| < 1 {
      if mediaType != Some(MEDIA_OCI_MANIFEST_V1) {
        return InvalidImageRef;
      }
      considered := [index];
    }
    if source == Some("swift") {
      return InvalidParameterValue;
    }
    r := IdentifySpecificImage(considered, registry, source, cpuArch);
  }

  // ---------------------------------------------------------------------------
  // Properties of the choice
  // ---------------------------------------------------------------------------

  lemma BestIsUnique(ms: seq<Manifest>, registry: Registry, source: Option<string>,
                     cpuArch: Option<string>, i: int, j: int)
    requires IsBest(ms, registry, source, cpuArch, i) && IsBest(ms, registry, source, cpuArch, j)
    ensures i == j
  {
  }

  /** There is a best manifest whenever any is eligible. */
  lemma {:induction false} BestExists(ms: seq<Manifest>, registry: Registry, source: Option<string>,
                                      cpuArch: Option<string>, i: int, n: int) returns (best: int)
    requires Eligible(ms, registry, source, cpuArch, i) && 0 <= n <= |ms|
    ensures Eligible(ms, registry, source, cpuArch, best)
    ensures best == i || Before(ms, source, best, i)
    ensures forall j :: 0 <= j < n && j != best && Eligible(ms, registry, source, cpuArch, j) ==>
              Before(ms, source, best, j)
  {
    if n == 0 {
      best := i;
    } else {
      best := BestExists(ms, registry, source, cpuArch, i, n - 1);
      if best != n - 1 && Eligible(ms, registry, source, cpuArch, n - 1) && !Before(ms, source, best, n - 1) {
        best := n - 1;
      }
    }
  }

  lemma BestHasLeastPriority(ms: seq<Manifest>, registry: Registry, source: Option<string>,
                             cpuArch: Option<string>, i: int)
    requires IsBest(ms, registry, source, cpuArch, i)
    ensures forall j :: Eligible(ms, registry, source, cpuArch, j) ==>
              Priority(source, ms[i].disktype).value <= Priority(source, ms[j].disktype).value
  {
  }

  /** A bootc image is chosen only for want of a disk image. */
  lemma BootcIsLastResort(ms: seq<Manifest>, registry: Registry, source: Option<string>,
                          cpuArch: Option<string>, i: int)
    requires IsBest(ms, registry, source, cpuArch, i) && IsBootc(ms[i])
    ensures forall j :: Qualifies(ms, source, cpuArch, j) && DiskPriority(source, ms[j].disktype).Some? ==>
              |LayersOf(ms[j], registry)| != 1
  {
    BestHasLeastPriority(ms, registry, source, cpuArch, i);
    forall j | Qualifies(ms, source, cpuArch, j) && |LayersOf(ms[j], registry)| == 1
      ensures DiskPriority(source, ms[j].disktype).None?
    {
      assert Eligible(ms, registry, source, cpuArch, j);
    }
  }

  /**
   Served by the conductor, an uncompressed image is chosen only for want of a compressed one;
   downloaded by the agent, the other way round.
   */
  lemma FormatPreferred(ms: seq<Manifest>, registry: Registry, source: Option<string>,
                        cpuArch: Option<string>, i: int, j: int)
    requires IsBest(ms, registry, source, cpuArch, i) && Eligible(ms, registry, source, cpuArch, j)
    requires Given(ms[i].disktype) && Given(ms[j].disktype)
    ensures source == Some("local") && Normalized(ms[i].disktype) == Some("raw") ==>
              Normalized(ms[j].disktype) == Some("raw")
    ensures source != Some("local") && Normalized(ms[i].disktype) == Some("qcow2") ==>
              Normalized(ms[j].disktype) == Some("qcow2")
  {
    BestHasLeastPriority(ms, registry, source, cpuArch, i);
  }

  // ---------------------------------------------------------------------------
  // Who is eligible, who is best and what is reported, without the definitions
  // ---------------------------------------------------------------------------

  predicate OneMachine(a: string, b: string) {
    || a == b
    || ((a == "x86_64" || a == "amd64") && (b == "x86_64" || b == "amd64"))
    || ((a == "arm64" || a == "aarch64") && (b == "arm64" || b == "aarch64"))
  }

  predicate Blank(o: Option<string>) {
    o == None || o == Some("")
  }

  function Digest(m: Manifest): Option<string> {
    if m.digest == None || m.digest == Some("") then m.dockerDigest else m.digest
  }

  function ImageLayers(m: Manifest, registry: Registry): seq<Layer> {
    if m.layers == [] then registry(Digest(m)) else m.layers
  }

  /** A container image: no disk type, no artifact type and a configuration that is not empty. */
  predicate ContainerImage(m: Manifest) {
    && (m.disktype == None || m.disktype == Some(""))
    && (m.artifactType == None || m.artifactType == Some(""))
    && m.configMediaType != Some("application/vnd.oci.empty.v1+json")
  }

  lemma CompatibleExactly(cpuArch: Option<string>, architecture: Option<string>)
    ensures Compatible(cpuArch, architecture) <==>
              || cpuArch == None || cpuArch == Some("") || architecture == None || architecture == Some("")
              || OneMachine(cpuArch.value, architecture.value)
  {
  }

  /** Of the node's architecture, of a disk type that is known or absent, and a container image or of one layer. */
  lemma EligibleExactly(ms: seq<Manifest>, registry: Registry, source: Option<string>,
                        cpuArch: Option<string>, i: int)
    ensures Eligible(ms, registry, source, cpuArch, i) <==>
              && 0 <= i < |ms|
              && (Blank(cpuArch) || Blank(ms[i].architecture) || OneMachine(cpuArch.value, ms[i].architecture.value))
              && (|| Blank(ms[i].disktype)
                  || ms[i].disktype == Some("qcow2") || ms[i].disktype == Some("qemu")
                  || ms[i].disktype == Some("raw") || ms[i].disktype == Some("applehv"))
              && (ContainerImage(ms[i]) || |ImageLayers(ms[i], registry)| == 1)
  {
    if 0 <= i < |ms| {
      CompatibleExactly(cpuArch, ms[i].architecture);
    }
  }

  /** Best first: small images if the conductor serves them, raw ones if the agent downloads. */
  function FormatOrder(source: Option<string>): seq<string> {
    if source == Some("local") then ["qcow2", "qemu", "raw", "applehv"] else ["raw", "applehv", "qcow2", "qemu"]
  }

  lemma PriorityExactly(source: Option<string>, disktype: Option<string>)
    ensures forall k :: 0 <= k < 4 ==>
              (Priority(source, disktype) == Some(k + 1) <==> disktype == Some(FormatOrder(source)[k]))
    ensures Priority(source, disktype) == Some(100) <==> Blank(disktype)
    ensures Priority(source, disktype).Some? <==>
              Blank(disktype) || exists k :: 0 <= k < 4 && disktype == Some(FormatOrder(source)[k])
  {
    var order := FormatOrder(source);
    if DiskPriority(source, disktype).Some? {
      var k := DiskPriority(source, disktype).value - 1;
      assert 0 <= k < 4 && disktype == Some(order[k]);
    }
  }

  /** Of the first format that any eligible manifest has, the first; without a format only if none has any. */
  ghost predicate FirstOfFormat(ms: seq<Manifest>, registry: Registry, source: Option<string>,
                                cpuArch: Option<string>, i: int)
  {
    var order := FormatOrder(source);
    && Eligible(ms, registry, source, cpuArch, i)
    && if Blank(ms[i].disktype) then
         forall j :: Eligible(ms, registry, source, cpuArch, j) ==> Blank(ms[j].disktype) && i <= j
       else
         exists k :: 0 <= k < 4 && ms[i].disktype == Some(order[k]) && NoneBefore(ms, registry, source, cpuArch, i, k)
  }

  ghost predicate NoneBefore(ms: seq<Manifest>, registry: Registry, source: Option<string>,
                             cpuArch: Option<string>, i: int, k: int)
    requires 0 <= k < 4
  {
    var order := FormatOrder(source);
    forall j :: Eligible(ms, registry, source, cpuArch, j) ==>
      && (forall l :: 0 <= l < k ==> ms[j].disktype != Some(order[l]))
      && (ms[j].disktype == Some(order[k]) ==> i <= j)
  }

  lemma BeforeExactly(ms: seq<Manifest>, source: Option<string>, i: int, j: int, k: int)
    requires 0 <= i < |ms| && 0 <= j < |ms| && i != j && 0 <= k < 4
    requires ms[i].disktype == Some(FormatOrder(source)[k]) && Priority(source, ms[j].disktype).Some?
    ensures Priority(source, ms[i].disktype).Some?
    ensures Before(ms, source, i, j) <==>
              && (forall l :: 0 <= l < k ==> ms[j].disktype != Some(FormatOrder(source)[l]))
              && (ms[j].disktype == Some(FormatOrder(source)[k]) ==> i <= j)
  {
    PriorityExactly(source, ms[i].disktype);
    PriorityExactly(source, ms[j].disktype);
  }

  lemma BlankBefore(ms: seq<Manifest>, source: Option<string>, i: int, j: int)
    requires 0 <= i < |ms| && 0 <= j < |ms| && i != j
    requires Blank(ms[i].disktype) && Priority(source, ms[j].disktype).Some?
    ensures Priority(source, ms[i].disktype).Some?
    ensures Before(ms, source, i, j) <==> Blank(ms[j].disktype) && i <= j
  {
    PriorityExactly(source, ms[i].disktype);
    PriorityExactly(source, ms[j].disktype);
  }

  lemma BestByFormat(ms: seq<Manifest>, registry: Registry, source: Option<string>, cpuArch: Option<string>, i: int)
    ensures IsBest(ms, registry, source, cpuArch, i) <==> FirstOfFormat(ms, registry, source, cpuArch, i)
  {
    if Eligible(ms, registry, source, cpuArch, i) {
      PriorityExactly(source, ms[i].disktype);
      if Blank(ms[i].disktype) {
        forall j | Eligible(ms, registry, source, cpuArch, j) && j != i
          ensures Before(ms, source, i, j) <==> Blank(ms[j].disktype) && i <= j
        {
          BlankBefore(ms, source, i, j);
        }
      } else {
        var k :| 0 <= k < 4 && ms[i].disktype == Some(FormatOrder(source)[k]);
        BestAmong(ms, registry, source, cpuArch, i, k);
      }
    }
  }

  lemma BestAmong(ms: seq<Manifest>, registry: Registry, source: Option<string>, cpuArch: Option<string>,
                  i: int, k: int)
    requires Eligible(ms, registry, source, cpuArch, i) && 0 <= k < 4
    requires ms[i].disktype == Some(FormatOrder(source)[k])
    ensures IsBest(ms, registry, source, cpuArch, i) <==> NoneBefore(ms, registry, source, cpuArch, i, k)
    ensures forall l :: 0 <= l < 4 && ms[i].disktype == Some(FormatOrder(source)[l]) ==> l == k
  {
    PriorityExactly(source, ms[i].disktype);
    forall j | Eligible(ms, registry, source, cpuArch, j) && j != i
      ensures Before(ms, source, i, j) <==>
                && (forall l :: 0 <= l < k ==> ms[j].disktype != Some(FormatOrder(source)[l]))
                && (ms[j].disktype == Some(FormatOrder(source)[k]) ==> i <= j)
    {
      BeforeExactly(ms, source, i, j, k);
    }
  }

  lemma {:induction false} BeforeColonExactly(s: string) returns (rest: string)
    ensures s == BeforeColon(s) + rest && ':' !in BeforeColon(s) && (rest == "" || rest[0] == ':')
  {
    if s == "" || s[0] == ':' {
      rest := s;
    } else {
      rest := BeforeColonExactly(s[1..]);
      OneMoreBefore(s[0], BeforeColon(s[1..]), rest);
      assert s == [s[0]] + s[1..] && BeforeColon(s) == [s[0]] + BeforeColon(s[1..]);
    }
  }

  lemma {:induction false} AfterColonExactly(s: string) returns (a: string)
    ensures AfterColon(s).None? <==> ':' !in s
    ensures AfterColon(s).Some? ==> s == a + ":" + AfterColon(s).value && ':' !in a
  {
    if s == "" || s[0] == ':' {
      a := "";
    } else {
      var rest := AfterColonExactly(s[1..]);
      a := [s[0]] + rest;
      if AfterColon(s).Some? {
        OneMoreBefore(s[0], rest + ":", AfterColon(s).value);
        OneMoreBefore(s[0], rest, ":");
      }
      assert s == [s[0]] + s[1..];
    }
  }

  predicate CutAt(digest: string, a: string, sum: string, rest: string) {
    digest == a + ":" + sum + rest && ':' !in a && ':' !in sum && (rest == "" || rest[0] == ':')
  }

  /** `sum` stands between the first colon and the next, or the end. */
  ghost predicate SecondField(digest: string, sum: string) {
    exists a, rest :: CutAt(digest, a, sum, rest)
  }

  lemma ChecksumCut(digest: string)
    requires AfterColon(digest).Some?
    ensures SecondField(digest, BeforeColon(AfterColon(digest).value))
  {
    var a := AfterColonExactly(digest);
    var rest := BeforeColonExactly(AfterColon(digest).value);
    var sum := BeforeColon(AfterColon(digest).value);
    assert a + ":" + (sum + rest) == a + ":" + sum + rest;
    assert CutAt(digest, a, sum, rest);
  }

  lemma ChecksumExactly(digest: Option<string>)
    ensures Checksum(digest).None? <==> digest == None || ':' !in digest.value
    ensures Checksum(digest).Some? ==> SecondField(digest.value, Checksum(digest).value)
  {
    if digest.Some? {
      var a := AfterColonExactly(digest.value);
      if AfterColon(digest.value).Some? {
        ChecksumCut(digest.value);
      }
    }
  }

  /** Format, checksum and digest that are reported; the checksum is the manifest's own for a container image. */
  lemma ReportExactly(m: Manifest, registry: Registry)
    requires ContainerImage(m) || |ImageLayers(m, registry)| == 1
    ensures Acceptable(m, registry)
    ensures var d := if ContainerImage(m) then Digest(m) else ImageLayers(m, registry)[0].digest;
            var r := Report(m, registry);
            && (r == BadDigest <==> d == None || ':' !in d.value)
            && (r != BadDigest ==>
                  && r.Chosen? && SecondField(d.value, r.checksum) && r.manifestDigest == Digest(m)
                  && (r.bootc <==> ContainerImage(m))
                  && (ContainerImage(m) ==> r.diskFormat == Some("bootc"))
                  && (m.disktype == Some("raw") || m.disktype == Some("applehv") ==> r.diskFormat == Some("raw"))
                  && (m.disktype == Some("qcow2") || m.disktype == Some("qemu") ==> r.diskFormat == Some("qcow2"))
                  && (Blank(m.disktype) && !ContainerImage(m) ==> r.diskFormat == m.disktype))
  {
    ChecksumExactly(if ContainerImage(m) then Digest(m) else ImageLayers(m, registry)[0].digest);
  }

  /** The other name of an architecture. */
  function Alias(arch: string): string {
    if arch == "x86_64" then "amd64"
    else if arch == "amd64" then "x86_64"
    else if arch == "arm64" then "aarch64"
    else if arch == "aarch64" then "arm64"
    else arch
  }

  function AliasOf(arch: Option<string>): Option<string> {
    if arch.None? then None else Some(Alias(arch.value))
  }

  lemma CompatibleUnderAlias(cpuArch: Option<string>, architecture: Option<string>)
    ensures Compatible(AliasOf(cpuArch), architecture) <==> Compatible(cpuArch, architecture)
    ensures Compatible(cpuArch, AliasOf(architecture)) <==> Compatible(cpuArch, architecture)
  {
  }

  /** The same index with any of its architectures under their other names. */
  predicate SameButAliases(ms: seq<Manifest>, ms': seq<Manifest>) {
    |ms'| == |ms| && forall i :: 0 <= i < |ms| ==>
      ms'[i].architecture in {ms[i].architecture, AliasOf(ms[i].architecture)}
      && ms'[i] == ms[i].(architecture := ms'[i].architecture)
  }

  /** Neither the node nor the registry need care which name of an architecture is used. */
  lemma AliasesChangeNothing(ms: seq<Manifest>, ms': seq<Manifest>, registry: Registry, source: Option<string>,
                             cpuArch: Option<string>, i: int)
    requires SameButAliases(ms, ms')
    ensures IsBest(ms', registry, source, AliasOf(cpuArch), i) <==> IsBest(ms, registry, source, cpuArch, i)
    ensures IsBest(ms', registry, source, cpuArch, i) <==> IsBest(ms, registry, source, cpuArch, i)
    ensures IsBest(ms, registry, source, cpuArch, i) ==> Report(ms'[i], registry) == Report(ms[i], registry)
  {
    forall j | 0 <= j < |ms|
      ensures Eligible(ms', registry, source, cpuArch, j) <==> Eligible(ms, registry, source, cpuArch, j)
      ensures Eligible(ms', registry, source, AliasOf(cpuArch), j) <==> Eligible(ms, registry, source, cpuArch, j)
    {
      CompatibleUnderAlias(cpuArch, ms[j].architecture);
      CompatibleUnderAlias(cpuArch, ms'[j].architecture);
    }
  }
}
