/** `_validate_vm_create_storage_profile`: classify the image argument as a VHD
    URI, a `publisher:offer:sku:version` URN or a catalog alias, and infer the
    OS type from the offer. */
module ImageResolver {
  import opened Results
  import opened Text
  import opened Seqs
  import opened Types
  import opened Oracles

  datatype Urn = Urn(publisher: string, offer: string, sku: string, version: string)

  function Fields(u: Urn): seq<string> {
    [u.publisher, u.offer, u.sku, u.version]
  }

  function JoinUrn(u: Urn): string {
    u.publisher + ":" + u.offer + ":" + u.sku + ":" + u.version
  }

  /** An image naming a VHD blob: its lower-cased form ends in `.vhd`. */
  predicate IsVhd(image: string) {
    EndsWith(Lower(image), ".vhd")
  }

  /** `re.match('([^:]*):([^:]*):([^:]*):([^:]*)', image)`: four greedy
      colon-free groups separated by colons, anchored at the start only. */
  function MatchUrn(image: string): Option<Urn> {
    var (publisher, r1) := Segment(image);
    if r1 == [] then None
    else
      var (offer, r2) := Segment(r1[1..]);
      if r2 == [] then None
      else
        var (sku, r3) := Segment(r2[1..]);
        if r3 == [] then None
        else
          var (version, _) := Segment(r3[1..]);
          Some(Urn(publisher, offer, sku, version))
  }

  /** The pattern matches exactly when the image has at least three colons, and
      the groups are then the first four pieces of `image.split(':')`; whatever
      follows a fourth colon is ignored. */
  lemma {:induction false} MatchUrnFirstFourPieces(image: string)
    ensures MatchUrn(image).Some? <==> ColonCount(image) >= 3
    ensures MatchUrn(image).Some? ==> Fields(MatchUrn(image).value) == Split(image)[..4]
  {
    var (publisher, r1) := Segment(image);
    SplitBySegment(image);
    if r1 != [] {
      var (offer, r2) := Segment(r1[1..]);
      SplitBySegment(r1[1..]);
      if r2 != [] {
        var (sku, r3) := Segment(r2[1..]);
        SplitBySegment(r2[1..]);
        if r3 != [] {
          SplitBySegment(r3[1..]);
        }
      }
    }
  }

  /** Parsing a joined URN, followed by nothing or by further colon-separated
      text, gives back its four fields. */
  lemma {:induction false} MatchUrnOfJoin(u: Urn, tail: string)
    requires ':' !in u.publisher && ':' !in u.offer && ':' !in u.sku && ':' !in u.version
    requires tail == [] || tail[0] == ':'
    ensures MatchUrn(JoinUrn(u) + tail) == Some(u)
  {
    var t3 := [':'] + (u.version + tail);
    var t2 := [':'] + (u.sku + t3);
    var t1 := [':'] + (u.offer + t2);
    var image := JoinUrn(u) + tail;
    assert image == u.publisher + t1;
    SegmentOfWord(u.publisher, t1);
    assert Segment(image) == (u.publisher, t1);
    assert t1[1..] == u.offer + t2;
    SegmentOfWord(u.offer, t2);
    assert Segment(t1[1..]) == (u.offer, t2);
    assert t2[1..] == u.sku + t3;
    SegmentOfWord(u.sku, t3);
    assert Segment(t2[1..]) == (u.sku, t3);
    assert t3[1..] == u.version + tail;
    SegmentOfWord(u.version, tail);
    assert Segment(t3[1..]) == (u.version, tail);
  }

  predicate AliasMatches(a: ImageAlias, image: string) {
    Lower(a.urnAlias) == Lower(image)
  }

  /** Entry `i` is the first catalog entry whose alias matches `image`. */
  predicate FirstAliasMatch(catalog: seq<ImageAlias>, image: string, i: int) {
    && 0 <= i < |catalog|
    && AliasMatches(catalog[i], image)
    && forall j :: 0 <= j < i ==> !AliasMatches(catalog[j], image)
  }

  /** `[x['urnAlias'] for x in images]`, listed in the error message. */
  function AliasNames(catalog: seq<ImageAlias>): (names: seq<string>)
    ensures |names| == |catalog|
    ensures forall i :: 0 <= i < |catalog| ==> names[i] == catalog[i].urnAlias
  {
    if catalog == [] then [] else [catalog[0].urnAlias] + AliasNames(catalog[1..])
  }

  /** The first alias matching case-insensitively, or an error listing every
      alias of the catalog. */
  function LookupAlias(catalog: seq<ImageAlias>, image: string): (r: Result<Urn, Error>)
    ensures r.Ok? <==> exists i :: 0 <= i < |catalog| && AliasMatches(catalog[i], image)
    ensures r.Ok? ==>
      exists i :: FirstAliasMatch(catalog, image, i) &&
                  r.value == Urn(catalog[i].publisher, catalog[i].offer, catalog[i].sku, catalog[i].version)
    ensures r.Err? ==> r.error == InvalidImage(image, AliasNames(catalog))
  {
    match FirstIndex(catalog, a => AliasMatches(a, image))
    case None => Err(InvalidImage(image, AliasNames(catalog)))
    case Some(i) =>
      var a := catalog[i];
      assert FirstAliasMatch(catalog, image, i);
      Ok(Urn(a.publisher, a.offer, a.sku, a.version))
  }

  /** `'windows'` when the lower-cased offer contains `windows`, else `'linux'`. */
  function InferOsType(offer: string): (os: string)
    ensures os == "windows" || os == "linux"
    ensures os == "windows" <==> Contains(Lower(offer), "windows")
  {
    if Contains(Lower(offer), "windows") then "windows" else "linux"
  }

  /** The four image fields a successful URN or alias resolution wrote. */
  predicate HasUrnFields(ns: Namespace, publisher: string, offer: string, sku: string, version: string) {
    && ns.osPublisher == Given(publisher)
    && ns.osOffer == Given(offer)
    && ns.osSku == Given(sku)
    && ns.osVersion == Given(version)
  }

  /** The URN an image names: the pattern's groups when it matches (whatever
      the catalog holds), else the first matching alias. */
  function ImageUrn(image: string, catalog: seq<ImageAlias>): (r: Result<Urn, Error>)
    ensures ColonCount(image) >= 3 ==> r.Ok? && Fields(r.value) == Split(image)[..4]
    ensures ColonCount(image) < 3 ==> r == LookupAlias(catalog, image)
  {
    MatchUrnFirstFourPieces(image);
    match MatchUrn(image)
    case Some(u) => Ok(u)
    case None => LookupAlias(catalog, image)
  }

  function ResolveImage(ns: Namespace, catalog: seq<ImageAlias>): (r: Resolution)
    // a VHD URI: custom image, OS type required, no image fields written
    ensures IsVhd(ns.image) ==> (r.Ok? <==> Truthy(ns.osType))
    ensures IsVhd(ns.image) && r.Ok? ==> r.value == ns.(storageProfile := Some(SACustomImage))
    ensures IsVhd(ns.image) && r.Err? ==> r.error == VhdRequiresOsType
    // otherwise: the URN or alias, the platform-image profile and an overwritten OS type
    ensures !IsVhd(ns.image) ==> (r.Ok? <==> ImageUrn(ns.image, catalog).Ok?)
    ensures !IsVhd(ns.image) && r.Err? ==> r.error == ImageUrn(ns.image, catalog).error
    ensures !IsVhd(ns.image) && r.Ok? ==>
      var u := ImageUrn(ns.image, catalog).value;
      && HasUrnFields(r.value, u.publisher, u.offer, u.sku, u.version)
      && r.value.osType == Given(InferOsType(u.offer))
      && r.value.storageProfile == Some(SAPirImage)
    // only the image fields, the OS type and the profile change
    ensures r.Ok? ==> r.value == ns.(osType := r.value.osType, osPublisher := r.value.osPublisher,
      osOffer := r.value.osOffer, osSku := r.value.osSku, osVersion := r.value.osVersion,
      storageProfile := r.value.storageProfile)
  {
    if IsVhd(ns.image) then
      if Truthy(ns.osType) then Ok(ns.(storageProfile := Some(SACustomImage))) else Err(VhdRequiresOsType)
    else
      var urn :- ImageUrn(ns.image, catalog);
      Ok(ns.(
        osPublisher := Given(urn.publisher),
        osOffer := Given(urn.offer),
        osSku := Given(urn.sku),
        osVersion := Given(urn.version),
        osType := Given(InferOsType(urn.offer)),
        storageProfile := Some(SAPirImage)))
  }

  /** A non-VHD image with at least three colons resolves, whatever the
      catalog, to the first four colon-separated pieces, a platform image, and
      the OS type its offer implies. */
  lemma ResolveImageUrn(ns: Namespace, catalog: seq<ImageAlias>)
    requires !IsVhd(ns.image) && ColonCount(ns.image) >= 3
    ensures var r := ResolveImage(ns, catalog);
      var parts := Split(ns.image);
      && r.Ok?
      && HasUrnFields(r.value, parts[0], parts[1], parts[2], parts[3])
      && r.value.storageProfile == Some(SAPirImage)
      && (r.value.osType == Given("windows") <==> Contains(Lower(parts[1]), "windows"))
      && (r.value.osType == Given("linux") <==> !Contains(Lower(parts[1]), "windows"))
  {
    var parts := Split(ns.image);
    var u := ImageUrn(ns.image, catalog).value;
    assert Fields(u) == parts[..4];
    assert u == Urn(parts[0], parts[1], parts[2], parts[3]) by {
      assert Fields(u)[0] == parts[0] && Fields(u)[1] == parts[1];
      assert Fields(u)[2] == parts[2] && Fields(u)[3] == parts[3];
    }
  }

  /** Any other non-VHD image resolves through the catalog: to the first entry
      whose alias matches case-insensitively, or to an error that lists every
      alias. */
  lemma ResolveImageAlias(ns: Namespace, catalog: seq<ImageAlias>)
    requires !IsVhd(ns.image) && ColonCount(ns.image) < 3
    ensures var r := ResolveImage(ns, catalog);
      && (r.Ok? <==> exists i :: 0 <= i < |catalog| && AliasMatches(catalog[i], ns.image))
      && (r.Err? ==> r.error == InvalidImage(ns.image, AliasNames(catalog)))
      && (r.Ok? ==> r.value.storageProfile == Some(SAPirImage))
      && (r.Ok? ==>
            exists i :: FirstAliasMatch(catalog, ns.image, i) &&
                        HasUrnFields(r.value, catalog[i].publisher, catalog[i].offer, catalog[i].sku, catalog[i].version) &&
                        r.value.osType == Given(InferOsType(catalog[i].offer)))
  {
  }

  /** Resolving an already resolved image changes nothing: in particular the
      inferred OS type is stable. */
  lemma ResolveImageIdempotent(ns: Namespace, catalog: seq<ImageAlias>)
    requires ResolveImage(ns, catalog).Ok?
    ensures ResolveImage(ResolveImage(ns, catalog).value, catalog) == ResolveImage(ns, catalog)
  {
  }
}
