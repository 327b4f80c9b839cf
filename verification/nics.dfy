/** `_validate_vm_create_nics`, `_get_nic_id` and `validate_vm_nics`: turn NIC
    names or identifiers into full identifiers, flagging the primary one. */
module NicResolver {
  import opened Results
  import opened Text
  import opened Types
  import opened Oracles

  function NicRef(subscription: string, resourceGroup: string, name: string): ResourceRef {
    ResourceRef(subscription, resourceGroup, "Microsoft.Network", "networkInterfaces", name)
  }

  /** `_get_nic_id`: a valid resource identifier passes through, anything else
      is taken as a NIC name in the given resource group. */
  function GetNicId(value: string, resourceGroup: string, subscription: string, cloud: Cloud): string {
    if cloud.isValidResourceId(value) then value
    else cloud.resourceId(NicRef(subscription, resourceGroup, value))
  }

  /** `validate_vm_nics`: every NIC reference becomes an identifier, in order;
      the primary NIC, when set, is normalised the same way. */
  function ValidateVmNics(nics: seq<string>, primaryNic: Arg, resourceGroup: string, cloud: Cloud): (r: (seq<string>, Arg))
    ensures |r.0| == |nics|
    ensures forall i :: 0 <= i < |nics| ==>
      (cloud.isValidResourceId(nics[i]) ==> r.0[i] == nics[i]) &&
      (!cloud.isValidResourceId(nics[i]) ==> r.0[i] == cloud.resourceId(NicRef(cloud.subscription, resourceGroup, nics[i])))
    ensures Truthy(primaryNic) && cloud.isValidResourceId(primaryNic.text) ==> r.1 == primaryNic
    ensures Truthy(primaryNic) && !cloud.isValidResourceId(primaryNic.text) ==>
      r.1 == Given(cloud.resourceId(NicRef(cloud.subscription, resourceGroup, primaryNic.text)))
    ensures !Truthy(primaryNic) ==> r.1 == primaryNic
  {
    var ids := seq(|nics|, i requires 0 <= i < |nics| => GetNicId(nics[i], resourceGroup, cloud.subscription, cloud));
    var primary := if Truthy(primaryNic) then Given(GetNicId(primaryNic.text, resourceGroup, cloud.subscription, cloud)) else primaryNic;
    (ids, primary)
  }

  /** The identifier a NIC entry gets in the create flow: the reference itself
      when it contains `/`, else one built from the name. */
  function EntryId(ref: string, resourceGroup: string, cloud: Cloud): string {
    if Contains(ref, "/") then ref else cloud.resourceId(NicRef(cloud.subscription, resourceGroup, ref))
  }

  /** One entry per reference, primary when the reference equals `first`. */
  function Entries(refs: seq<string>, first: string, resourceGroup: string, cloud: Cloud): (es: seq<NicEntry>)
    ensures |es| == |refs|
    ensures forall i :: 0 <= i < |refs| ==>
      es[i].id == EntryId(refs[i], resourceGroup, cloud) && (es[i].primary <==> refs[i] == first)
  {
    if refs == [] then []
    else
      [NicEntry(EntryId(refs[0], resourceGroup, cloud), refs[0] == first)] +
      Entries(refs[1..], first, resourceGroup, cloud)
  }

  /** A single reference is treated as a one-element list. */
  function RawRefs(n: Nics): seq<string>
    requires RawNics(n)
  {
    match n
    case NoNics => []
    case OneNic(ref) => [ref]
    case NicRefs(refs) => refs
  }

  /** `out` holds one entry per reference, in order: a reference containing a
      slash is kept as the id, any other is taken as a NIC name in the resource
      group, and an entry is primary iff its reference equals the first. */
  predicate NormalisedNics(refs: seq<string>, resourceGroup: string, cloud: Cloud, out: Nics)
    requires |refs| > 0
  {
    && out.NicEntries?
    && |out.entries| == |refs|
    && forall i :: 0 <= i < |refs| ==>
         && (Contains(refs[i], "/") ==> out.entries[i].id == refs[i])
         && (!Contains(refs[i], "/") ==>
               out.entries[i].id == cloud.resourceId(NicRef(cloud.subscription, resourceGroup, refs[i])))
         && (out.entries[i].primary <==> refs[i] == refs[0])
  }

  function ResolveNics(ns: Namespace, cloud: Cloud): (r: Namespace)
    requires RawNics(ns.nics)
    // no NICs: a new one, nothing else touched
    ensures !NicsTruthy(ns.nics) ==> r == ns.(nicType := Some(New))
    // NICs given: same length and order, ids normalised, primary = equal to the first
    ensures NicsTruthy(ns.nics) ==>
      var refs := RawRefs(ns.nics);
      && |refs| > 0
      && NormalisedNics(refs, ns.resourceGroup, cloud, r.nics)
      && r.nicType == Some(Existing)
      && r.publicIpType == Some(Omitted)
    ensures r == ns.(nics := r.nics, nicType := r.nicType, publicIpType := r.publicIpType)
  {
    if !NicsTruthy(ns.nics) then
      ns.(nicType := Some(New))
    else
      var refs := RawRefs(ns.nics);
      ns.(nics := NicEntries(Entries(refs, refs[0], ns.resourceGroup, cloud)),
          nicType := Some(Existing),
          publicIpType := Some(Omitted))
  }

  /** Indices of the entries flagged primary. */
  function PrimaryIndices(es: seq<NicEntry>): set<nat> {
    set i: nat | i < |es| && es[i].primary
  }

  /** With distinct references exactly one entry, the first, is primary. */
  lemma ExactlyOnePrimary(ns: Namespace, cloud: Cloud)
    requires RawNics(ns.nics) && NicsTruthy(ns.nics)
    requires var refs := RawRefs(ns.nics);
      forall i, j :: 0 <= i < j < |refs| ==> refs[i] != refs[j]
    ensures var r := ResolveNics(ns, cloud);
      r.nics.NicEntries? && PrimaryIndices(r.nics.entries) == {0}
  {
    var refs := RawRefs(ns.nics);
    var es := ResolveNics(ns, cloud).nics.entries;
    forall i: nat | i < |es|
      ensures es[i].primary <==> i == 0
    {
      if i > 0 {
        assert refs[0] != refs[i];
      }
    }
  }

  /** Repeating the first reference flags both copies as primary. */
  lemma RepeatedFirstNicIsPrimaryTwice(ns: Namespace, cloud: Cloud)
    requires ns.nics == NicRefs(["nic1", "nic1"])
    ensures PrimaryIndices(ResolveNics(ns, cloud).nics.entries) == {0, 1}
  {
    var es := ResolveNics(ns, cloud).nics.entries;
    assert es[0].primary && es[1].primary;
  }
}
