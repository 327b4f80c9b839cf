/** `_validate_vm_create_vnet`: auto-discover a virtual network and subnet,
    else check an explicitly named subnet, else plan a new one. */
module NetworkResolver {
  import opened Results
  import opened Text
  import opened Seqs
  import opened Types
  import opened Oracles

  /** Any subnet but the reserved gateway subnet, compared case-insensitively. */
  predicate Usable(subnet: string) {
    Lower(subnet) != "gatewaysubnet"
  }

  /** The first usable subnet name of a network, in listing order. */
  function FirstUsableSubnet(v: VirtualNetwork): (s: Option<string>)
    ensures s.Some? ==> Usable(s.value) && s.value in v.subnets
    ensures s.Some? ==>
      exists i :: 0 <= i < |v.subnets| && v.subnets[i] == s.value &&
                  forall j :: 0 <= j < i ==> !Usable(v.subnets[j])
    ensures s.None? <==> forall i :: 0 <= i < |v.subnets| ==> !Usable(v.subnets[i])
  {
    match FirstIndex(v.subnets, Usable)
    case Some(i) => Some(v.subnets[i])
    case None => None
  }

  /** A network auto-discovery accepts: in the target location, with subnets,
      and whose first usable subnet name is non-empty (an empty one makes the
      search move on to the next network). */
  predicate Discoverable(v: VirtualNetwork, location: Arg) {
    && Given(v.location) == location
    && |v.subnets| > 0
    && FirstUsableSubnet(v).Some?
    && FirstUsableSubnet(v).value != ""
  }

  /** Auto-discovery is attempted only when vnet, subnet and NICs are all unset or empty. */
  predicate NothingGiven(ns: Namespace) {
    !Truthy(ns.vnetName) && !Truthy(ns.subnet) && !NicsTruthy(ns.nics)
  }

  /** The subnet existence check: the subnet under the given (possibly absent) vnet. */
  function SubnetQuery(ns: Namespace): ExistenceQuery
    requires ns.subnet.Given?
  {
    ExistenceQuery(ns.subnet.text, ns.resourceGroup, "Microsoft.Network", "subnets", ns.vnetName, Given("virtualNetworks"))
  }

  /** Index of the network auto-discovery settles on, if it runs and succeeds. */
  function Discovered(ns: Namespace, cloud: Cloud): (d: Option<nat>)
    ensures d.Some? ==> NothingGiven(ns)
    ensures d.Some? ==> var vnets := cloud.virtualNetworks(ns.resourceGroup);
      && d.value < |vnets|
      && Discoverable(vnets[d.value], ns.location)
      && forall j :: 0 <= j < d.value ==> !Discoverable(vnets[j], ns.location)
    ensures d.None? && NothingGiven(ns) ==> var vnets := cloud.virtualNetworks(ns.resourceGroup);
      forall j :: 0 <= j < |vnets| ==> !Discoverable(vnets[j], ns.location)
  {
    if NothingGiven(ns) then
      FirstIndex(cloud.virtualNetworks(ns.resourceGroup), v => Discoverable(v, ns.location))
    else None
  }

  /** Steps 2 and 3, once discovery has not settled the network: a given
      subnet must be an id or a name with a vnet name, and an id must exist;
      an existing subnet is reused, anything else is new. */
  function CheckSubnet(ns: Namespace, cloud: Cloud): (r: Resolution)
    ensures Truthy(ns.subnet) ==>
      var isId := cloud.isValidResourceId(ns.subnet.text);
      var found := cloud.existence(SubnetQuery(ns));
      && (isId == Truthy(ns.vnetName) ==> r == Err(SubnetUsage))
      && (isId != Truthy(ns.vnetName) && isId && !found ==> r == Err(SubnetNotFound(ns.subnet.text)))
      && (isId != Truthy(ns.vnetName) && found ==> r == Ok(ns.(vnetType := Some(Existing))))
      && (isId != Truthy(ns.vnetName) && !isId && !found ==> r == Ok(ns.(vnetType := Some(New))))
    ensures !Truthy(ns.subnet) ==> r == Ok(ns.(vnetType := Some(New)))
    ensures r.Err? ==> Truthy(ns.subnet)
  {
    if Truthy(ns.subnet) then
      var isId := cloud.isValidResourceId(ns.subnet.text);
      if isId == Truthy(ns.vnetName) then Err(SubnetUsage)
      else
        var found := cloud.existence(SubnetQuery(ns));
        if isId && !found then Err(SubnetNotFound(ns.subnet.text))
        else if found then Ok(ns.(vnetType := Some(Existing)))
        else Ok(ns.(vnetType := Some(New)))
    else
      Ok(ns.(vnetType := Some(New)))
  }

  function ResolveVnet(ns: Namespace, cloud: Cloud): (r: Resolution)
    ensures r.Ok? ==> r.value.vnetType == Some(Existing) || r.value.vnetType == Some(New)
    // 1 - auto-discovery: the first acceptable network and its first usable subnet
    ensures Discovered(ns, cloud).Some? ==>
      var v := cloud.virtualNetworks(ns.resourceGroup)[Discovered(ns, cloud).value];
      && r.Ok?
      && r.value == ns.(vnetName := Given(v.name), subnet := Given(FirstUsableSubnet(v).value), vnetType := Some(Existing))
      && Usable(r.value.subnet.text)
    // 2, 3 - otherwise the explicit subnet decides
    ensures Discovered(ns, cloud).None? ==> r == CheckSubnet(ns, cloud)
    // names are only rewritten by auto-discovery
    ensures r.Ok? && (r.value.vnetName != ns.vnetName || r.value.subnet != ns.subnet) ==> NothingGiven(ns)
    ensures r.Ok? ==> r.value == ns.(vnetName := r.value.vnetName, subnet := r.value.subnet, vnetType := r.value.vnetType)
  {
    match Discovered(ns, cloud)
    case Some(i) =>
      var v := cloud.virtualNetworks(ns.resourceGroup)[i];
      Ok(ns.(subnet := Given(FirstUsableSubnet(v).value), vnetName := Given(v.name), vnetType := Some(Existing)))
    case None =>
      CheckSubnet(ns, cloud)
  }

  /** The network step reads only the resource group, location, names and NICs. */
  predicate SameVnetInputs(a: Namespace, b: Namespace) {
    a.resourceGroup == b.resourceGroup && a.location == b.location &&
    a.vnetName == b.vnetName && a.subnet == b.subnet && a.nics == b.nics
  }

  /** Namespaces that agree on the network step's inputs succeed or fail
      alike, with the same error or the same network, subnet and classification. */
  lemma VnetDependsOnlyOnInputs(a: Namespace, b: Namespace, cloud: Cloud)
    requires SameVnetInputs(a, b)
    ensures ResolveVnet(a, cloud).Ok? <==> ResolveVnet(b, cloud).Ok?
    ensures ResolveVnet(a, cloud).Err? ==> ResolveVnet(a, cloud).error == ResolveVnet(b, cloud).error
    ensures ResolveVnet(a, cloud).Ok? ==>
      && ResolveVnet(a, cloud).value.vnetName == ResolveVnet(b, cloud).value.vnetName
      && ResolveVnet(a, cloud).value.subnet == ResolveVnet(b, cloud).value.subnet
      && ResolveVnet(a, cloud).value.vnetType == ResolveVnet(b, cloud).value.vnetType
  {
  }
}
