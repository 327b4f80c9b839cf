/** `process_vm_create_namespace` and `process_vmss_create_namespace`: the
    fixed order in which the resolvers run, stopping at the first error. */
module CreatePipeline {
  import opened Results
  import opened Types
  import opened Oracles
  import opened LocationResolver
  import opened ImageResolver
  import opened StorageResolver
  import opened AvailabilitySetResolver
  import opened NetworkResolver
  import opened PeripheralResolver
  import opened NicResolver
  import opened AuthResolver

  predicate ExistingOrNew(d: Option<Disposition>) {
    d == Some(Existing) || d == Some(New)
  }

  /** The image step as both flows run it: on the located namespace. */
  function Imaged(ns: Namespace, cloud: Cloud): Resolution {
    ResolveImage(ResolveLocation(ns, cloud), cloud.aliases)
  }

  predicate SameImage(a: Namespace, b: Namespace) {
    && a.osType == b.osType && a.osPublisher == b.osPublisher && a.osOffer == b.osOffer
    && a.osSku == b.osSku && a.osVersion == b.osVersion && a.storageProfile == b.storageProfile
  }

  predicate SameStorage(a: Namespace, b: Namespace) {
    a.storageAccount == b.storageAccount && a.storageAccountType == b.storageAccountType
  }

  predicate SameVnet(a: Namespace, b: Namespace) {
    a.vnetName == b.vnetName && a.subnet == b.subnet && a.vnetType == b.vnetType
  }

  /** A named availability set, if any, exists. */
  predicate AvailabilitySetFound(ns: Namespace, cloud: Cloud) {
    Truthy(ns.availabilitySet) ==>
      var id := cloud.parseResourceId(ns.availabilitySet.text);
      Exists(cloud, id.name, ScopeOf(id, ns), "Microsoft.Compute", "availabilitySets")
  }

  /** An explicitly given subnet passes the usage and existence checks. */
  predicate SubnetAccepted(ns: Namespace, cloud: Cloud) {
    Truthy(ns.subnet) ==>
      var isId := cloud.isValidResourceId(ns.subnet.text);
      isId != Truthy(ns.vnetName) && (isId ==> cloud.existence(SubnetQuery(ns)))
  }

  /** The error a rejected subnet raises. */
  function SubnetError(ns: Namespace, cloud: Cloud): Error
    requires Truthy(ns.subnet)
  {
    if cloud.isValidResourceId(ns.subnet.text) == Truthy(ns.vnetName) then SubnetUsage
    else SubnetNotFound(ns.subnet.text)
  }

  /** A run stops at the first check that rejects its input: the image, then
      (in the VM flow) the availability set, then the subnet. */
  predicate AbortsAtFirstFailure(ns: Namespace, cloud: Cloud, checksAvailabilitySet: bool, r: Resolution) {
    && (Imaged(ns, cloud).Err? ==> r == Err(Imaged(ns, cloud).error))
    && (Imaged(ns, cloud).Ok? && checksAvailabilitySet && !AvailabilitySetFound(ns, cloud) ==>
          r == Err(AvailabilitySetNotFound(cloud.parseResourceId(ns.availabilitySet.text).name)))
    && ((Imaged(ns, cloud).Ok? && (checksAvailabilitySet ==> AvailabilitySetFound(ns, cloud)) &&
         !SubnetAccepted(ns, cloud)) ==> r == Err(SubnetError(ns, cloud)))
  }

  /** A named availability set ends up as its full identifier; an unset or
      empty one is left alone. */
  predicate AvailabilitySetSettled(ns: Namespace, cloud: Cloud, out: Namespace) {
    && (Truthy(ns.availabilitySet) ==>
          var id := cloud.parseResourceId(ns.availabilitySet.text);
          out.availabilitySet == Given(cloud.resourceId(
            ResourceRef(cloud.subscription, ScopeOf(id, ns), "Microsoft.Compute", "availabilitySets", id.name))))
    && (!Truthy(ns.availabilitySet) ==> out.availabilitySet == ns.availabilitySet)
  }

  /** The location, image and network fields both flows settle, each as its
      own resolver decides it; storage and network run on the resolved location. */
  predicate CommonSettled(ns: Namespace, cloud: Cloud, out: Namespace) {
    var located := ResolveLocation(ns, cloud);
    && out.location == located.location
    && Imaged(ns, cloud).Ok? && SameImage(out, Imaged(ns, cloud).value)
    && ResolveVnet(located, cloud).Ok? && SameVnet(out, ResolveVnet(located, cloud).value)
  }

  /** The VM flow additionally settles storage and the availability set. */
  predicate FoundationSettled(ns: Namespace, cloud: Cloud, out: Namespace) {
    && CommonSettled(ns, cloud, out)
    && SameStorage(out, ResolveStorageAccount(ResolveLocation(ns, cloud), cloud))
    && AvailabilitySetSettled(ns, cloud, out)
  }

  /** A storage account picked from the listing lies in the resolved location. */
  predicate StorageInLocation(ns: Namespace, cloud: Cloud, out: Namespace) {
    !Truthy(ns.storageAccount) && out.storageAccountType == Some(Existing) ==>
      exists a :: a in cloud.storageAccounts(ns.resourceGroup) &&
        out.storageAccount == Given(a.name) && Viable(a, RequiredTier(ns.storageSku), out.location)
  }

  /** A discovered network lies in the resolved location. */
  predicate VnetInLocation(ns: Namespace, cloud: Cloud, out: Namespace) {
    out.vnetName != ns.vnetName ==>
      exists v :: v in cloud.virtualNetworks(ns.resourceGroup) &&
        out.vnetName == Given(v.name) && Discoverable(v, out.location)
  }

  /** The storage and network choices of a settled run were made against the
      resolved location, which is why location runs first. */
  lemma SettledChoicesLieInLocation(ns: Namespace, cloud: Cloud, out: Namespace)
    requires FoundationSettled(ns, cloud, out)
    ensures StorageInLocation(ns, cloud, out) && VnetInLocation(ns, cloud, out)
  {
  }

  /** `b` carries the user's own values from `a` that no step of either flow writes. */
  predicate KeepsUserInputs(a: Namespace, b: Namespace) {
    && a.resourceGroup == b.resourceGroup && a.adminUsername == b.adminUsername
    && a.nsg == b.nsg && a.publicIpAddress == b.publicIpAddress && a.loadBalancer == b.loadBalancer
    && a.image == b.image && a.storageSku == b.storageSku && a.generateSshKeys == b.generateSshKeys
  }

  /** `b` carries `a`'s location, image, storage, availability-set and network fields. */
  predicate KeepsFoundation(a: Namespace, b: Namespace) {
    && a.location == b.location && a.availabilitySet == b.availabilitySet
    && SameImage(a, b) && SameStorage(a, b) && SameVnet(a, b)
  }

  /** Later steps that leave the foundation fields alone keep every settled fact. */
  lemma FoundationKept(ns: Namespace, cloud: Cloud, a: Namespace, r: Resolution)
    requires FoundationSettled(ns, cloud, a)
    ensures r.Ok? && KeepsFoundation(a, r.value) ==> FoundationSettled(ns, cloud, r.value)
  {
  }

  /** Once the foundation has succeeded, no foundation check can be what stops a run. */
  lemma PastFoundation(ns: Namespace, cloud: Cloud, r: Resolution)
    requires Imaged(ns, cloud).Ok? && SubnetAccepted(ns, cloud)
    ensures AbortsAtFirstFailure(ns, cloud, false, r)
    ensures AvailabilitySetFound(ns, cloud) ==> AbortsAtFirstFailure(ns, cloud, true, r)
  {
  }

  /** The VM flow up to and including the network step. */
  function VmFoundation(ns: Namespace, cloud: Cloud): (r: Resolution)
    ensures r.Ok? <==> Imaged(ns, cloud).Ok? && AvailabilitySetFound(ns, cloud) && SubnetAccepted(ns, cloud)
    ensures AbortsAtFirstFailure(ns, cloud, true, r)
    ensures r.Ok? ==> FoundationSettled(ns, cloud, r.value)
    ensures r.Ok? ==>
      && r.value.location.Given?
      && r.value.storageProfile.Some?
      && ExistingOrNew(r.value.storageAccountType)
      && ExistingOrNew(r.value.vnetType)
      && Truthy(r.value.osType)
    // the later steps' inputs pass through
    ensures r.Ok? ==>
      && r.value.resourceGroup == ns.resourceGroup
      && r.value.publicIpAddress == ns.publicIpAddress
      && r.value.nsg == ns.nsg
      && r.value.nics == ns.nics
      && r.value.nicType == ns.nicType
      && r.value.loadBalancer == ns.loadBalancer
      && r.value.loadBalancerType == ns.loadBalancerType
      && r.value.image == ns.image
      && r.value.storageSku == ns.storageSku
      && r.value.adminUsername == ns.adminUsername
      && r.value.adminPassword == ns.adminPassword
      && r.value.authenticationType == ns.authenticationType
      && r.value.sshKeyValue == ns.sshKeyValue
      && r.value.sshDestKeyPath == ns.sshDestKeyPath
      && r.value.generateSshKeys == ns.generateSshKeys
  {
    var ns1 := ResolveLocation(ns, cloud);
    var ns2 :- ResolveImage(ns1, cloud.aliases);
    var ns3 := ResolveStorageAccount(ns2, cloud);
    StorageDependsOnlyOnInputs(ns2, ns1, cloud);
    var ns4 :- ResolveAvailabilitySet(ns3, cloud);
    VnetDependsOnlyOnInputs(ns4, ns1, cloud);
    ResolveVnet(ns4, cloud)
  }

  /** The VM flow's NSG, public-IP and NIC steps, which cannot fail. */
  function VmAttachments(ns: Namespace, cloud: Cloud): (r: Namespace)
    requires RawNics(ns.nics)
    ensures r.nsgType == Some(Classify(ns.nsg, SecurityGroup, ns.resourceGroup, cloud))
    ensures r.publicIpType.Some? && ExistingOrNew(r.nicType)
    ensures NicsTruthy(ns.nics) ==>
      && r.nicType == Some(Existing) && r.publicIpType == Some(Omitted)
      && |RawRefs(ns.nics)| > 0 && NormalisedNics(RawRefs(ns.nics), ns.resourceGroup, cloud, r.nics)
    ensures !NicsTruthy(ns.nics) ==>
      r.nicType == Some(New) && r.nics == ns.nics &&
      r.publicIpType == Some(Classify(ns.publicIpAddress, PublicIp, ns.resourceGroup, cloud))
    ensures r == ns.(nsgType := r.nsgType, publicIpType := r.publicIpType, nics := r.nics, nicType := r.nicType)
  {
    ResolveNics(ResolvePublicIp(ResolveNsg(ns, cloud), cloud), cloud)
  }

  /** `r` is what authentication decides on `ns`: the same success or error,
      the same credentials, and the two schemes kept apart. */
  predicate AuthDecides(ns: Namespace, cloud: Cloud, r: Resolution) {
    && (r.Ok? <==> ResolveAuth(ns, cloud).Ok?)
    && (r.Err? ==> r.error == ResolveAuth(ns, cloud).error)
    && (r.Ok? ==> SameAuth(r.value, ResolveAuth(ns, cloud).value) && SchemesApart(r.value))
  }

  /** Authentication decides alike on namespaces that agree on what it reads. */
  lemma AuthDecidesAlike(a: Namespace, b: Namespace, cloud: Cloud, r: Resolution)
    requires SameAuthInputs(a, b) && AuthDecides(a, cloud, r)
    ensures AuthDecides(b, cloud, r)
  {
  }

  /** The VM flow after the network step: attachments, then authentication.
      Only the NSG, public-IP, NIC and authentication fields change. */
  function VmCompletion(ns: Namespace, cloud: Cloud): (r: Resolution)
    requires RawNics(ns.nics)
    // authentication decides on the namespace as given: the attachments touch nothing it reads
    ensures AuthDecides(ns, cloud, r)
    ensures r.Err? ==> AuthError(r.error)
    ensures r == Err(OsTypeUnresolved) <==> !Truthy(ns.osType)
    ensures r.Ok? ==> KeepsFoundation(ns, r.value) && KeepsUserInputs(ns, r.value)
    ensures r.Ok? ==>
      && r.value.nsgType == Some(Classify(ns.nsg, SecurityGroup, ns.resourceGroup, cloud))
      && r.value.publicIpType.Some?
      && ExistingOrNew(r.value.nicType)
      && Truthy(r.value.authenticationType)
      && r.value.loadBalancerType == ns.loadBalancerType && r.value.loadBalancer == ns.loadBalancer
    ensures r.Ok? && NicsTruthy(ns.nics) ==>
      && r.value.nicType == Some(Existing) && r.value.publicIpType == Some(Omitted)
      && |RawRefs(ns.nics)| > 0 && NormalisedNics(RawRefs(ns.nics), ns.resourceGroup, cloud, r.value.nics)
    ensures r.Ok? && !NicsTruthy(ns.nics) ==>
      r.value.nicType == Some(New) && r.value.nics == ns.nics &&
      r.value.publicIpType == Some(Classify(ns.publicIpAddress, PublicIp, ns.resourceGroup, cloud))
  {
    AuthDependsOnlyOnInputs(VmAttachments(ns, cloud), ns, cloud);
    ResolveAuth(VmAttachments(ns, cloud), cloud)
  }

  /** VM: location, image, storage account, availability set, network, NSG,
      public IP, NICs, authentication. */
  function ProcessVmCreate(ns: Namespace, cloud: Cloud): (r: Resolution)
    requires RawNics(ns.nics)
    // every classification the template builder branches on is settled
    ensures r.Ok? ==>
      && r.value.location.Given?
      && r.value.storageProfile.Some?
      && ExistingOrNew(r.value.storageAccountType)
      && ExistingOrNew(r.value.vnetType)
      && r.value.nsgType.Some?
      && r.value.publicIpType.Some?
      && ExistingOrNew(r.value.nicType)
      && Truthy(r.value.osType)
      && Truthy(r.value.authenticationType)
    // the steps run in order: location, image, storage and availability set,
    // network; a failing check stops the run with its own error
    ensures AbortsAtFirstFailure(ns, cloud, true, r)
    ensures r.Err? && Imaged(ns, cloud).Ok? && AvailabilitySetFound(ns, cloud) && SubnetAccepted(ns, cloud) ==>
      AuthError(r.error)
    // past the foundation, authentication decides on the imaged namespace
    ensures Imaged(ns, cloud).Ok? && AvailabilitySetFound(ns, cloud) && SubnetAccepted(ns, cloud) ==>
      AuthDecides(Imaged(ns, cloud).value, cloud, r)
    ensures r != Err(OsTypeUnresolved)
    // storage account, availability set and network as decided on the located
    // namespace (`SettledChoicesLieInLocation` draws the location consequences)
    ensures r.Ok? ==> FoundationSettled(ns, cloud, r.value)
    // the user's own names and settings reach the builder unchanged
    ensures r.Ok? ==> KeepsUserInputs(ns, r.value)
    // explicit NICs override whatever the public-IP step decided
    ensures r.Ok? && NicsTruthy(ns.nics) ==>
      && r.value.nicType == Some(Existing) && r.value.publicIpType == Some(Omitted)
      && |RawRefs(ns.nics)| > 0 && NormalisedNics(RawRefs(ns.nics), ns.resourceGroup, cloud, r.value.nics)
    ensures r.Ok? && !NicsTruthy(ns.nics) ==>
      r.value.nicType == Some(New) && r.value.nics == ns.nics &&
      r.value.publicIpType == Some(Classify(ns.publicIpAddress, PublicIp, ns.resourceGroup, cloud))
    // the NSG classification is the one made from the user's value; nothing later revises it
    ensures r.Ok? ==> r.value.nsgType == Some(Classify(ns.nsg, SecurityGroup, ns.resourceGroup, cloud))
    // the scale-set-only field is left alone
    ensures r.Ok? ==> r.value.loadBalancerType == ns.loadBalancerType && r.value.loadBalancer == ns.loadBalancer
  {
    var ns5 :- VmFoundation(ns, cloud);
    var r := VmCompletion(ns5, cloud);
    AuthDecidesAlike(ns5, Imaged(ns, cloud).value, cloud, r);
    FoundationKept(ns, cloud, ns5, r);
    PastFoundation(ns, cloud, r);
    r
  }

  /** The scale-set flow after the network step: public IP, then
      authentication. Only those fields change. */
  function VmssCompletion(ns: Namespace, cloud: Cloud): (r: Resolution)
    ensures AuthDecides(ns, cloud, r)
    ensures r.Err? ==> AuthError(r.error)
    ensures r == Err(OsTypeUnresolved) <==> !Truthy(ns.osType)
    ensures r.Ok? ==>
      && KeepsFoundation(ns, r.value) && KeepsUserInputs(ns, r.value)
      && r.value.publicIpType == Some(Classify(ns.publicIpAddress, PublicIp, ns.resourceGroup, cloud))
      && Truthy(r.value.authenticationType)
      && r.value.loadBalancerType == ns.loadBalancerType
      && r.value.nsgType == ns.nsgType && r.value.nics == ns.nics && r.value.nicType == ns.nicType
  {
    AuthDependsOnlyOnInputs(ResolvePublicIp(ns, cloud), ns, cloud);
    ResolveAuth(ResolvePublicIp(ns, cloud), cloud)
  }

  /** Scale set: location, image, load balancer, network, public IP,
      authentication. The scale-set namespace carries no NICs. */
  function ProcessVmssCreate(ns: Namespace, cloud: Cloud): (r: Resolution)
    requires ns.nics == NoNics
    ensures r.Ok? ==>
      && r.value.location.Given?
      && r.value.storageProfile.Some?
      && r.value.loadBalancerType == Some(Classify(ns.loadBalancer, LoadBalancer, ns.resourceGroup, cloud))
      && ExistingOrNew(r.value.vnetType)
      && r.value.publicIpType == Some(Classify(ns.publicIpAddress, PublicIp, ns.resourceGroup, cloud))
      && Truthy(r.value.osType)
      && Truthy(r.value.authenticationType)
    // image, then subnet, then authentication errors stop the run
    ensures AbortsAtFirstFailure(ns, cloud, false, r)
    ensures r.Err? && Imaged(ns, cloud).Ok? && SubnetAccepted(ns, cloud) ==> AuthError(r.error)
    ensures Imaged(ns, cloud).Ok? && SubnetAccepted(ns, cloud) ==> AuthDecides(Imaged(ns, cloud).value, cloud, r)
    ensures r != Err(OsTypeUnresolved)
    // location, image and network settled as their resolvers decide them
    ensures r.Ok? ==> CommonSettled(ns, cloud, r.value) && VnetInLocation(ns, cloud, r.value)
    // the user's own names and settings reach the builder unchanged
    ensures r.Ok? ==> KeepsUserInputs(ns, r.value)
    // no storage-account, availability-set, NSG or NIC resolution
    ensures r.Ok? ==>
      && r.value.storageAccount == ns.storageAccount
      && r.value.storageAccountType == ns.storageAccountType
      && r.value.availabilitySet == ns.availabilitySet
      && r.value.nsgType == ns.nsgType
      && r.value.nics == ns.nics
      && r.value.nicType == ns.nicType
  {
    var ns1 := ResolveLocation(ns, cloud);
    var ns2 :- ResolveImage(ns1, cloud.aliases);
    var ns3 := ResolveLoadBalancer(ns2, cloud);
    VnetDependsOnlyOnInputs(ns3, ns1, cloud);
    var ns4 :- ResolveVnet(ns3, cloud);
    var r := VmssCompletion(ns4, cloud);
    AuthDecidesAlike(ns4, ns2, cloud, r);
    PastFoundation(ns, cloud, r);
    r
  }
}
