/** End-to-end scenarios of the VM flow over an empty resource group. */
module Scenarios {
  import opened Results
  import opened Text
  import opened Types
  import opened Oracles
  import opened LocationResolver
  import opened ImageResolver
  import opened NetworkResolver
  import opened StorageResolver
  import opened AvailabilitySetResolver
  import opened AuthResolver
  import opened CreatePipeline

  const UbuntuUrn := "Canonical:UbuntuServer:16.04-LTS:latest"

  /** A resource group holding nothing, where an SSH key can be found. */
  ghost predicate EmptyGroup(cloud: Cloud, resourceGroup: string) {
    && (forall q :: !cloud.existence(q))
    && cloud.storageAccounts(resourceGroup) == []
    && cloud.virtualNetworks(resourceGroup) == []
    && (forall v, g :: cloud.sshPublicKey(v, g).Some?)
  }

  /** No storage account, availability set, network, NSG, scheme or password is given. */
  predicate Bare(ns: Namespace) {
    && !Truthy(ns.storageAccount)
    && !Truthy(ns.availabilitySet)
    && ns.vnetName == Unset && ns.subnet == Unset
    && ns.nsg == Unset
    && ns.authenticationType == Unset
    && ns.adminPassword == Unset
  }

  /** An image whose last character is not a `d` of either case is no VHD. */
  lemma NotVhdByLastChar(image: string)
    requires |image| > 0 && image[|image| - 1] != 'd' && image[|image| - 1] != 'D'
    ensures !IsVhd(image)
  {
    var low := Lower(image);
    assert low[|low| - 1] == LowerChar(image[|image| - 1]);
  }

  const Ubuntu := Urn("Canonical", "UbuntuServer", "16.04-LTS", "latest")

  lemma UbuntuJoined()
    ensures JoinUrn(Ubuntu) == UbuntuUrn
  {
  }

  lemma UbuntuMatches()
    ensures MatchUrn(JoinUrn(Ubuntu)) == Some(Ubuntu)
  {
    MatchUrnOfJoin(Ubuntu, []);
    assert JoinUrn(Ubuntu) + [] == JoinUrn(Ubuntu);
  }

  /** The Ubuntu image is a URN, not a VHD, with offer `UbuntuServer`. */
  lemma UbuntuIsUrn()
    ensures !IsVhd(UbuntuUrn)
    ensures ColonCount(UbuntuUrn) >= 3
    ensures Split(UbuntuUrn)[1] == "UbuntuServer"
  {
    NotVhdByLastChar(UbuntuUrn);
    UbuntuJoined();
    UbuntuMatches();
    MatchUrnFirstFourPieces(UbuntuUrn);
    assert Fields(MatchUrn(UbuntuUrn).value)[1] == "UbuntuServer";
  }

  lemma UbuntuServerIsLinux()
    ensures !Contains(Lower("UbuntuServer"), "windows")
  {
    LowerLacks("UbuntuServer", 'w');
    MissingCharNotContained(Lower("UbuntuServer"), "windows", 'w');
  }

  /** A non-Windows URN image in the sense of the image resolver. */
  predicate LinuxUrn(image: string) {
    !IsVhd(image) && ColonCount(image) >= 3 && !Contains(Lower(Split(image)[1]), "windows")
  }

  /** Nothing given but a Linux URN, in an empty group: every resource new,
      ssh authentication. */
  lemma LinuxUrnInEmptyGroup(ns: Namespace, cloud: Cloud)
    requires LinuxUrn(ns.image) && Bare(ns) && ns.nics == NoNics && ns.publicIpAddress == Unset
    requires EmptyGroup(cloud, ns.resourceGroup)
    ensures var r := ProcessVmCreate(ns, cloud);
      && r.Ok?
      && r.value.storageAccountType == Some(New)
      && r.value.vnetType == Some(New)
      && r.value.nsgType == Some(New)
      && r.value.publicIpType == Some(New)
      && r.value.nicType == Some(New)
      && r.value.osType == Given("linux")
      && r.value.authenticationType == Given("ssh")
  {
    var ns1 := ResolveLocation(ns, cloud);
    ResolveImageUrn(ns1, cloud.aliases);
    var ns2 := ResolveImage(ns1, cloud.aliases).value;
    assert ns2.osType == Given("linux");
    var ns3 := ResolveStorageAccount(ns2, cloud);
    assert ns3.storageAccountType == Some(New);
    assert ResolveAvailabilitySet(ns3, cloud) == Ok(ns3);
    assert Discovered(ns3, cloud).None?;
    var ns5 := ResolveVnet(ns3, cloud).value;
    assert ns5 == ns3.(vnetType := Some(New));
    assert VmFoundation(ns, cloud) == Ok(ns5);
    var ns8 := VmAttachments(ns5, cloud);
    assert ns8.nsgType == Some(New) && ns8.publicIpType == Some(New) && ns8.nicType == Some(New);
    assert EffectiveAuthType(ns8) == Given("ssh");
  }

  /** `Canonical:UbuntuServer:16.04-LTS:latest` with nothing else given, in an
      empty group. */
  lemma UbuntuInEmptyGroup(ns: Namespace, cloud: Cloud)
    requires ns.image == UbuntuUrn && Bare(ns) && ns.nics == NoNics && ns.publicIpAddress == Unset
    requires EmptyGroup(cloud, ns.resourceGroup)
    ensures var r := ProcessVmCreate(ns, cloud);
      && r.Ok?
      && r.value.storageAccountType == Some(New)
      && r.value.vnetType == Some(New)
      && r.value.nsgType == Some(New)
      && r.value.publicIpType == Some(New)
      && r.value.nicType == Some(New)
      && r.value.authenticationType == Given("ssh")
  {
    UbuntuIsUrn();
    UbuntuServerIsLinux();
    LinuxUrnInEmptyGroup(ns, cloud);
  }

  /** Explicit NICs with a Linux URN in an empty group: the NICs are existing,
      the first is primary, and the named public IP is dropped. */
  lemma ExplicitNicsDropPublicIp(ns: Namespace, cloud: Cloud)
    requires LinuxUrn(ns.image) && Bare(ns)
    requires ns.nics == NicRefs(["nic1", "nic2"]) && ns.publicIpAddress == Given("mypip")
    requires EmptyGroup(cloud, ns.resourceGroup)
    ensures var r := ProcessVmCreate(ns, cloud);
      && r.Ok?
      && r.value.nicType == Some(Existing)
      && r.value.publicIpType == Some(Omitted)
      && r.value.nics.NicEntries?
      && |r.value.nics.entries| == 2
      && r.value.nics.entries[0].primary
      && !r.value.nics.entries[1].primary
  {
    var ns1 := ResolveLocation(ns, cloud);
    ResolveImageUrn(ns1, cloud.aliases);
    var ns2 := ResolveImage(ns1, cloud.aliases).value;
    assert ns2.osType == Given("linux");
    var ns3 := ResolveStorageAccount(ns2, cloud);
    assert ResolveAvailabilitySet(ns3, cloud) == Ok(ns3);
    assert Discovered(ns3, cloud).None?;
    var ns5 := ResolveVnet(ns3, cloud).value;
    assert ns5 == ns3.(vnetType := Some(New));
    assert VmFoundation(ns, cloud) == Ok(ns5);
    var ns8 := VmAttachments(ns5, cloud);
    assert ns8.nics.entries[1].primary <==> "nic2" == "nic1";
    assert EffectiveAuthType(ns8) == Given("ssh");
  }

  /** An image that is neither a VHD, a URN nor a catalog alias aborts the run
      with the list of known aliases. */
  lemma UnknownImageFails(ns: Namespace, cloud: Cloud)
    requires ns.image == "myimage"
    requires forall i :: 0 <= i < |cloud.aliases| ==> !AliasMatches(cloud.aliases[i], ns.image)
    requires RawNics(ns.nics)
    ensures ProcessVmCreate(ns, cloud) == Err(InvalidImage("myimage", AliasNames(cloud.aliases)))
  {
    NotVhdByLastChar(ns.image);
    ColonFreeCount(ns.image);
    ResolveImageAlias(ResolveLocation(ns, cloud), cloud.aliases);
  }

  /** A subnet name without a vnet name is a usage error. */
  lemma SubnetNameWithoutVnetFails(ns: Namespace, cloud: Cloud)
    requires ResolveImage(ResolveLocation(ns, cloud), cloud.aliases).Ok?
    requires !Truthy(ns.availabilitySet) && RawNics(ns.nics)
    requires ns.subnet == Given("mysubnet") && ns.vnetName == Unset
    requires !cloud.isValidResourceId("mysubnet")
    ensures ProcessVmCreate(ns, cloud) == Err(SubnetUsage)
  {
    var ns2 := ResolveImage(ResolveLocation(ns, cloud), cloud.aliases).value;
    var ns3 := ResolveStorageAccount(ns2, cloud);
    assert ResolveAvailabilitySet(ns3, cloud) == Ok(ns3);
    assert ResolveVnet(ns3, cloud) == Err(SubnetUsage);
  }
}
