/** `_validate_vm_create_storage_account`: classify a named storage account by
    existence, or pick a listed account of the right tier and location. */
module StorageResolver {
  import opened Results
  import opened Text
  import opened Seqs
  import opened Types
  import opened Oracles

  /** The SKU tier an account must have: `'Premium'` when the requested SKU
      mentions it (case-sensitively), else `'Standard'`. */
  function RequiredTier(storageSku: string): (tier: string)
    ensures tier == "Premium" <==> Contains(storageSku, "Premium")
    ensures tier == "Premium" || tier == "Standard"
  {
    if Contains(storageSku, "Premium") then "Premium" else "Standard"
  }

  /** A listed account the VM can reuse. */
  predicate Viable(a: StorageAccount, tier: string, location: Arg) {
    a.skuTier == tier && Given(a.location) == location
  }

  function ResolveStorageAccount(ns: Namespace, cloud: Cloud): (r: Namespace)
    ensures r.storageAccountType == Some(Existing) || r.storageAccountType == Some(New)
    // a named account: classified by existence alone, name kept
    ensures Truthy(ns.storageAccount) ==>
      var id := cloud.parseResourceId(ns.storageAccount.text);
      && r.storageAccount == ns.storageAccount
      && (r.storageAccountType == Some(Existing) <==>
            Exists(cloud, id.name, ScopeOf(id, ns), "Microsoft.Storage", "storageAccounts"))
    // no account named: reuse the first viable listed account, if any
    ensures !Truthy(ns.storageAccount) ==>
      var accounts := cloud.storageAccounts(ns.resourceGroup);
      var tier := RequiredTier(ns.storageSku);
      && (r.storageAccountType == Some(Existing) <==>
            exists i :: 0 <= i < |accounts| && Viable(accounts[i], tier, ns.location))
      && (r.storageAccountType == Some(Existing) ==>
            exists i :: 0 <= i < |accounts| && Viable(accounts[i], tier, ns.location) &&
                        r.storageAccount == Given(accounts[i].name) &&
                        forall j :: 0 <= j < i ==> !Viable(accounts[j], tier, ns.location))
      && (r.storageAccountType == Some(New) ==> r.storageAccount == ns.storageAccount)
    ensures r == ns.(storageAccount := r.storageAccount, storageAccountType := r.storageAccountType)
  {
    if Truthy(ns.storageAccount) then
      var id := cloud.parseResourceId(ns.storageAccount.text);
      var found := Exists(cloud, id.name, ScopeOf(id, ns), "Microsoft.Storage", "storageAccounts");
      ns.(storageAccountType := Some(if found then Existing else New))
    else
      var accounts := cloud.storageAccounts(ns.resourceGroup);
      var tier := RequiredTier(ns.storageSku);
      match FirstIndex(accounts, a => Viable(a, tier, ns.location))
      case Some(i) => ns.(storageAccount := Given(accounts[i].name), storageAccountType := Some(Existing))
      case None => ns.(storageAccountType := Some(New))
  }

  /** The storage step reads only the account, resource group, SKU and location. */
  predicate SameStorageInputs(a: Namespace, b: Namespace) {
    a.storageAccount == b.storageAccount && a.resourceGroup == b.resourceGroup &&
    a.storageSku == b.storageSku && a.location == b.location
  }

  /** Namespaces that agree on the storage step's inputs get the same account and classification. */
  lemma StorageDependsOnlyOnInputs(a: Namespace, b: Namespace, cloud: Cloud)
    requires SameStorageInputs(a, b)
    ensures ResolveStorageAccount(a, cloud).storageAccount == ResolveStorageAccount(b, cloud).storageAccount
    ensures ResolveStorageAccount(a, cloud).storageAccountType == ResolveStorageAccount(b, cloud).storageAccountType
  {
  }
}
