/** Everything the resolvers learn from outside the namespace: resource
    identifiers, existence checks, listings, the image-alias catalog, the
    subscription, the password prompt and the SSH public-key lookup. Each is a
    fixed value or total function supplied by the caller. */
module Oracles {
  import opened Results
  import opened Types

  /** The arguments of `resource_id(...)`. */
  datatype ResourceRef = ResourceRef(
    subscription: string,
    resourceGroup: string,
    providerNamespace: string,
    resourceType: string,
    name: string)

  /** The parts of `parse_resource_id(...)` the resolvers read: `name`, and
      `resource_group` when the string was a full identifier. */
  datatype ParsedId = ParsedId(name: string, resourceGroup: Option<string>)

  /** The resource group a named resource lives in: the one its identifier
      names, else the namespace's. */
  function ScopeOf(id: ParsedId, ns: Namespace): string {
    id.resourceGroup.GetOr(ns.resourceGroup)
  }

  /** The arguments of `check_existence(...)`; the parent is `Unset` when the
      call does not pass one. */
  datatype ExistenceQuery = ExistenceQuery(
    name: string,
    resourceGroup: string,
    providerNamespace: string,
    resourceType: string,
    parentName: Arg,
    parentType: Arg)

  datatype StorageAccount = StorageAccount(name: string, skuTier: string, location: string)

  /** A listed virtual network with its subnet names in listing order. */
  datatype VirtualNetwork = VirtualNetwork(name: string, location: string, subnets: seq<string>)

  /** One record of the image-alias catalog. */
  datatype ImageAlias = ImageAlias(urnAlias: string, publisher: string, offer: string, sku: string, version: string)

  /** What the interactive password prompt yields. */
  datatype PromptOutcome = Entered(password: string) | NoTty

  datatype Cloud = Cloud(
    resourceId: ResourceRef -> string,
    parseResourceId: string -> ParsedId,
    isValidResourceId: string -> bool,
    existence: ExistenceQuery -> bool,
    resourceGroupLocation: string -> string,
    storageAccounts: string -> seq<StorageAccount>,
    virtualNetworks: string -> seq<VirtualNetwork>,
    subscription: string,
    aliases: seq<ImageAlias>,
    passwordPrompt: PromptOutcome,
    /** The public key `validate_ssh_key` settles on for the given
        `ssh_key_value` and `generate_ssh_keys`, or `None` when it fails. */
    sshPublicKey: (Arg, bool) -> Option<string>)

  /** Existence of a resource that has no parent. */
  predicate Exists(cloud: Cloud, name: string, resourceGroup: string, providerNamespace: string, resourceType: string) {
    cloud.existence(ExistenceQuery(name, resourceGroup, providerNamespace, resourceType, Unset, Unset))
  }
}
