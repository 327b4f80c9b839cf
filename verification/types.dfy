/** The namespace threaded through the create pipeline, its field types and
    the errors a resolver can abort with. */
module Types {
  import opened Results

  /** An optional command-line value. `Unset` is Python `None`; `Given("")` is
      the explicit empty string, which the peripheral resolvers read as
      "leave this resource out". */
  datatype Arg = Unset | Given(text: string)

  /** Python truthiness of an optional string: set and non-empty. */
  predicate Truthy(a: Arg) {
    a.Given? && a.text != ""
  }

  /** The value a `*_type` field is assigned. `Omitted` is the Python `None`
      the resolvers write on purpose; a field never written is `Option.None`. */
  datatype Disposition = Existing | New | Omitted

  datatype StorageProfile = SACustomImage | SAPirImage

  /** One normalised network interface: `{'id': …, 'properties': {'primary': …}}`. */
  datatype NicEntry = NicEntry(id: string, primary: bool)

  /** The `nics` field: nothing, one raw reference, a list of raw references,
      or (after the NIC resolver) the normalised entries. */
  datatype Nics =
    | NoNics
    | OneNic(ref: string)
    | NicRefs(refs: seq<string>)
    | NicEntries(entries: seq<NicEntry>)

  /** Python truthiness of the `nics` value. */
  predicate NicsTruthy(n: Nics) {
    match n
    case NoNics => false
    case OneNic(r) => r != ""
    case NicRefs(rs) => |rs| > 0
    case NicEntries(es) => |es| > 0
  }

  /** What the argument parser can place in `nics`: references, not entries. */
  predicate RawNics(n: Nics) {
    !n.NicEntries?
  }

  datatype Namespace = Namespace(
    resourceGroup: string,
    location: Arg,
    image: string,
    osType: Arg,
    osPublisher: Arg,
    osOffer: Arg,
    osSku: Arg,
    osVersion: Arg,
    storageProfile: Option<StorageProfile>,
    storageAccount: Arg,
    storageSku: string,
    storageAccountType: Option<Disposition>,
    availabilitySet: Arg,
    vnetName: Arg,
    subnet: Arg,
    vnetType: Option<Disposition>,
    nsg: Arg,
    nsgType: Option<Disposition>,
    publicIpAddress: Arg,
    publicIpType: Option<Disposition>,
    loadBalancer: Arg,
    loadBalancerType: Option<Disposition>,
    nics: Nics,
    nicType: Option<Disposition>,
    authenticationType: Arg,
    adminUsername: Arg,
    adminPassword: Arg,
    sshKeyValue: Arg,
    sshDestKeyPath: Arg,
    generateSshKeys: bool
  )

  /** The `CLIError`s and `ValueError`s the resolvers raise. */
  datatype Error =
    | VhdRequiresOsType                                  // CLIError
    | InvalidImage(image: string, aliases: seq<string>)  // CLIError
    | AvailabilitySetNotFound(name: string)              // CLIError
    | SubnetUsage                                        // CLIError
    | SubnetNotFound(subnet: string)                     // CLIError
    | OsTypeUnresolved                                   // CLIError
    | SshOnWindows                                       // CLIError
    | PasswordAuthMixed                                  // ValueError
    | NonInteractivePassword                             // CLIError
    | SshAuthWithPassword                                // ValueError
    | SshKeyMissing                                      // CLIError

  type Resolution = Result<Namespace, Error>
}
