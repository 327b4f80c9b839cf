# VM create-parameter resolution, modelled in Dafny

This project models the parameter-resolution pipeline that `az vm create` and
`az vmss create` run before building a deployment template
(`src/command_modules/azure-cli-vm/azure/cli/command_modules/vm/_validators.py`).
The pipeline takes a partly filled namespace and resolves each field in a
fixed order. Along the way it writes classification fields (`*_type`) that the
template builder branches on:

- the image becomes a VHD custom image or a platform-image URN. The URN comes
  from `publisher:offer:sku:version` or from the alias catalog. The OS type is
  inferred from the offer;
- the storage account is named and classified by existence, or a viable one
  is picked from the resource group;
- a named availability set must exist and is rewritten to its full identifier;
- the virtual network and subnet are auto-discovered, checked when named, or
  planned as new;
- the NSG, public IP and load balancer are each classified existing, new, or
  deliberately left out;
- NIC references are normalised into `{id, primary}` entries;
- the authentication scheme is chosen and checked against the credentials given.

The namespace is an immutable `Types.Namespace` record. Each resolver is a
pure function from a namespace to a namespace, or to `Result<Namespace, Error>`
when it can fail. `CreatePipeline` composes the resolvers in the source's order
and stops at the first error. Everything the source asks the outside world is
passed in as one `Oracles.Cloud` value:

- existence checks;
- storage-account and virtual-network listings;
- the resource group's location;
- the alias catalog;
- the subscription id;
- `resource_id`, `parse_resource_id` and `is_valid_resource_id`;
- the outcome of the password prompt;
- the outcome of `validate_ssh_key`.

Python's three-way optional strings are modelled as `Arg = Unset | Given(text)`.
`Unset` is `None`, and `Given("")` is the explicit empty string. A
classification that was written is `Some(Existing | New | Omitted)`, where
`Omitted` is the Python `None` the resolvers assign on purpose. A field no
resolver has written is `None`.

Files: `results.dfy` (Option/Result), `text.dfy` (lower-casing, substring,
colon splitting), `seqs.dfy` (first-match search), `types.dfy`,
`oracles.dfy`, one file per resolver (`location.dfy`, `image.dfy`,
`storage.dfy`, `availability.dfy`, `network.dfy`, `peripherals.dfy`,
`nics.dfy`, `auth.dfy`), `pipeline.dfy`, and `scenarios.dfy` (end-to-end scenarios).

Three behaviours of the code that are easy to misread:

- NIC `primary` is `nics_value[0] == n`. "Exactly one primary" therefore holds
  only for distinct references (`NicResolver.ExactlyOnePrimary`).
  `NicResolver.RepeatedFirstNicIsPrimaryTwice` shows the repeated case.
- Auto-discovery accepts a network only if its first non-gateway subnet name is
  non-empty. An empty name makes the search move on to the next network
  (line 174).
- An empty NIC value leaves `nics` exactly as it was. The resolver does not
  reset it to an empty list.

## Model

| member | source | states |
|---|---|---|
| LocationResolver.ResolveLocation | src/command_modules/azure-cli-vm/azure/cli/command_modules/vm/_validators.py:55-61 | a set location is kept; an unset or empty one is replaced by the resource group's location; afterwards the location is always set and no other field changes. The pipeline members below state that the storage and network choices are made against this resolved location |
| ImageResolver.MatchUrnFirstFourPieces | src/command_modules/azure-cli-vm/azure/cli/command_modules/vm/_validators.py:80-85 | the start-anchored URN pattern matches exactly when the image has at least three colons, and its groups are then the first four pieces of `image.split(':')` (later pieces ignored) |
| ImageResolver.MatchUrnOfJoin | src/command_modules/azure-cli-vm/azure/cli/command_modules/vm/_validators.py:80-85 | four colon-free fields joined with colons, followed by nothing or by more colon-led text, parse back to exactly those four fields |
| ImageResolver.LookupAlias | src/command_modules/azure-cli-vm/azure/cli/command_modules/vm/_validators.py:87-95 | succeeds iff some catalog alias equals the image case-insensitively, and then yields the fields of the first such entry; otherwise the error carries the image and every alias in catalog order |
| ImageResolver.InferOsType | src/command_modules/azure-cli-vm/azure/cli/command_modules/vm/_validators.py:97 | the result is `windows` or `linux`, and it is `windows` iff the lower-cased offer contains `windows` |
| ImageResolver.ImageUrn | src/command_modules/azure-cli-vm/azure/cli/command_modules/vm/_validators.py:79-95 | an image with three or more colons yields its first four colon pieces whatever the catalog holds; any other image is looked up in the catalog |
| ImageResolver.ResolveImage | src/command_modules/azure-cli-vm/azure/cli/command_modules/vm/_validators.py:66-100 | a `.vhd` image (any case) succeeds iff an OS type is set, gives `SACustomImage` and writes nothing else; other images succeed iff their URN resolves, get the URN's four fields, `SAPirImage` and the offer's inferred OS type (overwriting any given one); only the image fields, OS type and profile ever change |
| ImageResolver.ResolveImageUrn | src/command_modules/azure-cli-vm/azure/cli/command_modules/vm/_validators.py:80-100 | a non-VHD image with three or more colons always resolves, to the first four colon pieces, a platform image, and OS type `windows` iff the second piece lower-cased contains `windows`, else `linux` |
| ImageResolver.ResolveImageAlias | src/command_modules/azure-cli-vm/azure/cli/command_modules/vm/_validators.py:86-100 | any other non-VHD image resolves iff a catalog alias matches, to the first matching entry's fields and the OS type its offer implies; otherwise it fails listing every alias |
| ImageResolver.ResolveImageIdempotent | src/command_modules/azure-cli-vm/azure/cli/command_modules/vm/_validators.py:66-100 | resolving an already resolved namespace again returns it unchanged, so the OS-type overwrite is stable |
| StorageResolver.StorageDependsOnlyOnInputs | src/command_modules/azure-cli-vm/azure/cli/command_modules/vm/_validators.py:103-131 | the storage step's outcome depends only on the account value, resource group, SKU and location |
| StorageResolver.RequiredTier | src/command_modules/azure-cli-vm/azure/cli/command_modules/vm/_validators.py:120 | the tier is `Premium` iff the requested SKU contains `Premium` (case-sensitive), else `Standard` |
| StorageResolver.ResolveStorageAccount | src/command_modules/azure-cli-vm/azure/cli/command_modules/vm/_validators.py:103-131 | a named account keeps its name and is `existing` iff the existence check succeeds, in the parsed or else the ambient resource group; with no name, the type is `existing` iff some listed account has the required tier and the target location, and the name recorded is that of the first such account; otherwise `new`; only the account and its type change |
| AvailabilitySetResolver.ResolveAvailabilitySet | src/command_modules/azure-cli-vm/azure/cli/command_modules/vm/_validators.py:134-150 | an unset set passes through; a named set resolves iff it exists in its parsed or the ambient resource group, and is then replaced by the full identifier built from the subscription, that group and its name; otherwise the error names it. `CreatePipeline.VmFoundation` states the same from the VM flow's side |
| NetworkResolver.FirstUsableSubnet | src/command_modules/azure-cli-vm/azure/cli/command_modules/vm/_validators.py:171-173 | the chosen subnet is the first in listing order that is not `gatewaysubnet` in any case: it occurs at an index before which every subnet is the gateway subnet; none is chosen iff every subnet is the gateway subnet |
| NetworkResolver.Discovered | src/command_modules/azure-cli-vm/azure/cli/command_modules/vm/_validators.py:161-179 | discovery succeeds only when vnet, subnet and NICs are all unset or empty, and then picks the first listed network in the target location whose first usable subnet is non-empty; it fails only when no listed network qualifies |
| NetworkResolver.CheckSubnet | src/command_modules/azure-cli-vm/azure/cli/command_modules/vm/_validators.py:181-198 | a given subnet is a usage error iff "is an id" equals "vnet name given". An id that does not exist is a not-found error. An existing subnet is `existing`, and a name that does not exist is `new`. No subnet means `new`. Only a given subnet can cause an error |
| NetworkResolver.ResolveVnet | src/command_modules/azure-cli-vm/azure/cli/command_modules/vm/_validators.py:153-198 | discovery, when it succeeds, records that network and a non-gateway subnet as `existing`. Otherwise the explicit-subnet check decides. The result is always `existing` or `new`. Names change only through discovery, and no other field changes |
| NetworkResolver.VnetDependsOnlyOnInputs | src/command_modules/azure-cli-vm/azure/cli/command_modules/vm/_validators.py:153-198 | the network step's success, error and chosen names depend only on the resource group, location, vnet, subnet and NICs |
| PeripheralResolver.Classify | src/command_modules/azure-cli-vm/azure/cli/command_modules/vm/_validators.py:201-212 | unset gives `new`, the empty string gives the deliberate none, and a non-empty name gives `existing` iff the existence check for that resource type succeeds (never none) |
| PeripheralResolver.ResolveNsg | src/command_modules/azure-cli-vm/azure/cli/command_modules/vm/_validators.py:201-212 | the NSG three-way classification against `networkSecurityGroups`, writing only `nsg_type` |
| PeripheralResolver.ResolvePublicIp | src/command_modules/azure-cli-vm/azure/cli/command_modules/vm/_validators.py:215-225 | the public-IP three-way classification against `publicIPAddresses`, writing only `public_ip_type` |
| PeripheralResolver.ResolveLoadBalancer | src/command_modules/azure-cli-vm/azure/cli/command_modules/vm/_validators.py:380-390 | the load-balancer three-way classification against `loadBalancers`, writing only `load_balancer_type` |
| NicResolver.ValidateVmNics | src/command_modules/azure-cli-vm/azure/cli/command_modules/vm/_validators.py:23-52 | the NIC list keeps its length and order, and each valid resource id passes through while each other value becomes the id built from it as a NIC name; a truthy primary NIC is normalised the same way, and an unset or empty one is kept |
| NicResolver.Entries | src/command_modules/azure-cli-vm/azure/cli/command_modules/vm/_validators.py:240-250 | one entry per reference in order, with the reference's id, and primary exactly when the reference equals the first |
| NicResolver.ResolveNics | src/command_modules/azure-cli-vm/azure/cli/command_modules/vm/_validators.py:228-254 | no NICs: `nic_type` new and nothing else touched. Given NICs (one value counts as a one-element list) become entries of the same length and order. An entry's id is the reference itself when it contains `/`, else one built from the name. An entry is primary iff its reference equals the first. `nic_type` becomes existing and `public_ip_type` the deliberate none |
| NicResolver.ExactlyOnePrimary | src/command_modules/azure-cli-vm/azure/cli/command_modules/vm/_validators.py:240-250 | with pairwise distinct references, the set of primary entries is exactly the first |
| NicResolver.RepeatedFirstNicIsPrimaryTwice | src/command_modules/azure-cli-vm/azure/cli/command_modules/vm/_validators.py:248 | a list repeating the first reference marks both copies primary |
| AuthResolver.ResolveAuth | src/command_modules/azure-cli-vm/azure/cli/command_modules/vm/_validators.py:257-293 | no OS type is an error. The scheme is the given one, else password for `windows` and ssh otherwise. Windows with ssh fails, and nothing else raises that error. Password fails iff an SSH key value or path is set; a missing password is prompted for, and no terminal is an error. Ssh fails with a password set, and otherwise iff no key can be resolved; the key is recorded and the path defaults to `/home/<user>/.ssh/authorized_keys`. Other schemes pass through. The password branch leaves the SSH fields as given and the ssh branch leaves the password as given; only authentication errors are raised |
| AuthResolver.AuthDependsOnlyOnInputs | src/command_modules/azure-cli-vm/azure/cli/command_modules/vm/_validators.py:257-293 | the authentication outcome (success, error, scheme and credentials) depends only on the OS type, scheme, user, password, SSH key value, key path and key-generation flag |
| CreatePipeline.VmFoundation | src/command_modules/azure-cli-vm/azure/cli/command_modules/vm/_validators.py:363-368 | succeeds iff the image resolves, a named availability set exists and a given subnet passes its checks. Otherwise the first failing check's error is the result: image, then availability set, then subnet. On success the location is the resolved one, the image fields are the image step's, storage account and network are exactly what their resolvers decide on the located namespace, and a named availability set is its full identifier. The image and SKU values and the NIC, NSG, public-IP and authentication inputs (scheme, user, password, SSH key value, key path, key generation) are untouched |
| CreatePipeline.VmAttachments | src/command_modules/azure-cli-vm/azure/cli/command_modules/vm/_validators.py:369-371 | the NSG type is its own classification. Explicit NICs become entries in order, with normalised ids and a primary flag on every copy of the first reference; `nic_type` becomes existing and the public-IP type the deliberate none. Without NICs it is `new` and the public-IP classification. Only these fields change |
| CreatePipeline.VmCompletion | src/command_modules/azure-cli-vm/azure/cli/command_modules/vm/_validators.py:369-372 | attachments then authentication. Success, the error, and the scheme, password, SSH key and key path are exactly what authentication decides on the namespace it is given, and the accepted namespace keeps the two schemes apart. The OS-type error arises iff no OS type is set. The location, image, storage, availability-set and network fields are unchanged, and the NSG, NIC and public-IP outcomes are as `VmAttachments` states them. The resource group, admin user, NSG, public-IP and load-balancer names, image, SKU and key-generation flag are unchanged |
| CreatePipeline.SettledChoicesLieInLocation | src/command_modules/azure-cli-vm/azure/cli/command_modules/vm/_validators.py:363-368 | once the foundation has settled, a storage account picked from the listing has the required tier and the resolved location, and a discovered network lies in the resolved location |
| CreatePipeline.ProcessVmCreate | src/command_modules/azure-cli-vm/azure/cli/command_modules/vm/_validators.py:363-372 | a successful VM run settles every classification the builder reads. The steps run in order: a foundation error is the result, and the first failing check decides which. Once the foundation passes, success, the error and the credentials are exactly what authentication decides on the namespace after the image step; an accepted namespace keeps the two schemes apart, and the OS-type error never occurs. Storage account, availability set and network end as their resolvers decide on the located namespace, so `CreatePipeline.SettledChoicesLieInLocation` applies to every successful run. Explicit NICs become normalised entries and override the public-IP decision. The NSG decision stands and the load-balancer fields are untouched. The resource group, admin user, NSG, public-IP and load-balancer names, image, SKU and key-generation flag are unchanged |
| CreatePipeline.VmssCompletion | src/command_modules/azure-cli-vm/azure/cli/command_modules/vm/_validators.py:398-399 | public IP then authentication. Success, the error, and the credentials are exactly what authentication decides on the namespace it is given, with the two schemes kept apart. The OS-type error arises iff no OS type is set. The public-IP type is its classification. The location, image, storage, availability-set and network fields, the NSG, NIC and load-balancer types, and the NICs are unchanged. The resource group, admin user, NSG, public-IP and load-balancer names, image, SKU and key-generation flag are unchanged |
| CreatePipeline.ProcessVmssCreate | src/command_modules/azure-cli-vm/azure/cli/command_modules/vm/_validators.py:393-399 | a successful scale-set run settles the profile, load-balancer, network, public-IP, OS and authentication fields. An image error, then a subnet error, stops it with that error. Past those checks, success, the error and the credentials are exactly what authentication decides on the namespace after the image step, with the two schemes kept apart; the OS-type error never occurs. Location, image and network end as their resolvers decide, and a discovered network lies in the resolved location. Storage account, availability set, NSG type and NIC fields are untouched. The resource group, admin user, NSG, public-IP and load-balancer names, image, SKU and key-generation flag are unchanged |
| Scenarios.LinuxUrnInEmptyGroup | src/command_modules/azure-cli-vm/azure/cli/command_modules/vm/_validators.py:363-372 | a non-Windows URN image with nothing else given, in a resource group with no resources, resolves with every resource `new`, OS `linux` and ssh authentication |
| Scenarios.UbuntuInEmptyGroup | src/command_modules/azure-cli-vm/azure/cli/command_modules/vm/_validators.py:363-372 | the same for `Canonical:UbuntuServer:16.04-LTS:latest` |
| Scenarios.ExplicitNicsDropPublicIp | src/command_modules/azure-cli-vm/azure/cli/command_modules/vm/_validators.py:228-254 | explicit NICs `nic1, nic2` resolve to existing NICs with only the first primary, and the named public IP becomes the deliberate none |
| Scenarios.UnknownImageFails | src/command_modules/azure-cli-vm/azure/cli/command_modules/vm/_validators.py:87-91 | `myimage`, matching no alias, aborts the VM run with the list of catalog aliases |
| Scenarios.SubnetNameWithoutVnetFails | src/command_modules/azure-cli-vm/azure/cli/command_modules/vm/_validators.py:181-185 | a subnet name without a vnet name aborts the VM run with the subnet usage error |

## Left out

- Network failures of the existence, listing and resource-group calls: the oracles are total functions, so a transport error (which the source only propagates) is not modelled.
- `validate_ssh_key`, `_generate_ssh_keys` and `_is_valid_ssh_rsa_public_key` (file access, key generation, base64 parsing): their combined outcome is the `sshPublicKey` oracle, which yields a key or fails.
- The interactive `prompt_pass`: its outcome is the `passwordPrompt` oracle (a password, or no terminal).
- `resource_id`, `parse_resource_id` and `is_valid_resource_id`: their source is not part of this model, so they are uninterpreted oracle functions.
- `validate_nsg_name` and `validate_vm_nic`: not part of the create pipeline, and the former depends on a random suffix.
- Logging.
- `src/command_modules/azure-cli-component/azure/cli/command_modules/component/custom.py`: package management through pip and PyPI, all I/O.
- Text.Lower: lower-cases ASCII letters only, where Python's `str.lower` also folds non-ASCII letters.
- NicResolver.ResolveNics: requires `nics` to hold raw references. Re-running it on its own normalised entries (which the source would treat as names) is not modelled, because the argument parser never supplies entries.
- Python values outside the modelled types are not modelled. The source never receives them: `storage_sku` being `None`, a peripheral value that is neither a string nor `None`, and `nics` of another type.
- The Python exception classes (`CLIError` versus `ValueError`) appear only as comments on the `Error` variants.
- The scale-set namespace has no `nics` attribute, and the source's `getattr` then reads `None`. `CreatePipeline.ProcessVmssCreate` therefore requires the namespace's `nics` field to be `NoNics`.
