/** `_validate_vm_create_availability_set`: a named availability set must
    exist and is rewritten to its full resource identifier. */
module AvailabilitySetResolver {
  import opened Results
  import opened Types
  import opened Oracles

  function ResolveAvailabilitySet(ns: Namespace, cloud: Cloud): (r: Resolution)
    ensures !Truthy(ns.availabilitySet) ==> r == Ok(ns)
    ensures Truthy(ns.availabilitySet) ==>
      var id := cloud.parseResourceId(ns.availabilitySet.text);
      var rg := ScopeOf(id, ns);
      && (r.Ok? <==> Exists(cloud, id.name, rg, "Microsoft.Compute", "availabilitySets"))
      && (r.Err? ==> r.error == AvailabilitySetNotFound(id.name))
      && (r.Ok? ==> r.value == ns.(availabilitySet := Given(cloud.resourceId(
            ResourceRef(cloud.subscription, rg, "Microsoft.Compute", "availabilitySets", id.name)))))
  {
    if Truthy(ns.availabilitySet) then
      var id := cloud.parseResourceId(ns.availabilitySet.text);
      var rg := ScopeOf(id, ns);
      if !Exists(cloud, id.name, rg, "Microsoft.Compute", "availabilitySets") then
        Err(AvailabilitySetNotFound(id.name))
      else
        Ok(ns.(availabilitySet := Given(cloud.resourceId(
          ResourceRef(cloud.subscription, rg, "Microsoft.Compute", "availabilitySets", id.name)))))
    else
      Ok(ns)
  }
}
