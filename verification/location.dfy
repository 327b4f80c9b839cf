/** `validate_location`: fill in a missing location from the resource group. */
module LocationResolver {
  import opened Types
  import opened Oracles

  /** A set location is kept; otherwise the resource group's location is
      copied in. No other field changes. */
  function ResolveLocation(ns: Namespace, cloud: Cloud): (r: Namespace)
    ensures r.location.Given?
    ensures Truthy(ns.location) ==> r.location == ns.location
    ensures !Truthy(ns.location) ==> r.location == Given(cloud.resourceGroupLocation(ns.resourceGroup))
    ensures r == ns.(location := r.location)
  {
    if Truthy(ns.location) then ns
    else ns.(location := Given(cloud.resourceGroupLocation(ns.resourceGroup)))
  }
}
