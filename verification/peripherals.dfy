/** `_validate_vm_create_nsg`, `_validate_vm_create_public_ip` and
    `_validate_vmss_create_load_balancer`: one three-way classification
    applied to three kinds of network resource. */
module PeripheralResolver {
  import opened Results
  import opened Types
  import opened Oracles

  /** The three optional network resources, with their resource types. */
  datatype Peripheral = SecurityGroup | PublicIp | LoadBalancer {
    function ResourceType(): string {
      match this
      case SecurityGroup => "networkSecurityGroups"
      case PublicIp => "publicIPAddresses"
      case LoadBalancer => "loadBalancers"
    }
  }

  /** A non-empty name is existing or new by the existence check; the empty
      string means leave it out; unset means create a default. */
  function Classify(value: Arg, kind: Peripheral, resourceGroup: string, cloud: Cloud): (d: Disposition)
    ensures value == Unset ==> d == New
    ensures value == Given("") ==> d == Omitted
    ensures Truthy(value) ==> d != Omitted
    ensures Truthy(value) ==>
      (d == Existing <==> Exists(cloud, value.text, resourceGroup, "Microsoft.Network", kind.ResourceType()))
  {
    match value
    case Unset => New
    case Given(name) =>
      if name == "" then Omitted
      else if Exists(cloud, name, resourceGroup, "Microsoft.Network", kind.ResourceType()) then Existing
      else New
  }

  function ResolveNsg(ns: Namespace, cloud: Cloud): (r: Namespace)
    ensures ns.nsg == Unset ==> r.nsgType == Some(New)
    ensures ns.nsg == Given("") ==> r.nsgType == Some(Omitted)
    ensures Truthy(ns.nsg) ==>
      (r.nsgType == Some(Existing) || r.nsgType == Some(New)) &&
      (r.nsgType == Some(Existing) <==>
         Exists(cloud, ns.nsg.text, ns.resourceGroup, "Microsoft.Network", "networkSecurityGroups"))
    ensures r == ns.(nsgType := r.nsgType)
  {
    ns.(nsgType := Some(Classify(ns.nsg, SecurityGroup, ns.resourceGroup, cloud)))
  }

  function ResolvePublicIp(ns: Namespace, cloud: Cloud): (r: Namespace)
    ensures ns.publicIpAddress == Unset ==> r.publicIpType == Some(New)
    ensures ns.publicIpAddress == Given("") ==> r.publicIpType == Some(Omitted)
    ensures Truthy(ns.publicIpAddress) ==>
      (r.publicIpType == Some(Existing) || r.publicIpType == Some(New)) &&
      (r.publicIpType == Some(Existing) <==>
         Exists(cloud, ns.publicIpAddress.text, ns.resourceGroup, "Microsoft.Network", "publicIPAddresses"))
    ensures r == ns.(publicIpType := r.publicIpType)
  {
    ns.(publicIpType := Some(Classify(ns.publicIpAddress, PublicIp, ns.resourceGroup, cloud)))
  }

  function ResolveLoadBalancer(ns: Namespace, cloud: Cloud): (r: Namespace)
    ensures ns.loadBalancer == Unset ==> r.loadBalancerType == Some(New)
    ensures ns.loadBalancer == Given("") ==> r.loadBalancerType == Some(Omitted)
    ensures Truthy(ns.loadBalancer) ==>
      (r.loadBalancerType == Some(Existing) || r.loadBalancerType == Some(New)) &&
      (r.loadBalancerType == Some(Existing) <==>
         Exists(cloud, ns.loadBalancer.text, ns.resourceGroup, "Microsoft.Network", "loadBalancers"))
    ensures r == ns.(loadBalancerType := r.loadBalancerType)
  {
    ns.(loadBalancerType := Some(Classify(ns.loadBalancer, LoadBalancer, ns.resourceGroup, cloud)))
  }
}
