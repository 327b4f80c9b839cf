/** `_validate_vm_create_auth`: choose the authentication scheme and check
    that the credentials given belong to it. */
module AuthResolver {
  import opened Results
  import opened Types
  import opened Oracles

  /** The scheme in force: the one given, else password for Windows and ssh
      for any other OS. */
  function EffectiveAuthType(ns: Namespace): Arg {
    if Truthy(ns.authenticationType) then ns.authenticationType
    else Given(if ns.osType == Given("windows") then "password" else "ssh")
  }

  /** `'{}'.format(value)`: an unset value prints as `None`. */
  function Format(value: Arg): string {
    match value
    case Unset => "None"
    case Given(s) => s
  }

  /** Where the public key is installed when no destination is given. */
  function DefaultKeyPath(adminUsername: Arg): string {
    "/home/" + Format(adminUsername) + "/.ssh/authorized_keys"
  }

  predicate MixesSshIntoPassword(ns: Namespace) {
    Truthy(ns.sshKeyValue) || Truthy(ns.sshDestKeyPath)
  }

  /** A password namespace carries a password and no SSH material; an ssh
      namespace carries no password, a key destination, and a non-Windows OS. */
  predicate SchemesApart(ns: Namespace) {
    && (ns.authenticationType == Given("password") ==>
          ns.adminPassword.Given? && !Truthy(ns.sshKeyValue) && !Truthy(ns.sshDestKeyPath))
    && (ns.authenticationType == Given("ssh") ==>
          !Truthy(ns.adminPassword) && Truthy(ns.sshDestKeyPath) && ns.osType != Given("windows"))
  }

  /** The fields the authentication step reads. */
  predicate SameAuthInputs(a: Namespace, b: Namespace) {
    && a.osType == b.osType && a.authenticationType == b.authenticationType
    && a.adminUsername == b.adminUsername && a.adminPassword == b.adminPassword
    && a.sshKeyValue == b.sshKeyValue && a.sshDestKeyPath == b.sshDestKeyPath
    && a.generateSshKeys == b.generateSshKeys
  }

  /** The fields the authentication step writes. */
  predicate SameAuth(a: Namespace, b: Namespace) {
    && a.authenticationType == b.authenticationType && a.adminPassword == b.adminPassword
    && a.sshKeyValue == b.sshKeyValue && a.sshDestKeyPath == b.sshDestKeyPath
  }

  /** The errors the authentication step raises. */
  predicate AuthError(e: Error) {
    e.OsTypeUnresolved? || e.SshOnWindows? || e.PasswordAuthMixed? ||
    e.NonInteractivePassword? || e.SshAuthWithPassword? || e.SshKeyMissing?
  }

  function ResolveAuth(ns: Namespace, cloud: Cloud): (r: Resolution)
    ensures r.Err? ==> AuthError(r.error)
    // the OS type must be known
    ensures !Truthy(ns.osType) ==> r == Err(OsTypeUnresolved)
    ensures r.Ok? ==> r.value.authenticationType == EffectiveAuthType(ns)
    // Windows with ssh is rejected, and nothing else gives that error
    ensures Truthy(ns.osType) ==>
      (r == Err(SshOnWindows) <==> ns.osType == Given("windows") && EffectiveAuthType(ns) == Given("ssh"))
    // password: no ssh material; a missing password is prompted for
    ensures Truthy(ns.osType) && EffectiveAuthType(ns) == Given("password") ==>
      && (MixesSshIntoPassword(ns) <==> r == Err(PasswordAuthMixed))
      && (!MixesSshIntoPassword(ns) && Truthy(ns.adminPassword) ==> r.Ok? && r.value.adminPassword == ns.adminPassword)
      && (!MixesSshIntoPassword(ns) && !Truthy(ns.adminPassword) && cloud.passwordPrompt.NoTty? ==>
            r == Err(NonInteractivePassword))
      && (!MixesSshIntoPassword(ns) && !Truthy(ns.adminPassword) && cloud.passwordPrompt.Entered? ==>
            r.Ok? && r.value.adminPassword == Given(cloud.passwordPrompt.password))
    // ssh: no password; the resolved key; a default destination
    ensures Truthy(ns.osType) && ns.osType != Given("windows") && EffectiveAuthType(ns) == Given("ssh") ==>
      && (Truthy(ns.adminPassword) ==> r == Err(SshAuthWithPassword))
      && (!Truthy(ns.adminPassword) ==>
            (r.Ok? <==> cloud.sshPublicKey(ns.sshKeyValue, ns.generateSshKeys).Some?))
      && (!Truthy(ns.adminPassword) && r.Err? ==> r.error == SshKeyMissing)
      && (r.Ok? ==>
            && r.value.sshKeyValue == Given(cloud.sshPublicKey(ns.sshKeyValue, ns.generateSshKeys).value)
            && r.value.sshDestKeyPath ==
                 (if Truthy(ns.sshDestKeyPath) then ns.sshDestKeyPath else Given(DefaultKeyPath(ns.adminUsername))))
    // any other scheme passes through untouched
    ensures Truthy(ns.osType) && EffectiveAuthType(ns) != Given("password") && EffectiveAuthType(ns) != Given("ssh") ==>
      r == Ok(ns)
    // the two schemes stay apart in every accepted namespace
    ensures r.Ok? ==> SchemesApart(r.value)
    // each branch leaves the other scheme's credentials exactly as given
    ensures r.Ok? && r.value.authenticationType == Given("password") ==>
      r.value.sshKeyValue == ns.sshKeyValue && r.value.sshDestKeyPath == ns.sshDestKeyPath
    ensures r.Ok? && r.value.authenticationType == Given("ssh") ==> r.value.adminPassword == ns.adminPassword
    ensures r.Ok? ==> r.value == ns.(authenticationType := r.value.authenticationType,
      adminPassword := r.value.adminPassword, sshKeyValue := r.value.sshKeyValue,
      sshDestKeyPath := r.value.sshDestKeyPath)
  {
    if !Truthy(ns.osType) then Err(OsTypeUnresolved)
    else
      var auth := EffectiveAuthType(ns);
      var ns1 := ns.(authenticationType := auth);
      if ns.osType == Given("windows") && auth == Given("ssh") then Err(SshOnWindows)
      else if auth == Given("password") then
        if MixesSshIntoPassword(ns) then Err(PasswordAuthMixed)
        else if Truthy(ns.adminPassword) then Ok(ns1)
        else
          match cloud.passwordPrompt
          case Entered(password) => Ok(ns1.(adminPassword := Given(password)))
          case NoTty => Err(NonInteractivePassword)
      else if auth == Given("ssh") then
        if Truthy(ns.adminPassword) then Err(SshAuthWithPassword)
        else
          match cloud.sshPublicKey(ns.sshKeyValue, ns.generateSshKeys)
          case None => Err(SshKeyMissing)
          case Some(key) =>
            var dest := if Truthy(ns.sshDestKeyPath) then ns.sshDestKeyPath else Given(DefaultKeyPath(ns.adminUsername));
            Ok(ns1.(sshKeyValue := Given(key), sshDestKeyPath := dest))
      else
        Ok(ns1)
  }

  /** Namespaces that agree on the authentication step's inputs succeed or
      fail alike, with the same error or the same credentials. */
  lemma AuthDependsOnlyOnInputs(a: Namespace, b: Namespace, cloud: Cloud)
    requires SameAuthInputs(a, b)
    ensures ResolveAuth(a, cloud).Ok? <==> ResolveAuth(b, cloud).Ok?
    ensures ResolveAuth(a, cloud).Err? ==> ResolveAuth(a, cloud).error == ResolveAuth(b, cloud).error
    ensures ResolveAuth(a, cloud).Ok? ==> SameAuth(ResolveAuth(a, cloud).value, ResolveAuth(b, cloud).value)
  {
  }
}
