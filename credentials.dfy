/** internal/pkg/k8s/auth/gcp_custom/gcp_custom.go: the "gcp_custom"
    Kubernetes auth provider. Google credentials are registered under a name in
    a process-wide registry; a provider built from a kubeconfig whose
    `credentials_name` is that name signs requests with their token source. */
module GcpCustomAuth {
  import opened Common

  const CredentialsNameConfigKey: string := "credentials_name"
  const AuthName: string := "gcp_custom"
  const CredentialsNotFound: string := "credentials not found"

  /** A Google credential; only the identity of its token source matters here. */
  datatype Credential = Credential(tokenSource: nat)

  /** The provider `newGCPCustomAuthProvider` returns: the token source it
      signs with. */
  datatype Provider = Provider(tokenSource: nat)

  /** `gcpConfig[CredentialsNameConfigKey]`: a missing key reads as "". */
  function ConfiguredName(config: map<string, string>): string
  {
    if CredentialsNameConfigKey in config then config[CredentialsNameConfigKey] else ""
  }

  /** The provider built from a kubeconfig's auth-provider map against a
      registry. */
  function ProviderFor(credentials: map<string, Credential>, config: map<string, string>): (r: Result<Provider>)
    ensures r.Ok? <==> ConfiguredName(config) in credentials
    ensures r.Err? ==> r.msg == CredentialsNotFound
  {
    var name := ConfiguredName(config);
    if name in credentials then Ok(Provider(credentials[name].tokenSource)) else Err(CredentialsNotFound)
  }

  /** After registering `c` under `name`, a provider configured with that name
      signs with `c`'s token source, whatever was registered before. */
  lemma RegisterThenProvide(credentials: map<string, Credential>, name: string, c: Credential)
    ensures ProviderFor(credentials[name := c], map[CredentialsNameConfigKey := name]) == Ok(Provider(c.tokenSource))
  {
  }

  /** Registering a name leaves the providers of every other name as they were. */
  lemma RegisterKeepsOtherNames(credentials: map<string, Credential>, name: string, c: Credential, config: map<string, string>)
    requires ConfiguredName(config) != name
    ensures ProviderFor(credentials[name := c], config) == ProviderFor(credentials, config)
  {
  }

  /** The registry (the package-level `credentialList`). */
  class Registry {
    var credentials: map<string, Credential>

    constructor ()
      ensures credentials == map[]
    {
      credentials := map[];
    }

    /** `RegisterGoogleCredentials`: a later registration under the same name
        overwrites the earlier one. */
    method RegisterGoogleCredentials(name: string, c: Credential)
      modifies this
      ensures credentials == old(credentials)[name := c]
    {
      credentials := credentials[name := c];
    }

    /** `newGCPCustomAuthProvider`. */
    function NewGcpCustomAuthProvider(config: map<string, string>): Result<Provider>
      reads this
    {
      ProviderFor(credentials, config)
    }
  }

  /** An outgoing request: the value of its Authorization header ("" when absent). */
  datatype Request = Request(authorization: string, url: string)

  datatype Response = Response(statusCode: int)

  /** A round tripper: the reply of the transport below for each request. */
  type Transport = Request -> Result<Response>

  /** `conditionalTransport`: the OAuth transport over a base transport, the
      persister's record of what it was asked to persist, and the empty reset
      map it persists on a 401. */
  class ConditionalTransport {
    const base: Transport
    const oauth: Transport
    var persisted: seq<map<string, string>>

    constructor (base: Transport, oauth: Transport)
      ensures this.base == base && this.oauth == oauth && persisted == []
    {
      this.base := base;
      this.oauth := oauth;
      persisted := [];
    }

    /** `RoundTrip`: a request that already carries an Authorization header
        goes to the base transport untouched; otherwise the OAuth transport
        signs and sends it; its error is returned; a 401 persists the empty
        reset map and the response is still returned. */
    method RoundTrip(req: Request) returns (r: Result<Response>)
      modifies this
      ensures |req.authorization| != 0 ==> r == base(req) && persisted == old(persisted)
      ensures |req.authorization| == 0 ==> r == oauth(req)
      ensures |req.authorization| == 0 && r.Ok? && r.value.statusCode == 401 ==> persisted == old(persisted) + [map[]]
      ensures (|req.authorization| != 0 || r.Err? || r.value.statusCode != 401) ==> persisted == old(persisted)
    {
      if |req.authorization| != 0 {
        return base(req);
      }
      var res := oauth(req);
      if res.Err? {
        return Err(res.msg);
      }
      if res.value.statusCode == 401 {
        persisted := persisted + [map[]];
      }
      r := Ok(res.value);
    }
  }
}
