/**
 * The HTTP option types: the scheme enum, the immutable header, basic-auth and
 * webhook-verification records whose constructors reject null fields, and the
 * OAuth and OIDC option objects whose list setters append in place.
 */
module Http {
  import opened Exceptions

  /** `Http.Scheme`. */
  datatype Scheme = HTTP | HTTPS

  /** The `name` field of a scheme. */
  function SchemeName(s: Scheme): (n: string)
    ensures n == "HTTP" || n == "HTTPS"
    ensures n == "HTTPS" <==> s.HTTPS?
  {
    match s
    case HTTP => "HTTP"
    case HTTPS => "HTTPS"
  }

  /** Two `Objects.requireNonNull` checks in argument order: the first null argument throws. */
  function RequireBoth(a: Nullable<string>, b: Nullable<string>): (r: Result<(string, string)>)
    ensures r.Ok? <==> a.NonNull? && b.NonNull?
    ensures r.Ok? ==> r.value == (a.ref, b.ref)
    ensures r.Err? ==> r.exc == NullPointer
  {
    match a
    case Null => Err(NullPointer)
    case NonNull(x) =>
      match b
      case Null => Err(NullPointer)
      case NonNull(y) => Ok((x, y))
  }

  /** `Http.Header`: a name and a value. */
  datatype Header = Header(name: string, value: string)

  /** `new Http.Header(name, value)`. */
  function NewHeader(name: Nullable<string>, value: Nullable<string>): (r: Result<Header>)
    ensures r.Ok? <==> name.NonNull? && value.NonNull?
    ensures r.Ok? ==> r.value.name == name.ref && r.value.value == value.ref
    ensures r.Err? ==> r.exc == NullPointer
  {
    match RequireBoth(name, value)
    case Ok(p) => Ok(Header(p.0, p.1))
    case Err(e) => Err(e)
  }

  /** `Http.BasicAuth`: a user name and a password. */
  datatype BasicAuth = BasicAuth(username: string, password: string)

  /** `new Http.BasicAuth(username, password)`. */
  function NewBasicAuth(username: Nullable<string>, password: Nullable<string>): (r: Result<BasicAuth>)
    ensures r.Ok? <==> username.NonNull? && password.NonNull?
    ensures r.Ok? ==> r.value.username == username.ref && r.value.password == password.ref
    ensures r.Err? ==> r.exc == NullPointer
  {
    match RequireBoth(username, password)
    case Ok(p) => Ok(BasicAuth(p.0, p.1))
    case Err(e) => Err(e)
  }

  /** `Http.WebhookVerification`: a provider and a secret. */
  datatype WebhookVerification = WebhookVerification(provider: string, secret: string)

  /** `new Http.WebhookVerification(provider, secret)`. */
  function NewWebhookVerification(provider: Nullable<string>, secret: Nullable<string>): (r: Result<WebhookVerification>)
    ensures r.Ok? <==> provider.NonNull? && secret.NonNull?
    ensures r.Ok? ==> r.value.provider == provider.ref && r.value.secret == secret.ref
    ensures r.Err? ==> r.exc == NullPointer
  {
    match RequireBoth(provider, secret)
    case Ok(p) => Ok(WebhookVerification(p.0, p.1))
    case Err(e) => Err(e)
  }

  /** A list setter's effect: `list.add(Objects.requireNonNull(x))`. */
  function AppendNonNull(list: seq<string>, x: Nullable<string>): (r: Result<seq<string>>)
    ensures r.Ok? <==> x.NonNull?
    ensures r.Ok? ==> r.value == list + [x.ref]
    ensures r.Err? ==> r.exc == NullPointer
  {
    match x
    case Null => Err(NullPointer)
    case NonNull(s) => Ok(list + [s])
  }

  /** The fields of an `OAuth` object. */
  datatype OAuthState = OAuthState(
    provider: string, clientId: Nullable<string>, clientSecret: Nullable<string>,
    allowEmails: seq<string>, allowDomains: seq<string>, scopes: seq<string>)

  /** `Http.OAuth`: a provider, an optional client, and three lists that grow in call order. */
  class OAuth {
    const provider: string
    var clientId: Nullable<string>
    var clientSecret: Nullable<string>
    var allowEmails: seq<string>
    var allowDomains: seq<string>
    var scopes: seq<string>

    ghost function State(): OAuthState
      reads this
    {
      OAuthState(provider, clientId, clientSecret, allowEmails, allowDomains, scopes)
    }

    constructor(provider: string)
      ensures State() == OAuthState(provider, Null, Null, [], [], [])
    {
      this.provider := provider;
      clientId := Null;
      clientSecret := Null;
      allowEmails := [];
      allowDomains := [];
      scopes := [];
    }

    /** `new OAuth(provider)`: a null provider throws before any object is built. */
    static method New(provider: Nullable<string>) returns (r: Result<OAuth>)
      ensures r.Ok? <==> provider.NonNull?
      ensures r.Ok? ==> fresh(r.value) && r.value.State() == OAuthState(provider.ref, Null, Null, [], [], [])
      ensures r.Err? ==> r.exc == NullPointer
    {
      match provider
      case Null => r := Err(NullPointer);
      case NonNull(p) =>
        var o := new OAuth(p);
        r := Ok(o);
    }

    /** `hasClientConfigured()`. */
    predicate HasClientConfigured()
      reads this
    {
      clientId.NonNull? && clientSecret.NonNull?
    }

    /**
     * `client(id, secret)`: the id is stored before the secret is checked, so a
     * null secret throws with the new id already in place next to the old secret.
     */
    method Client(id: Nullable<string>, secret: Nullable<string>) returns (r: Result<OAuth>)
      modifies this
      ensures r.Ok? <==> id.NonNull? && secret.NonNull?
      ensures r.Ok? ==> r.value == this
      ensures r.Err? ==> r.exc == NullPointer
      ensures id.Null? ==> State() == old(State())
      ensures id.NonNull? && secret.Null? ==> State() == old(State()).(clientId := id)
      ensures id.NonNull? && secret.NonNull? ==> State() == old(State()).(clientId := id, clientSecret := secret)
      ensures r.Ok? ==> HasClientConfigured()
      ensures id.NonNull? && secret.Null? ==> (HasClientConfigured() <==> old(clientSecret).NonNull?)
    {
      if id.Null? {
        return Err(NullPointer);
      }
      clientId := id;
      if secret.Null? {
        return Err(NullPointer);
      }
      clientSecret := secret;
      r := Ok(this);
    }

    /** `allowEmail(email)`. */
    method AllowEmail(email: Nullable<string>) returns (r: Result<OAuth>)
      modifies this
      ensures r.Ok? <==> email.NonNull?
      ensures r.Ok? ==> r.value == this && State() == old(State()).(allowEmails := old(allowEmails) + [email.ref])
      ensures r.Err? ==> r.exc == NullPointer && State() == old(State())
    {
      var list := AppendNonNull(allowEmails, email);
      if list.Err? {
        return Err(list.exc);
      }
      allowEmails := list.value;
      r := Ok(this);
    }

    /** `allowDomain(domain)`. */
    method AllowDomain(domain: Nullable<string>) returns (r: Result<OAuth>)
      modifies this
      ensures r.Ok? <==> domain.NonNull?
      ensures r.Ok? ==> r.value == this && State() == old(State()).(allowDomains := old(allowDomains) + [domain.ref])
      ensures r.Err? ==> r.exc == NullPointer && State() == old(State())
    {
      var list := AppendNonNull(allowDomains, domain);
      if list.Err? {
        return Err(list.exc);
      }
      allowDomains := list.value;
      r := Ok(this);
    }

    /** `scope(scope)`. */
    method Scope(scope: Nullable<string>) returns (r: Result<OAuth>)
      modifies this
      ensures r.Ok? <==> scope.NonNull?
      ensures r.Ok? ==> r.value == this && State() == old(State()).(scopes := old(scopes) + [scope.ref])
      ensures r.Err? ==> r.exc == NullPointer && State() == old(State())
    {
      var list := AppendNonNull(scopes, scope);
      if list.Err? {
        return Err(list.exc);
      }
      scopes := list.value;
      r := Ok(this);
    }
  }

  /** The fields of an `OIDC` object. */
  datatype OidcState = OidcState(
    issuerUrl: string, clientId: string, clientSecret: string,
    allowEmails: seq<string>, allowDomains: seq<string>, scopes: seq<string>)

  /** `Http.OIDC`: an issuer and a client fixed at construction, and three growing lists. */
  class OIDC {
    const issuerUrl: string
    const clientId: string
    const clientSecret: string
    var allowEmails: seq<string>
    var allowDomains: seq<string>
    var scopes: seq<string>

    ghost function State(): OidcState
      reads this
    {
      OidcState(issuerUrl, clientId, clientSecret, allowEmails, allowDomains, scopes)
    }

    constructor(issuerUrl: string, clientId: string, clientSecret: string)
      ensures State() == OidcState(issuerUrl, clientId, clientSecret, [], [], [])
    {
      this.issuerUrl := issuerUrl;
      this.clientId := clientId;
      this.clientSecret := clientSecret;
      allowEmails := [];
      allowDomains := [];
      scopes := [];
    }

    /** `new OIDC(issuerUrl, clientId, clientSecret)`: each argument is null-checked in order. */
    static method New(issuerUrl: Nullable<string>, clientId: Nullable<string>, clientSecret: Nullable<string>)
      returns (r: Result<OIDC>)
      ensures r.Ok? <==> issuerUrl.NonNull? && clientId.NonNull? && clientSecret.NonNull?
      ensures r.Ok? ==> fresh(r.value)
      ensures r.Ok? ==> r.value.State() == OidcState(issuerUrl.ref, clientId.ref, clientSecret.ref, [], [], [])
      ensures r.Err? ==> r.exc == NullPointer
    {
      if issuerUrl.Null? || clientId.Null? || clientSecret.Null? {
        return Err(NullPointer);
      }
      var o := new OIDC(issuerUrl.ref, clientId.ref, clientSecret.ref);
      r := Ok(o);
    }

    /** `allowEmail(email)`. */
    method AllowEmail(email: Nullable<string>) returns (r: Result<OIDC>)
      modifies this
      ensures r.Ok? <==> email.NonNull?
      ensures r.Ok? ==> r.value == this && State() == old(State()).(allowEmails := old(allowEmails) + [email.ref])
      ensures r.Err? ==> r.exc == NullPointer && State() == old(State())
    {
      var list := AppendNonNull(allowEmails, email);
      if list.Err? {
        return Err(list.exc);
      }
      allowEmails := list.value;
      r := Ok(this);
    }

    /** `allowDomain(domain)`. */
    method AllowDomain(domain: Nullable<string>) returns (r: Result<OIDC>)
      modifies this
      ensures r.Ok? <==> domain.NonNull?
      ensures r.Ok? ==> r.value == this && State() == old(State()).(allowDomains := old(allowDomains) + [domain.ref])
      ensures r.Err? ==> r.exc == NullPointer && State() == old(State())
    {
      var list := AppendNonNull(allowDomains, domain);
      if list.Err? {
        return Err(list.exc);
      }
      allowDomains := list.value;
      r := Ok(this);
    }

    /** `scope(scope)`. */
    method Scope(scope: Nullable<string>) returns (r: Result<OIDC>)
      modifies this
      ensures r.Ok? <==> scope.NonNull?
      ensures r.Ok? ==> r.value == this && State() == old(State()).(scopes := old(scopes) + [scope.ref])
      ensures r.Err? ==> r.exc == NullPointer && State() == old(State())
    {
      var list := AppendNonNull(scopes, scope);
      if list.Err? {
        return Err(list.exc);
      }
      scopes := list.value;
      r := Ok(this);
    }
  }
}
