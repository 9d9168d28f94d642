/**
 * The listener builders. Java's chain of subclasses (MetadataBuilder, then
 * EndpointBuilder, then the HTTP, TCP and TLS builders; MetadataBuilder, then
 * EdgeBuilder) is modelled by composition: each builder owns the object that
 * holds its inherited fields. Every setter either returns the builder itself
 * or throws, and states the builder's whole new state through `State()`.
 */
module Builders {
  import opened Exceptions
  import ProxyProtos
  import Http
  import NativeGlue
  import Nio

  /** A Java `byte[]` setting (certificates and keys in PEM form). */
  type Bytes = seq<Nio.Byte>

  /** The listener protocols a session can be asked to start. */
  datatype ListenerKind = HttpEndpoint | TcpEndpoint | TlsEndpoint | Edge

  /** A request a builder hands to its session: `listenX(builder)` or `forwardX(builder, url)`. */
  datatype Request =
    | ListenRequest(kind: ListenerKind, builder: object)
    | ForwardRequest(kind: ListenerKind, builder: object, url: string)

  /** A listener or forwarder as the session hands it back. */
  type Handle = nat

  /**
   * The session, reduced to the requests it has received. Starting a listener is
   * the engine's business: its answer comes in as a parameter.
   */
  class Session {
    var requests: seq<Request>

    constructor()
      ensures requests == []
    {
      requests := [];
    }
  }

  /** One delegation to a builder's session, which may be null. */
  method Submit(session: Session?, req: Request, answer: Result<Handle>) returns (r: Result<Handle>)
    modifies session
    ensures session == null ==> r == Err(NullPointer)
    ensures session != null ==> r == answer && session.requests == old(session.requests) + [req]
  {
    if session == null {
      return Err(NullPointer);
    }
    session.requests := session.requests + [req];
    r := answer;
  }

  /** The fields of a `MetadataBuilder`. */
  datatype MetadataState = MetadataState(metadata: Optional<string>, forwardsTo: Optional<string>)

  /** `MetadataBuilder`: the metadata and forwards-to strings every listener builder carries. */
  class MetadataBuilder {
    var metadata: Optional<string>
    var forwardsTo: Optional<string>

    ghost function State(): MetadataState
      reads this
    {
      MetadataState(metadata, forwardsTo)
    }

    constructor()
      ensures State() == MetadataState(Empty, Empty)
    {
      metadata := Empty;
      forwardsTo := Empty;
    }

    /** `metadata(x)`: `Optional.of(x)`, so a null `x` throws and nothing changes. */
    method Metadata(x: Nullable<string>) returns (r: Result<MetadataBuilder>)
      modifies this
      ensures r.Ok? <==> x.NonNull?
      ensures r.Ok? ==> r.value == this && State() == old(State()).(metadata := Of(x.ref))
      ensures r.Err? ==> r.exc == NullPointer && State() == old(State())
    {
      var o := OptionalOf(x);
      if o.Err? {
        return Err(o.exc);
      }
      metadata := o.value;
      r := Ok(this);
    }

    /** `forwardsTo(x)`: `Optional.of(x)`, so a null `x` throws and nothing changes. */
    method ForwardsTo(x: Nullable<string>) returns (r: Result<MetadataBuilder>)
      modifies this
      ensures r.Ok? <==> x.NonNull?
      ensures r.Ok? ==> r.value == this && State() == old(State()).(forwardsTo := Of(x.ref))
      ensures r.Err? ==> r.exc == NullPointer && State() == old(State())
    {
      var o := OptionalOf(x);
      if o.Err? {
        return Err(o.exc);
      }
      forwardsTo := o.value;
      r := Ok(this);
    }
  }

  /** The fields `EndpointBuilder` adds. */
  datatype EndpointState = EndpointState(
    allowCidr: seq<Nullable<string>>, denyCidr: seq<Nullable<string>>,
    proxyProto: ProxyProtos.ProxyProto, policy: Optional<string>)

  /** `EndpointBuilder`: the CIDR lists, PROXY protocol and policy of an endpoint. */
  class EndpointBuilder {
    const meta: MetadataBuilder
    var allowCidr: seq<Nullable<string>>
    var denyCidr: seq<Nullable<string>>
    var proxyProto: ProxyProtos.ProxyProto
    var policy: Optional<string>

    ghost function State(): EndpointState
      reads this
    {
      EndpointState(allowCidr, denyCidr, proxyProto, policy)
    }

    /** A new builder: empty lists, no PROXY protocol (so version 0) and no policy. */
    constructor()
      ensures fresh(meta) && meta.State() == MetadataState(Empty, Empty)
      ensures State() == EndpointState([], [], ProxyProtos.None, Empty)
      ensures ProxyProtoVersion() == 0
    {
      meta := new MetadataBuilder();
      allowCidr := [];
      denyCidr := [];
      proxyProto := ProxyProtos.None;
      policy := Empty;
    }

    /** `allowCIDR(x)`: appended as given, null included; the deny list is untouched. */
    method AllowCidr(x: Nullable<string>) returns (r: EndpointBuilder)
      modifies this
      ensures r == this && State() == old(State()).(allowCidr := old(allowCidr) + [x])
    {
      allowCidr := allowCidr + [x];
      r := this;
    }

    /** `denyCIDR(x)`: appended as given, null included; the allow list is untouched. */
    method DenyCidr(x: Nullable<string>) returns (r: EndpointBuilder)
      modifies this
      ensures r == this && State() == old(State()).(denyCidr := old(denyCidr) + [x])
    {
      denyCidr := denyCidr + [x];
      r := this;
    }

    /** `proxyProto(p)`: null is rejected and keeps the previous setting. */
    method ProxyProto(p: Nullable<ProxyProtos.ProxyProto>) returns (r: Result<EndpointBuilder>)
      modifies this
      ensures r.Ok? <==> p.NonNull?
      ensures r.Ok? ==> r.value == this && State() == old(State()).(proxyProto := p.ref)
      ensures r.Err? ==> r.exc == NullPointer && State() == old(State())
    {
      var q := RequireNonNull(p);
      if q.Err? {
        return Err(q.exc);
      }
      proxyProto := q.value;
      r := Ok(this);
    }

    /** `policy(p)`: `Optional.ofNullable(p)`, so null clears the policy. */
    method Policy(p: Nullable<string>) returns (r: EndpointBuilder)
      modifies this
      ensures r == this && State() == old(State()).(policy := OfNullable(p))
    {
      policy := OfNullable(p);
      r := this;
    }

    /** `getProxyProtoVersion()`: the version of the stored setting, 0 exactly for None. */
    function ProxyProtoVersion(): (v: int)
      reads this
      ensures v == ProxyProtos.Version(proxyProto)
      ensures v == 0 <==> proxyProto.None?
    {
      ProxyProtos.Version(proxyProto)
    }
  }

  /** The fields `HttpBuilder` adds; the circuit breaker is kept as its presence only. */
  datatype HttpState = HttpState(
    scheme: Nullable<Http.Scheme>, domain: Nullable<string>, mutualTlsCa: Nullable<Bytes>,
    compression: bool, websocketTcpConversion: bool, circuitBreaker: bool,
    requestHeaders: seq<Http.Header>, responseHeaders: seq<Http.Header>,
    removeRequestHeaders: seq<string>, removeResponseHeaders: seq<string>,
    basicAuth: Nullable<Http.BasicAuth>, oauth: Http.OAuth?, oidc: Http.OIDC?,
    webhookVerification: Nullable<Http.WebhookVerification>)

  /** `HttpBuilder`. */
  class HttpBuilder {
    const session: Session?
    const endpoint: EndpointBuilder
    var scheme: Nullable<Http.Scheme>
    var domain: Nullable<string>
    var mutualTlsCa: Nullable<Bytes>
    var compression: bool
    var websocketTcpConversion: bool
    var circuitBreaker: bool
    var requestHeaders: seq<Http.Header>
    var responseHeaders: seq<Http.Header>
    var removeRequestHeaders: seq<string>
    var removeResponseHeaders: seq<string>
    var basicAuth: Nullable<Http.BasicAuth>
    var oauth: Http.OAuth?
    var oidc: Http.OIDC?
    var webhookVerification: Nullable<Http.WebhookVerification>

    ghost function State(): HttpState
      reads this
    {
      HttpState(scheme, domain, mutualTlsCa, compression, websocketTcpConversion, circuitBreaker,
                requestHeaders, responseHeaders, removeRequestHeaders, removeResponseHeaders,
                basicAuth, oauth, oidc, webhookVerification)
    }

    /** A new builder: everything unset or empty, both flags false. */
    constructor(session: Session?)
      ensures this.session == session && fresh(endpoint) && fresh(endpoint.meta)
      ensures State() == HttpState(Null, Null, Null, false, false, false, [], [], [], [], Null, null, null, Null)
      ensures endpoint.State() == EndpointState([], [], ProxyProtos.None, Empty)
      ensures endpoint.meta.State() == MetadataState(Empty, Empty)
    {
      this.session := session;
      endpoint := new EndpointBuilder();
      scheme := Null;
      domain := Null;
      mutualTlsCa := Null;
      compression := false;
      websocketTcpConversion := false;
      circuitBreaker := false;
      requestHeaders := [];
      responseHeaders := [];
      removeRequestHeaders := [];
      removeResponseHeaders := [];
      basicAuth := Null;
      oauth := null;
      oidc := null;
      webhookVerification := Null;
    }

    /** `scheme(s)`: stored as given; null is allowed and clears the scheme. */
    method Scheme(s: Nullable<Http.Scheme>) returns (r: HttpBuilder)
      modifies this
      ensures r == this && State() == old(State()).(scheme := s)
      ensures HasScheme() <==> s.NonNull?
    {
      scheme := s;
      r := this;
    }

    /** `hasScheme()`. */
    predicate HasScheme()
      reads this
    {
      scheme.NonNull?
    }

    /** `getSchemeName()`: the scheme's name, or a NullPointerException when no scheme is set. */
    function SchemeName(): (r: Result<string>)
      reads this
      ensures r.Ok? <==> HasScheme()
      ensures r.Ok? ==> r.value == Http.SchemeName(scheme.ref)
      ensures r.Err? ==> r.exc == NullPointer
    {
      match scheme
      case Null => Err(NullPointer)
      case NonNull(s) => Ok(Http.SchemeName(s))
    }

    /** `domain(d)`: null is rejected and keeps the previous domain. */
    method Domain(d: Nullable<string>) returns (r: Result<HttpBuilder>)
      modifies this
      ensures r.Ok? <==> d.NonNull?
      ensures r.Ok? ==> r.value == this && State() == old(State()).(domain := d)
      ensures r.Err? ==> r.exc == NullPointer && State() == old(State())
      ensures HasDomain() <==> d.NonNull? || old(HasDomain())
    {
      var v := RequireNonNull(d);
      if v.Err? {
        return Err(v.exc);
      }
      domain := NonNull(v.value);
      r := Ok(this);
    }

    /** `hasDomain()`. */
    predicate HasDomain()
      reads this
    {
      domain.NonNull?
    }

    /** `mutualTLSCA(ca)`: null is rejected and keeps the previous value. */
    method MutualTlsCa(ca: Nullable<Bytes>) returns (r: Result<HttpBuilder>)
      modifies this
      ensures r.Ok? <==> ca.NonNull?
      ensures r.Ok? ==> r.value == this && State() == old(State()).(mutualTlsCa := ca)
      ensures r.Err? ==> r.exc == NullPointer && State() == old(State())
    {
      var v := RequireNonNull(ca);
      if v.Err? {
        return Err(v.exc);
      }
      mutualTlsCa := NonNull(v.value);
      r := Ok(this);
    }

    /** `compression()`: switches compression on; calling it again changes nothing. */
    method Compression() returns (r: HttpBuilder)
      modifies this
      ensures r == this && State() == old(State()).(compression := true)
      ensures old(compression) ==> State() == old(State())
    {
      compression := true;
      r := this;
    }

    /** `websocketTcpConversion()`: switches the conversion on; calling it again changes nothing. */
    method WebsocketTcpConversion() returns (r: HttpBuilder)
      modifies this
      ensures r == this && State() == old(State()).(websocketTcpConversion := true)
      ensures old(websocketTcpConversion) ==> State() == old(State())
    {
      websocketTcpConversion := true;
      r := this;
    }

    /** `circuitBreaker(value)`: from now on a circuit breaker is present (its value is not modelled). */
    method CircuitBreaker() returns (r: HttpBuilder)
      modifies this
      ensures r == this && State() == old(State()).(circuitBreaker := true)
      ensures HasCircuitBreaker()
    {
      circuitBreaker := true;
      r := this;
    }

    /** `hasCircuitBreaker()`. */
    predicate HasCircuitBreaker()
      reads this
    {
      circuitBreaker
    }

    /** `getCircuitBreaker()`: `Optional.get`, which throws when no breaker was set. */
    function GetCircuitBreaker(): (r: Result<()>)
      reads this
      ensures r.Ok? <==> HasCircuitBreaker()
      ensures r.Err? ==> r.exc == NoSuchElement
    {
      if circuitBreaker then Ok(()) else Err(NoSuchElement)
    }

    /** `addRequestHeader(name, value)`: a new header at the end of the request-header list. */
    method AddRequestHeader(name: Nullable<string>, value: Nullable<string>) returns (r: Result<HttpBuilder>)
      modifies this
      ensures r.Ok? <==> name.NonNull? && value.NonNull?
      ensures r.Ok? ==> r.value == this
      ensures r.Ok? ==>
        State() == old(State()).(requestHeaders := old(requestHeaders) + [Http.Header(name.ref, value.ref)])
      ensures r.Err? ==> r.exc == NullPointer && State() == old(State())
    {
      var h := Http.NewHeader(name, value);
      if h.Err? {
        return Err(h.exc);
      }
      requestHeaders := requestHeaders + [h.value];
      r := Ok(this);
    }

    /** `addResponseHeader(name, value)`: a new header at the end of the response-header list. */
    method AddResponseHeader(name: Nullable<string>, value: Nullable<string>) returns (r: Result<HttpBuilder>)
      modifies this
      ensures r.Ok? <==> name.NonNull? && value.NonNull?
      ensures r.Ok? ==> r.value == this
      ensures r.Ok? ==>
        State() == old(State()).(responseHeaders := old(responseHeaders) + [Http.Header(name.ref, value.ref)])
      ensures r.Err? ==> r.exc == NullPointer && State() == old(State())
    {
      var h := Http.NewHeader(name, value);
      if h.Err? {
        return Err(h.exc);
      }
      responseHeaders := responseHeaders + [h.value];
      r := Ok(this);
    }

    /** `removeRequestHeader(name)`: the name goes at the end of its list; null is rejected. */
    method RemoveRequestHeader(name: Nullable<string>) returns (r: Result<HttpBuilder>)
      modifies this
      ensures r.Ok? <==> name.NonNull?
      ensures r.Ok? ==> r.value == this
      ensures r.Ok? ==>
        State() == old(State()).(removeRequestHeaders := old(removeRequestHeaders) + [name.ref])
      ensures r.Err? ==> r.exc == NullPointer && State() == old(State())
    {
      var list := Http.AppendNonNull(removeRequestHeaders, name);
      if list.Err? {
        return Err(list.exc);
      }
      removeRequestHeaders := list.value;
      r := Ok(this);
    }

    /** `removeResponseHeader(name)`: the name goes at the end of its list; null is rejected. */
    method RemoveResponseHeader(name: Nullable<string>) returns (r: Result<HttpBuilder>)
      modifies this
      ensures r.Ok? <==> name.NonNull?
      ensures r.Ok? ==> r.value == this
      ensures r.Ok? ==>
        State() == old(State()).(removeResponseHeaders := old(removeResponseHeaders) + [name.ref])
      ensures r.Err? ==> r.exc == NullPointer && State() == old(State())
    {
      var list := Http.AppendNonNull(removeResponseHeaders, name);
      if list.Err? {
        return Err(list.exc);
      }
      removeResponseHeaders := list.value;
      r := Ok(this);
    }

    /** `basicAuthOptions(o)`: stored as given, null included. */
    method BasicAuthOptions(o: Nullable<Http.BasicAuth>) returns (r: HttpBuilder)
      modifies this
      ensures r == this && State() == old(State()).(basicAuth := o)
    {
      basicAuth := o;
      r := this;
    }

    /** `oauthOptions(o)`: the OAuth object itself is stored, null included. */
    method OAuthOptions(o: Http.OAuth?) returns (r: HttpBuilder)
      modifies this
      ensures r == this && State() == old(State()).(oauth := o)
    {
      oauth := o;
      r := this;
    }

    /** `oidcOptions(o)`: the OIDC object itself is stored, null included. */
    method OidcOptions(o: Http.OIDC?) returns (r: HttpBuilder)
      modifies this
      ensures r == this && State() == old(State()).(oidc := o)
    {
      oidc := o;
      r := this;
    }

    /** `webhookVerification(w)`: stored as given, null included. */
    method WebhookVerification(w: Nullable<Http.WebhookVerification>) returns (r: HttpBuilder)
      modifies this
      ensures r == this && State() == old(State()).(webhookVerification := w)
    {
      webhookVerification := w;
      r := this;
    }

    /** `listen()`: `session.listenHttp(this)`. */
    method Listen(answer: Result<Handle>) returns (r: Result<Handle>)
      modifies session
      ensures session == null ==> r == Err(NullPointer)
      ensures session != null ==> r == answer && session.requests == old(session.requests) + [ListenRequest(HttpEndpoint, this)]
    {
      r := Submit(session, ListenRequest(HttpEndpoint, this), answer);
    }

    /** `forward(url)`: `session.forwardHttp(this, url)`. */
    method Forward(url: string, answer: Result<Handle>) returns (r: Result<Handle>)
      modifies session
      ensures session == null ==> r == Err(NullPointer)
      ensures session != null ==> r == answer && session.requests == old(session.requests) + [ForwardRequest(HttpEndpoint, this, url)]
    {
      r := Submit(session, ForwardRequest(HttpEndpoint, this, url), answer);
    }
  }

  /** The fields `TlsBuilder` adds. */
  datatype TlsState = TlsState(
    domain: Optional<string>, mutualTlsCa: Nullable<Bytes>,
    terminationCertPem: Nullable<Bytes>, terminationKeyPem: Nullable<Bytes>)

  /** `TlsBuilder`. */
  class TlsBuilder {
    const session: Session?
    const endpoint: EndpointBuilder
    var domain: Optional<string>
    var mutualTlsCa: Nullable<Bytes>
    var terminationCertPem: Nullable<Bytes>
    var terminationKeyPem: Nullable<Bytes>

    ghost function State(): TlsState
      reads this
    {
      TlsState(domain, mutualTlsCa, terminationCertPem, terminationKeyPem)
    }

    /** A new builder: no domain, no CA and no termination, which the native side accepts. */
    constructor(session: Session?)
      ensures this.session == session && fresh(endpoint) && fresh(endpoint.meta)
      ensures State() == TlsState(Empty, Null, Null, Null)
      ensures endpoint.State() == EndpointState([], [], ProxyProtos.None, Empty)
      ensures endpoint.meta.State() == MetadataState(Empty, Empty)
      ensures NativeGlue.TlsTermination(terminationCertPem, terminationKeyPem) == Ok(Empty)
    {
      this.session := session;
      endpoint := new EndpointBuilder();
      domain := Empty;
      mutualTlsCa := Null;
      terminationCertPem := Null;
      terminationKeyPem := Null;
    }

    /** `domain(d)`: `Optional.of(d)`, so null throws and keeps the previous domain. */
    method Domain(d: Nullable<string>) returns (r: Result<TlsBuilder>)
      modifies this
      ensures r.Ok? <==> d.NonNull?
      ensures r.Ok? ==> r.value == this && State() == old(State()).(domain := Of(d.ref))
      ensures r.Err? ==> r.exc == NullPointer && State() == old(State())
    {
      var o := OptionalOf(d);
      if o.Err? {
        return Err(o.exc);
      }
      domain := o.value;
      r := Ok(this);
    }

    /** `mutualTLSCA(ca)`: null is rejected and keeps the previous value. */
    method MutualTlsCa(ca: Nullable<Bytes>) returns (r: Result<TlsBuilder>)
      modifies this
      ensures r.Ok? <==> ca.NonNull?
      ensures r.Ok? ==> r.value == this && State() == old(State()).(mutualTlsCa := ca)
      ensures r.Err? ==> r.exc == NullPointer && State() == old(State())
    {
      var v := RequireNonNull(ca);
      if v.Err? {
        return Err(v.exc);
      }
      mutualTlsCa := NonNull(v.value);
      r := Ok(this);
    }

    /**
     * `termination(cert, key)`: two assignments in a row, each null-checked. A null
     * key therefore throws after the certificate has been stored; on a builder with
     * no key yet, that leaves the half-set pair the native side refuses.
     */
    method Termination(cert: Nullable<Bytes>, key: Nullable<Bytes>) returns (r: Result<TlsBuilder>)
      modifies this
      ensures r.Ok? <==> cert.NonNull? && key.NonNull?
      ensures r.Ok? ==> r.value == this
      ensures r.Err? ==> r.exc == NullPointer
      ensures cert.Null? ==> State() == old(State())
      ensures cert.NonNull? && key.Null? ==> State() == old(State()).(terminationCertPem := cert)
      ensures cert.NonNull? && key.NonNull? ==>
        State() == old(State()).(terminationCertPem := cert, terminationKeyPem := key)
      ensures r.Ok? ==>
        NativeGlue.TlsTermination(terminationCertPem, terminationKeyPem) == Ok(Of(NativeGlue.Termination(cert.ref, key.ref)))
      ensures cert.NonNull? && key.Null? ==>
        (NativeGlue.TlsTermination(terminationCertPem, terminationKeyPem).Err? <==> old(terminationKeyPem).Null?)
    {
      var c := RequireNonNull(cert);
      if c.Err? {
        return Err(c.exc);
      }
      terminationCertPem := NonNull(c.value);
      var k := RequireNonNull(key);
      if k.Err? {
        return Err(k.exc);
      }
      terminationKeyPem := NonNull(k.value);
      r := Ok(this);
    }

    /** `listen()`: `session.listenTls(this)`. */
    method Listen(answer: Result<Handle>) returns (r: Result<Handle>)
      modifies session
      ensures session == null ==> r == Err(NullPointer)
      ensures session != null ==> r == answer && session.requests == old(session.requests) + [ListenRequest(TlsEndpoint, this)]
    {
      r := Submit(session, ListenRequest(TlsEndpoint, this), answer);
    }

    /** `forward(url)`: `session.forwardTls(this, url)`. */
    method Forward(url: string, answer: Result<Handle>) returns (r: Result<Handle>)
      modifies session
      ensures session == null ==> r == Err(NullPointer)
      ensures session != null ==> r == answer && session.requests == old(session.requests) + [ForwardRequest(TlsEndpoint, this, url)]
    {
      r := Submit(session, ForwardRequest(TlsEndpoint, this, url), answer);
    }
  }

  /** `TcpBuilder`. */
  class TcpBuilder {
    const session: Session?
    const endpoint: EndpointBuilder
    var remoteAddress: Optional<string>

    /** A new builder: no remote address. */
    constructor(session: Session?)
      ensures this.session == session && fresh(endpoint) && fresh(endpoint.meta)
      ensures remoteAddress == Empty
      ensures endpoint.State() == EndpointState([], [], ProxyProtos.None, Empty)
      ensures endpoint.meta.State() == MetadataState(Empty, Empty)
    {
      this.session := session;
      endpoint := new EndpointBuilder();
      remoteAddress := Empty;
    }

    /** `remoteAddress(a)`: `Optional.of(a)`; the last successful call wins, null throws and keeps it. */
    method RemoteAddress(a: Nullable<string>) returns (r: Result<TcpBuilder>)
      modifies this
      ensures r.Ok? <==> a.NonNull?
      ensures r.Ok? ==> r.value == this && remoteAddress == Of(a.ref)
      ensures r.Err? ==> r.exc == NullPointer && remoteAddress == old(remoteAddress)
    {
      var o := OptionalOf(a);
      if o.Err? {
        return Err(o.exc);
      }
      remoteAddress := o.value;
      r := Ok(this);
    }

    /** `listen()`: `session.listenTcp(this)`. */
    method Listen(answer: Result<Handle>) returns (r: Result<Handle>)
      modifies session
      ensures session == null ==> r == Err(NullPointer)
      ensures session != null ==> r == answer && session.requests == old(session.requests) + [ListenRequest(TcpEndpoint, this)]
    {
      r := Submit(session, ListenRequest(TcpEndpoint, this), answer);
    }

    /** `forward(url)`: `session.forwardTcp(this, url)`. */
    method Forward(url: string, answer: Result<Handle>) returns (r: Result<Handle>)
      modifies session
      ensures session == null ==> r == Err(NullPointer)
      ensures session != null ==> r == answer && session.requests == old(session.requests) + [ForwardRequest(TcpEndpoint, this, url)]
    {
      r := Submit(session, ForwardRequest(TcpEndpoint, this, url), answer);
    }
  }

  /**
   * `map.put(Objects.requireNonNull(key), Objects.requireNonNull(value))`: both
   * arguments are checked before the put, so a null leaves the map as it was.
   */
  function PutLabel(labels: map<string, string>, key: Nullable<string>, value: Nullable<string>): (r: Result<map<string, string>>)
    ensures r.Ok? <==> key.NonNull? && value.NonNull?
    ensures r.Err? ==> r.exc == NullPointer
    ensures r.Ok? ==> key.ref in r.value && r.value[key.ref] == value.ref
    ensures r.Ok? ==> r.value.Keys == labels.Keys + {key.ref}
    ensures r.Ok? ==> forall k :: k in labels && k != key.ref ==> r.value[k] == labels[k]
  {
    match key
    case Null => Err(NullPointer)
    case NonNull(k) =>
      match value
      case Null => Err(NullPointer)
      case NonNull(v) => Ok(labels[k := v])
  }

  /** Labelling the same key twice keeps only the second value. */
  lemma PutLabelLastWins(labels: map<string, string>, key: string, first: string, second: string)
    ensures PutLabel(labels, NonNull(key), NonNull(first)).Ok?
    ensures PutLabel(PutLabel(labels, NonNull(key), NonNull(first)).value, NonNull(key), NonNull(second)) ==
            PutLabel(labels, NonNull(key), NonNull(second))
  {
    var once := labels[key := first];
    assert once[key := second] == labels[key := second];
  }

  /** `EdgeBuilder`. */
  class EdgeBuilder {
    const session: Session?
    const meta: MetadataBuilder
    var labels: map<string, string>

    /** A new builder: no labels. */
    constructor(session: Session?)
      ensures this.session == session && fresh(meta)
      ensures labels == map[]
      ensures meta.State() == MetadataState(Empty, Empty)
    {
      this.session := session;
      meta := new MetadataBuilder();
      labels := map[];
    }

    /** `label(key, value)`: inserts or overwrites `key`; a null key or value throws and changes nothing. */
    method Label(key: Nullable<string>, value: Nullable<string>) returns (r: Result<EdgeBuilder>)
      modifies this
      ensures r.Ok? <==> key.NonNull? && value.NonNull?
      ensures r.Ok? ==> r.value == this && labels == old(labels)[key.ref := value.ref]
      ensures r.Err? ==> r.exc == NullPointer && labels == old(labels)
    {
      var m := PutLabel(labels, key, value);
      if m.Err? {
        return Err(m.exc);
      }
      labels := m.value;
      r := Ok(this);
    }

    /** `listen()`: `session.listenEdge(this)`. */
    method Listen(answer: Result<Handle>) returns (r: Result<Handle>)
      modifies session
      ensures session == null ==> r == Err(NullPointer)
      ensures session != null ==> r == answer && session.requests == old(session.requests) + [ListenRequest(Edge, this)]
    {
      r := Submit(session, ListenRequest(Edge, this), answer);
    }

    /** `forward(url)`: `session.forwardEdge(this, url)`. */
    method Forward(url: string, answer: Result<Handle>) returns (r: Result<Handle>)
      modifies session
      ensures session == null ==> r == Err(NullPointer)
      ensures session != null ==> r == answer && session.requests == old(session.requests) + [ForwardRequest(Edge, this, url)]
    {
      r := Submit(session, ForwardRequest(Edge, this, url), answer);
    }
  }
}
