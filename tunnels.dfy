/**
 * The tunnel builders of the older API generation: the agent and endpoint
 * tunnel builders (the same rules in both files: CIDR lists, a nullable PROXY
 * protocol and a nullable forwards-to), and the labeled tunnel builder with its
 * label map and label list.
 */
module Tunnels {
  import opened Exceptions
  import ProxyProtos
  import Builders

  /** `hasProxyProto()`: a protocol is set and it is not None. */
  predicate HasProxyProto(p: Nullable<ProxyProtos.ProxyProto>)
  {
    p.NonNull? && !p.ref.None?
  }

  /** `getProxyProtoVersion()`: 0 for null, otherwise the constant's version. */
  function ProxyProtoVersion(p: Nullable<ProxyProtos.ProxyProto>): (v: int)
    ensures p.Null? ==> v == 0
    ensures p.NonNull? ==> v == ProxyProtos.Version(p.ref)
  {
    match p
    case Null => 0
    case NonNull(q) => ProxyProtos.Version(q)
  }

  /**
   * The predicate and the version agree: a PROXY protocol is in use exactly when
   * the version is not 0, and null and None are told apart by neither.
   */
  lemma HasProxyProtoIffVersion(p: Nullable<ProxyProtos.ProxyProto>)
    ensures HasProxyProto(p) <==> ProxyProtoVersion(p) != 0
    ensures HasProxyProto(p) <==> p == NonNull(ProxyProtos.V1) || p == NonNull(ProxyProtos.V2)
    ensures !HasProxyProto(Null) && !HasProxyProto(NonNull(ProxyProtos.None))
    ensures ProxyProtoVersion(Null) == ProxyProtoVersion(NonNull(ProxyProtos.None)) == 0
  {
  }

  /** The fields of an agent or endpoint tunnel builder. */
  datatype TunnelState = TunnelState(
    allowCidr: seq<Nullable<string>>, denyCidr: seq<Nullable<string>>,
    proxyProto: Nullable<ProxyProtos.ProxyProto>, forwardsTo: Nullable<string>)

  /**
   * `AgentTunnel.Builder`, whose rules `EndpointTunnel.Builder` repeats word for
   * word: every setter stores or appends its argument as given, null included.
   */
  class TunnelBuilder {
    var allowCidr: seq<Nullable<string>>
    var denyCidr: seq<Nullable<string>>
    var proxyProto: Nullable<ProxyProtos.ProxyProto>
    var forwardsTo: Nullable<string>

    ghost function State(): TunnelState
      reads this
    {
      TunnelState(allowCidr, denyCidr, proxyProto, forwardsTo)
    }

    /** A new builder: empty lists, and null protocol and forwards-to. */
    constructor()
      ensures State() == TunnelState([], [], Null, Null)
      ensures !HasProxyProto(proxyProto) && ProxyProtoVersion(proxyProto) == 0 && !HasForwardsTo()
    {
      allowCidr := [];
      denyCidr := [];
      proxyProto := Null;
      forwardsTo := Null;
    }

    /** `allowCIDR(x)`. */
    method AllowCidr(x: Nullable<string>) returns (r: TunnelBuilder)
      modifies this
      ensures r == this && State() == old(State()).(allowCidr := old(allowCidr) + [x])
    {
      allowCidr := allowCidr + [x];
      r := this;
    }

    /** `denyCIDR(x)`. */
    method DenyCidr(x: Nullable<string>) returns (r: TunnelBuilder)
      modifies this
      ensures r == this && State() == old(State()).(denyCidr := old(denyCidr) + [x])
    {
      denyCidr := denyCidr + [x];
      r := this;
    }

    /** `proxyProto(p)`: no null check here, unlike the endpoint builder's. */
    method ProxyProto(p: Nullable<ProxyProtos.ProxyProto>) returns (r: TunnelBuilder)
      modifies this
      ensures r == this && State() == old(State()).(proxyProto := p)
    {
      proxyProto := p;
      r := this;
    }

    /** `forwardsTo(f)`: null clears it. */
    method ForwardsTo(f: Nullable<string>) returns (r: TunnelBuilder)
      modifies this
      ensures r == this && State() == old(State()).(forwardsTo := f)
      ensures HasForwardsTo() <==> f.NonNull?
    {
      forwardsTo := f;
      r := this;
    }

    /** `hasForwardsTo()`. */
    predicate HasForwardsTo()
      reads this
    {
      forwardsTo.NonNull?
    }
  }

  /** `LabeledTunnel.Label`: a name and a value. */
  datatype Label = Label(name: string, value: string)

  /** `new Label(name, value)`: the name is checked, then the value. */
  function NewLabel(name: Nullable<string>, value: Nullable<string>): (r: Result<Label>)
    ensures r.Ok? <==> name.NonNull? && value.NonNull?
    ensures r.Ok? ==> r.value == Label(name.ref, value.ref)
    ensures r.Err? ==> r.exc == NullPointer
  {
    match name
    case Null => Err(NullPointer)
    case NonNull(n) =>
      match value
      case Null => Err(NullPointer)
      case NonNull(v) => Ok(Label(n, v))
  }

  /** `order` lists every key of `labels` exactly once: the order a HashMap's entry set is walked in. */
  predicate Enumerates(order: seq<string>, labels: map<string, string>)
  {
    |order| == |labels| &&
    (forall k :: k in labels ==> k in order) &&
    (forall i :: 0 <= i < |order| ==> order[i] in labels) &&
    (forall i, j :: 0 <= i < j < |order| ==> order[i] != order[j])
  }

  /** `LabeledTunnel.Builder`. */
  class LabeledTunnelBuilder {
    var labels: map<string, string>

    constructor()
      ensures labels == map[]
    {
      labels := map[];
    }

    /** `label(key, value)`: inserts or overwrites `key`; a null key or value changes nothing. */
    method Label(key: Nullable<string>, value: Nullable<string>) returns (r: Result<LabeledTunnelBuilder>)
      modifies this
      ensures r.Ok? <==> key.NonNull? && value.NonNull?
      ensures r.Ok? ==> r.value == this && labels == old(labels)[key.ref := value.ref]
      ensures r.Err? ==> r.exc == NullPointer && labels == old(labels)
    {
      var m := Builders.PutLabel(labels, key, value);
      if m.Err? {
        return Err(m.exc);
      }
      labels := m.value;
      r := Ok(this);
    }

    /**
     * `getLabels()`: a fresh list with one label per map entry, walked in the map's
     * iteration `order`; the map itself is only read.
     */
    function GetLabels(order: seq<string>): (ls: seq<Label>)
      reads this
      requires Enumerates(order, labels)
      ensures |ls| == |labels|
      ensures forall i :: 0 <= i < |ls| ==> ls[i].name in labels && ls[i].value == labels[ls[i].name]
      ensures forall i, j :: 0 <= i < j < |ls| ==> ls[i].name != ls[j].name
      ensures forall k :: k in labels ==> exists i :: 0 <= i < |ls| && ls[i].name == k && ls[i].value == labels[k]
    {
      LabelsOf(labels, order)
    }
  }

  /** The labels of the keys in `keys`, in that order. */
  function LabelsOf(labels: map<string, string>, keys: seq<string>): (ls: seq<Label>)
    requires forall k :: k in keys ==> k in labels
    ensures |ls| == |keys|
    ensures forall i :: 0 <= i < |ls| ==> ls[i] == Label(keys[i], labels[keys[i]])
  {
    if keys == [] then []
    else [Label(keys[0], labels[keys[0]])] + LabelsOf(labels, keys[1..])
  }
}
