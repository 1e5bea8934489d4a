/** The sing-box client subscription: one outbound per endpoint, plus the groups that choose among them. */
module ClientRender {
  import opened Wrappers
  import opened CompatModel
  import opened ServerRender

  datatype SelectionProfile = Reliability | Performance | Auto

  datatype Outbound =
    | VlessOutbound(tag: string, server: string, port: nat, uuid: string, flow: string,
                    serverName: string, fingerprint: string, publicKey: string, shortId: string)
    | HysteriaOutbound(tag: string, server: string, port: nat, password: string,
                       serverName: string, obfs: Option<string>)
    | UrlTest(tag: string, members: seq<string>)
    | Selector(tag: string, members: seq<string>, default: string)
    | Direct(tag: string)

  datatype Subscription = Subscription(outbounds: seq<Outbound>, routeFinal: string)

  function ParseProfile(s: string): Option<SelectionProfile> {
    if s == "reliability" then Some(Reliability)
    else if s == "performance" then Some(Performance)
    else if s == "auto" then Some(Auto)
    else None
  }

  /** The profile a request names; anything unknown falls back to the default. */
  function RequestedProfile(query: Option<string>): SelectionProfile {
    if query.Some? && ParseProfile(query.value).Some? then ParseProfile(query.value).value else Reliability
  }

  function EndpointOutbound(user: CompatUser, ep: CompatEndpoint): Outbound {
    var sni := if ep.serverName.Some? then ep.serverName.value else ep.host;
    match ep.publicParameters
    case RealityPublic(publicKey, shortId, fingerprint) =>
      VlessOutbound(ep.labelText, ep.host, ep.port, user.vlessUuid, VISION_FLOW, sni, fingerprint, publicKey, shortId)
    case Hysteria2Public(obfs) =>
      HysteriaOutbound(ep.labelText, ep.host, ep.port, user.hysteria2Password, sni, obfs)
  }

  function Labels(endpoints: seq<CompatEndpoint>): seq<string> {
    seq(|endpoints|, i requires 0 <= i < |endpoints| => endpoints[i].labelText)
  }

  function EndpointOutbounds(user: CompatUser, endpoints: seq<CompatEndpoint>): seq<Outbound> {
    seq(|endpoints|, i requires 0 <= i < |endpoints| => EndpointOutbound(user, endpoints[i]))
  }

  /** Label of the earliest endpoint using `transport`, if there is one. */
  function FirstLabel(endpoints: seq<CompatEndpoint>, transport: CompatTransport): Option<string> {
    if endpoints == [] then None
    else
      var last := endpoints[|endpoints| - 1];
      match FirstLabel(endpoints[..|endpoints| - 1], transport)
      case Some(text) => Some(text)
      case None => if last.transport == transport then Some(last.labelText) else None
  }

  function OrElse(preferred: Option<string>, fallback: string): string {
    if preferred.Some? then preferred.value else fallback
  }

  /** What the manual selector starts on. */
  function DefaultTag(endpoints: seq<CompatEndpoint>, profile: SelectionProfile): string {
    var any := if endpoints != [] then endpoints[0].labelText else "auto";
    var reality := OrElse(FirstLabel(endpoints, VlessReality), any);
    match profile
    case Auto => "auto"
    case Reliability => reality
    case Performance => OrElse(FirstLabel(endpoints, CompatTransport.Hysteria2), reality)
  }

  function ClientSubscription(user: CompatUser, endpoints: seq<CompatEndpoint>, profile: SelectionProfile): Subscription {
    var labels := Labels(endpoints);
    Subscription(
      EndpointOutbounds(user, endpoints)
      + [UrlTest("auto", labels), Selector("select", labels + ["auto"], DefaultTag(endpoints, profile)), Direct("direct")],
      "select")
  }

  /** Some outbound of the document carries this tag. */
  ghost predicate Names(doc: Subscription, tag: string) {
    exists i :: 0 <= i < |doc.outbounds| && doc.outbounds[i].tag == tag
  }

  /** Renders a user's subscription in one walk over the endpoint list. */
  method RenderClientSubscription(user: CompatUser, endpoints: seq<CompatEndpoint>, profile: SelectionProfile)
    returns (doc: Subscription)
    ensures doc == ClientSubscription(user, endpoints, profile)
  {
    var outbounds: seq<Outbound> := [];
    var tags: seq<string> := [];
    var realityTag: Option<string> := None;
    var hysteria2Tag: Option<string> := None;
    for i := 0 to |endpoints|
      invariant outbounds == EndpointOutbounds(user, endpoints[..i])
      invariant tags == Labels(endpoints[..i])
      invariant realityTag == FirstLabel(endpoints[..i], VlessReality)
      invariant hysteria2Tag == FirstLabel(endpoints[..i], CompatTransport.Hysteria2)
    {
      var ep := endpoints[i];
      assert endpoints[..i + 1][..i] == endpoints[..i];
      tags := tags + [ep.labelText];
      if ep.transport.VlessReality? && realityTag.None? {
        realityTag := Some(ep.labelText);
      }
      if ep.transport.Hysteria2? && hysteria2Tag.None? {
        hysteria2Tag := Some(ep.labelText);
      }
      outbounds := outbounds + [EndpointOutbound(user, ep)];
    }
    assert endpoints[..|endpoints|] == endpoints;
    var any := if tags != [] then tags[0] else "auto";
    var reality := OrElse(realityTag, any);
    var default := match profile
      case Auto => "auto"
      case Reliability => reality
      case Performance => OrElse(hysteria2Tag, reality);
    outbounds := outbounds + [UrlTest("auto", tags), Selector("select", tags + ["auto"], default), Direct("direct")];
    doc := Subscription(outbounds, "select");
  }

  /** `FirstLabel` finds the earliest endpoint of a transport, and only fails when there is none. */
  lemma {:induction false} FirstLabelIsFirst(endpoints: seq<CompatEndpoint>, transport: CompatTransport)
    ensures FirstLabel(endpoints, transport).None?
            <==> forall i :: 0 <= i < |endpoints| ==> endpoints[i].transport != transport
    ensures forall i :: 0 <= i < |endpoints| && endpoints[i].transport == transport
                        && (forall j :: 0 <= j < i ==> endpoints[j].transport != transport)
                        ==> FirstLabel(endpoints, transport) == Some(endpoints[i].labelText)
  {
    if endpoints != [] {
      FirstLabelIsFirst(endpoints[..|endpoints| - 1], transport);
    }
  }

  lemma {:induction false} FirstLabelIsLabel(endpoints: seq<CompatEndpoint>, transport: CompatTransport)
    ensures FirstLabel(endpoints, transport).Some? ==>
              exists i :: 0 <= i < |endpoints| && endpoints[i].transport == transport
                          && endpoints[i].labelText == FirstLabel(endpoints, transport).value
  {
    if endpoints != [] {
      var front := endpoints[..|endpoints| - 1];
      FirstLabelIsLabel(front, transport);
      if FirstLabel(front, transport).Some? {
        var i :| 0 <= i < |front| && front[i].transport == transport && front[i].labelText == FirstLabel(front, transport).value;
        assert endpoints[i] == front[i];
      }
    }
  }

  lemma EndpointTagged(user: CompatUser, endpoints: seq<CompatEndpoint>, profile: SelectionProfile, i: nat)
    requires i < |endpoints|
    ensures Names(ClientSubscription(user, endpoints, profile), endpoints[i].labelText)
  {
    assert ClientSubscription(user, endpoints, profile).outbounds[i].tag == endpoints[i].labelText;
  }

  lemma GroupsTagged(user: CompatUser, endpoints: seq<CompatEndpoint>, profile: SelectionProfile)
    ensures Names(ClientSubscription(user, endpoints, profile), "auto")
    ensures Names(ClientSubscription(user, endpoints, profile), "select")
  {
    var doc := ClientSubscription(user, endpoints, profile);
    assert doc.outbounds[|endpoints|].tag == "auto";
    assert doc.outbounds[|endpoints| + 1].tag == "select";
  }

  /**
   No dangling reference: for every endpoint list and every profile, the
   urltest members, the selector's options and default, and the route's final
   hop are all tags of outbounds of the same document; and the selector's
   default is one of its own options.
   */
  lemma ReferencesResolve(user: CompatUser, endpoints: seq<CompatEndpoint>, profile: SelectionProfile, i: nat, k: nat)
    requires i < |ClientSubscription(user, endpoints, profile).outbounds|
    ensures var doc := ClientSubscription(user, endpoints, profile);
            var o := doc.outbounds[i];
            && Names(doc, doc.routeFinal)
            && ((o.UrlTest? || o.Selector?) && k < |o.members| ==> Names(doc, o.members[k]))
            && (o.Selector? ==> o.default in o.members && Names(doc, o.default))
  {
    var doc := ClientSubscription(user, endpoints, profile);
    var o := doc.outbounds[i];
    GroupsTagged(user, endpoints, profile);
    if (o.UrlTest? || o.Selector?) && k < |endpoints| {
      EndpointTagged(user, endpoints, profile, k);
    }
    if o.Selector? {
      assert o.members[|endpoints|] == "auto";
      DefaultIsOption(user, endpoints, profile);
    }
  }

  lemma DefaultIsOption(user: CompatUser, endpoints: seq<CompatEndpoint>, profile: SelectionProfile)
    ensures DefaultTag(endpoints, profile) in Labels(endpoints) + ["auto"]
    ensures Names(ClientSubscription(user, endpoints, profile), DefaultTag(endpoints, profile))
  {
    GroupsTagged(user, endpoints, profile);
    var d := DefaultTag(endpoints, profile);
    if d == "auto" {
      assert (Labels(endpoints) + ["auto"])[|endpoints|] == d;
    } else {
      FirstLabelIsLabel(endpoints, VlessReality);
      FirstLabelIsLabel(endpoints, CompatTransport.Hysteria2);
      var i :| 0 <= i < |endpoints| && endpoints[i].labelText == d;
      EndpointTagged(user, endpoints, profile, i);
      assert (Labels(endpoints) + ["auto"])[i] == d;
    }
  }

  /** The two endpoints every deployment advertises. */
  function StandardEndpoints(
    publicHost: string, realityPort: nat, hysteriaPort: nat, realityPublicKey: string,
    realityShortId: string, handshakeServer: string, obfsPassword: Option<string>): seq<CompatEndpoint>
  {
    [ CompatEndpoint("reality-1", VlessReality, publicHost, realityPort, Some(handshakeServer), "Reality",
                     RealityPublic(realityPublicKey, realityShortId, "chrome")),
      CompatEndpoint("hysteria2-1", CompatTransport.Hysteria2, publicHost, hysteriaPort, Some(publicHost), "Hysteria2",
                     Hysteria2Public(obfsPassword)) ]
  }
}
