/**
 Server and client renders describe one authorization: the subscription a user
 is handed is accepted by the server configuration exactly while the user is active.
 */
module RenderAgreement {
  import opened Wrappers
  import opened CompatModel
  import opened ServerRender
  import opened ClientRender
  import opened Utf8

  const MAX_TOKEN_LEN: nat := 128

  /**
   When the data plane lets an outbound in. `derive` is X25519 public-key
   derivation on the encoded private key (`None` for a malformed key).
   */
  predicate Admits(server: ServerConfig, derive: string -> Option<string>, o: Outbound) {
    match o
    case VlessOutbound(_, _, port, uuid, flow, serverName, _, publicKey, shortId) =>
      && port == server.vless.listenPort
      && serverName == server.vless.serverName
      && derive(server.vless.privateKey) == Some(publicKey)
      && shortId in server.vless.shortIds
      && exists i :: 0 <= i < |server.vless.users| && server.vless.users[i].uuid == uuid && server.vless.users[i].flow == flow
    case HysteriaOutbound(_, _, port, password, _, obfs) =>
      && port == server.hysteria.listenPort
      && obfs == server.hysteria.obfs
      && exists i :: 0 <= i < |server.hysteria.users| && server.hysteria.users[i].password == password
    case _ => false
  }

  ghost predicate DistinctCredentials(users: seq<CompatUser>) {
    forall i, j :: 0 <= i < j < |users| ==>
      users[i].vlessUuid != users[j].vlessUuid && users[i].hysteria2Password != users[j].hysteria2Password
  }

  lemma VlessListed(users: seq<CompatUser>, now: int, u: CompatUser)
    requires DistinctCredentials(users) && u in users
    ensures (exists i :: 0 <= i < |VlessUsers(ActiveUsers(users, now))|
               && VlessUsers(ActiveUsers(users, now))[i].uuid == u.vlessUuid
               && VlessUsers(ActiveUsers(users, now))[i].flow == VISION_FLOW)
            <==> u.IsActive(now)
  {
    var active := ActiveUsers(users, now);
    ActiveUsersExact(users, now, u);
    if u.IsActive(now) {
      var i :| 0 <= i < |active| && active[i] == u;
      assert VlessUsers(active)[i].uuid == u.vlessUuid;
    }
    forall i | 0 <= i < |active| && active[i].vlessUuid == u.vlessUuid ensures u.IsActive(now) {
      ActiveUsersExact(users, now, active[i]);
    }
  }

  lemma HysteriaListed(users: seq<CompatUser>, now: int, u: CompatUser)
    requires DistinctCredentials(users) && u in users
    ensures (exists i :: 0 <= i < |HysteriaUsers(ActiveUsers(users, now))|
               && HysteriaUsers(ActiveUsers(users, now))[i].password == u.hysteria2Password)
            <==> u.IsActive(now)
  {
    var active := ActiveUsers(users, now);
    ActiveUsersExact(users, now, u);
    if u.IsActive(now) {
      var i :| 0 <= i < |active| && active[i] == u;
      assert HysteriaUsers(active)[i].password == u.hysteria2Password;
    }
    forall i | 0 <= i < |active| && active[i].hysteria2Password == u.hysteria2Password ensures u.IsActive(now) {
      ActiveUsersExact(users, now, active[i]);
    }
  }

  /**
   For every user of a store with distinct credentials, one coherent key set
   and any profile: each dialable outbound of the user's subscription is let in
   by the server rendered at `now` exactly when the user is active at `now`.
   */
  lemma SubscriptionAdmittedIffActive(
    users: seq<CompatUser>, u: CompatUser, reality: RealityServerParams, hysteria: Hysteria2ServerParams,
    ports: ServerPorts, host: string, derive: string -> Option<string>, profile: SelectionProfile, now: int, k: nat)
    requires DistinctCredentials(users) && u in users
    requires derive(reality.privateKey) == Some(reality.publicKey)
    requires reality.shortIds != []
    requires k < 2
    ensures var endpoints := StandardEndpoints(
              host, ports.vlessReality, ports.hysteria2, reality.publicKey, reality.shortIds[0],
              reality.handshakeServer, hysteria.obfsPassword);
            var outbounds := ClientSubscription(u, endpoints, profile).outbounds;
            && |outbounds| == 5 && outbounds[0].VlessOutbound? && outbounds[1].HysteriaOutbound?
            && (Admits(RenderServer(users, reality, hysteria, ports, now), derive, outbounds[k]) <==> u.IsActive(now))
  {
    VlessListed(users, now, u);
    HysteriaListed(users, now, u);
    var endpoints := StandardEndpoints(
      host, ports.vlessReality, ports.hysteria2, reality.publicKey, reality.shortIds[0],
      reality.handshakeServer, hysteria.obfsPassword);
    var outbounds := ClientSubscription(u, endpoints, profile).outbounds;
    var server := RenderServer(users, reality, hysteria, ports, now);
    assert server.vless.users == VlessUsers(ActiveUsers(users, now));
    assert server.hysteria.users == HysteriaUsers(ActiveUsers(users, now));
    assert outbounds[0] == EndpointOutbound(u, endpoints[0]);
    assert outbounds[1] == EndpointOutbound(u, endpoints[1]);
    if k == 0 {
      assert Admits(server, derive, outbounds[0]) <==> u.IsActive(now);
    } else {
      assert Admits(server, derive, outbounds[1]) <==> u.IsActive(now);
    }
  }

  /**
   Subscription lookup: every stored hash is compared, and the last active
   user whose hash matches wins. `hash` is the token digest.
   */
  method FindUserByToken(users: seq<CompatUser>, token: Bytes, hash: Bytes -> string, now: int)
    returns (found: Option<CompatUser>)
    ensures found.None? <==> forall i :: 0 <= i < |users| && users[i].tokenHash == hash(token) ==> !users[i].IsActive(now)
    ensures found.Some? ==>
              found.value.tokenHash == hash(token) && found.value.IsActive(now)
              && exists i :: 0 <= i < |users| && users[i] == found.value
                             && forall j :: i < j < |users| && users[j].tokenHash == hash(token) ==> !users[j].IsActive(now)
  {
    found := None;
    for i := 0 to |users|
      invariant found.None? <==> forall j :: 0 <= j < i && users[j].tokenHash == hash(token) ==> !users[j].IsActive(now)
      invariant found.Some? ==>
                  found.value.tokenHash == hash(token) && found.value.IsActive(now)
                  && exists k :: 0 <= k < i && users[k] == found.value
                                 && forall j :: k < j < i && users[j].tokenHash == hash(token) ==> !users[j].IsActive(now)
    {
      var matches := hash(token) == users[i].tokenHash;
      if matches && users[i].IsActive(now) {
        found := Some(users[i]);
      }
    }
  }

  /**
   The service end to end: a token of plausible length gets a subscription
   exactly when it belongs to an active user, and what is handed out at `now`
   works against the server rendered from the same store and keys at `now`, on
   both transports and whatever profile was asked for.
   */
  method ServeSubscription(
    users: seq<CompatUser>, token: Bytes, hash: Bytes -> string, profile: Option<string>, now: int,
    reality: RealityServerParams, hysteria: Hysteria2ServerParams, ports: ServerPorts, host: string,
    ghost derive: string -> Option<string>)
    returns (doc: Option<Subscription>)
    requires DistinctCredentials(users)
    requires derive(reality.privateKey) == Some(reality.publicKey)
    requires reality.shortIds != []
    ensures doc.Some? <==> && 0 < |token| <= MAX_TOKEN_LEN
                           && exists i :: 0 <= i < |users| && users[i].tokenHash == hash(token) && users[i].IsActive(now)
    ensures doc.Some? ==> |doc.value.outbounds| == 5
    ensures doc.Some? ==> forall k :: 0 <= k < 2 ==>
              Admits(RenderServer(users, reality, hysteria, ports, now), derive, doc.value.outbounds[k])
  {
    if token == [] || |token| > MAX_TOKEN_LEN {
      return None;
    }
    var found := FindUserByToken(users, token, hash, now);
    if found.None? {
      return None;
    }
    var selected := RequestedProfile(profile);
    var endpoints := StandardEndpoints(
      host, ports.vlessReality, ports.hysteria2, reality.publicKey, reality.shortIds[0],
      reality.handshakeServer, hysteria.obfsPassword);
    var rendered := RenderClientSubscription(found.value, endpoints, selected);
    SubscriptionAdmittedIffActive(users, found.value, reality, hysteria, ports, host, derive, selected, now, 0);
    SubscriptionAdmittedIffActive(users, found.value, reality, hysteria, ports, host, derive, selected, now, 1);
    doc := Some(rendered);
  }
}
