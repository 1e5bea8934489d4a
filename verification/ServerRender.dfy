/** The sing-box server configuration rendered from the user store. */
module ServerRender {
  import opened Wrappers
  import opened CompatModel

  const VISION_FLOW := "xtls-rprx-vision"

  datatype VlessUser = VlessUser(name: string, uuid: string, flow: string)
  datatype HysteriaUser = HysteriaUser(name: string, password: string)

  datatype VlessInbound = VlessInbound(
    listenPort: nat,
    users: seq<VlessUser>,
    serverName: string,
    handshakeServer: string,
    handshakePort: nat,
    privateKey: string,
    shortIds: seq<string>)

  /** `rate` holds the up/down limits, present only when both are configured. */
  datatype HysteriaInbound = HysteriaInbound(
    listenPort: nat,
    users: seq<HysteriaUser>,
    certPath: string,
    keyPath: string,
    masquerade: Option<string>,
    obfs: Option<string>,
    rate: Option<(nat, nat)>)

  datatype ServerConfig = ServerConfig(vless: VlessInbound, hysteria: HysteriaInbound)

  /** The users whose credentials the server is to accept at `now`, in store order. */
  function ActiveUsers(users: seq<CompatUser>, now: int): seq<CompatUser> {
    if users == [] then []
    else (if users[0].IsActive(now) then [users[0]] else []) + ActiveUsers(users[1..], now)
  }

  function VlessUsers(active: seq<CompatUser>): seq<VlessUser> {
    seq(|active|, i requires 0 <= i < |active| => VlessUser(active[i].id, active[i].vlessUuid, VISION_FLOW))
  }

  function HysteriaUsers(active: seq<CompatUser>): seq<HysteriaUser> {
    seq(|active|, i requires 0 <= i < |active| => HysteriaUser(active[i].id, active[i].hysteria2Password))
  }

  function RenderServer(
    users: seq<CompatUser>, reality: RealityServerParams, hysteria: Hysteria2ServerParams,
    ports: ServerPorts, now: int): ServerConfig
  {
    var active := ActiveUsers(users, now);
    ServerConfig(
      VlessInbound(
        ports.vlessReality, VlessUsers(active), reality.handshakeServer, reality.handshakeServer,
        reality.handshakePort, reality.privateKey, reality.shortIds),
      HysteriaInbound(
        ports.hysteria2, HysteriaUsers(active), hysteria.tlsCertPath, hysteria.tlsKeyPath,
        hysteria.masqueradeDir, hysteria.obfsPassword,
        if hysteria.upMbps.Some? && hysteria.downMbps.Some?
        then Some((hysteria.upMbps.value, hysteria.downMbps.value)) else None))
  }

  /** Exactly the active members of the store are rendered. */
  lemma {:induction false} ActiveUsersExact(users: seq<CompatUser>, now: int, u: CompatUser)
    ensures u in ActiveUsers(users, now) <==> u in users && u.IsActive(now)
  {
    if users != [] {
      ActiveUsersExact(users[1..], now, u);
      assert users == [users[0]] + users[1..];
    }
  }
}
