/**
 The compatibility domain: users, server-side key material and the endpoints
 a third-party client is told about. Text is `string`; the deployment's JSON
 and TOML encodings are not modelled, only the records they carry.
 */
module CompatModel {
  import opened Wrappers

  datatype CompatUser = CompatUser(
    id: string,
    name: string,
    enabled: bool,
    vlessUuid: string,
    hysteria2Password: string,
    tokenHash: string,
    createdAt: int,
    expiresAt: Option<int>)
  {
    /** Enabled, and not at or past the expiry instant. */
    predicate IsActive(now: int) {
      enabled && (expiresAt.None? || now < expiresAt.value)
    }
  }

  datatype RealityServerParams = RealityServerParams(
    privateKey: string,
    publicKey: string,
    shortIds: seq<string>,
    handshakeServer: string,
    handshakePort: nat)

  datatype Hysteria2ServerParams = Hysteria2ServerParams(
    tlsCertPath: string,
    tlsKeyPath: string,
    obfsPassword: Option<string>,
    masqueradeDir: Option<string>,
    upMbps: Option<nat>,
    downMbps: Option<nat>)

  datatype ServerPorts = ServerPorts(vlessReality: nat, hysteria2: nat)

  datatype CompatTransport = VlessReality | Hysteria2

  /** What a client may know about an endpoint: never a private key. */
  datatype PublicParameters =
    | RealityPublic(publicKey: string, shortId: string, fingerprint: string)
    | Hysteria2Public(obfsPassword: Option<string>)

  datatype CompatEndpoint = CompatEndpoint(
    id: string,
    transport: CompatTransport,
    host: string,
    port: nat,
    serverName: Option<string>,
    labelText: string,
    publicParameters: PublicParameters)
}
