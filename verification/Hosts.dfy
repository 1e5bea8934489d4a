/**
 One deployment host: the files vpn-admin owns, what the running sing-box has
 loaded and what the running vpn-subscription cached at its last start.

 A host remembers every state it has been through. A claim about all of
 `history` is therefore a claim about every step of a command, and a crash is
 a restart from any of the states in it.

 Staging files (`*.tmp.*`, `*.rotate-tmp`) are invisible here: a write-then-rename
 is one atomic step. `std::fs::copy` is not atomic and goes through `Torn`.
 Outcomes of fallible steps are parameters, so every theorem holds for all of them.
 */
module Hosts {
  import opened Wrappers
  import opened CompatModel
  import opened ServerRender
  import opened ClientRender

  datatype Path =
    | PrivateKey | PublicKey | ShortId | ObfsPassword | TlsCert | TlsKey
    | UsersJson | ConfigJson | ConfigBak | AppliedStamp
    | RotateBak(live: Path)

  /**
   File contents, up to the encoding: `Stamp` is the fingerprint of a document,
   taken to be injective; `Folder` is a directory where a file is expected.
   */
  datatype Content =
    | Text(text: string)
    | Binary(size: nat)
    | Envelope(version: nat, users: seq<CompatUser>)
    | BareArray(users: seq<CompatUser>)
    | Config(doc: ServerConfig)
    | Stamp(doc: ServerConfig)
    | Torn
    | Folder

  type Files = map<Path, Content>

  /** `Unproven` is everything but a service verified healthy on a known document. */
  datatype Running = Runs(doc: ServerConfig) | Unproven
  datatype Serving = Serves(endpoints: seq<CompatEndpoint>) | Stale

  datatype Snapshot = Snapshot(files: Files, singbox: Running, subscription: Serving)

  /** deployment.toml, and X25519 derivation as an arbitrary function. */
  datatype Deployment = Deployment(
    publicHost: string, ports: ServerPorts, handshakeServer: string, handshakePort: nat,
    tlsCertPath: string, tlsKeyPath: string, masqueradeDir: Option<string>,
    upMbps: Option<nat>, downMbps: Option<nat>,
    derive: string -> Option<string>)

  const USERS_SCHEMA_VERSION := 1

  predicate SameAt(a: Files, b: Files, p: Path) {
    (p in a <==> p in b) && (p in a ==> a[p] == b[p])
  }

  /** Nothing outside `ps` differs. */
  ghost predicate SameExcept(a: Files, b: Files, ps: iset<Path>) {
    forall p :: p !in ps ==> SameAt(a, b, p)
  }

  lemma SameExceptTrans(a: Files, b: Files, c: Files, ps: iset<Path>, qs: iset<Path>, rs: iset<Path>)
    requires SameExcept(a, b, ps) && SameExcept(b, c, qs) && ps + qs <= rs
    ensures SameExcept(a, c, rs)
  {
    forall p | p !in rs ensures SameAt(a, c, p) {
      assert SameAt(a, b, p) && SameAt(b, c, p);
    }
  }

  // ---------------------------------------------------------------- reading

  function ReadText(files: Files, p: Path): Option<string> {
    if p in files && files[p].Text? then Some(files[p].text) else None
  }

  /** `store::parse_users_bytes`: the current envelope, or the legacy bare array; never a newer schema. */
  function ParseUsers(c: Content): Option<seq<CompatUser>> {
    match c
    case Envelope(v, users) => if v > USERS_SCHEMA_VERSION then None else Some(users)
    case BareArray(users) => Some(users)
    case _ => None
  }

  /** `store::load_users`: a missing store is an empty one. */
  function LoadUsers(files: Files): Option<seq<CompatUser>> {
    if UsersJson in files then ParseUsers(files[UsersJson]) else Some([])
  }

  /** The key triple, or `None` when a file is missing or the pair does not correspond. */
  function LoadReality(d: Deployment, files: Files): Option<RealityServerParams> {
    var priv, pub, sid := ReadText(files, PrivateKey), ReadText(files, PublicKey), ReadText(files, ShortId);
    if priv.Some? && pub.Some? && sid.Some? && d.derive(priv.value) == Some(pub.value)
    then Some(RealityServerParams(priv.value, pub.value, [sid.value], d.handshakeServer, d.handshakePort))
    else None
  }

  function LoadObfs(files: Files): Option<string> {
    var obfs := ReadText(files, ObfsPassword);
    if obfs.Some? && obfs.value != "" then obfs else None
  }

  function HysteriaParams(d: Deployment, obfs: Option<string>): Hysteria2ServerParams {
    Hysteria2ServerParams(d.tlsCertPath, d.tlsKeyPath, obfs, d.masqueradeDir, d.upMbps, d.downMbps)
  }

  /** The document `users` stand for under the keys on disk at `now`. */
  function DocFor(d: Deployment, files: Files, users: seq<CompatUser>, now: int): Option<ServerConfig> {
    match LoadReality(d, files)
    case None => None
    case Some(reality) => Some(RenderServer(users, reality, HysteriaParams(d, LoadObfs(files)), d.ports, now))
  }

  /** The endpoints vpn-subscription would cache if it started on these files. */
  function EndpointsFor(d: Deployment, files: Files): Serving {
    var pub, sid := ReadText(files, PublicKey), ReadText(files, ShortId);
    if pub.Some? && sid.Some?
    then Serves(StandardEndpoints(d.publicHost, d.ports.vlessReality, d.ports.hysteria2, pub.value, sid.value,
                                  d.handshakeServer, LoadObfs(files)))
    else Stale
  }

  /** What sing-box has loaded once it came back healthy on these files. */
  function LoadedFrom(files: Files): Running {
    if ConfigJson in files && files[ConfigJson].Config? then Runs(files[ConfigJson].doc) else Unproven
  }

  lemma SameDoc(d: Deployment, a: Files, b: Files, users: seq<CompatUser>, now: int)
    requires forall p :: p in {PrivateKey, PublicKey, ShortId, ObfsPassword} ==> SameAt(a, b, p)
    ensures DocFor(d, a, users, now) == DocFor(d, b, users, now)
    ensures EndpointsFor(d, a) == EndpointsFor(d, b)
  {
    assert SameAt(a, b, PrivateKey) && SameAt(a, b, PublicKey) && SameAt(a, b, ShortId) && SameAt(a, b, ObfsPassword);
  }

  // ------------------------------------------------------------------ steps

  /** How a non-atomic copy ends: complete, refused before the target is opened, or broken off. */
  datatype CopyAnswer = Copied | CopyRefused | CopyBroken

  function With(s: Snapshot, p: Path, c: Content): Snapshot {
    s.(files := s.files[p := c])
  }

  function Reloaded(s: Snapshot, ok: bool): Snapshot {
    s.(singbox := if ok then LoadedFrom(s.files) else Unproven)
  }

  /** The states a copy passes through. */
  function CopyTrail(s: Snapshot, src: Path, dst: Path, a: CopyAnswer): seq<Snapshot>
    requires src in s.files
  {
    match a
    case CopyRefused => []
    case CopyBroken => [With(s, dst, Torn)]
    case Copied => [With(s, dst, Torn), With(s, dst, s.files[src])]
  }

  /** Where a trail that began in `s` ends. */
  function EndOf(s: Snapshot, trail: seq<Snapshot>): Snapshot {
    if trail == [] then s else trail[|trail| - 1]
  }

  /** Where a process that makes `trail` is killed after `n` states, or at its end if it makes fewer. */
  function KilledAfter(s: Snapshot, trail: seq<Snapshot>, n: nat): Snapshot {
    EndOf(s, if n < |trail| then trail[..n] else trail)
  }

  lemma KilledIsStart(s: Snapshot, trail: seq<Snapshot>, n: nat)
    ensures KilledAfter(s, trail, n) == ([s] + trail)[if n < |trail| then n else |trail|]
  {}

  class Host {
    const d: Deployment
    var now: Snapshot
    var history: seq<Snapshot>

    constructor (d: Deployment, start: Snapshot)
      ensures Valid() && this.d == d && now == start && history == [start]
    {
      this.d, now, history := d, start, [start];
    }

    /** The current state is the last one recorded. */
    ghost predicate Valid()
      reads this
    {
      history != [] && history[|history| - 1] == now
    }

    method Become(s: Snapshot)
      modifies this
      ensures now == s && history == old(history) + [s]
    {
      now, history := s, history + [s];
    }

    /** Write-then-rename: the file is replaced in one step. */
    method Install(p: Path, c: Content)
      modifies this
      ensures now == old(now).(files := old(now).files[p := c])
      ensures history == old(history) + [now]
    {
      Become(now.(files := now.files[p := c]));
    }

    method Remove(p: Path)
      modifies this
      ensures now == old(now).(files := old(now).files - {p})
      ensures history == old(history) + [now]
    {
      Become(now.(files := now.files - {p}));
    }

    /** `std::fs::copy`: a reader may see the target torn, and a broken copy leaves it so. */
    method Copy(src: Path, dst: Path, a: CopyAnswer) returns (ok: bool)
      requires src in now.files && src != dst
      modifies this
      ensures ok == a.Copied? && history == old(history) + CopyTrail(old(now), src, dst, a)
      ensures a.CopyRefused? ==> now == old(now) && history == old(history)
      ensures a.CopyBroken? ==> now == old(now).(files := old(now).files[dst := Torn]) && history == old(history) + [now]
      ensures a.Copied? ==> now == old(now).(files := old(now).files[dst := old(now).files[src]])
                            && history == old(history) + [old(now).(files := old(now).files[dst := Torn]), now]
    {
      if a.CopyRefused? {
        return false;
      }
      var whole := now.files[dst := now.files[src]];
      Install(dst, Torn);
      if a.CopyBroken? {
        return false;
      }
      Become(now.(files := whole));
      return true;
    }

    /** `reload_and_verify` on sing-box: healthy means it runs what is on disk now. */
    method ReloadSingbox(ok: bool)
      modifies this
      ensures now == old(now).(singbox := if ok then LoadedFrom(old(now).files) else Unproven)
      ensures history == old(history) + [now]
    {
      Become(now.(singbox := if ok then LoadedFrom(now.files) else Unproven));
    }

    /** `reload_and_verify` on vpn-subscription, which reads its endpoints once, at start. */
    method RestartSubscription(ok: bool)
      modifies this
      ensures now == old(now).(subscription := if ok then EndpointsFor(d, old(now).files) else Stale)
      ensures history == old(history) + [now]
    {
      Become(now.(subscription := if ok then EndpointsFor(d, now.files) else Stale));
    }

    /** The process died in state `history[k]`; disk and services are as they were then. */
    method CrashedAt(k: nat)
      requires k < |history|
      modifies this
      ensures now == old(history)[k] && history == old(history) + [now]
    {
      Become(history[k]);
    }
  }
}
