/**
 Signed relay bundles: the chain of checks a client makes before it believes
 one, and the client that falls back to its cached bundle. Payload text is
 parsed by a parameter.
 */
module Bundles {
  import opened Wrappers
  import opened Utf8
  import opened Revocation

  datatype Endpoint = Endpoint(id: string, transport: string, address: string)

  datatype Payload = Payload(schemaVersion: nat, issuedAt: Seconds, expiresAt: Seconds, nonce: string, endpoints: seq<Endpoint>)

  const SUPPORTED_SCHEMA_VERSIONS: seq<nat> := [1]

  /** Writing and reading payload text. */
  datatype Codec = Codec(write: Payload -> Bytes, read: Bytes -> Option<Payload>)

  ghost predicate Faithful(x: Codec) {
    forall p :: x.read(x.write(p)) == Some(p)
  }

  datatype SignedBundle = SignedBundle(
    payloadBytes: Bytes, signature: Signature, signingKey: Key, bundleCert: Certificate, releaseCert: Certificate)

  datatype ConfigError =
    | BadSignature
    | BadCertChain
    | Expired(expiredAt: Seconds, now: Seconds)
    | NotYetValid(issuedAt: Seconds, now: Seconds)
    | UnsupportedSchemaVersion(version: nat)
    | RevokedKey
    | MalformedPayload

  function Sign(c: Scheme, x: Codec, p: Payload, bundleKey: Secret, bundleCert: Certificate, releaseCert: Certificate): SignedBundle {
    SignedBundle(x.write(p), c.sign(bundleKey, x.write(p)), c.public(bundleKey), bundleCert, releaseCert)
  }

  function VerifyBundle(c: Scheme, x: Codec, b: SignedBundle, root: Key, revoked: set<Key>, now: Seconds): Result<Payload, ConfigError> {
    if !ChainsTo(c, b.releaseCert, root) then Err(BadCertChain)
    else if b.releaseCert.child in revoked then Err(RevokedKey)
    else if !ChainsTo(c, b.bundleCert, b.releaseCert.child) then Err(BadCertChain)
    else if b.bundleCert.child != b.signingKey then Err(BadCertChain)
    else if b.signingKey in revoked then Err(RevokedKey)
    else if !c.check(b.signingKey, b.payloadBytes, b.signature) then Err(BadSignature)
    else match x.read(b.payloadBytes)
      case None => Err(MalformedPayload)
      case Some(p) =>
        if p.schemaVersion !in SUPPORTED_SCHEMA_VERSIONS then Err(UnsupportedSchemaVersion(p.schemaVersion))
        else if now < p.issuedAt then Err(NotYetValid(p.issuedAt, now))
        else if now >= p.expiresAt then Err(Expired(p.expiresAt, now))
        else Ok(p)
  }

  // ------------------------------------------------------------ verification

  /** A bundle depends on a key of its chain. */
  predicate Under(b: SignedBundle, k: Key) {
    k == b.releaseCert.child || k == b.signingKey
  }

  /** Everything about a bundle that does not depend on the clock or the revocation list. */
  ghost predicate Authentic(c: Scheme, x: Codec, b: SignedBundle, root: Key, p: Payload) {
    && ChainsTo(c, b.releaseCert, root) && ChainsTo(c, b.bundleCert, b.releaseCert.child)
    && b.bundleCert.child == b.signingKey && c.check(b.signingKey, b.payloadBytes, b.signature)
    && x.read(b.payloadBytes) == Some(p) && p.schemaVersion == 1
  }

  /** A payload is believed exactly when it is authentic, in its time window and under no revoked key. */
  lemma VerifiedExactly(c: Scheme, x: Codec, b: SignedBundle, root: Key, revoked: set<Key>, now: Seconds, p: Payload)
    ensures VerifyBundle(c, x, b, root, revoked, now) == Ok(p)
       <==> Authentic(c, x, b, root, p) && p.issuedAt <= now < p.expiresAt && forall k :: k in revoked ==> !Under(b, k)
  {
    assert Under(b, b.releaseCert.child) && Under(b, b.signingKey);
  }

  /** Revoking more keys never makes a bundle acceptable, nor changes what an accepted one says. */
  lemma VerifyIsAntitone(c: Scheme, x: Codec, b: SignedBundle, root: Key, fewer: set<Key>, more: set<Key>, now: Seconds)
    requires fewer <= more && VerifyBundle(c, x, b, root, more, now).Ok?
    ensures VerifyBundle(c, x, b, root, fewer, now) == VerifyBundle(c, x, b, root, more, now)
  {}

  /** Revoking refuses exactly the bundles under the newly revoked keys, and for that reason. */
  lemma RevokingIsSelective(c: Scheme, x: Codec, b: SignedBundle, root: Key, fewer: set<Key>, more: set<Key>, now: Seconds)
    requires fewer <= more && VerifyBundle(c, x, b, root, fewer, now).Ok?
    ensures VerifyBundle(c, x, b, root, more, now)
         == (if exists k :: k in more - fewer && Under(b, k) then Err(RevokedKey) else VerifyBundle(c, x, b, root, fewer, now))
  {
    var p := VerifyBundle(c, x, b, root, fewer, now).value;
    VerifiedExactly(c, x, b, root, fewer, now, p);
    if b.releaseCert.child in more {
      assert Under(b, b.releaseCert.child);
    } else if b.signingKey in more {
      assert Under(b, b.signingKey);
    }
  }

  /**
   What the service signs under a root-certified chain is believed exactly when
   neither key is revoked, the schema is supported and the clock is inside the
   payload's window; and it is then believed word for word.
   */
  lemma SignedBundleVerifies(c: Scheme, x: Codec, p: Payload, rootSecret: Secret, release: Secret, bundle: Secret,
                             t: Seconds, u: Seconds, revoked: set<Key>, now: Seconds)
    requires Correct(c) && Faithful(x)
    ensures var relCert := Certify(c, rootSecret, c.public(release), t);
            var bunCert := Certify(c, release, c.public(bundle), u);
            var b := Sign(c, x, p, bundle, bunCert, relCert);
            var v := VerifyBundle(c, x, b, c.public(rootSecret), revoked, now);
            && (v.Ok? <==> && c.public(release) !in revoked && c.public(bundle) !in revoked
                           && p.schemaVersion == 1 && p.issuedAt <= now < p.expiresAt)
            && (v.Ok? ==> v.value == p)
            && (v == Err(RevokedKey) <==> c.public(release) in revoked || c.public(bundle) in revoked)
  {
    var relCert := Certify(c, rootSecret, c.public(release), t);
    var bunCert := Certify(c, release, c.public(bundle), u);
    assert c.check(c.public(rootSecret), CertBytes(relCert.child, relCert.issuedAt), relCert.signature);
    assert c.check(c.public(release), CertBytes(bunCert.child, bunCert.issuedAt), bunCert.signature);
    assert c.check(c.public(bundle), x.write(p), c.sign(bundle, x.write(p)));
    assert x.read(x.write(p)) == Some(p);
  }

  // ------------------------------------------------------------------ client

  datatype ClientError = Verify(error: ConfigError) | NoCache | Io | CacheCorrupt

  /** The cache file: absent, a bundle, or bytes that do not parse. */
  datatype CacheFile = Absent | Holds(bundle: SignedBundle) | Garbage

  /** How a plain, non-atomic file write ends. */
  datatype WriteAnswer = Wrote | FailedUntouched | FailedTorn

  /** One call's surroundings: what the source answers, the list in force, the clock, and how a cache write or read goes. */
  datatype CallInput = CallInput(fetched: Option<SignedBundle>, revoked: set<Key>, now: Seconds, write: WriteAnswer, readable: bool)

  class RendezvousClient {
    const c: Scheme
    const x: Codec
    const root: Key
    var cache: CacheFile

    constructor (c: Scheme, x: Codec, root: Key, cache: CacheFile)
      ensures this.c == c && this.x == x && this.root == root && this.cache == cache
    {
      this.c, this.x, this.root, this.cache := c, x, root, cache;
    }

    /** The bundle a call judges: the fetched one, else the cached one. */
    ghost function Candidate(i: CallInput): Option<SignedBundle>
      reads this
    {
      if i.fetched.Some? then i.fetched else if cache.Holds? && i.readable then Some(cache.bundle) else None
    }

    method GetBundle(i: CallInput) returns (r: Result<Payload, ClientError>)
      modifies this
      ensures r.Ok? ==> old(Candidate(i)).Some? && VerifyBundle(c, x, old(Candidate(i)).value, root, i.revoked, i.now) == Ok(r.value)
      ensures old(Candidate(i)).Some? && VerifyBundle(c, x, old(Candidate(i)).value, root, i.revoked, i.now).Err?
              ==> r == Err(Verify(VerifyBundle(c, x, old(Candidate(i)).value, root, i.revoked, i.now).error))
      ensures old(Candidate(i)).Some? && VerifyBundle(c, x, old(Candidate(i)).value, root, i.revoked, i.now).Ok?
              ==> (r.Ok? <==> i.fetched.None? || i.write.Wrote?) && (r.Err? ==> r.error == Io)
      ensures old(Candidate(i)).None? ==>
                r == Err(if old(cache).Absent? then NoCache else if i.readable then CacheCorrupt else Io)
      ensures cache != old(cache) ==>
                i.fetched.Some? && VerifyBundle(c, x, i.fetched.value, root, i.revoked, i.now).Ok? && cache in {Holds(i.fetched.value), Garbage}
      ensures i.fetched.Some? && r.Ok? ==> cache == Holds(i.fetched.value)
    {
      if i.fetched.Some? {
        var v := VerifyBundle(c, x, i.fetched.value, root, i.revoked, i.now);
        if v.Err? {
          return Err(Verify(v.error));
        }
        var w := WriteCache(i.fetched.value, i.write);
        if w.Err? {
          return Err(w.error);
        }
        return Ok(v.value);
      }
      var cached := ReadCache(i.readable);
      if cached.Err? {
        return Err(cached.error);
      }
      var v := VerifyBundle(c, x, cached.value, root, i.revoked, i.now);
      if v.Err? {
        return Err(Verify(v.error));
      }
      return Ok(v.value);
    }

    method WriteCache(b: SignedBundle, write: WriteAnswer) returns (r: Result<(), ClientError>)
      modifies this
      ensures r.Ok? <==> write.Wrote?
      ensures cache == (match write case Wrote => Holds(b) case FailedUntouched => old(cache) case FailedTorn => Garbage)
      ensures r.Err? ==> r.error == Io
    {
      match write {
        case Wrote =>
          cache := Holds(b);
          r := Ok(());
        case FailedUntouched =>
          r := Err(Io);
        case FailedTorn =>
          cache := Garbage;
          r := Err(Io);
      }
    }

    method ReadCache(readable: bool) returns (r: Result<SignedBundle, ClientError>)
      ensures r.Ok? <==> cache.Holds? && readable
      ensures r.Ok? ==> r.value == cache.bundle
      ensures r.Err? ==> r.error == (if cache.Absent? then NoCache else if readable then CacheCorrupt else Io)
    {
      if cache.Absent? {
        return Err(NoCache);
      }
      if !readable {
        return Err(Io);
      }
      if cache.Garbage? {
        return Err(CacheCorrupt);
      }
      return Ok(cache.bundle);
    }
  }

  /** `b` passed verification as fetched in call `i`. */
  ghost predicate Vetted(c: Scheme, x: Codec, root: Key, i: CallInput, b: SignedBundle) {
    i.fetched == Some(b) && VerifyBundle(c, x, b, root, i.revoked, i.now).Ok?
  }

  /** A call judges the fetched bundle if there is one, and believes a payload only from a bundle that passes at that very call. */
  ghost predicate Justified(c: Scheme, x: Codec, root: Key, i: CallInput, r: Result<Payload, ClientError>, b: Option<SignedBundle>) {
    && (i.fetched.Some? ==> b == i.fetched)
    && (r.Ok? ==> b.Some? && VerifyBundle(c, x, b.value, root, i.revoked, i.now) == Ok(r.value))
  }

  /**
   Any run of calls against any sources, clocks and cache failures. Every
   believed payload came from a bundle vetted at that call; and the cache only
   ever holds what it held at the start or a bundle that passed verification
   when it was written.
   */
  method RunClient(client: RendezvousClient, inputs: seq<CallInput>)
    returns (results: seq<Result<Payload, ClientError>>, ghost judged: seq<Option<SignedBundle>>)
    modifies client
    ensures |results| == |judged| == |inputs|
    ensures forall n :: 0 <= n < |inputs| ==> Justified(client.c, client.x, client.root, inputs[n], results[n], judged[n])
    ensures client.cache.Holds? && client.cache != old(client.cache) ==>
              exists n :: 0 <= n < |inputs| && Vetted(client.c, client.x, client.root, inputs[n], client.cache.bundle)
  {
    results, judged := [], [];
    ghost var first := client.cache;
    for n := 0 to |inputs|
      invariant |results| == |judged| == n
      invariant forall k :: 0 <= k < n ==> Justified(client.c, client.x, client.root, inputs[k], results[k], judged[k])
      invariant client.cache.Holds? && client.cache != first ==>
                  exists k :: 0 <= k < n && Vetted(client.c, client.x, client.root, inputs[k], client.cache.bundle)
    {
      ghost var before := client.cache;
      ghost var candidate := client.Candidate(inputs[n]);
      var r := client.GetBundle(inputs[n]);
      results := results + [r];
      judged := judged + [candidate];
      assert Justified(client.c, client.x, client.root, inputs[n], results[n], judged[n]);
      if client.cache.Holds? && client.cache != before {
        assert Vetted(client.c, client.x, client.root, inputs[n], client.cache.bundle);
      }
    }
  }

  /** Call `n` uses the list number `which[n]` of a chain of re-issues, never an older one than a call before. */
  ghost predicate UsesChain(inputs: seq<CallInput>, lists: seq<SignedList>, which: seq<nat>) {
    && |which| == |inputs|
    && (forall n :: 0 <= n < |inputs| ==> which[n] < |lists| && inputs[n].revoked == SetOf(lists[which[n]].keys))
    && forall m, n :: 0 <= m <= n < |inputs| ==> which[m] <= which[n]
  }

  /** A key revoked anywhere in the chain up to the list a call uses. */
  ghost predicate RevokedBy(k: Key, added: seq<set<Key>>, n: nat) {
    exists m :: 0 <= m <= n && m < |added| && k in added[m]
  }

  lemma {:induction false} EverRevokedMeans(k: Key, added: seq<set<Key>>, n: nat)
    requires n < |added|
    ensures k in EverRevoked(added[..n + 1]) <==> RevokedBy(k, added, n)
  {
    assert added[..n + 1][..n] == added[..n];
    if n > 0 {
      EverRevokedMeans(k, added, n - 1);
    } else {
      assert EverRevoked(added[..0]) == {};
    }
  }

  /**
   Revoked is revoked for good: whichever bundle a call judges, fetched or
   cached, however old, if its release or signing key was revoked in any
   ceremony up to the list in force, its payload is not believed.
   */
  lemma RevokedForGood(c: Scheme, x: Codec, root: Key, inputs: seq<CallInput>, lists: seq<SignedList>, added: seq<set<Key>>,
                       which: seq<nat>, m: nat, n: nat, b: SignedBundle, k: Key)
    requires Chain(lists, added) && UsesChain(inputs, lists, which) && m <= n < |inputs|
    requires RevokedBy(k, added, which[m]) && Under(b, k)
    ensures VerifyBundle(c, x, b, root, inputs[n].revoked, inputs[n].now).Err?
  {
    EverRevokedMeans(k, added, which[m]);
    ChainIsUnion(lists, added, which[m]);
    ChainGrows(lists, added, which[m], which[n]);
    if VerifyBundle(c, x, b, root, inputs[n].revoked, inputs[n].now).Ok? {
      VerifiedExactly(c, x, b, root, inputs[n].revoked, inputs[n].now, VerifyBundle(c, x, b, root, inputs[n].revoked, inputs[n].now).value);
    }
  }

  /** The same, of whole runs: from the first call that uses a list naming `k` on, no answer rests on `k`. */
  method RunUnderRevocations(client: RendezvousClient, inputs: seq<CallInput>, ghost lists: seq<SignedList>,
                             ghost added: seq<set<Key>>, ghost which: seq<nat>, ghost k: Key, ghost m: nat)
    returns (results: seq<Result<Payload, ClientError>>, ghost judged: seq<Option<SignedBundle>>)
    requires Chain(lists, added) && UsesChain(inputs, lists, which) && m < |inputs| && RevokedBy(k, added, which[m])
    modifies client
    ensures |results| == |judged| == |inputs|
    ensures forall n :: m <= n < |inputs| ==> Justified(client.c, client.x, client.root, inputs[n], results[n], judged[n])
    ensures forall n :: m <= n < |inputs| && results[n].Ok? ==> judged[n].Some? && !Under(judged[n].value, k)
  {
    results, judged := RunClient(client, inputs);
    forall n | m <= n < |inputs| && results[n].Ok? ensures judged[n].Some? && !Under(judged[n].value, k) {
      assert Justified(client.c, client.x, client.root, inputs[n], results[n], judged[n]);
      if Under(judged[n].value, k) {
        RevokedForGood(client.c, client.x, client.root, inputs, lists, added, which, m, n, judged[n].value, k);
      }
    }
  }
}
