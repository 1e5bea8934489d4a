/**
 Signed revocation lists and the ceremony that re-issues them. Keys are 32-byte
 strings ordered byte by byte; the signature scheme is a parameter.
 */
module Revocation {
  import opened Wrappers
  import opened Utf8

  type Key = k: Bytes | |k| == 32 witness seq(32, _ => 0)
  type Secret = nat
  type Signature = nat
  type Seconds = nat

  /** A signature scheme: public half of a secret, signing, checking. */
  datatype Scheme = Scheme(public: Secret -> Key, sign: (Secret, Bytes) -> Signature, check: (Key, Bytes, Signature) -> bool)

  /** What is signed with a secret checks out under its public half. */
  ghost predicate Correct(c: Scheme) {
    forall s, m :: c.check(c.public(s), m, c.sign(s, m))
  }

  // ---------------------------------------------------------------- encoding

  /** Big-endian, `width` bytes; higher bits are dropped. */
  function BigEndian(n: nat, width: nat): (r: Bytes)
    ensures |r| == width
  {
    if width == 0 then [] else BigEndian(n / 256, width - 1) + [n % 256]
  }

  const U64: nat := 0x1_0000_0000_0000_0000

  function Pow256(width: nat): (p: nat)
    ensures p > 0
  {
    if width == 0 then 1 else 256 * Pow256(width - 1)
  }

  lemma {:induction false} BigEndianInjective(m: nat, n: nat, width: nat)
    requires m < Pow256(width) && n < Pow256(width) && BigEndian(m, width) == BigEndian(n, width)
    ensures m == n
  {
    if width > 0 {
      var a, b := BigEndian(m, width), BigEndian(n, width);
      assert a[..width - 1] == BigEndian(m / 256, width - 1) && b[..width - 1] == BigEndian(n / 256, width - 1);
      assert a[width - 1] == m % 256 && b[width - 1] == n % 256;
      BigEndianInjective(m / 256, n / 256, width - 1);
    }
  }

  function Concat(keys: seq<Key>): (r: Bytes)
    ensures |r| == 32 * |keys|
  {
    if keys == [] then [] else keys[0] + Concat(keys[1..])
  }

  /** What the release key signs. */
  function SigningBytes(keys: seq<Key>, issuedAt: Seconds): Bytes {
    BigEndian(issuedAt, 8) + Concat(keys)
  }

  lemma {:induction false} ConcatAppend(keys: seq<Key>, k: Key)
    ensures Concat(keys + [k]) == Concat(keys) + k
  {
    if keys == [] {
      assert keys + [k] == [k];
      assert [k][1..] == [];
    } else {
      assert (keys + [k])[1..] == keys[1..] + [k];
      ConcatAppend(keys[1..], k);
    }
  }

  method ComputeSigningBytes(keys: seq<Key>, issuedAt: Seconds) returns (buf: Bytes)
    ensures buf == SigningBytes(keys, issuedAt)
  {
    buf := BigEndian(issuedAt, 8);
    for i := 0 to |keys|
      invariant buf == BigEndian(issuedAt, 8) + Concat(keys[..i])
    {
      assert keys[..i + 1] == keys[..i] + [keys[i]];
      ConcatAppend(keys[..i], keys[i]);
      buf := buf + keys[i];
    }
    assert keys[..|keys|] == keys;
  }

  lemma {:induction false} ConcatInjective(a: seq<Key>, b: seq<Key>)
    requires Concat(a) == Concat(b)
    ensures a == b
  {
    if a != [] && b != [] {
      assert a[0] == Concat(a)[..32] && b[0] == Concat(b)[..32];
      assert Concat(a[1..]) == Concat(a)[32..] && Concat(b[1..]) == Concat(b)[32..];
      ConcatInjective(a[1..], b[1..]);
      assert a == [a[0]] + a[1..] && b == [b[0]] + b[1..];
    }
  }

  /** One signed byte string stands for one list at one time. */
  lemma SigningBytesInjective(a: seq<Key>, t: Seconds, b: seq<Key>, u: Seconds)
    requires t < U64 && u < U64 && SigningBytes(a, t) == SigningBytes(b, u)
    ensures a == b && t == u
  {
    var x, y := SigningBytes(a, t), SigningBytes(b, u);
    assert x[..8] == BigEndian(t, 8) && y[..8] == BigEndian(u, 8);
    assert x[8..] == Concat(a) && y[8..] == Concat(b);
    ConcatInjective(a, b);
    assert Pow256(8) == U64;
    BigEndianInjective(t, u, 8);
  }

  // ------------------------------------------------------------ certificates

  datatype Certificate = Certificate(child: Key, issuedAt: Seconds, signature: Signature)

  function CertBytes(child: Key, issuedAt: Seconds): Bytes {
    child + BigEndian(issuedAt, 8)
  }

  function Certify(c: Scheme, parent: Secret, child: Key, issuedAt: Seconds): Certificate {
    Certificate(child, issuedAt, c.sign(parent, CertBytes(child, issuedAt)))
  }

  predicate ChainsTo(c: Scheme, cert: Certificate, parent: Key) {
    c.check(parent, CertBytes(cert.child, cert.issuedAt), cert.signature)
  }

  // ---------------------------------------------------------------- the list

  datatype SignedList = SignedList(issuedAt: Seconds, keys: seq<Key>, releaseCert: Certificate, signature: Signature)

  datatype ListError = InvalidCertChain | InvalidSignature

  function SetOf(keys: seq<Key>): set<Key> {
    set k | k in keys
  }

  function Issue(c: Scheme, release: Secret, cert: Certificate, keys: seq<Key>, issuedAt: Seconds): SignedList {
    SignedList(issuedAt, keys, cert, c.sign(release, SigningBytes(keys, issuedAt)))
  }

  function VerifyList(c: Scheme, list: SignedList, root: Key): Result<set<Key>, ListError> {
    if !ChainsTo(c, list.releaseCert, root) then Err(InvalidCertChain)
    else if !c.check(list.releaseCert.child, SigningBytes(list.keys, list.issuedAt), list.signature) then Err(InvalidSignature)
    else Ok(SetOf(list.keys))
  }

  /** A list issued under a root-certified release key verifies to exactly its keys. */
  lemma IssuedListVerifies(c: Scheme, rootSecret: Secret, release: Secret, keys: seq<Key>, t: Seconds, u: Seconds)
    requires Correct(c)
    ensures VerifyList(c, Issue(c, release, Certify(c, rootSecret, c.public(release), t), keys, u), c.public(rootSecret)) == Ok(SetOf(keys))
  {
    var cert := Certify(c, rootSecret, c.public(release), t);
    var list := Issue(c, release, cert, keys, u);
    assert c.check(c.public(rootSecret), CertBytes(cert.child, cert.issuedAt), cert.signature);
    assert c.check(c.public(release), SigningBytes(list.keys, list.issuedAt), list.signature);
  }

  lemma CertBytesInjective(a: Key, t: Seconds, b: Key, u: Seconds)
    requires t < U64 && u < U64 && CertBytes(a, t) == CertBytes(b, u)
    ensures a == b && t == u
  {
    var x, y := CertBytes(a, t), CertBytes(b, u);
    assert x[..32] == a && y[..32] == b;
    assert x[32..] == BigEndian(t, 8) && y[32..] == BigEndian(u, 8);
    assert Pow256(8) == U64;
    BigEndianInjective(t, u, 8);
  }

  // ------------------------------------------------ where a believed list comes from

  /**
   What was signed, in whose name, and the signatures in circulation. A release
   key puts its name to revocation lists and to certificates of bundle keys.
   */
  datatype Ceremonies = Ceremonies(
    certified: (Key, Seconds) -> bool,             // release keys the root certified, and when
    issued: (Key, seq<Key>, Seconds) -> bool,      // lists a release key issued
    bundled: (Key, Key, Seconds) -> bool,          // bundle keys a release key certified
    seen: (Key, Bytes, Signature) -> bool)         // signatures anyone has come by, with the key and the bytes they go with

  ghost predicate SignedAsList(w: Ceremonies, release: Key, m: Bytes) {
    exists keys: seq<Key>, t: Seconds :: w.issued(release, keys, t) && t < U64 && m == SigningBytes(keys, t)
  }

  ghost predicate SignedAsCertificate(w: Ceremonies, release: Key, m: Bytes) {
    exists child: Key, t: Seconds :: w.bundled(release, child, t) && t < U64 && m == CertBytes(child, t)
  }

  /** Of the signatures in circulation, only those of its certificates check under the root's key. */
  ghost predicate RootSigns(c: Scheme, root: Key, w: Ceremonies) {
    forall m, g :: w.seen(root, m, g) && c.check(root, m, g) ==>
      exists child: Key, t: Seconds :: w.certified(child, t) && t < U64 && m == CertBytes(child, t)
  }

  /** A signature in circulation checks under `k`. */
  ghost predicate Backed(c: Scheme, w: Ceremonies, k: Key, m: Bytes) {
    exists g :: w.seen(k, m, g) && c.check(k, m, g)
  }

  /** Under a certified release key, exactly what it signed in either role is backed. */
  ghost predicate ReleaseSigns(c: Scheme, w: Ceremonies) {
    forall k: Key, t, m :: w.certified(k, t) ==>
      (Backed(c, w, k, m) <==> SignedAsList(w, k, m) || SignedAsCertificate(w, k, m))
  }

  /** Some signature in circulation makes this list believed. */
  ghost predicate Believable(c: Scheme, w: Ceremonies, list: SignedList, root: Key) {
    exists g :: w.seen(list.releaseCert.child, SigningBytes(list.keys, list.issuedAt), g)
                && VerifyList(c, list.(signature := g), root).Ok?
  }

  /** The two kinds of message share their bytes exactly for one-key lists laid out like this. */
  lemma ListReadsAsCertificate(keys: seq<Key>, t: Seconds, child: Key, u: Seconds)
    ensures SigningBytes(keys, t) == CertBytes(child, u)
       <==> && |keys| == 1 && child[..8] == BigEndian(t, 8)
            && child[8..] == keys[0][..24] && keys[0][24..] == BigEndian(u, 8)
  {
    var x, y := SigningBytes(keys, t), CertBytes(child, u);
    if x == y {
      assert |keys| == 1;
      OneKey(keys);
      assert x[..8] == BigEndian(t, 8) && y[..8] == child[..8];
      assert x[8..32] == keys[0][..24] && y[8..32] == child[8..];
      assert x[32..] == keys[0][24..] && y[32..] == BigEndian(u, 8);
    }
    if |keys| == 1 && child[..8] == BigEndian(t, 8) && child[8..] == keys[0][..24] && keys[0][24..] == BigEndian(u, 8) {
      OneKey(keys);
      assert child == child[..8] + child[8..] && keys[0] == keys[0][..24] + keys[0][24..];
    }
  }

  lemma OneKey(keys: seq<Key>)
    requires |keys| == 1
    ensures Concat(keys) == keys[0]
  {
    assert Concat(keys[1..]) == [];
  }

  /**
   With signatures nobody can forge, a list can be believed if and only if its
   release key was certified and issued it word for word, or it names one key and
   its signed bytes are those of a bundle certificate the release key gave out.
   */
  lemma BelievedExactly(c: Scheme, list: SignedList, root: Key, w: Ceremonies)
    requires RootSigns(c, root, w) && ReleaseSigns(c, w) && list.issuedAt < U64 && list.releaseCert.issuedAt < U64
    requires var cert := list.releaseCert;
             ChainsTo(c, cert, root) && w.seen(root, CertBytes(cert.child, cert.issuedAt), cert.signature)
    ensures var release := list.releaseCert.child;
            && w.certified(release, list.releaseCert.issuedAt)
            && (Believable(c, w, list, root)
                <==> || w.issued(release, list.keys, list.issuedAt)
                     || SignedAsCertificate(w, release, SigningBytes(list.keys, list.issuedAt)))
            && (SignedAsCertificate(w, release, SigningBytes(list.keys, list.issuedAt)) ==> |list.keys| == 1)
  {
    var cert, m := list.releaseCert, SigningBytes(list.keys, list.issuedAt);
    assert c.check(root, CertBytes(cert.child, cert.issuedAt), cert.signature);
    var child: Key, t: Seconds :| w.certified(child, t) && t < U64 && CertBytes(cert.child, cert.issuedAt) == CertBytes(child, t);
    CertBytesInjective(cert.child, cert.issuedAt, child, t);
    SignatureDecides(c, w, list, root);
    if SignedAsList(w, child, m) {
      var keys: seq<Key>, u: Seconds :| w.issued(child, keys, u) && u < U64 && m == SigningBytes(keys, u);
      SigningBytesInjective(list.keys, list.issuedAt, keys, u);
    }
    if SignedAsCertificate(w, child, m) {
      var bundle: Key, u: Seconds :| w.bundled(child, bundle, u) && u < U64 && m == CertBytes(bundle, u);
      ListReadsAsCertificate(list.keys, list.issuedAt, bundle, u);
    }
  }

  lemma SignatureDecides(c: Scheme, w: Ceremonies, list: SignedList, root: Key)
    requires ChainsTo(c, list.releaseCert, root)
    ensures Believable(c, w, list, root) <==> Backed(c, w, list.releaseCert.child, SigningBytes(list.keys, list.issuedAt))
  {
    var k, m := list.releaseCert.child, SigningBytes(list.keys, list.issuedAt);
    if Believable(c, w, list, root) {
      var g :| w.seen(k, m, g) && VerifyList(c, list.(signature := g), root).Ok?;
      assert c.check(k, m, g);
    }
    if Backed(c, w, k, m) {
      var g :| w.seen(k, m, g) && c.check(k, m, g);
      assert VerifyList(c, list.(signature := g), root).Ok?;
    }
  }

  /** So a believed list of none or several keys is word for word one that a certified release key issued. */
  lemma BelievedListWasIssued(c: Scheme, list: SignedList, root: Key, w: Ceremonies)
    requires RootSigns(c, root, w) && ReleaseSigns(c, w) && list.issuedAt < U64 && list.releaseCert.issuedAt < U64
    requires w.seen(root, CertBytes(list.releaseCert.child, list.releaseCert.issuedAt), list.releaseCert.signature)
    requires w.seen(list.releaseCert.child, SigningBytes(list.keys, list.issuedAt), list.signature)
    requires VerifyList(c, list, root).Ok? && |list.keys| != 1
    ensures w.certified(list.releaseCert.child, list.releaseCert.issuedAt)
    ensures w.issued(list.releaseCert.child, list.keys, list.issuedAt) && VerifyList(c, list, root).value == SetOf(list.keys)
  {
    assert list.(signature := list.signature) == list;
    BelievedExactly(c, list, root, w);
  }

  function BigEndianValue(b: Bytes): nat {
    if b == [] then 0 else 256 * BigEndianValue(b[..|b| - 1]) + b[|b| - 1]
  }

  lemma {:induction false} BigEndianOfValue(b: Bytes)
    ensures BigEndian(BigEndianValue(b), |b|) == b
  {
    if b != [] {
      BigEndianOfValue(b[..|b| - 1]);
    }
  }

  /** A list nobody issued: the first eight bytes of `bundle` as its time, the rest and the certificate's time as its one key. */
  function ShadowList(bundle: Key, u: Seconds, relCert: Certificate, signature: Signature): SignedList {
    SignedList(BigEndianValue(bundle[..8]), [bundle[8..] + BigEndian(u, 8)], relCert, signature)
  }

  /** Without the condition it fails: every bundle certificate's signature makes its shadow list believed. */
  lemma CertificateReadsAsList(c: Scheme, rootSecret: Secret, release: Secret, bundle: Key, t: Seconds, u: Seconds)
    requires Correct(c)
    ensures var relCert := Certify(c, rootSecret, c.public(release), t);
            var shadow := ShadowList(bundle, u, relCert, Certify(c, release, bundle, u).signature);
            VerifyList(c, shadow, c.public(rootSecret)) == Ok(SetOf(shadow.keys))
  {
    var relCert := Certify(c, rootSecret, c.public(release), t);
    var shadow := ShadowList(bundle, u, relCert, Certify(c, release, bundle, u).signature);
    ShadowBytes(bundle, u, relCert, shadow.signature);
    assert c.check(c.public(rootSecret), CertBytes(relCert.child, relCert.issuedAt), relCert.signature);
    assert c.check(c.public(release), CertBytes(bundle, u), shadow.signature);
  }

  // -------------------------------------------------------- an honest world

  type List = (seq<Key>, Seconds)
  type Binding = (Key, Seconds)

  /** The bytes `release` signed: its lists and its certificates. */
  ghost predicate SignedBytes(lists: set<List>, bundles: set<Binding>, m: Bytes) {
    || (exists x: List :: x in lists && m == SigningBytes(x.0, x.1))
    || (exists x: Binding :: x in bundles && m == CertBytes(x.0, x.1))
  }

  /** The root certified one release key, which issued `lists` and certified `bundles`; nothing else was ever signed. */
  ghost function HonestWorld(c: Scheme, root: Secret, release: Secret, t: Seconds, lists: set<List>, bundles: set<Binding>): Ceremonies {
    Ceremonies(
      (k: Key, u: Seconds) => k == c.public(release) && u == t,
      (k: Key, keys: seq<Key>, u: Seconds) => k == c.public(release) && (keys, u) in lists,
      (k: Key, child: Key, u: Seconds) => k == c.public(release) && (child, u) in bundles,
      (k: Key, m: Bytes, g: Signature) =>
        || (k == c.public(root) && m == CertBytes(c.public(release), t) && g == c.sign(root, m))
        || (k == c.public(release) && SignedBytes(lists, bundles, m) && g == c.sign(release, m)))
  }

  /** Every correct scheme, with a root and a release key that differ, has such worlds, and they meet the two hypotheses. */
  lemma HonestWorldSigns(c: Scheme, root: Secret, release: Secret, t: Seconds, lists: set<List>, bundles: set<Binding>)
    requires Correct(c) && c.public(root) != c.public(release) && t < U64
    requires (forall x :: x in lists ==> x.1 < U64) && forall x :: x in bundles ==> x.1 < U64
    ensures var w := HonestWorld(c, root, release, t, lists, bundles);
            RootSigns(c, c.public(root), w) && ReleaseSigns(c, w)
  {
    var w := HonestWorld(c, root, release, t, lists, bundles);
    var k := c.public(release);
    forall m, g | w.seen(c.public(root), m, g)
      ensures exists child: Key, u: Seconds :: w.certified(child, u) && u < U64 && m == CertBytes(child, u)
    {
      assert w.certified(k, t);
    }
    forall m ensures Backed(c, w, k, m) <==> SignedAsList(w, k, m) || SignedAsCertificate(w, k, m) {
      SignedBytesMeans(c, root, release, t, lists, bundles, m);
      if SignedBytes(lists, bundles, m) {
        assert w.seen(k, m, c.sign(release, m)) && c.check(k, m, c.sign(release, m));
      }
    }
  }

  lemma SignedBytesMeans(c: Scheme, root: Secret, release: Secret, t: Seconds, lists: set<List>, bundles: set<Binding>, m: Bytes)
    requires (forall x :: x in lists ==> x.1 < U64) && forall x :: x in bundles ==> x.1 < U64
    ensures var w := HonestWorld(c, root, release, t, lists, bundles);
            SignedBytes(lists, bundles, m) <==> SignedAsList(w, c.public(release), m) || SignedAsCertificate(w, c.public(release), m)
  {
    var w, k := HonestWorld(c, root, release, t, lists, bundles), c.public(release);
    if x: List :| x in lists && m == SigningBytes(x.0, x.1) {
      assert (x.0, x.1) == x && w.issued(k, x.0, x.1);
    }
    if x: Binding :| x in bundles && m == CertBytes(x.0, x.1) {
      assert (x.0, x.1) == x && w.bundled(k, x.0, x.1);
    }
    if SignedAsList(w, k, m) {
      var keys: seq<Key>, u: Seconds :| w.issued(k, keys, u) && u < U64 && m == SigningBytes(keys, u);
      assert (keys, u) in lists;
    }
    if SignedAsCertificate(w, k, m) {
      var child: Key, u: Seconds :| w.bundled(k, child, u) && u < U64 && m == CertBytes(child, u);
      assert (child, u) in bundles;
    }
  }

  /** A scheme that believes anything is correct; in an honest world the hypotheses still hold of it. */
  const CREDULOUS: Scheme := Scheme((s: Secret) => BigEndian(s, 32), (s: Secret, m: Bytes) => 0, (k: Key, m: Bytes, g: Signature) => true)

  lemma HypothesesAreMet(t: Seconds, lists: set<List>, bundles: set<Binding>)
    requires t < U64 && (forall x :: x in lists ==> x.1 < U64) && forall x :: x in bundles ==> x.1 < U64
    ensures var w := HonestWorld(CREDULOUS, 0, 1, t, lists, bundles);
            Correct(CREDULOUS) && RootSigns(CREDULOUS, CREDULOUS.public(0), w) && ReleaseSigns(CREDULOUS, w)
  {
    assert BigEndian(0, 32)[31] == 0 && BigEndian(1, 32)[31] == 1;
    HonestWorldSigns(CREDULOUS, 0, 1, t, lists, bundles);
  }

  /**
   The shadow list of a bundle certificate in such a world: it can be believed
   though it was not issued, and the certificate is why.
   */
  lemma ShadowIsCertificate(
    c: Scheme, root: Secret, release: Secret, t: Seconds, lists: set<List>, bundles: set<Binding>, bundle: Key, u: Seconds)
    requires Correct(c) && c.public(root) != c.public(release) && t < U64
    requires (forall x :: x in lists ==> x.1 < U64) && (forall x :: x in bundles ==> x.1 < U64) && (bundle, u) in bundles
    ensures var w := HonestWorld(c, root, release, t, lists, bundles);
            var relCert := Certify(c, root, c.public(release), t);
            var shadow := ShadowList(bundle, u, relCert, Certify(c, release, bundle, u).signature);
            && VerifyList(c, shadow, c.public(root)).Ok? && Believable(c, w, shadow, c.public(root))
            && SignedAsCertificate(w, c.public(release), SigningBytes(shadow.keys, shadow.issuedAt))
            && ((shadow.keys, shadow.issuedAt) !in lists ==> !w.issued(c.public(release), shadow.keys, shadow.issuedAt))
  {
    var w := HonestWorld(c, root, release, t, lists, bundles);
    var relCert := Certify(c, root, c.public(release), t);
    var shadow := ShadowList(bundle, u, relCert, Certify(c, release, bundle, u).signature);
    CertificateReadsAsList(c, root, release, bundle, t, u);
    ShadowBytes(bundle, u, relCert, shadow.signature);
    assert w.bundled(c.public(release), bundle, u);
    assert shadow.(signature := shadow.signature) == shadow;
    var x: Binding := (bundle, u);
    assert x in bundles && CertBytes(bundle, u) == CertBytes(x.0, x.1);
    assert SignedBytes(lists, bundles, CertBytes(bundle, u));
    assert w.seen(c.public(release), SigningBytes(shadow.keys, shadow.issuedAt), shadow.signature);
  }

  lemma ShadowBytes(bundle: Key, u: Seconds, relCert: Certificate, signature: Signature)
    ensures var shadow := ShadowList(bundle, u, relCert, signature);
            SigningBytes(shadow.keys, shadow.issuedAt) == CertBytes(bundle, u)
  {
    var shadow := ShadowList(bundle, u, relCert, signature);
    BigEndianOfValue(bundle[..8]);
    assert shadow.keys[0][..24] == bundle[8..] && shadow.keys[0][24..] == BigEndian(u, 8);
    ListReadsAsCertificate(shadow.keys, shadow.issuedAt, bundle, u);
  }

  // ------------------------------------------------------- sort and dedup

  predicate Leq(a: Bytes, b: Bytes) {
    a == [] || (b != [] && (a[0] < b[0] || (a[0] == b[0] && Leq(a[1..], b[1..]))))
  }

  lemma {:induction false} LeqTotal(a: Bytes, b: Bytes)
    ensures Leq(a, b) || Leq(b, a)
  {
    if a != [] && b != [] {
      LeqTotal(a[1..], b[1..]);
    }
  }

  lemma {:induction false} LeqAntisymmetric(a: Bytes, b: Bytes)
    requires Leq(a, b) && Leq(b, a)
    ensures a == b
  {
    if a != [] {
      LeqAntisymmetric(a[1..], b[1..]);
      assert a == [a[0]] + a[1..] && b == [b[0]] + b[1..];
    }
  }

  lemma {:induction false} LeqTransitive(a: Bytes, b: Bytes, d: Bytes)
    requires Leq(a, b) && Leq(b, d)
    ensures Leq(a, d)
  {
    if a != [] && a[0] == b[0] == d[0] {
      LeqTransitive(a[1..], b[1..], d[1..]);
    }
  }

  ghost predicate Sorted(s: seq<Key>) {
    forall i, j :: 0 <= i < j < |s| ==> Leq(s[i], s[j])
  }

  /** Sorted, without duplicates. */
  ghost predicate Strict(s: seq<Key>) {
    forall i, j :: 0 <= i < j < |s| ==> Leq(s[i], s[j]) && s[i] != s[j]
  }

  function Insert(k: Key, s: seq<Key>): seq<Key> {
    if s == [] || Leq(k, s[0]) then [k] + s else [s[0]] + Insert(k, s[1..])
  }

  function SortKeys(s: seq<Key>): seq<Key> {
    if s == [] then [] else Insert(s[0], SortKeys(s[1..]))
  }

  /** Drops each key equal to its neighbour. */
  function Dedup(s: seq<Key>): seq<Key> {
    if |s| <= 1 then s else if s[0] == s[1] then Dedup(s[1..]) else [s[0]] + Dedup(s[1..])
  }

  lemma {:induction false} InsertAdds(k: Key, s: seq<Key>)
    ensures multiset(Insert(k, s)) == multiset(s) + multiset{k}
    ensures forall x :: x in Insert(k, s) <==> x == k || x in s
  {
    if s != [] && !Leq(k, s[0]) {
      InsertAdds(k, s[1..]);
      assert s == [s[0]] + s[1..];
    }
  }

  lemma SortedCons(x: Key, s: seq<Key>)
    requires Sorted(s) && forall y :: y in s ==> Leq(x, y)
    ensures Sorted([x] + s)
  {
    var r := [x] + s;
    forall i, j | 0 <= i < j < |r| ensures Leq(r[i], r[j]) {
      assert r[j] == s[j - 1] && (i > 0 ==> r[i] == s[i - 1]);
    }
  }

  lemma HeadIsLeast(s: seq<Key>, k: Key)
    requires Sorted(s) && s != [] && Leq(k, s[0])
    ensures forall x :: x in s ==> Leq(k, x)
  {
    forall x | x in s ensures Leq(k, x) {
      var i :| 0 <= i < |s| && s[i] == x;
      if i > 0 {
        LeqTransitive(k, s[0], s[i]);
      }
    }
  }

  lemma {:induction false} InsertSorts(k: Key, s: seq<Key>)
    requires Sorted(s)
    ensures Sorted(Insert(k, s)) && multiset(Insert(k, s)) == multiset(s) + multiset{k}
  {
    InsertAdds(k, s);
    if s == [] {
    } else if Leq(k, s[0]) {
      HeadIsLeast(s, k);
      SortedCons(k, s);
    } else {
      LeqTotal(k, s[0]);
      InsertSorts(k, s[1..]);
      InsertAdds(k, s[1..]);
      SortedCons(s[0], Insert(k, s[1..]));
    }
  }

  lemma {:induction false} SortKeysSorts(s: seq<Key>)
    ensures Sorted(SortKeys(s)) && multiset(SortKeys(s)) == multiset(s)
  {
    if s != [] {
      SortKeysSorts(s[1..]);
      InsertSorts(s[0], SortKeys(s[1..]));
      assert s == [s[0]] + s[1..];
    }
  }

  lemma {:induction false} DedupKeepsSet(s: seq<Key>)
    ensures SetOf(Dedup(s)) == SetOf(s)
    ensures s != [] ==> Dedup(s) != [] && Dedup(s)[0] == s[0]
  {
    if |s| > 1 {
      DedupKeepsSet(s[1..]);
      assert s == [s[0]] + s[1..];
      assert SetOf(s) == {s[0]} + SetOf(s[1..]);
      if s[0] != s[1] {
        assert SetOf(Dedup(s)) == {s[0]} + SetOf(Dedup(s[1..]));
      } else {
        assert s[0] in SetOf(s[1..]);
      }
    }
  }

  lemma {:induction false} DedupIsStrict(s: seq<Key>)
    requires Sorted(s)
    ensures Strict(Dedup(s))
  {
    if |s| > 1 {
      DedupIsStrict(s[1..]);
      if s[0] != s[1] {
        var r := Dedup(s[1..]);
        forall j | 0 <= j < |r| ensures Leq(s[0], r[j]) && s[0] != r[j] {
          DedupKeepsSet(s[1..]);
          assert r[j] in SetOf(s[1..]);
          var i :| 0 <= i < |s[1..]| && s[1..][i] == r[j];
          assert r[j] == s[i + 1];
          if r[j] == s[0] {
            assert Leq(s[0], s[1]);
            assert i > 0 ==> Leq(s[1], s[i + 1]);
            LeqAntisymmetric(s[0], s[1]);
          }
        }
      }
    }
  }

  lemma NoKeys(s: seq<Key>)
    ensures SetOf(s) == {} <==> s == []
  {
    if s != [] {
      assert s[0] in SetOf(s);
    }
  }

  /** A sorted, duplicate-free list is determined by its set of keys. */
  lemma {:induction false} StrictIsCanonical(s: seq<Key>, t: seq<Key>)
    requires Strict(s) && Strict(t) && SetOf(s) == SetOf(t)
    ensures s == t
  {
    NoKeys(s);
    NoKeys(t);
    if s != [] {
      assert s[0] in SetOf(s);
      assert t[0] in SetOf(t);
      SameHead(s, t);
      TailSet(s);
      TailSet(t);
      StrictIsCanonical(s[1..], t[1..]);
      assert s == [s[0]] + s[1..] && t == [t[0]] + t[1..];
    }
  }

  lemma SameHead(s: seq<Key>, t: seq<Key>)
    requires Strict(s) && Strict(t) && s != [] && t != [] && s[0] in t && t[0] in s
    ensures s[0] == t[0]
  {
    var i :| 0 <= i < |t| && t[i] == s[0];
    var j :| 0 <= j < |s| && s[j] == t[0];
    if i > 0 && j > 0 {
      assert Leq(t[0], t[i]) && Leq(s[0], s[j]);
      LeqAntisymmetric(s[0], t[0]);
    }
  }

  lemma TailSet(s: seq<Key>)
    requires Strict(s) && s != []
    ensures SetOf(s[1..]) == SetOf(s) - {s[0]}
  {
    assert s == [s[0]] + s[1..];
    forall k | k in s[1..] ensures k != s[0] {
      var i :| 0 <= i < |s[1..]| && s[1..][i] == k;
      assert s[i + 1] == k;
    }
  }

  /** What the ceremony puts on the list. */
  function Listed(existing: seq<Key>, revoke: seq<Key>): seq<Key> {
    Dedup(SortKeys(existing + revoke))
  }

  lemma ListedIsStrictUnion(existing: seq<Key>, revoke: seq<Key>)
    ensures Strict(Listed(existing, revoke))
    ensures SetOf(Listed(existing, revoke)) == SetOf(existing) + SetOf(revoke)
  {
    var all := existing + revoke;
    SortKeysSorts(all);
    DedupIsStrict(SortKeys(all));
    DedupKeepsSet(SortKeys(all));
    assert forall k :: k in SortKeys(all) <==> k in multiset(SortKeys(all));
    assert forall k :: k in all <==> k in multiset(all);
    assert SetOf(SortKeys(all)) == SetOf(all);
  }

  // ---------------------------------------------------------------- ceremony

  datatype IssueError = WrongCertificate | ExistingUnreadable | BadKey | OutputExists

  /** The keys named on the command line, each as far as it parses. */
  function Parsed(revoke: seq<Option<Key>>): seq<Key>
    requires forall i :: 0 <= i < |revoke| ==> revoke[i].Some?
  {
    seq(|revoke|, i requires 0 <= i < |revoke| => revoke[i].value)
  }

  /** The list file given with `--existing`: none, unreadable, or a list. */
  datatype Existing = NotGiven | Unreadable | Prior(list: SignedList)

  function PriorKeys(e: Existing): seq<Key> {
    if e.Prior? then e.list.keys else []
  }

  method RevokeIssue(c: Scheme, release: Secret, certPublic: Key, cert: Certificate, existing: Existing,
                     revoke: seq<Option<Key>>, now: Seconds, outExists: bool)
    returns (r: Result<SignedList, IssueError>)
    ensures r.Ok? <==> && certPublic == c.public(release) && !existing.Unreadable? && !outExists
                       && forall i :: 0 <= i < |revoke| ==> revoke[i].Some?
    ensures r == Err(WrongCertificate) <==> certPublic != c.public(release)
    ensures r == Err(ExistingUnreadable) <==> certPublic == c.public(release) && existing.Unreadable?
    ensures r == Err(BadKey) <==> && certPublic == c.public(release) && !existing.Unreadable?
                                  && exists i :: 0 <= i < |revoke| && revoke[i].None?
    ensures r.Ok? ==> r.value == Issue(c, release, cert, r.value.keys, now)
    ensures r.Ok? ==> Strict(r.value.keys) && SetOf(r.value.keys) == SetOf(PriorKeys(existing)) + SetOf(Parsed(revoke))
  {
    if certPublic != c.public(release) {
      return Err(WrongCertificate);
    }
    if existing.Unreadable? {
      return Err(ExistingUnreadable);
    }
    var keys := PriorKeys(existing);
    for i := 0 to |revoke|
      invariant forall j :: 0 <= j < i ==> revoke[j].Some?
      invariant keys == PriorKeys(existing) + Parsed(revoke[..i])
    {
      if revoke[i].None? {
        return Err(BadKey);
      }
      keys := keys + [revoke[i].value];
      assert Parsed(revoke[..i + 1]) == Parsed(revoke[..i]) + [revoke[i].value];
    }
    assert revoke[..|revoke|] == revoke;
    ListedIsStrictUnion(PriorKeys(existing), Parsed(revoke));
    keys := SortKeys(keys);
    keys := Dedup(keys);
    if outExists {
      return Err(OutputExists);
    }
    return Ok(Issue(c, release, cert, keys, now));
  }

  // ------------------------------------------------------------------ chains

  /** Lists where each carries its predecessor forward and adds the keys of its own ceremony. */
  ghost predicate Chain(lists: seq<SignedList>, added: seq<set<Key>>) {
    && |lists| == |added|
    && (forall n :: 0 <= n < |lists| ==> Strict(lists[n].keys))
    && forall n :: 0 <= n < |lists| ==>
         SetOf(lists[n].keys) == (if n == 0 then {} else SetOf(lists[n - 1].keys)) + added[n]
  }

  ghost function EverRevoked(added: seq<set<Key>>): set<Key> {
    if added == [] then {} else EverRevoked(added[..|added| - 1]) + added[|added| - 1]
  }

  /** Along any chain the list is exactly the keys revoked so far. */
  lemma {:induction false} ChainIsUnion(lists: seq<SignedList>, added: seq<set<Key>>, n: nat)
    requires Chain(lists, added) && n < |lists|
    ensures SetOf(lists[n].keys) == EverRevoked(added[..n + 1])
  {
    var prior := if n == 0 then {} else SetOf(lists[n - 1].keys);
    assert SetOf(lists[n].keys) == prior + added[n];
    if n > 0 {
      ChainIsUnion(lists, added, n - 1);
    }
    assert added[..n + 1][..n] == added[..n];
    assert prior == EverRevoked(added[..n]);
    assert EverRevoked(added[..n + 1]) == EverRevoked(added[..n]) + added[n];
  }

  /** No key ever leaves the list. */
  lemma {:induction false} ChainGrows(lists: seq<SignedList>, added: seq<set<Key>>, m: nat, n: nat)
    requires Chain(lists, added) && m <= n < |lists|
    ensures SetOf(lists[m].keys) <= SetOf(lists[n].keys)
  {
    if m < n {
      ChainGrows(lists, added, m, n - 1);
    }
  }

  /** Two chains that revoked the same keys, in whatever order and ceremonies, end in the same list. */
  lemma ChainsConverge(lists: seq<SignedList>, added: seq<set<Key>>, lists': seq<SignedList>, added': seq<set<Key>>)
    requires Chain(lists, added) && Chain(lists', added') && lists != [] && lists' != []
    requires EverRevoked(added) == EverRevoked(added')
    ensures lists[|lists| - 1].keys == lists'[|lists'| - 1].keys
  {
    ChainIsUnion(lists, added, |lists| - 1);
    ChainIsUnion(lists', added', |lists'| - 1);
    assert added[..|added|] == added && added'[..|added'|] == added';
    StrictIsCanonical(lists[|lists| - 1].keys, lists'[|lists'| - 1].keys);
  }

  /** One more ceremony of the release key on top of the newest list. */
  method Reissue(c: Scheme, release: Secret, cert: Certificate, lists: seq<SignedList>, ghost added: seq<set<Key>>,
                 revoke: seq<Option<Key>>, now: Seconds)
    returns (r: Result<SignedList, IssueError>)
    requires Chain(lists, added)
    ensures r.Ok? <==> forall i :: 0 <= i < |revoke| ==> revoke[i].Some?
    ensures r.Ok? ==> Chain(lists + [r.value], added + [SetOf(Parsed(revoke))])
  {
    r := RevokeIssue(c, release, c.public(release), cert,
                     if lists == [] then NotGiven else Prior(lists[|lists| - 1]), revoke, now, false);
  }
}
