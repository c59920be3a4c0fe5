/** One validated identity configuration, parsed from the bytes of three mounted files. SHA-256 is
    taken not to collide: a digest is the bytes that are hashed, a fingerprint is the certificate. */
module Material {
  import opened Basics

  type Fingerprint = Bytes

  datatype Certificate = Certificate(raw: Bytes, isCA: bool, notBefore: int, notAfter: int)

  datatype Block = Block(kind: string, bytes: Bytes)

  /** pem.Decode: the next block and a strictly shorter rest. */
  type PemDecoder = f: Bytes -> Option<(Block, Bytes)>
    | forall b :: f(b).Some? ==> |f(b).value.1| < |b|
    witness b => None

  /** x509.ParseCertificate: the certificate keeps the bytes it was parsed from. */
  type X509Parser = f: Bytes -> Option<Certificate>
    | forall b :: f(b).Some? ==> f(b).value.raw == b
    witness b => None

  /** The foreign decoders; `keyPair` answers the leaf's bytes when the key matches the certificate. */
  datatype Pki = Pki(pem: PemDecoder, x509: X509Parser, keyPair: (Bytes, Bytes) -> Option<Bytes>)

  datatype Material = Material(
    leaf: Certificate,
    pool: set<Certificate>,
    roots: map<Fingerprint, Certificate>,
    digest: Bytes)

  datatype Defect = Unreadable | BadPair | BadLeaf | NotValidNow | BadCertificate | NotACA | EmptyBundle

  const CERTIFICATE := "CERTIFICATE"

  // ---- the digest ----

  function DigestInput(cert: Bytes, key: Bytes, ca: Bytes): Bytes {
    cert + [0] + key + [0] + ca + [0]
  }

  predicate NulFree(s: Bytes) {
    forall i | 0 <= i < |s| :: s[i] != 0
  }

  function FirstNul(s: Bytes): nat {
    if s == [] || s[0] == 0 then 0 else 1 + FirstNul(s[1..])
  }

  lemma {:induction false} FirstNulBehind(a: Bytes, x: Bytes)
    requires NulFree(a)
    ensures FirstNul(a + [0] + x) == |a|
    decreases |a|
  {
    if a == [] {
    } else {
      assert (a + [0] + x)[1..] == a[1..] + [0] + x;
      FirstNulBehind(a[1..], x);
    }
  }

  lemma SplitAtNul(a: Bytes, b: Bytes, x: Bytes, y: Bytes)
    requires NulFree(a) && NulFree(b) && a + [0] + x == b + [0] + y
    ensures a == b && x == y
  {
    var s, t := a + [0] + x, b + [0] + y;
    FirstNulBehind(a, x);
    FirstNulBehind(b, y);
    assert a == s[..|a|] && b == t[..|b|];
    assert x == s[|a| + 1..] && y == t[|b| + 1..];
  }

  /** Equal digests mean equal files, for files without NUL bytes. */
  lemma DigestIsInjective(c1: Bytes, k1: Bytes, a1: Bytes, c2: Bytes, k2: Bytes, a2: Bytes)
    requires NulFree(c1) && NulFree(k1) && NulFree(a1) && NulFree(c2) && NulFree(k2) && NulFree(a2)
    ensures DigestInput(c1, k1, a1) == DigestInput(c2, k2, a2) <==> c1 == c2 && k1 == k2 && a1 == a2
  {
    if DigestInput(c1, k1, a1) == DigestInput(c2, k2, a2) {
      var x, y := k1 + [0] + a1 + [0], k2 + [0] + a2 + [0];
      assert DigestInput(c1, k1, a1) == c1 + [0] + x && DigestInput(c2, k2, a2) == c2 + [0] + y;
      SplitAtNul(c1, c2, x, y);
      assert x == k1 + [0] + (a1 + [0]) && y == k2 + [0] + (a2 + [0]);
      SplitAtNul(k1, k2, a1 + [0], a2 + [0]);
      SplitAtNul(a1, a2, [], []);
    }
  }

  /** Files with NUL bytes can share a digest. */
  lemma DigestCollides()
    ensures DigestInput([1, 0, 2], [3], [4]) == DigestInput([1], [2, 0, 3], [4])
    ensures exists c, k, a, c', k', a' ::
              (c, k, a) != (c', k', a') && DigestInput(c, k, a) == DigestInput(c', k', a')
  {
    var c: Bytes, c': Bytes := [1, 0, 2], [1];
    assert DigestInput(c, [3], [4]) == DigestInput(c', [2, 0, 3], [4]) && |c| != |c'|;
  }

  lemma AroundNul(s: Bytes) returns (x: Bytes, y: Bytes)
    requires !NulFree(s)
    ensures s == x + [0] + y
  {
    var i :| 0 <= i < |s| && s[i] == 0;
    x, y := s[..i], s[i + 1..];
  }

  /** Exactly the files without NUL bytes share their digest with no others. */
  lemma DigestIsUnique(c: Bytes, k: Bytes, a: Bytes)
    ensures NulFree(c) && NulFree(k) && NulFree(a) <==>
            forall c', k', a' :: DigestInput(c', k', a') == DigestInput(c, k, a) ==> c' == c && k' == k && a' == a
  {
    if !NulFree(c) {
      var x, y := AroundNul(c);
      assert DigestInput(x, y, k + [0] + a) == DigestInput(c, k, a);
    } else if !NulFree(k) {
      var x, y := AroundNul(k);
      assert DigestInput(c + [0] + x, y, a) == DigestInput(c, k, a);
    } else if !NulFree(a) {
      var x, y := AroundNul(a);
      assert DigestInput(c, k + [0] + x, y) == DigestInput(c, k, a);
    } else {
      forall c', k', a' | DigestInput(c', k', a') == DigestInput(c, k, a)
        ensures c' == c && k' == k && a' == a
      {
        NulsAdd(c, k, a);
        NulsAdd(c', k', a');
        NoNuls(c');
        NoNuls(k');
        NoNuls(a');
        DigestIsInjective(c, k, a, c', k', a');
      }
    }
  }

  function Nuls(s: Bytes): nat {
    if s == [] then 0 else (if s[0] == 0 then 1 else 0) + Nuls(s[1..])
  }

  lemma {:induction false} NulsConcat(a: Bytes, b: Bytes)
    ensures Nuls(a + b) == Nuls(a) + Nuls(b)
  {
    if a == [] {
      assert a + b == b;
    } else {
      assert (a + b)[1..] == a[1..] + b;
      NulsConcat(a[1..], b);
    }
  }

  lemma {:induction false} NoNuls(s: Bytes)
    ensures Nuls(s) == 0 <==> NulFree(s)
  {
    if s == [] {
    } else {
      NoNuls(s[1..]);
      assert s == [s[0]] + s[1..];
    }
  }

  lemma NulsAdd(c: Bytes, k: Bytes, a: Bytes)
    ensures Nuls(DigestInput(c, k, a)) == Nuls(c) + Nuls(k) + Nuls(a) + 3
    ensures NulFree(c) && NulFree(k) && NulFree(a) ==> Nuls(DigestInput(c, k, a)) == 3
  {
    NulsConcat(c, [0]);
    NulsConcat(c + [0], k);
    NulsConcat(c + [0] + k, [0]);
    NulsConcat(c + [0] + k + [0], a);
    NulsConcat(c + [0] + k + [0] + a, [0]);
    NoNuls(c);
    NoNuls(k);
    NoNuls(a);
  }

  // ---- the bundle ----

  /** Every block of a bundle, in order. */
  function Blocks(pem: PemDecoder, rest: Bytes): seq<Block>
    decreases |rest|
  {
    var d := pem(rest);
    if d.None? then [] else [d.value.0] + Blocks(pem, d.value.1)
  }

  /** The roots of a bundle, added to those found before. */
  function Bundle(pki: Pki, blocks: seq<Block>, roots: map<Fingerprint, Certificate>)
    : Result<map<Fingerprint, Certificate>, Defect>
  {
    if blocks == [] then Ok(roots)
    else if blocks[0].kind != CERTIFICATE then Bundle(pki, blocks[1..], roots)
    else
      var ca := pki.x509(blocks[0].bytes);
      if ca.None? then Err(BadCertificate)
      else if !ca.value.isCA then Err(NotACA)
      else Bundle(pki, blocks[1..], roots[ca.value.raw := ca.value])
  }

  function Parsed(pki: Pki, cert: Bytes, key: Bytes, ca: Bytes, now: int): Result<Material, Defect> {
    var der := pki.keyPair(cert, key);
    if der.None? then Err(BadPair)
    else
      var leaf := pki.x509(der.value);
      if leaf.None? then Err(BadLeaf)
      else if now < leaf.value.notBefore || now > leaf.value.notAfter then Err(NotValidNow)
      else
        var roots := Bundle(pki, Blocks(pki.pem, ca), map[]);
        if roots.Err? then Err(roots.error)
        else if roots.value == map[] then Err(EmptyBundle)
        else Ok(Material(leaf.value, roots.value.Values, roots.value, DigestInput(cert, key, ca)))
  }

  /** The certificate a block of a bundle stands for. */
  predicate Holds(pki: Pki, b: Block, c: Certificate) {
    b.kind == CERTIFICATE && pki.x509(b.bytes) == Some(c)
  }

  predicate AuthoritiesOnly(pki: Pki, blocks: seq<Block>) {
    forall b <- blocks | b.kind == CERTIFICATE :: pki.x509(b.bytes).Some? && pki.x509(b.bytes).value.isCA
  }

  lemma {:induction false} BundleHolds(pki: Pki, blocks: seq<Block>, roots: map<Fingerprint, Certificate>)
    ensures Bundle(pki, blocks, roots).Ok? <==> AuthoritiesOnly(pki, blocks)
    ensures Bundle(pki, blocks, roots).Ok? ==>
      var all := Bundle(pki, blocks, roots).value;
      && (forall b <- blocks | b.kind == CERTIFICATE :: b.bytes in all && Holds(pki, b, all[b.bytes]))
      && (forall fp <- all ::
            (fp in roots && all[fp] == roots[fp]) || exists b :: b in blocks && b.bytes == fp && Holds(pki, b, all[fp]))
      && (forall fp <- roots :: fp in all)
    decreases |blocks|
  {
    if blocks == [] {
    } else {
      var b, rest := blocks[0], blocks[1..];
      assert blocks == [b] + rest;
      if b.kind != CERTIFICATE {
        BundleHolds(pki, rest, roots);
      } else {
        var ca := pki.x509(b.bytes);
        if ca.Some? && ca.value.isCA {
          BundleHolds(pki, rest, roots[ca.value.raw := ca.value]);
        }
      }
    }
  }

  predicate HasCertificate(blocks: seq<Block>) {
    exists b :: b in blocks && b.kind == CERTIFICATE
  }

  /** The certificates of a bundle, each under its own fingerprint and nothing else. */
  ghost predicate Exactly(pki: Pki, blocks: seq<Block>, pool: set<Certificate>, roots: map<Fingerprint, Certificate>) {
    && (forall c :: c in pool <==> exists b :: b in blocks && Holds(pki, b, c))
    && (forall fp <- roots :: roots[fp].raw == fp && roots[fp] in pool)
    && (forall c <- pool :: c.raw in roots && roots[c.raw] == c)
  }

  lemma BundleIsExact(pki: Pki, blocks: seq<Block>)
    requires AuthoritiesOnly(pki, blocks)
    ensures var all := Bundle(pki, blocks, map[]);
            && all.Ok? && Exactly(pki, blocks, all.value.Values, all.value)
            && (all.value == map[] <==> !HasCertificate(blocks))
  {
    var none: map<Fingerprint, Certificate> := map[];
    BundleHolds(pki, blocks, none);
    var all := Bundle(pki, blocks, none).value;
    forall c
      ensures c in all.Values <==> exists b :: b in blocks && Holds(pki, b, c)
    {
      if b :| b in blocks && Holds(pki, b, c) {
        assert all[b.bytes] == c;
      }
    }
    forall fp <- all
      ensures all[fp].raw == fp && all[fp] in all.Values && HasCertificate(blocks)
    {
      var b :| b in blocks && b.bytes == fp && Holds(pki, b, all[fp]);
    }
    if b :| b in blocks && b.kind == CERTIFICATE {
      assert b.bytes in all;
    }
  }

  /** Files are accepted whole or not at all: the key matches, the leaf is valid now, every certificate
      of the bundle is a CA and there is one. The trusted roots, and the pool chains are verified
      against, are then exactly those certificates, each under its own fingerprint. */
  lemma AcceptedWhole(pki: Pki, cert: Bytes, key: Bytes, ca: Bytes, now: int)
    ensures
      var der := pki.keyPair(cert, key);
      Parsed(pki, cert, key, ca, now).Ok? <==>
        && der.Some? && pki.x509(der.value).Some?
        && pki.x509(der.value).value.notBefore <= now <= pki.x509(der.value).value.notAfter
        && AuthoritiesOnly(pki, Blocks(pki.pem, ca))
        && HasCertificate(Blocks(pki.pem, ca))
    ensures Parsed(pki, cert, key, ca, now).Ok? ==>
      var m := Parsed(pki, cert, key, ca, now).value;
      && m.digest == DigestInput(cert, key, ca)
      && Exactly(pki, Blocks(pki.pem, ca), m.pool, m.roots)
  {
    BundleAccepts(pki, Blocks(pki.pem, ca));
    if Parsed(pki, cert, key, ca, now).Ok? {
      BundleIsExact(pki, Blocks(pki.pem, ca));
    }
  }

  /** A bundle yields roots exactly when it holds nothing but authorities, and some exactly when it holds one. */
  lemma BundleAccepts(pki: Pki, blocks: seq<Block>)
    ensures Bundle(pki, blocks, map[]).Ok? <==> AuthoritiesOnly(pki, blocks)
    ensures AuthoritiesOnly(pki, blocks) ==> (Bundle(pki, blocks, map[]).value == map[] <==> !HasCertificate(blocks))
  {
    var none: map<Fingerprint, Certificate> := map[];
    BundleHolds(pki, blocks, none);
    if AuthoritiesOnly(pki, blocks) {
      BundleIsExact(pki, blocks);
    }
  }

  /** Parse: the loop over the bundle fills the pool and the roots block by block. */
  method Parse(pki: Pki, cert: Bytes, key: Bytes, ca: Bytes, now: int) returns (r: Result<Material, Defect>)
    ensures r == Parsed(pki, cert, key, ca, now)
  {
    var der := pki.keyPair(cert, key);
    if der.None? {
      return Err(BadPair);
    }
    var leaf := pki.x509(der.value);
    if leaf.None? {
      return Err(BadLeaf);
    }
    if now < leaf.value.notBefore || now > leaf.value.notAfter {
      return Err(NotValidNow);
    }
    var pool: set<Certificate> := {};
    var roots: map<Fingerprint, Certificate> := map[];
    var rest := ca;
    var block := pki.pem(rest);
    while block.Some?
      invariant block == pki.pem(rest)
      invariant Bundle(pki, Blocks(pki.pem, ca), map[]) == Bundle(pki, Blocks(pki.pem, rest), roots)
      invariant pool == roots.Values
      invariant forall fp <- roots :: pki.x509(fp) == Some(roots[fp])
      decreases |rest|
    {
      rest := block.value.1;
      if block.value.0.kind == CERTIFICATE {
        var c := pki.x509(block.value.0.bytes);
        if c.None? {
          return Err(BadCertificate);
        }
        if !c.value.isCA {
          return Err(NotACA);
        }
        ValuesGrow(roots, c.value);
        pool := pool + {c.value};
        roots := roots[c.value.raw := c.value];
      }
      block := pki.pem(rest);
    }
    if |roots| == 0 {
      return Err(EmptyBundle);
    }
    return Ok(Material(leaf.value, pool, roots, DigestInput(cert, key, ca)));
  }

  lemma ValuesGrow(roots: map<Fingerprint, Certificate>, c: Certificate)
    requires c.raw in roots ==> roots[c.raw] == c
    ensures roots[c.raw := c].Values == roots.Values + {c}
  {
    var after := roots[c.raw := c];
    assert after[c.raw] == c;
    forall v <- roots.Values
      ensures v in after.Values
    {
      var fp :| fp in roots && roots[fp] == v;
      assert after[fp] == v;
    }
  }

  predicate TrustsRoot(m: Material, root: Certificate) {
    root.raw in m.roots
  }

  /** A root is trusted exactly when its bytes are a certificate block of the bundle. */
  lemma TrustedAreTheBundle(pki: Pki, cert: Bytes, key: Bytes, ca: Bytes, now: int, root: Certificate)
    requires Parsed(pki, cert, key, ca, now).Ok?
    ensures TrustsRoot(Parsed(pki, cert, key, ca, now).value, root)
            <==> exists b :: b in Blocks(pki.pem, ca) && b.kind == CERTIFICATE && b.bytes == root.raw
  {
    AcceptedWhole(pki, cert, key, ca, now);
    BundleHolds(pki, Blocks(pki.pem, ca), map[]);
  }

  // ---- reading the files ----

  /** What reading each file gave at one time; every file may be of another version, or missing. */
  datatype Snapshot = Snapshot(cert: Option<Bytes>, key: Option<Bytes>, ca: Option<Bytes>) {
    predicate Readable() {
      cert.Some? && key.Some? && ca.Some?
    }
  }

  function Digested(s: Snapshot): Result<Bytes, Defect> {
    if s.Readable() then Ok(DigestInput(s.cert.value, s.key.value, s.ca.value)) else Err(Unreadable)
  }

  function Loaded(pki: Pki, s: Snapshot, now: int): Result<Material, Defect> {
    if s.Readable() then Parsed(pki, s.cert.value, s.key.value, s.ca.value, now) else Err(Unreadable)
  }

  /** filesDigest: hashes file after file and gives up at the first it cannot read. */
  method FilesDigest(s: Snapshot) returns (d: Result<Bytes, Defect>)
    ensures d == Digested(s)
  {
    var files := [s.cert, s.key, s.ca];
    var h: Bytes := [];
    for i := 0 to 3
      invariant forall j | 0 <= j < i :: files[j].Some?
      invariant h == Hashed(files[..i])
    {
      if files[i].None? {
        return Err(Unreadable);
      }
      h := h + files[i].value + [0];
      assert files[..i + 1][..i] == files[..i];
    }
    assert files[..3] == files && files[0].Some? && files[1].Some? && files[2].Some?;
    HashedThree(s.cert.value, s.key.value, s.ca.value);
    return Ok(h);
  }

  lemma HashedThree(a: Bytes, b: Bytes, c: Bytes)
    ensures Hashed([Some(a), Some(b), Some(c)]) == DigestInput(a, b, c)
  {
    assert [Some(a), Some(b), Some(c)][..2] == [Some(a), Some(b)];
    assert [Some(a), Some(b)][..1] == [Some(a)];
    assert Hashed([Some(a)]) == Hashed([]) + (a + [0]);
    assert Hashed([Some(a)]) == a + [0];
    assert DigestInput(a, b, c) == (a + [0]) + (b + [0]) + (c + [0]);
  }

  function Hashed(files: seq<Option<Bytes>>): Bytes {
    if files == [] then []
    else
      var last := files[|files| - 1];
      Hashed(files[..|files| - 1]) + (if last.Some? then last.value + [0] else [])
  }

  method Load(pki: Pki, s: Snapshot, now: int) returns (r: Result<Material, Defect>)
    ensures r == Loaded(pki, s, now)
  {
    if s.cert.None? || s.key.None? || s.ca.None? {
      return Err(Unreadable);
    }
    r := Parse(pki, s.cert.value, s.key.value, s.ca.value, now);
  }
}
