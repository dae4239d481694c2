/**
 The evidence archive of internal/evidence: Build pins every file by digest and signs the
 root digest, Verify recomputes all of it. An archive is a map from names to contents.
 */
module Evidence {
  import opened Options
  import opened Text
  import opened Hashing
  import opened Signing
  import Canonical

  const MANIFEST := "manifest.json"

  datatype Manifest = Manifest(version: string, createdAt: string, identity: string, files: map<string, string>,
                               rootDigest: string, publicKey: string, signature: string)

  /** encoding/json on manifests */
  datatype Codec = Codec(encode: Manifest -> string, decode: string -> Option<Manifest>)

  ghost predicate RoundTrips(c: Codec) {
    forall m :: c.decode(c.encode(m)) == Some(m)
  }

  datatype Tools = Tools(sha256: HashFn, scheme: Scheme, codec: Codec)

  // ---------------------------------------------------------------- root digest

  function Payloads(files: map<string, string>): map<string, string> {
    map n | n in files :: files[n] + [NEWLINE]
  }

  ghost function RootText(files: map<string, string>): string {
    Canonical.TextOf(Payloads(files))
  }

  ghost function Root(h: HashFn, files: map<string, string>): string {
    h(RootText(files))
  }

  method RootDigest(h: HashFn, files: map<string, string>) returns (d: string)
    ensures d == Root(h, files)
  {
    var text := Canonical.Print(Payloads(files));
    d := h(text);
  }

  predicate NewlineFree(files: map<string, string>) {
    forall n <- files :: NEWLINE !in files[n]
  }

  lemma PayloadsPrefixFree(a: map<string, string>, b: map<string, string>)
    requires NewlineFree(a) && NewlineFree(b)
    ensures Canonical.PrefixFree(Payloads(a).Values + Payloads(b).Values)
  {
    forall p, q | p in Payloads(a).Values + Payloads(b).Values && q in Payloads(a).Values + Payloads(b).Values && p <= q
      ensures p == q
    {
      assert p[|p| - 1] == NEWLINE && q[|p| - 1] == NEWLINE;
      assert forall i :: 0 <= i < |q| - 1 ==> q[i] == q[..|q| - 1][i] != NEWLINE;
    }
  }

  /** Different digest maps have different root texts. */
  lemma RootTextInjective(a: map<string, string>, b: map<string, string>)
    requires Canonical.NulFreeNames(a) && Canonical.NulFreeNames(b) && NewlineFree(a) && NewlineFree(b)
    requires RootText(a) == RootText(b)
    ensures a == b
  {
    var p, q := Payloads(a), Payloads(b);
    assert p.Keys == a.Keys && q.Keys == b.Keys;
    PayloadsPrefixFree(a, b);
    Canonical.TextInjective(p, q);
    forall n <- a ensures n in b && a[n] == b[n] {
      assert p[n][..|p[n]| - 1] == a[n] && q[n][..|q[n]| - 1] == b[n];
    }
  }

  /** The root text, name by name in ascending order. */
  lemma RootTextGrows(files: map<string, string>, n: string, d: string)
    requires forall x <- files :: Less(x, n)
    ensures RootText(map[]) == "" && RootText(files[n := d]) == RootText(files) + (n + "\0" + d + "\n")
  {
    PayloadsGrow(files, n, d);
    Canonical.TextGrows(Payloads(files), n, d + "\n");
    Behind(n, d);
  }

  lemma PayloadsGrow(files: map<string, string>, n: string, d: string)
    ensures Payloads(map[]) == map[] && Payloads(files[n := d]) == Payloads(files)[n := d + "\n"]
  {
  }

  lemma Behind(n: string, d: string)
    ensures n + "\0" + (d + "\n") == n + "\0" + d + "\n"
  {
  }

  /** A NUL in a name breaks that: one name can stand for two. */
  lemma NulNamesCollide(a: string, b: string, d: string, e: string)
    requires Less(a, b)
    ensures RootText(map[a := d, b := e]) == RootText(map[a + [NUL] + d + [NEWLINE] + b := e])
  {
    var n := a + [NUL] + d + [NEWLINE] + b;
    var two, one := Payloads(map[a := d, b := e]), Payloads(map[n := e]);
    LessTotal(a, b);
    Canonical.TextOfTwo(a, b, two);
    Canonical.TextOfOne(n, one);
    Regrouped(a, [NUL], d, [NEWLINE], b, e);
  }

  lemma Regrouped(a: string, z: string, d: string, l: string, b: string, e: string)
    ensures a + z + (d + l) + (b + z + (e + l)) == (a + z + d + l + b) + z + (e + l)
  {
  }

  // ---------------------------------------------------------------- Build

  function Digests(h: HashFn, files: map<string, string>): map<string, string> {
    map n | n in files :: h(files[n])
  }

  /** What collect gathers: seven files of fixed names. */
  function Collected(report: string, modelCard: string, dataCard: string, sbom: string, aibom: string,
                     audit: string, controls: string): map<string, string> {
    map["eval_report.json" := report, "model_card.md" := modelCard, "data_card.md" := dataCard,
        "sbom.cdx.json" := sbom, "aibom.cdx.json" := aibom, "audit_log.jsonl" := audit,
        "control_mappings.json" := controls]
  }

  method Build(t: Tools, key: string, collected: map<string, string>, version: string, createdAt: string,
               identity: string)
      returns (m: Manifest, archive: map<string, string>)
    ensures m.rootDigest == t.sha256(RootText(m.files))
    ensures m == Manifest(version, createdAt, identity, Digests(t.sha256, collected), Root(t.sha256, m.files),
                          t.scheme.hexEncode(t.scheme.publicKey(key)),
                          t.scheme.hexEncode(t.scheme.sign(key, m.rootDigest)))
    ensures archive == collected[MANIFEST := t.codec.encode(m)]
  {
    var files: map<string, string> := map[];
    var rest := collected.Keys;
    while rest != {}
      invariant rest <= collected.Keys && files.Keys == collected.Keys - rest
      invariant forall n <- files :: files[n] == t.sha256(collected[n])
      decreases rest
    {
      var n :| n in rest;
      files, rest := files[n := t.sha256(collected[n])], rest - {n};
    }
    assert files == Digests(t.sha256, collected);
    var root := RootDigest(t.sha256, files);
    m := Manifest(version, createdAt, identity, files, root,
                  t.scheme.hexEncode(t.scheme.publicKey(key)), t.scheme.hexEncode(t.scheme.sign(key, root)));
    archive := collected[MANIFEST := t.codec.encode(m)];
  }

  // ---------------------------------------------------------------- Verify

  datatype Problem =
    | ManifestMissing | ManifestUnparsable
    | MissingFile(name: string) | DigestMismatch(name: string)
    | RootMismatch | RecomputedMismatch | InvalidPublicKey | SignatureFailed

  datatype VerifyResult = VerifyResult(ok: bool, identity: string, rootDigest: string, files: nat,
                                       problems: seq<Problem>)

  function Parsed(c: Codec, archive: map<string, string>): Option<Manifest> {
    if MANIFEST in archive then c.decode(archive[MANIFEST]) else None
  }

  /** The digests Verify recomputes: those of the pinned files that are present. */
  function Recomputed(h: HashFn, m: Manifest, archive: map<string, string>): map<string, string> {
    map n | n in m.files && n in archive :: h(archive[n])
  }

  // What the checks establish, one by one.

  ghost predicate RootOk(h: HashFn, m: Manifest) {
    Root(h, m.files) == m.rootDigest
  }

  ghost predicate RecomputedOk(h: HashFn, m: Manifest, archive: map<string, string>) {
    Root(h, Recomputed(h, m, archive)) == m.rootDigest
  }

  function Missing(m: Manifest, archive: map<string, string>): set<string> {
    set n | n in m.files && n !in archive
  }

  function Mismatched(h: HashFn, m: Manifest, archive: map<string, string>): set<string> {
    set n | n in m.files && n in archive && h(archive[n]) != m.files[n]
  }

  datatype Findings = Findings(missing: set<string>, mismatched: set<string>, root: bool, recomputed: bool,
                               key: bool, signed: bool)

  const CLEAN := Findings({}, {}, true, true, true, true)

  ghost function Find(t: Tools, m: Manifest, archive: map<string, string>): Findings {
    Findings(Missing(m, archive), Mismatched(t.sha256, m, archive), RootOk(t.sha256, m),
             RecomputedOk(t.sha256, m, archive),
             KeyReads(t.scheme, m.publicKey), Authentic(t.scheme, m.publicKey, m.rootDigest, m.signature))
  }

  predicate Wrong(f: Findings, p: Problem) {
    match p
    case ManifestMissing => false
    case ManifestUnparsable => false
    case MissingFile(n) => n in f.missing
    case DigestMismatch(n) => n in f.mismatched
    case RootMismatch => !f.root
    case RecomputedMismatch => !f.recomputed
    case InvalidPublicKey => !f.key
    case SignatureFailed => f.key && !f.signed
  }

  ghost predicate Reported(t: Tools, archive: map<string, string>, p: Problem) {
    match Parsed(t.codec, archive)
    case None => p == if MANIFEST in archive then ManifestUnparsable else ManifestMissing
    case Some(m) => Wrong(Find(t, m, archive), p)
  }

  ghost predicate Verifies(t: Tools, archive: map<string, string>) {
    Parsed(t.codec, archive).Some? && Find(t, Parsed(t.codec, archive).value, archive) == CLEAN
  }

  /** What is said of the key and the signature, on the bytes they decode to. */
  ghost predicate SignatureReported(t: Tools, m: Manifest, problems: seq<Problem>) {
    var pub, sig := t.scheme.hexDecode(m.publicKey), t.scheme.hexDecode(m.signature);
    && (InvalidPublicKey in problems <==> pub.None? || |pub.value| != 32)
    && (SignatureFailed in problems <==>
          pub.Some? && |pub.value| == 32 && (sig.None? || !t.scheme.verify(pub.value, m.rootDigest, sig.value)))
  }

  /** What is said of the files and their root. */
  ghost predicate FilesReported(t: Tools, m: Manifest, archive: map<string, string>, problems: seq<Problem>) {
    && (RootMismatch in problems <==> t.sha256(RootText(m.files)) != m.rootDigest)
    && (forall n :: MissingFile(n) in problems <==> n in m.files && n !in archive)
    && (forall n :: DigestMismatch(n) in problems <==>
          n in m.files && n in archive && t.sha256(archive[n]) != m.files[n])
  }

  lemma FindingsReported(f: Findings, problems: seq<Problem>)
    requires forall p :: p in problems <==> Wrong(f, p)
    ensures RootMismatch in problems <==> !f.root
    ensures InvalidPublicKey in problems <==> !f.key
    ensures SignatureFailed in problems <==> f.key && !f.signed
    ensures forall n :: MissingFile(n) in problems <==> n in f.missing
    ensures forall n :: DigestMismatch(n) in problems <==> n in f.mismatched
  {
    assert forall n :: Wrong(f, MissingFile(n)) <==> n in f.missing;
    assert forall n :: Wrong(f, DigestMismatch(n)) <==> n in f.mismatched;
  }

  lemma ReportedMeans(t: Tools, m: Manifest, archive: map<string, string>, f: Findings, problems: seq<Problem>)
    requires f == Find(t, m, archive) && forall p :: p in problems <==> Wrong(f, p)
    ensures SignatureReported(t, m, problems) && FilesReported(t, m, archive, problems)
  {
    FindingsReported(f, problems);
  }

  method Verify(t: Tools, archive: map<string, string>) returns (res: VerifyResult)
    ensures forall p :: p in res.problems <==> Reported(t, archive, p)
    ensures res.ok <==> Verifies(t, archive)
    ensures Parsed(t.codec, archive).Some? ==>
      var m := Parsed(t.codec, archive).value;
      res.identity == m.identity && res.rootDigest == m.rootDigest && res.files == |m.files|
    ensures ManifestMissing in res.problems <==> "manifest.json" !in archive
    ensures ManifestUnparsable in res.problems <==>
      "manifest.json" in archive && t.codec.decode(archive["manifest.json"]).None?
    ensures Parsed(t.codec, archive).Some? ==>
      var m := Parsed(t.codec, archive).value;
      && t.codec.decode(archive["manifest.json"]) == Some(m)
      && SignatureReported(t, m, res.problems) && FilesReported(t, m, archive, res.problems)
    ensures res.ok ==>
      var m := Parsed(t.codec, archive).value;
      var pub, sig := t.scheme.hexDecode(m.publicKey), t.scheme.hexDecode(m.signature);
      pub.Some? && |pub.value| == 32 && sig.Some? && t.scheme.verify(pub.value, m.rootDigest, sig.value)
  {
    if MANIFEST !in archive {
      return VerifyResult(false, "", "", 0, [ManifestMissing]);
    }
    var parsed := t.codec.decode(archive[MANIFEST]);
    if parsed.None? {
      return VerifyResult(false, "", "", 0, [ManifestUnparsable]);
    }
    var m := parsed.value;
    var problems := VerifyManifest(t, m, archive);
    res := VerifyResult(|problems| == 0, m.identity, m.rootDigest, |m.files|, problems);
  }

  method VerifyManifest(t: Tools, m: Manifest, archive: map<string, string>) returns (problems: seq<Problem>)
    ensures forall p :: p in problems <==> Wrong(Find(t, m, archive), p)
    ensures problems == [] <==> Find(t, m, archive) == CLEAN
    ensures SignatureReported(t, m, problems) && FilesReported(t, m, archive, problems)
  {
    ghost var f := Find(t, m, archive);
    var files, recomputed := CheckFiles(t.sha256, m, archive);
    var root := RootDigest(t.sha256, m.files);
    var root' := RootDigest(t.sha256, recomputed);
    var check := Check(t.scheme, m.publicKey, m.rootDigest, m.signature);
    problems := files + RootProblems(root == m.rootDigest, root' == m.rootDigest, check);
    ProblemsListed(f, files, problems);
    ReportedMeans(t, m, archive, f, problems);
  }

  ghost function CheckOf(f: Findings): SignatureCheck {
    if !f.key then BadKey else if f.signed then Good else BadSignature
  }

  /** What is appended after the files: the two root digests and the signature. */
  function RootProblems(own: bool, recomputed: bool, check: SignatureCheck): (q: seq<Problem>)
    ensures RootMismatch in q <==> !own
    ensures RecomputedMismatch in q <==> !recomputed
    ensures InvalidPublicKey in q <==> check == BadKey
    ensures SignatureFailed in q <==> check == BadSignature
    ensures forall p :: p in q ==> p in {RootMismatch, RecomputedMismatch, InvalidPublicKey, SignatureFailed}
  {
    (if own then [] else [RootMismatch]) + (if recomputed then [] else [RecomputedMismatch])
    + match check
      case Good => []
      case BadKey => [InvalidPublicKey]
      case BadSignature => [SignatureFailed]
  }

  lemma ProblemsListed(f: Findings, files: seq<Problem>, problems: seq<Problem>)
    requires forall p :: p in files <==>
      (p.MissingFile? && p.name in f.missing) || (p.DigestMismatch? && p.name in f.mismatched)
    requires f.signed ==> f.key
    requires problems == files + RootProblems(f.root, f.recomputed, CheckOf(f))
    ensures forall p :: p in problems <==> Wrong(f, p)
    ensures problems == [] <==> f == CLEAN
  {
    forall p ensures p in problems <==> Wrong(f, p) {
      assert p in problems <==> p in files || p in RootProblems(f.root, f.recomputed, CheckOf(f));
    }
    if problems == [] {
      assert forall p :: !Wrong(f, p);
      forall n ensures n !in f.missing && n !in f.mismatched {
        assert !Wrong(f, MissingFile(n)) && !Wrong(f, DigestMismatch(n));
      }
      assert !Wrong(f, RootMismatch) && !Wrong(f, RecomputedMismatch) && !Wrong(f, InvalidPublicKey)
      && !Wrong(f, SignatureFailed);
    } else {
      assert Wrong(f, problems[0]);
    }
  }

  /** The loop of Verify over the pinned files. */
  method CheckFiles(h: HashFn, m: Manifest, archive: map<string, string>)
      returns (problems: seq<Problem>, recomputed: map<string, string>)
    ensures recomputed == Recomputed(h, m, archive)
    ensures forall p :: p in problems <==>
      (p.MissingFile? && p.name in Missing(m, archive)) || (p.DigestMismatch? && p.name in Mismatched(h, m, archive))
  {
    problems, recomputed := [], map[];
    var rest := m.files.Keys;
    while rest != {}
      invariant rest <= m.files.Keys
      invariant recomputed == map n | n in m.files && n in archive && n !in rest :: h(archive[n])
      invariant forall p :: p in problems <==>
        || (p.MissingFile? && p.name in Missing(m, archive) - rest)
        || (p.DigestMismatch? && p.name in Mismatched(h, m, archive) - rest)
      decreases rest
    {
      var n :| n in rest;
      rest := rest - {n};
      if n !in archive {
        problems := problems + [MissingFile(n)];
      } else {
        var got := h(archive[n]);
        recomputed := recomputed[n := got];
        if got != m.files[n] {
          problems := problems + [DigestMismatch(n)];
        }
      }
    }
  }

  // ---------------------------------------------------------------- what the checks mean

  ghost predicate FilesOk(h: HashFn, m: Manifest, archive: map<string, string>) {
    Missing(m, archive) == {} && Mismatched(h, m, archive) == {}
  }

  lemma FilesOkMeans(h: HashFn, m: Manifest, archive: map<string, string>)
    ensures FilesOk(h, m, archive) <==> forall n <- m.files :: n in archive && h(archive[n]) == m.files[n]
  {
    if FilesOk(h, m, archive) {
      forall n <- m.files ensures n in archive && h(archive[n]) == m.files[n] {
        assert n !in Missing(m, archive) && n !in Mismatched(h, m, archive);
      }
    }
  }

  /**
   Root text by root text, the recomputed digests can stand for no digests but the pinned ones,
   whatever those hold.
   */
  lemma RecomputedTextDetermines(h: HashFn, m: Manifest, archive: map<string, string>)
    requires HexValued(h) && RootText(m.files) == RootText(Recomputed(h, m, archive))
    ensures m.files == Recomputed(h, m, archive)
  {
    var r := Recomputed(h, m, archive);
    var p, q := Payloads(m.files), Payloads(r);
    forall n <- q ensures NUL !in q[n] { assert HexDigest(h(archive[n])); }
    Canonical.SubsetTextInjective(p, q);
    forall n <- m.files ensures n in r && m.files[n] == r[n] {
      assert n in q && p[n][..|p[n]| - 1] == m.files[n] && q[n][..|q[n]| - 1] == r[n];
    }
  }

  /** Given the manifest's own root, checking file by file and checking the recomputed root are one check. */
  lemma ChecksRedundant(h: HashFn, m: Manifest, archive: map<string, string>)
    requires HexValued(h) && CollisionFree(h, {RootText(m.files), RootText(Recomputed(h, m, archive))})
    ensures (FilesOk(h, m, archive) && RootOk(h, m)) <==> (RootOk(h, m) && RecomputedOk(h, m, archive))
  {
    var r := Recomputed(h, m, archive);
    FilesOkMeans(h, m, archive);
    if FilesOk(h, m, archive) { assert r == m.files; }
    if RootOk(h, m) && RecomputedOk(h, m, archive) { RecomputedTextDetermines(h, m, archive); }
  }

  /** Every archive that Build writes from what collect gathers passes every check. */
  lemma BuiltVerifies(t: Tools, key: string, collected: map<string, string>, m: Manifest, archive: map<string, string>)
    requires Lawful(t.scheme) && RoundTrips(t.codec) && MANIFEST !in collected
    requires m.files == Digests(t.sha256, collected) && m.rootDigest == Root(t.sha256, m.files)
    requires m.publicKey == t.scheme.hexEncode(t.scheme.publicKey(key))
    requires m.signature == t.scheme.hexEncode(t.scheme.sign(key, m.rootDigest))
    requires archive == collected[MANIFEST := t.codec.encode(m)]
    ensures Verifies(t, archive)
  {
    assert t.codec.decode(t.codec.encode(m)) == Some(m);
    assert Recomputed(t.sha256, m, archive) == m.files;
    SignedIsAuthentic(t.scheme, key, m.rootDigest);
    FilesOkMeans(t.sha256, m, archive);
  }

  function CollectedNames(): set<string> {
    {"eval_report.json", "model_card.md", "data_card.md", "sbom.cdx.json", "aibom.cdx.json", "audit_log.jsonl",
     "control_mappings.json"}
  }

  lemma CollectedKeys(report: string, modelCard: string, dataCard: string, sbom: string, aibom: string,
                      audit: string, controls: string)
    ensures Collected(report, modelCard, dataCard, sbom, aibom, audit, controls).Keys == CollectedNames()
  {
  }

  predicate PlainName(n: string) {
    NUL !in n && n != MANIFEST
  }

  lemma PlainNames()
    ensures forall n <- CollectedNames() :: PlainName(n)
  {
    assert PlainName("eval_report.json") && PlainName("model_card.md") && PlainName("data_card.md");
    assert PlainName("sbom.cdx.json") && PlainName("aibom.cdx.json") && PlainName("audit_log.jsonl");
    assert PlainName("control_mappings.json");
  }

  lemma CollectedLeavesManifest(report: string, modelCard: string, dataCard: string, sbom: string, aibom: string,
                                audit: string, controls: string)
    ensures var c := Collected(report, modelCard, dataCard, sbom, aibom, audit, controls);
      MANIFEST !in c && Canonical.NulFreeNames(c)
  {
    var c := Collected(report, modelCard, dataCard, sbom, aibom, audit, controls);
    CollectedKeys(report, modelCard, dataCard, sbom, aibom, audit, controls);
    PlainNames();
    KeysPlain(c);
  }

  lemma KeysPlain(c: map<string, string>)
    requires forall n <- c.Keys :: PlainName(n)
    ensures MANIFEST !in c && Canonical.NulFreeNames(c)
  {
    forall n <- c ensures NUL !in n && n != MANIFEST { assert PlainName(n); }
  }

  ghost function SignedTexts(a: map<string, string>, b: map<string, string>, m: Manifest, w: Manifest): set<string> {
    {RootText(m.files), RootText(w.files)} + a.Values + b.Values
  }

  /**
   What a signed root pins. Let one archive verify, and let another carry a manifest with
   the same root, key and signature. It verifies exactly when it pins the same digests and
   holds the same content under every pinned name. The identity, the version, the date and
   further files are free.
   */
  lemma SignedRootPins(t: Tools, a: map<string, string>, b: map<string, string>, m: Manifest, w: Manifest)
    requires HexValued(t.sha256) && Verifies(t, a)
    requires Parsed(t.codec, a) == Some(m) && Parsed(t.codec, b) == Some(w)
    requires (m.rootDigest, m.publicKey, m.signature) == (w.rootDigest, w.publicKey, w.signature)
    requires Canonical.NulFreeNames(m.files) && Canonical.NulFreeNames(w.files)
    requires CollisionFree(t.sha256, SignedTexts(a, b, m, w))
    ensures Verifies(t, b) <==> SamePins(a, b, m, w)
  {
    if Verifies(t, b) {
      SameRootSamePins(t.sha256, a, b, m, w);
    }
    if SamePins(a, b, m, w) {
      SamePinsSameFindings(t, a, b, m, w);
    }
  }

  lemma SamePinsSameFindings(t: Tools, a: map<string, string>, b: map<string, string>, m: Manifest, w: Manifest)
    requires SamePins(a, b, m, w)
    requires (m.rootDigest, m.publicKey, m.signature) == (w.rootDigest, w.publicKey, w.signature)
    ensures Find(t, w, b) == Find(t, m, a)
  {
    assert Missing(w, b) == Missing(m, a) && Mismatched(t.sha256, w, b) == Mismatched(t.sha256, m, a);
    assert Recomputed(t.sha256, w, b) == Recomputed(t.sha256, m, a);
  }

  lemma SameRootSamePins(h: HashFn, a: map<string, string>, b: map<string, string>, m: Manifest, w: Manifest)
    requires HexValued(h) && FilesOk(h, m, a) && FilesOk(h, w, b) && Root(h, m.files) == Root(h, w.files)
    requires Canonical.NulFreeNames(m.files) && Canonical.NulFreeNames(w.files)
    requires CollisionFree(h, SignedTexts(a, b, m, w))
    ensures SamePins(a, b, m, w)
  {
    FilesOkMeans(h, m, a);
    FilesOkMeans(h, w, b);
    assert RootText(m.files) in SignedTexts(a, b, m, w) && RootText(w.files) in SignedTexts(a, b, m, w);
    forall n <- m.files ensures NEWLINE !in m.files[n] { assert HexDigest(h(a[n])); }
    forall n <- w.files ensures NEWLINE !in w.files[n] { assert HexDigest(h(b[n])); }
    RootTextInjective(m.files, w.files);
    forall n <- m.files ensures n in a && n in b && b[n] == a[n] {
      assert a[n] in a.Values && b[n] in b.Values;
    }
  }

  /**
   Altered or added files under fresh digests, with the root recomputed and the old key and
   signature: such an archive verifies exactly when the signature is one of that key on the new root.
   */
  lemma RepinnedIff(t: Tools, a: map<string, string>, m: Manifest, edits: map<string, string>, pub: string,
                    sig: string)
    requires RoundTrips(t.codec) && Verifies(t, a) && Parsed(t.codec, a) == Some(m)
    requires t.scheme.hexDecode(m.publicKey) == Some(pub) && t.scheme.hexDecode(m.signature) == Some(sig)
    requires MANIFEST !in m.files && MANIFEST !in edits
    ensures var w := Repinned(t.sha256, m, edits);
      Verifies(t, (a + edits)[MANIFEST := t.codec.encode(w)]) <==> t.scheme.verify(pub, w.rootDigest, sig)
  {
    var w := Repinned(t.sha256, m, edits);
    var b := (a + edits)[MANIFEST := t.codec.encode(w)];
    assert t.codec.decode(t.codec.encode(w)) == Some(w);
    assert KeyReads(t.scheme, m.publicKey);
    RepinnedFilesOk(t.sha256, a, m, edits, w, b);
  }

  lemma RepinnedFilesOk(h: HashFn, a: map<string, string>, m: Manifest, edits: map<string, string>, w: Manifest,
                        b: map<string, string>)
    requires FilesOk(h, m, a) && MANIFEST !in m.files && MANIFEST !in edits && w == Repinned(h, m, edits)
    requires MANIFEST in b && b == (a + edits)[MANIFEST := b[MANIFEST]]
    ensures FilesOk(h, w, b) && RootOk(h, w) && RecomputedOk(h, w, b)
  {
    FilesOkMeans(h, m, a);
    FilesOkMeans(h, w, b);
    assert Recomputed(h, w, b) == w.files;
  }

  ghost function Repinned(h: HashFn, m: Manifest, edits: map<string, string>): Manifest {
    var files := m.files + Digests(h, edits);
    m.(files := files, rootDigest := h(RootText(files)))
  }

  ghost predicate SamePins(a: map<string, string>, b: map<string, string>, m: Manifest, w: Manifest) {
    w.files == m.files && forall n <- m.files :: n in a && n in b && b[n] == a[n]
  }

  /**
   A verifying archive goes on verifying with another version, date and identity in its manifest
   and with other files beside the pinned ones.
   */
  lemma UnsignedIsFree(t: Tools, a: map<string, string>, m: Manifest, version: string, createdAt: string,
                       identity: string, others: map<string, string>)
    requires RoundTrips(t.codec) && Verifies(t, a) && Parsed(t.codec, a) == Some(m)
    requires MANIFEST !in m.files && others.Keys !! m.files.Keys
    ensures var w := m.(version := version, createdAt := createdAt, identity := identity);
      Verifies(t, (a + others)[MANIFEST := t.codec.encode(w)])
  {
    var w := m.(version := version, createdAt := createdAt, identity := identity);
    var b := (a + others)[MANIFEST := t.codec.encode(w)];
    assert t.codec.decode(t.codec.encode(w)) == Some(w);
    FilesOkMeans(t.sha256, m, a);
    forall n <- m.files ensures n in a && n in b && b[n] == a[n] { assert n !in others; }
    SamePinsSameFindings(t, a, b, m, w);
  }
}
