/**
 The signed bundle of internal/bundle: Create packs files and pins them, verifyFiles checks
 the pins and the signature, Install places the files. An archive is a map from names to
 contents, as writeTarZst takes and readTarZst gives it.
 */
module Bundle {
  import opened Options
  import opened Text
  import opened Hashing
  import opened Signing
  import opened Placement
  import Canonical
  import Sorting

  const LOCK := "faraday.lock.json"
  const MANIFEST := "bundle.manifest.json"
  const DEFAULT_MODE := 0x1a4 // 0644

  datatype Artifact = Artifact(digest: string, size: int, kind: string, mode: nat)
  datatype Lock = Lock(version: string, createdAt: string, identity: string, artifacts: map<string, Artifact>)
  datatype Manifest = Manifest(rootDigest: string, publicKey: string, signature: string)
  datatype Source = Source(name: string, path: string, kind: string)

  /** What os.ReadFile and os.Stat give; no permissions when Stat fails. */
  datatype OnDisk = OnDisk(content: string, perm: Option<nat>)

  /** encoding/json on the two reserved entries */
  datatype Codec = Codec(encodeLock: Lock -> string, decodeLock: string -> Option<Lock>,
                         encodeManifest: Manifest -> string, decodeManifest: string -> Option<Manifest>)

  ghost predicate RoundTrips(c: Codec) {
    && (forall l :: c.decodeLock(c.encodeLock(l)) == Some(l))
    && (forall m :: c.decodeManifest(c.encodeManifest(m)) == Some(m))
  }

  datatype Tools = Tools(sha256: HashFn, scheme: Scheme, codec: Codec)

  predicate Reserved(name: string) {
    name == LOCK || name == MANIFEST
  }

  function DigestOf(h: HashFn, content: string): string {
    "sha256:" + h(content)
  }

  // ---------------------------------------------------------------- root digest

  function Payload(a: Artifact): string {
    a.digest + [NUL] + Numbers(a)
  }

  function Payloads(artifacts: map<string, Artifact>): map<string, string> {
    map n | n in artifacts :: Payload(artifacts[n])
  }

  ghost function RootText(artifacts: map<string, Artifact>): string {
    Canonical.TextOf(Payloads(artifacts))
  }

  ghost function Root(h: HashFn, artifacts: map<string, Artifact>): string {
    h(RootText(artifacts))
  }

  method RootDigest(h: HashFn, artifacts: map<string, Artifact>) returns (d: string)
    ensures d == Root(h, artifacts)
  {
    var text := Canonical.Print(Payloads(artifacts));
    d := h(text);
  }

  /** The kind is not part of the root text. */
  predicate SamePin(a: Artifact, b: Artifact) {
    (a.digest, a.size, a.mode) == (b.digest, b.size, b.mode)
  }

  predicate SamePins(a: map<string, Artifact>, b: map<string, Artifact>) {
    a.Keys == b.Keys && forall n <- a :: SamePin(a[n], b[n])
  }

  predicate NulFreeDigests(artifacts: map<string, Artifact>) {
    forall n <- artifacts :: NUL !in artifacts[n].digest
  }

  /** What follows the digest in a payload. */
  function Numbers(a: Artifact): string {
    Dec(a.size) + [NUL] + (Dec(a.mode) + [NEWLINE])
  }

  lemma NumbersSplit(a: Artifact, x: string, b: Artifact, y: string)
    requires Numbers(a) + x == Numbers(b) + y
    ensures a.size == b.size && a.mode == b.mode
  {
    var a1, b1 := Dec(a.mode) + [NEWLINE] + x, Dec(b.mode) + [NEWLINE] + y;
    assert Numbers(a) + x == Dec(a.size) + [NUL] + a1 && Numbers(b) + y == Dec(b.size) + [NUL] + b1;
    DecChars(a.size); DecChars(b.size); DecChars(a.mode); DecChars(b.mode);
    FirstSeparator(NUL, Dec(a.size), a1, Dec(b.size), b1);
    FirstSeparator(NEWLINE, Dec(a.mode), x, Dec(b.mode), y);
    DecInjective(a.size, b.size);
    DecInjective(a.mode, b.mode);
  }

  lemma PayloadSplit(a: Artifact, x: string, b: Artifact, y: string)
    requires NUL !in a.digest && NUL !in b.digest && Payload(a) + x == Payload(b) + y
    ensures SamePin(a, b)
  {
    assert Payload(a) + x == a.digest + [NUL] + (Numbers(a) + x);
    assert Payload(b) + y == b.digest + [NUL] + (Numbers(b) + y);
    FirstSeparator(NUL, a.digest, Numbers(a) + x, b.digest, Numbers(b) + y);
    NumbersSplit(a, x, b, y);
  }

  lemma PayloadsPrefixFree(a: map<string, Artifact>, b: map<string, Artifact>)
    requires NulFreeDigests(a) && NulFreeDigests(b)
    ensures Canonical.PrefixFree(Payloads(a).Values + Payloads(b).Values)
  {
    var all := Payloads(a).Values + Payloads(b).Values;
    forall p, q | p in all && q in all && p <= q ensures p == q {
      var c := PayloadOwner(a, b, p);
      var d := PayloadOwner(a, b, q);
      PrefixPayloadEqual(c, d);
    }
  }

  lemma PrefixPayloadEqual(c: Artifact, d: Artifact)
    requires NUL !in c.digest && NUL !in d.digest && Payload(c) <= Payload(d)
    ensures Payload(c) == Payload(d)
  {
    var p, q := Payload(c), Payload(d);
    assert p + q[|p|..] == q == q + [];
    PayloadSplit(c, q[|p|..], d, []);
  }

  lemma PayloadOwner(a: map<string, Artifact>, b: map<string, Artifact>, p: string) returns (c: Artifact)
    requires NulFreeDigests(a) && NulFreeDigests(b) && p in Payloads(a).Values + Payloads(b).Values
    ensures p == Payload(c) && NUL !in c.digest
  {
    if p in Payloads(a).Values {
      var n :| n in a && Payloads(a)[n] == p;
      c := a[n];
    } else {
      var n :| n in b && Payloads(b)[n] == p;
      c := b[n];
    }
  }

  /** Equal root texts pin equal names, digests, sizes and modes. */
  lemma RootTextInjective(a: map<string, Artifact>, b: map<string, Artifact>)
    requires Canonical.NulFreeNames(a) && Canonical.NulFreeNames(b) && NulFreeDigests(a) && NulFreeDigests(b)
    requires RootText(a) == RootText(b)
    ensures SamePins(a, b)
  {
    var p, q := Payloads(a), Payloads(b);
    assert p.Keys == a.Keys && q.Keys == b.Keys;
    PayloadsPrefixFree(a, b);
    Canonical.TextInjective(p, q);
    forall n <- a ensures SamePin(a[n], b[n]) {
      assert p[n] == q[n];
      PayloadSplit(a[n], [], b[n], []);
    }
  }

  /** The root text, name by name in ascending order. */
  lemma RootTextGrows(artifacts: map<string, Artifact>, n: string, a: Artifact)
    requires forall x <- artifacts :: Less(x, n)
    ensures RootText(map[]) == ""
    ensures RootText(artifacts[n := a]) == RootText(artifacts) + (n + "\0" + Line(a.digest, Dec(a.size), Dec(a.mode)))
  {
    var line := Line(a.digest, Dec(a.size), Dec(a.mode));
    PayloadIsLine(a);
    PayloadsGrow(artifacts, n, a, line);
    Canonical.TextGrows(Payloads(artifacts), n, line);
  }

  lemma PayloadsGrow(artifacts: map<string, Artifact>, n: string, a: Artifact, line: string)
    requires line == Payload(a)
    ensures Payloads(map[]) == map[] && Payloads(artifacts[n := a]) == Payloads(artifacts)[n := line]
  {
  }

  /** What follows the name and its NUL: digest, size and mode. */
  function Line(digest: string, size: string, mode: string): string {
    digest + "\0" + size + "\0" + mode + "\n"
  }

  lemma PayloadIsLine(a: Artifact)
    ensures Payload(a) == Line(a.digest, Dec(a.size), Dec(a.mode))
  {
    Grouped(a.digest, [NUL], Dec(a.size), Dec(a.mode), [NEWLINE]);
  }

  lemma Grouped(d: string, z: string, s: string, m: string, l: string)
    ensures d + z + (s + z + (m + l)) == d + z + s + z + m + l
  {
  }

  lemma SamePinsSameRoot(a: map<string, Artifact>, b: map<string, Artifact>)
    requires SamePins(a, b)
    ensures RootText(a) == RootText(b)
  {
    assert Payloads(a) == Payloads(b);
  }

  // ---------------------------------------------------------------- Create

  function PermOf(d: OnDisk): nat {
    if d.perm.Some? then d.perm.value else DEFAULT_MODE
  }

  function ArtifactOf(h: HashFn, d: OnDisk, kind: string): Artifact {
    Artifact(DigestOf(h, d.content), |d.content|, kind, PermOf(d))
  }

  ghost predicate Readable(sources: seq<Source>, disk: map<string, OnDisk>) {
    forall i :: 0 <= i < |sources| ==> sources[i].path in disk
  }

  ghost predicate Named(sources: seq<Source>, n: string) {
    exists i :: 0 <= i < |sources| && sources[i].name == n
  }

  /** No later source bears the name of source i. */
  predicate IsLast(sources: seq<Source>, i: nat)
    requires i < |sources|
  {
    forall j :: i < j < |sources| ==> sources[j].name != sources[i].name
  }

  predicate PackedFrom(h: HashFn, s: Source, d: OnDisk, files: map<string, string>, artifacts: map<string, Artifact>) {
    s.name in files && s.name in artifacts && files[s.name] == d.content
    && artifacts[s.name] ==
      Artifact("sha256:" + h(d.content), |d.content|, s.kind, if d.perm.Some? then d.perm.value else 0x1a4)
  }

  /** The pins and the packed contents both come from the last source of each name. */
  ghost predicate PacksLast(h: HashFn, sources: seq<Source>, disk: map<string, OnDisk>,
                            files: map<string, string>, artifacts: map<string, Artifact>)
    requires Readable(sources, disk)
  {
    && files.Keys == artifacts.Keys
    && (forall n :: n in artifacts <==> Named(sources, n))
    && (forall i :: 0 <= i < |sources| && IsLast(sources, i) ==>
          PackedFrom(h, sources[i], disk[sources[i].path], files, artifacts))
  }

  lemma PacksNext(h: HashFn, sources: seq<Source>, i: nat, disk: map<string, OnDisk>,
                  files: map<string, string>, artifacts: map<string, Artifact>)
    requires i < |sources| && Readable(sources[..i + 1], disk) && PacksLast(h, sources[..i], disk, files, artifacts)
    ensures var s := sources[i]; var d := disk[s.path];
      PacksLast(h, sources[..i + 1], disk, files[s.name := d.content], artifacts[s.name := ArtifactOf(h, d, s.kind)])
  {
    var s := sources[i];
    var d := disk[s.path];
    var p, q := sources[..i], sources[..i + 1];
    NamedNext(sources, i);
    forall j | 0 <= j < |q| && IsLast(q, j)
      ensures PackedFrom(h, q[j], disk[q[j].path], files[s.name := d.content],
                         artifacts[s.name := ArtifactOf(h, d, s.kind)])
    {
      if j < i {
        LastShrinks(sources, i, j);
        assert PackedFrom(h, p[j], disk[p[j].path], files, artifacts);
      }
    }
  }

  lemma NamedNext(sources: seq<Source>, i: nat)
    requires i < |sources|
    ensures forall n :: Named(sources[..i + 1], n) <==> n == sources[i].name || Named(sources[..i], n)
  {
    var p, q := sources[..i], sources[..i + 1];
    assert q == p + [sources[i]];
    assert q[i] == sources[i];
    forall n | Named(p, n) ensures Named(q, n) {
      var j :| 0 <= j < |p| && p[j].name == n;
      assert q[j].name == n;
    }
  }

  lemma LastShrinks(sources: seq<Source>, i: nat, j: nat)
    requires j < i < |sources| && IsLast(sources[..i + 1], j)
    ensures IsLast(sources[..i], j) && sources[i].name != sources[j].name
  {
  }

  datatype Created = Failed(unreadable: string) | Created(lock: Lock, manifest: Manifest, archive: map<string, string>)

  /** Create, with the key already loaded; `now` is the time of packing. */
  method Create(t: Tools, key: string, disk: map<string, OnDisk>, now: string, identity: string, sources: seq<Source>)
      returns (r: Created, ghost files: map<string, string>)
    ensures r.Created? <==> Readable(sources, disk)
    ensures r.Failed? ==> r.unreadable !in disk && exists s <- sources :: s.path == r.unreadable
    ensures r.Created? ==>
      && PacksLast(t.sha256, sources, disk, files, r.lock.artifacts)
      && (r.lock.version, r.lock.createdAt, r.lock.identity) == ("faraday-bundle/v1", now, identity)
      && r.manifest == SignedManifest(t, key, r.lock.artifacts)
      && r.manifest.rootDigest == t.sha256(RootText(r.lock.artifacts))
      && r.archive == files[LOCK := t.codec.encodeLock(r.lock)][MANIFEST := t.codec.encodeManifest(r.manifest)]
  {
    files := map[];
    var packed: map<string, string> := map[];
    var artifacts: map<string, Artifact> := map[];
    for i := 0 to |sources|
      invariant Readable(sources[..i], disk)
      invariant files == packed && PacksLast(t.sha256, sources[..i], disk, packed, artifacts)
    {
      var s := sources[i];
      if s.path !in disk {
        return Failed(s.path), files;
      }
      var d := disk[s.path];
      PacksNext(t.sha256, sources, i, disk, packed, artifacts);
      packed := packed[s.name := d.content];
      artifacts := artifacts[s.name := ArtifactOf(t.sha256, d, s.kind)];
      files := packed;
    }
    assert sources[..|sources|] == sources;
    var lock := Lock("faraday-bundle/v1", now, identity, artifacts);
    var root := RootDigest(t.sha256, artifacts);
    var man := Manifest(root, t.scheme.hexEncode(t.scheme.publicKey(key)),
                        t.scheme.hexEncode(t.scheme.sign(key, root)));
    packed := packed[LOCK := t.codec.encodeLock(lock)];
    packed := packed[MANIFEST := t.codec.encodeManifest(man)];
    r := Created(lock, man, packed);
  }

  ghost function SignedManifest(t: Tools, key: string, artifacts: map<string, Artifact>): Manifest {
    var root := Root(t.sha256, artifacts);
    Manifest(root, t.scheme.hexEncode(t.scheme.publicKey(key)), t.scheme.hexEncode(t.scheme.sign(key, root)))
  }

  // ---------------------------------------------------------------- verifyFiles

  datatype Problem =
    | LockMissing | ManifestMissing | Unparsable
    | MissingArtifact(name: string) | DigestMismatch(name: string)
    | RootMismatch | InvalidPublicKey | SignatureFailed

  datatype VerifyResult = VerifyResult(ok: bool, identity: string, artifacts: nat, rootDigest: string,
                                       problems: seq<Problem>)

  datatype Parsed = Broken(problem: Problem) | Parsed(lock: Lock, manifest: Manifest)

  function Parse(c: Codec, archive: map<string, string>): Parsed {
    if LOCK !in archive then Broken(LockMissing)
    else if MANIFEST !in archive then Broken(ManifestMissing)
    else
      match (c.decodeLock(archive[LOCK]), c.decodeManifest(archive[MANIFEST]))
      case (Some(lock), Some(man)) => Parsed(lock, man)
      case _ => Broken(Unparsable)
  }

  function Missing(lock: Lock, archive: map<string, string>): set<string> {
    set n | n in lock.artifacts && n !in archive
  }

  function Mismatched(h: HashFn, lock: Lock, archive: map<string, string>): set<string> {
    set n | n in lock.artifacts && n in archive && DigestOf(h, archive[n]) != lock.artifacts[n].digest
  }

  datatype Findings = Findings(missing: set<string>, mismatched: set<string>, root: bool, key: bool, signed: bool)

  const CLEAN := Findings({}, {}, true, true, true)

  ghost function Find(t: Tools, lock: Lock, man: Manifest, archive: map<string, string>): Findings {
    Findings(Missing(lock, archive), Mismatched(t.sha256, lock, archive),
             Root(t.sha256, lock.artifacts) == man.rootDigest,
             KeyReads(t.scheme, man.publicKey), Authentic(t.scheme, man.publicKey, man.rootDigest, man.signature))
  }

  predicate Wrong(f: Findings, p: Problem) {
    match p
    case LockMissing => false
    case ManifestMissing => false
    case Unparsable => false
    case MissingArtifact(n) => n in f.missing
    case DigestMismatch(n) => n in f.mismatched
    case RootMismatch => !f.root
    case InvalidPublicKey => !f.key
    case SignatureFailed => f.key && !f.signed
  }

  ghost predicate Reported(t: Tools, archive: map<string, string>, p: Problem) {
    match Parse(t.codec, archive)
    case Broken(q) => p == q
    case Parsed(lock, man) => Wrong(Find(t, lock, man, archive), p)
  }

  ghost predicate Verifies(t: Tools, archive: map<string, string>) {
    var p := Parse(t.codec, archive);
    p.Parsed? && Find(t, p.lock, p.manifest, archive) == CLEAN
  }

  /** What is said of the two reserved entries. */
  ghost predicate EntriesReported(c: Codec, archive: map<string, string>, problems: seq<Problem>) {
    var lock, man := "faraday.lock.json", "bundle.manifest.json";
    && (LockMissing in problems <==> lock !in archive)
    && (ManifestMissing in problems <==> lock in archive && man !in archive)
    && (Unparsable in problems <==>
          lock in archive && man in archive
          && (c.decodeLock(archive[lock]).None? || c.decodeManifest(archive[man]).None?))
  }

  /** What is said of the key and the signature, on the bytes they decode to. */
  ghost predicate SignatureReported(t: Tools, man: Manifest, problems: seq<Problem>) {
    var pub, sig := t.scheme.hexDecode(man.publicKey), t.scheme.hexDecode(man.signature);
    && (InvalidPublicKey in problems <==> pub.None? || |pub.value| != 32)
    && (SignatureFailed in problems <==>
          pub.Some? && |pub.value| == 32 && (sig.None? || !t.scheme.verify(pub.value, man.rootDigest, sig.value)))
  }

  /** What is said of the pinned files and their root. */
  ghost predicate FilesReported(t: Tools, lock: Lock, man: Manifest, archive: map<string, string>,
                                problems: seq<Problem>) {
    && (RootMismatch in problems <==> t.sha256(RootText(lock.artifacts)) != man.rootDigest)
    && (forall n :: MissingArtifact(n) in problems <==> n in lock.artifacts && n !in archive)
    && (forall n :: DigestMismatch(n) in problems <==>
          n in lock.artifacts && n in archive && "sha256:" + t.sha256(archive[n]) != lock.artifacts[n].digest)
  }

  lemma FindingsReported(f: Findings, problems: seq<Problem>)
    requires forall p :: p in problems <==> Wrong(f, p)
    ensures RootMismatch in problems <==> !f.root
    ensures InvalidPublicKey in problems <==> !f.key
    ensures SignatureFailed in problems <==> f.key && !f.signed
    ensures forall n :: MissingArtifact(n) in problems <==> n in f.missing
    ensures forall n :: DigestMismatch(n) in problems <==> n in f.mismatched
  {
    assert forall n :: Wrong(f, MissingArtifact(n)) <==> n in f.missing;
    assert forall n :: Wrong(f, DigestMismatch(n)) <==> n in f.mismatched;
  }

  lemma ReportedMeans(t: Tools, lock: Lock, man: Manifest, archive: map<string, string>, f: Findings,
                      problems: seq<Problem>)
    requires f == Find(t, lock, man, archive) && forall p :: p in problems <==> Wrong(f, p)
    ensures SignatureReported(t, man, problems) && FilesReported(t, lock, man, archive, problems)
  {
    FindingsReported(f, problems);
  }

  method VerifyFiles(t: Tools, archive: map<string, string>) returns (res: VerifyResult)
    ensures forall p :: p in res.problems <==> Reported(t, archive, p)
    ensures res.ok <==> Verifies(t, archive)
    ensures var p := Parse(t.codec, archive);
      p.Parsed? ==>
        (res.identity, res.artifacts, res.rootDigest) == (p.lock.identity, |p.lock.artifacts|, p.manifest.rootDigest)
    ensures EntriesReported(t.codec, archive, res.problems)
    ensures var p := Parse(t.codec, archive);
      p.Parsed? ==>
        && t.codec.decodeLock(archive["faraday.lock.json"]) == Some(p.lock)
        && t.codec.decodeManifest(archive["bundle.manifest.json"]) == Some(p.manifest)
        && SignatureReported(t, p.manifest, res.problems) && FilesReported(t, p.lock, p.manifest, archive, res.problems)
    ensures res.ok ==>
      var man := Parse(t.codec, archive).manifest;
      var pub, sig := t.scheme.hexDecode(man.publicKey), t.scheme.hexDecode(man.signature);
      pub.Some? && |pub.value| == 32 && sig.Some? && t.scheme.verify(pub.value, man.rootDigest, sig.value)
  {
    var p := Parse(t.codec, archive);
    if p.Broken? {
      return VerifyResult(false, "", 0, "", [p.problem]);
    }
    var problems := VerifyLock(t, p.lock, p.manifest, archive);
    res := VerifyResult(|problems| == 0, p.lock.identity, |p.lock.artifacts|, p.manifest.rootDigest, problems);
  }

  method VerifyLock(t: Tools, lock: Lock, man: Manifest, archive: map<string, string>) returns (problems: seq<Problem>)
    ensures forall p :: p in problems <==> Wrong(Find(t, lock, man, archive), p)
    ensures problems == [] <==> Find(t, lock, man, archive) == CLEAN
    ensures SignatureReported(t, man, problems) && FilesReported(t, lock, man, archive, problems)
  {
    ghost var f := Find(t, lock, man, archive);
    var files := CheckArtifacts(t.sha256, lock, archive);
    var root := RootDigest(t.sha256, lock.artifacts);
    var check := Check(t.scheme, man.publicKey, man.rootDigest, man.signature);
    problems := files + RootProblems(root == man.rootDigest, check);
    ProblemsListed(f, files, problems);
    ReportedMeans(t, lock, man, archive, f, problems);
  }

  ghost function CheckOf(f: Findings): SignatureCheck {
    if !f.key then BadKey else if f.signed then Good else BadSignature
  }

  function RootProblems(root: bool, check: SignatureCheck): (q: seq<Problem>)
    ensures RootMismatch in q <==> !root
    ensures InvalidPublicKey in q <==> check == BadKey
    ensures SignatureFailed in q <==> check == BadSignature
    ensures forall p :: p in q ==> p in {RootMismatch, InvalidPublicKey, SignatureFailed}
  {
    (if root then [] else [RootMismatch])
    + match check
      case Good => []
      case BadKey => [InvalidPublicKey]
      case BadSignature => [SignatureFailed]
  }

  lemma ProblemsListed(f: Findings, files: seq<Problem>, problems: seq<Problem>)
    requires forall p :: p in files <==>
      (p.MissingArtifact? && p.name in f.missing) || (p.DigestMismatch? && p.name in f.mismatched)
    requires f.signed ==> f.key
    requires problems == files + RootProblems(f.root, CheckOf(f))
    ensures forall p :: p in problems <==> Wrong(f, p)
    ensures problems == [] <==> f == CLEAN
  {
    forall p ensures p in problems <==> Wrong(f, p) {
      assert p in problems <==> p in files || p in RootProblems(f.root, CheckOf(f));
    }
    if problems == [] {
      assert forall p :: !Wrong(f, p);
      forall n ensures n !in f.missing && n !in f.mismatched {
        assert !Wrong(f, MissingArtifact(n)) && !Wrong(f, DigestMismatch(n));
      }
      assert !Wrong(f, RootMismatch) && !Wrong(f, InvalidPublicKey) && !Wrong(f, SignatureFailed);
    } else {
      assert Wrong(f, problems[0]);
    }
  }

  method CheckArtifacts(h: HashFn, lock: Lock, archive: map<string, string>) returns (problems: seq<Problem>)
    ensures forall p :: p in problems <==>
      (p.MissingArtifact? && p.name in Missing(lock, archive)) ||
      (p.DigestMismatch? && p.name in Mismatched(h, lock, archive))
  {
    problems := [];
    var rest := lock.artifacts.Keys;
    while rest != {}
      invariant rest <= lock.artifacts.Keys
      invariant forall p :: p in problems <==>
        || (p.MissingArtifact? && p.name in Missing(lock, archive) - rest)
        || (p.DigestMismatch? && p.name in Mismatched(h, lock, archive) - rest)
      decreases rest
    {
      var n :| n in rest;
      rest := rest - {n};
      if n !in archive {
        problems := problems + [MissingArtifact(n)];
      } else if DigestOf(h, archive[n]) != lock.artifacts[n].digest {
        problems := problems + [DigestMismatch(n)];
      }
    }
  }

  // ---------------------------------------------------------------- what verification pins

  ghost predicate FilesOk(h: HashFn, lock: Lock, archive: map<string, string>) {
    Missing(lock, archive) == {} && Mismatched(h, lock, archive) == {}
  }

  lemma FilesOkMeans(h: HashFn, lock: Lock, archive: map<string, string>)
    ensures FilesOk(h, lock, archive) <==>
      forall n <- lock.artifacts :: n in archive && DigestOf(h, archive[n]) == lock.artifacts[n].digest
  {
    if FilesOk(h, lock, archive) {
      forall n <- lock.artifacts ensures n in archive && DigestOf(h, archive[n]) == lock.artifacts[n].digest {
        assert n !in Missing(lock, archive) && n !in Mismatched(h, lock, archive);
      }
    }
  }

  lemma CheckedDigestsNulFree(h: HashFn, lock: Lock, archive: map<string, string>)
    requires HexValued(h) && FilesOk(h, lock, archive)
    ensures NulFreeDigests(lock.artifacts)
  {
    FilesOkMeans(h, lock, archive);
    forall n <- lock.artifacts ensures NUL !in lock.artifacts[n].digest {
      assert HexDigest(h(archive[n]));
    }
  }

  ghost predicate SameContents(a: map<string, string>, b: map<string, string>, artifacts: map<string, Artifact>) {
    forall n <- artifacts :: n in a && n in b && b[n] == a[n]
  }

  ghost function SignedTexts(a: map<string, string>, b: map<string, string>, l: Lock, k: Lock): set<string> {
    {RootText(l.artifacts), RootText(k.artifacts)} + a.Values + b.Values
  }

  /**
   Two archives under one manifest, the first of which verifies: the second verifies exactly
   when its lock pins the same names, digests, sizes and modes and it has the same content
   under every pinned name. Kinds, identity and further files are free.
   */
  lemma ManifestPins(t: Tools, a: map<string, string>, b: map<string, string>, l: Lock, k: Lock, man: Manifest)
    requires HexValued(t.sha256) && Verifies(t, a)
    requires Parse(t.codec, a) == Parsed(l, man) && Parse(t.codec, b) == Parsed(k, man)
    requires Canonical.NulFreeNames(l.artifacts) && Canonical.NulFreeNames(k.artifacts)
    requires CollisionFree(t.sha256, SignedTexts(a, b, l, k))
    ensures Verifies(t, b) <==> SamePins(l.artifacts, k.artifacts) && SameContents(a, b, l.artifacts)
  {
    if Verifies(t, b) {
      SameRootSameFiles(t.sha256, a, b, l, k);
    }
    if SamePins(l.artifacts, k.artifacts) && SameContents(a, b, l.artifacts) {
      FilesOkMeans(t.sha256, l, a);
      FilesOkMeans(t.sha256, k, b);
      SamePinsSameRoot(l.artifacts, k.artifacts);
    }
  }

  lemma SameRootSameFiles(h: HashFn, a: map<string, string>, b: map<string, string>, l: Lock, k: Lock)
    requires HexValued(h) && FilesOk(h, l, a) && FilesOk(h, k, b) && Root(h, l.artifacts) == Root(h, k.artifacts)
    requires Canonical.NulFreeNames(l.artifacts) && Canonical.NulFreeNames(k.artifacts)
    requires CollisionFree(h, SignedTexts(a, b, l, k))
    ensures SamePins(l.artifacts, k.artifacts) && SameContents(a, b, l.artifacts)
  {
    CheckedDigestsNulFree(h, l, a);
    CheckedDigestsNulFree(h, k, b);
    assert RootText(l.artifacts) in SignedTexts(a, b, l, k) && RootText(k.artifacts) in SignedTexts(a, b, l, k);
    RootTextInjective(l.artifacts, k.artifacts);
    FilesOkMeans(h, l, a);
    FilesOkMeans(h, k, b);
    forall n <- l.artifacts ensures n in a && n in b && b[n] == a[n] {
      assert a[n] in a.Values && b[n] in b.Values;
      assert SamePin(l.artifacts[n], k.artifacts[n]);
      assert DigestOf(h, a[n])[7..] == h(a[n]) && DigestOf(h, b[n])[7..] == h(b[n]);
    }
  }

  /**
   Altered or added files under fresh pins, with the root recomputed and the old key and
   signature: such an archive verifies exactly when the signature is one of that key on the new root.
   */
  lemma RepinnedIff(t: Tools, a: map<string, string>, l: Lock, man: Manifest, edits: map<string, string>,
                    kind: string, mode: nat, pub: string, sig: string)
    requires RoundTrips(t.codec) && Verifies(t, a) && Parse(t.codec, a) == Parsed(l, man)
    requires t.scheme.hexDecode(man.publicKey) == Some(pub) && t.scheme.hexDecode(man.signature) == Some(sig)
    requires forall n :: n in l.artifacts || n in edits ==> !Reserved(n)
    ensures var k := Repinned(t.sha256, l, edits, kind, mode);
      var root := t.sha256(RootText(k.artifacts));
      Verifies(t, (a + edits)[LOCK := t.codec.encodeLock(k)]
                             [MANIFEST := t.codec.encodeManifest(man.(rootDigest := root))]) <==>
      t.scheme.verify(pub, root, sig)
  {
    var k := Repinned(t.sha256, l, edits, kind, mode);
    var w := man.(rootDigest := t.sha256(RootText(k.artifacts)));
    var b := (a + edits)[LOCK := t.codec.encodeLock(k)][MANIFEST := t.codec.encodeManifest(w)];
    assert KeyReads(t.scheme, man.publicKey) && FilesOk(t.sha256, l, a);
    RepinnedFilesOk(t.sha256, a, l, edits, kind, mode, b);
    VerifiesUnder(t, b, k, w, pub, sig);
  }

  /** Files and root in order: only the signature matters. */
  lemma VerifiesUnder(t: Tools, b: map<string, string>, k: Lock, w: Manifest, pub: string, sig: string)
    requires RoundTrips(t.codec) && LOCK in b && b[LOCK] == t.codec.encodeLock(k)
    requires MANIFEST in b && b[MANIFEST] == t.codec.encodeManifest(w)
    requires FilesOk(t.sha256, k, b) && w.rootDigest == Root(t.sha256, k.artifacts)
    requires t.scheme.hexDecode(w.publicKey) == Some(pub) && |pub| == PUBLIC_KEY_SIZE
    requires t.scheme.hexDecode(w.signature) == Some(sig)
    ensures Verifies(t, b) <==> t.scheme.verify(pub, w.rootDigest, sig)
  {
  }

  ghost function Repinned(h: HashFn, l: Lock, edits: map<string, string>, kind: string, mode: nat): Lock {
    l.(artifacts := l.artifacts + map n | n in edits :: Artifact("sha256:" + h(edits[n]), |edits[n]|, kind, mode))
  }

  lemma RepinnedFilesOk(h: HashFn, a: map<string, string>, l: Lock, edits: map<string, string>, kind: string,
                        mode: nat, b: map<string, string>)
    requires FilesOk(h, l, a) && forall n :: n in l.artifacts || n in edits ==> !Reserved(n)
    requires forall n :: !Reserved(n) && (n in a || n in edits) ==>
      n in b && b[n] == if n in edits then edits[n] else a[n]
    ensures FilesOk(h, Repinned(h, l, edits, kind, mode), b)
  {
    FilesOkMeans(h, l, a);
    FilesOkMeans(h, Repinned(h, l, edits, kind, mode), b);
  }

  // ---------------------------------------------------------------- Create, then Verify

  /** What Create's contract says about a bundle it made. */
  ghost predicate MadeByCreate(t: Tools, key: string, disk: map<string, OnDisk>, sources: seq<Source>,
                               lock: Lock, files: map<string, string>, archive: map<string, string>)
  {
    && Readable(sources, disk)
    && PacksLast(t.sha256, sources, disk, files, lock.artifacts)
    && archive == files[LOCK := t.codec.encodeLock(lock)]
                       [MANIFEST := t.codec.encodeManifest(SignedManifest(t, key, lock.artifacts))]
  }

  lemma DigestOfInjective(h: HashFn, x: string, y: string)
    ensures DigestOf(h, x) == DigestOf(h, y) <==> h(x) == h(y)
  {
    assert DigestOf(h, x)[7..] == h(x) && DigestOf(h, y)[7..] == h(y);
  }

  lemma CreatedParses(t: Tools, key: string, disk: map<string, OnDisk>, sources: seq<Source>,
                      lock: Lock, files: map<string, string>, archive: map<string, string>)
    requires RoundTrips(t.codec) && MadeByCreate(t, key, disk, sources, lock, files, archive)
    ensures Parse(t.codec, archive) == Parsed(lock, SignedManifest(t, key, lock.artifacts))
  {
  }

  /**
   Create's archive verifies exactly when whatever its sources pinned under a reserved name
   has the hash of the entry Create then wrote there; without reserved names, always.
   */
  lemma CreatedVerifiesIff(t: Tools, key: string, disk: map<string, OnDisk>, sources: seq<Source>,
                           lock: Lock, files: map<string, string>, archive: map<string, string>)
    requires Lawful(t.scheme) && RoundTrips(t.codec) && MadeByCreate(t, key, disk, sources, lock, files, archive)
    ensures lock.artifacts.Keys <= archive.Keys && lock.artifacts.Keys == files.Keys
    ensures Verifies(t, archive) <==>
      forall n <- lock.artifacts :: Reserved(n) ==> t.sha256(archive[n]) == t.sha256(files[n])
    ensures (forall s <- sources :: !Reserved(s.name)) ==> Verifies(t, archive)
  {
    CreatedVerifiesFiles(t, key, disk, sources, lock, files, archive);
    UnreservedKept(t, key, disk, sources, lock, files, archive);
    PinnedFilesOk(t.sha256, sources, disk, lock, files, archive);
    if forall s <- sources :: !Reserved(s.name) { NoReservedPins(t, sources, disk, files, lock); }
  }

  lemma UnreservedKept(t: Tools, key: string, disk: map<string, OnDisk>, sources: seq<Source>,
                       lock: Lock, files: map<string, string>, archive: map<string, string>)
    requires MadeByCreate(t, key, disk, sources, lock, files, archive)
    ensures Readable(sources, disk) && PacksLast(t.sha256, sources, disk, files, lock.artifacts)
    ensures files.Keys <= archive.Keys && forall n <- files :: !Reserved(n) ==> archive[n] == files[n]
  {
  }

  lemma PinnedFilesOk(h: HashFn, sources: seq<Source>, disk: map<string, OnDisk>, lock: Lock,
                      files: map<string, string>, archive: map<string, string>)
    requires Readable(sources, disk) && PacksLast(h, sources, disk, files, lock.artifacts)
    requires files.Keys <= archive.Keys && forall n <- files :: !Reserved(n) ==> archive[n] == files[n]
    ensures lock.artifacts.Keys == files.Keys
    ensures FilesOk(h, lock, archive) <==> forall n <- lock.artifacts :: Reserved(n) ==> h(archive[n]) == h(files[n])
  {
    FilesOkMeans(h, lock, archive);
    PinsFromLast(h, sources, disk, files, lock.artifacts);
    PinnedDigests(h, lock, files, archive);
  }

  /** Its root and its signature are right, so only the files matter. */
  lemma CreatedVerifiesFiles(t: Tools, key: string, disk: map<string, OnDisk>, sources: seq<Source>,
                             lock: Lock, files: map<string, string>, archive: map<string, string>)
    requires Lawful(t.scheme) && RoundTrips(t.codec) && MadeByCreate(t, key, disk, sources, lock, files, archive)
    ensures Verifies(t, archive) <==> FilesOk(t.sha256, lock, archive)
  {
    CreatedParses(t, key, disk, sources, lock, files, archive);
    SignedIsAuthentic(t.scheme, key, Root(t.sha256, lock.artifacts));
  }

  /** Outside the reserved names the archive holds what was pinned. */
  lemma PinnedDigests(h: HashFn, lock: Lock, files: map<string, string>, archive: map<string, string>)
    requires lock.artifacts.Keys == files.Keys && files.Keys <= archive.Keys
    requires forall n <- files :: lock.artifacts[n].digest == DigestOf(h, files[n])
    requires forall n <- files :: !Reserved(n) ==> archive[n] == files[n]
    ensures (forall n <- lock.artifacts :: DigestOf(h, archive[n]) == lock.artifacts[n].digest)
       <==> forall n <- lock.artifacts :: Reserved(n) ==> h(archive[n]) == h(files[n])
  {
    forall n <- lock.artifacts
      ensures DigestOf(h, archive[n]) == lock.artifacts[n].digest <==> h(archive[n]) == h(files[n])
    {
      DigestOfInjective(h, archive[n], files[n]);
    }
  }

  lemma NoReservedPins(t: Tools, sources: seq<Source>, disk: map<string, OnDisk>, files: map<string, string>,
                       lock: Lock)
    requires Readable(sources, disk) && PacksLast(t.sha256, sources, disk, files, lock.artifacts)
    requires forall s <- sources :: !Reserved(s.name)
    ensures forall n <- lock.artifacts :: !Reserved(n)
  {
  }

  /** Every pin comes from some last source. */
  lemma PinsFromLast(h: HashFn, sources: seq<Source>, disk: map<string, OnDisk>, files: map<string, string>,
                     artifacts: map<string, Artifact>)
    requires Readable(sources, disk) && PacksLast(h, sources, disk, files, artifacts)
    ensures forall n <- files :: artifacts[n].digest == DigestOf(h, files[n])
  {
    forall n <- files ensures artifacts[n].digest == DigestOf(h, files[n]) {
      assert Named(sources, n);
      var i :| 0 <= i < |sources| && sources[i].name == n;
      var j := LastFrom(sources, i);
      assert PackedFrom(h, sources[j], disk[sources[j].path], files, artifacts);
    }
  }

  lemma LastFrom(sources: seq<Source>, i: nat) returns (j: nat)
    requires i < |sources|
    ensures j < |sources| && IsLast(sources, j) && sources[j].name == sources[i].name
    decreases |sources| - i
  {
    if IsLast(sources, i) {
      j := i;
    } else {
      var k :| i < k < |sources| && sources[k].name == sources[i].name;
      j := LastFrom(sources, k);
    }
  }

  // ---------------------------------------------------------------- Install

  /** Everything in the archive but the two reserved entries, pinned or not. */
  function Entries(archive: map<string, string>): set<string> {
    set n | n in archive && !Reserved(n)
  }

  function ModeFor(lock: Lock, n: string): nat {
    if n in lock.artifacts && lock.artifacts[n].mode != 0 then lock.artifacts[n].mode else DEFAULT_MODE
  }

  function Wanted(archive: map<string, string>, lock: Lock): map<string, File> {
    map n | n in archive && !Reserved(n) :: File(archive[n], ModeFor(lock, n))
  }

  datatype Install = Refused(problems: seq<Problem>) | Stopped(name: string) | Installed(names: seq<string>)

  /** What the entries of the archive come to in a tree. */
  function Wants(t: Tools, archive: map<string, string>): map<string, File>
    requires Parse(t.codec, archive).Parsed?
  {
    Wanted(archive, Parse(t.codec, archive).lock)
  }

  /**
   A bundle that does not verify changes nothing. One that does is installed if its names
   fit the tree; else the first name that does not fit stops it, and what was placed stays.
   */
  method InstallInto(t: Tools, archive: map<string, string>, dest: Tree) returns (r: Install, ghost placed: set<string>)
    modifies dest
    ensures r.Refused? <==> !Verifies(t, archive)
    ensures r.Refused? ==> forall p :: p in r.problems <==> Reported(t, archive, p)
    ensures r.Refused? ==> dest.files == old(dest.files) && dest.dirs == old(dest.dirs)
    ensures Verifies(t, archive) ==> (r.Installed? <==> Placeable(Entries(archive), old(dest.files), old(dest.dirs)))
    ensures Verifies(t, archive) ==>
      placed <= Wants(t, archive).Keys && Filled(Wants(t, archive), placed, old(dest.files), dest.files)
    ensures r.Installed? ==> placed == Entries(archive) && r.names == Sorted(placed)
    ensures r.Stopped? ==> r.name in Entries(archive) && r.name !in placed
    ensures r.Stopped? ==> !Placeable(placed + {r.name}, old(dest.files), old(dest.dirs))
    ensures Verifies(t, archive) ==>
      forall n <- placed :: SomeEntryAt(archive, Parse(t.codec, archive).lock, dest.files, Clean(n))
    ensures r.Installed? ==> forall n :: n in r.names <==> Unreserved(archive, n)
  {
    placed := {};
    var res := VerifyFiles(t, archive);
    if !res.ok {
      return Refused(res.problems), placed;
    }
    r, placed := PlaceEntries(archive, Parse(t.codec, archive).lock, dest);
  }

  /** The loop of Install over the entries. */
  method PlaceEntries(archive: map<string, string>, lock: Lock, dest: Tree)
      returns (r: Install, ghost placed: set<string>)
    modifies dest
    ensures !r.Refused? && (r.Installed? <==> Placeable(Entries(archive), old(dest.files), old(dest.dirs)))
    ensures placed <= Wanted(archive, lock).Keys
    ensures Filled(Wanted(archive, lock), placed, old(dest.files), dest.files)
    ensures r.Installed? ==> placed == Entries(archive) && r.names == Sorted(placed)
    ensures r.Stopped? ==> r.name in Entries(archive) && r.name !in placed
    ensures r.Stopped? ==> !Placeable(placed + {r.name}, old(dest.files), old(dest.dirs))
    ensures forall n <- placed :: SomeEntryAt(archive, lock, dest.files, Clean(n))
    ensures forall n :: n in placed || (r.Stopped? && n == r.name) ==> Unreserved(archive, n)
    ensures r.Installed? ==> forall n :: n in r.names <==> Unreserved(archive, n)
  {
    var wanted := Wanted(archive, lock);
    assert wanted.Keys == Entries(archive);
    var stopped;
    stopped, placed := PlaceAll(wanted, dest);
    EntriesPlaced(archive, lock, placed, old(dest.files), dest.files);
    if stopped.Some? {
      return Stopped(stopped.value), placed;
    }
    var names := Sorting.KeysOf(wanted);
    names := Sorting.SortNames(names, Entries(archive));
    r := Installed(names);
  }

  /** An entry to be installed: any but the lock and the manifest. */
  predicate Unreserved(archive: map<string, string>, n: string) {
    n in archive && n != "faraday.lock.json" && n != "bundle.manifest.json"
  }

  /** At p lies the entry k, with the mode its pin gives it, or 0644. */
  predicate EntryAt(archive: map<string, string>, lock: Lock, files: map<Path, File>, p: Path, k: string) {
    && Unreserved(archive, k) && Lands(k, p) && p in files && files[p].content == archive[k]
    && files[p].mode ==
      if k in lock.artifacts && lock.artifacts[k].mode != 0 then lock.artifacts[k].mode else 0x1a4
  }

  ghost predicate SomeEntryAt(archive: map<string, string>, lock: Lock, files: map<Path, File>, p: Path) {
    exists k :: EntryAt(archive, lock, files, p, k)
  }

  lemma EntriesPlaced(archive: map<string, string>, lock: Lock, placed: set<string>, before: map<Path, File>,
                      after: map<Path, File>)
    requires placed <= Wanted(archive, lock).Keys && Filled(Wanted(archive, lock), placed, before, after)
    ensures forall n <- placed :: SomeEntryAt(archive, lock, after, Clean(n))
  {
    var want := Wanted(archive, lock);
    forall n <- placed ensures SomeEntryAt(archive, lock, after, Clean(n)) {
      assert FilledAt(want, placed, before, after, Clean(n)) && Lands(n, Clean(n));
      var k :| k in placed && Lands(k, Clean(n)) && after[Clean(n)] == want[k];
      assert EntryAt(archive, lock, after, Clean(n), k);
    }
  }

  /** At p lies what the disk had: the content, and the mode unless it is 0 or unknown. */
  ghost predicate CarriedTo(files: map<Path, File>, p: Path, d: OnDisk) {
    p in files && files[p].content == d.content
    && files[p].mode == if d.perm.Some? && d.perm.value != 0 then d.perm.value else 0x1a4
  }

  /** Different names land on different paths. */
  ghost predicate Apart(sources: seq<Source>) {
    forall i, j :: 0 <= i < j < |sources| && Clean(sources[i].name) == Clean(sources[j].name) ==>
      sources[i].name == sources[j].name
  }

  ghost predicate SomeLands(sources: seq<Source>, p: Path) {
    exists i :: 0 <= i < |sources| && Lands(sources[i].name, p)
  }

  /**
   Create, then Install into an empty directory, in whatever order the entries come: with
   no reserved names and no two names landing on one path, the directory holds one file per
   name and nothing else, with the content and the mode of the last source of that name.
   */
  lemma CreatedInstalls(t: Tools, key: string, disk: map<string, OnDisk>, sources: seq<Source>,
                        lock: Lock, files: map<string, string>, archive: map<string, string>,
                        installed: map<Path, File>)
    requires RoundTrips(t.codec) && MadeByCreate(t, key, disk, sources, lock, files, archive)
    requires (forall s <- sources :: !Reserved(s.name)) && Apart(sources)
    requires var want := Wanted(archive, Parse(t.codec, archive).lock); Filled(want, want.Keys, map[], installed)
    ensures forall p :: p in installed <==> SomeLands(sources, p)
    ensures forall i :: 0 <= i < |sources| && IsLast(sources, i) ==>
      CarriedTo(installed, Clean(sources[i].name), disk[sources[i].path])
  {
    CreatedParses(t, key, disk, sources, lock, files, archive);
    NoReservedPins(t, sources, disk, files, lock);
    KeptContents(t, lock, key, files, archive);
    OnlyNamedInstalled(t.sha256, disk, sources, lock, files, archive, installed);
    forall i | 0 <= i < |sources| && IsLast(sources, i)
      ensures CarriedTo(installed, Clean(sources[i].name), disk[sources[i].path])
    {
      LastInstalled(t.sha256, disk, sources, lock, files, archive, installed, i);
    }
  }

  /** Packed under no reserved name: the two reserved entries are all that Create adds. */
  ghost predicate Packed(lock: Lock, files: map<string, string>, archive: map<string, string>) {
    && (forall n <- lock.artifacts :: !Reserved(n))
    && archive.Keys == files.Keys + {LOCK, MANIFEST} && forall n <- files :: archive[n] == files[n]
  }

  lemma KeptContents(t: Tools, lock: Lock, key: string, files: map<string, string>, archive: map<string, string>)
    requires lock.artifacts.Keys == files.Keys && forall n <- lock.artifacts :: !Reserved(n)
    requires archive == files[LOCK := t.codec.encodeLock(lock)]
                             [MANIFEST := t.codec.encodeManifest(SignedManifest(t, key, lock.artifacts))]
    ensures Packed(lock, files, archive)
  {
  }

  lemma PackedKeys(lock: Lock, files: map<string, string>, archive: map<string, string>)
    requires lock.artifacts.Keys == files.Keys && Packed(lock, files, archive)
    ensures Wanted(archive, lock).Keys == lock.artifacts.Keys
  {
  }

  lemma OnlyNamedInstalled(h: HashFn, disk: map<string, OnDisk>, sources: seq<Source>, lock: Lock,
                           files: map<string, string>, archive: map<string, string>, installed: map<Path, File>)
    requires Readable(sources, disk) && PacksLast(h, sources, disk, files, lock.artifacts)
    requires Packed(lock, files, archive) && Apart(sources)
    requires var want := Wanted(archive, lock); Filled(want, want.Keys, map[], installed)
    ensures forall p :: p in installed <==> SomeLands(sources, p)
  {
    var want := Wanted(archive, lock);
    PackedKeys(lock, files, archive);
    NamesLandApart(sources, want.Keys);
    FilledExactly(want, installed);
    forall p ensures p in installed <==> SomeLands(sources, p) {
      LandingNames(sources, want.Keys, p);
    }
  }

  lemma LastInstalled(h: HashFn, disk: map<string, OnDisk>, sources: seq<Source>, lock: Lock,
                      files: map<string, string>, archive: map<string, string>, installed: map<Path, File>, i: nat)
    requires Readable(sources, disk) && PacksLast(h, sources, disk, files, lock.artifacts)
    requires Packed(lock, files, archive) && Apart(sources) && i < |sources| && IsLast(sources, i)
    requires var want := Wanted(archive, lock); Filled(want, want.Keys, map[], installed)
    ensures CarriedTo(installed, Clean(sources[i].name), disk[sources[i].path])
  {
    var want := Wanted(archive, lock);
    PackedKeys(lock, files, archive);
    NamesLandApart(sources, want.Keys);
    FilledExactly(want, installed);
    assert PackedFrom(h, sources[i], disk[sources[i].path], files, lock.artifacts);
    assert Clean(sources[i].name) in installed && installed[Clean(sources[i].name)] == want[sources[i].name];
  }

  lemma NamesLandApart(sources: seq<Source>, names: set<string>)
    requires (forall n :: n in names <==> Named(sources, n)) && Apart(sources)
    ensures forall n, k :: n in names && k in names && Clean(n) == Clean(k) ==> n == k
  {
  }

  lemma LandingNames(sources: seq<Source>, names: set<string>, p: Path)
    requires forall n :: n in names <==> Named(sources, n)
    ensures (exists n :: n in names && Lands(n, p)) <==> SomeLands(sources, p)
  {
  }

  /** No name lands on the destination itself, nor on the way to another. */
  ghost predicate FitsEmpty(sources: seq<Source>) {
    && (forall i :: 0 <= i < |sources| ==> Clean(sources[i].name) != [])
    && (forall i, j :: 0 <= i < |sources| && 0 <= j < |sources| ==> !(Clean(sources[i].name) < Clean(sources[j].name)))
  }

  /** What Create packed fits an empty directory exactly when its names do: Create then Install ends in Installed. */
  lemma CreatedFitsIff(t: Tools, key: string, disk: map<string, OnDisk>, sources: seq<Source>,
                       lock: Lock, files: map<string, string>, archive: map<string, string>)
    requires Lawful(t.scheme) && RoundTrips(t.codec) && MadeByCreate(t, key, disk, sources, lock, files, archive)
    requires forall s <- sources :: !Reserved(s.name)
    ensures Verifies(t, archive)
    ensures Placeable(Entries(archive), map[], {[]}) <==> FitsEmpty(sources)
  {
    CreatedVerifiesIff(t, key, disk, sources, lock, files, archive);
    CreatedEntries(t, key, disk, sources, lock, files, archive);
    NamesFit(sources, Entries(archive));
  }

  lemma NamesFit(sources: seq<Source>, names: set<string>)
    requires forall n :: n in names <==> Named(sources, n)
    ensures Placeable(names, map[], {[]}) <==> FitsEmpty(sources)
  {
    assert forall i :: 0 <= i < |sources| ==> Named(sources, sources[i].name);
    if FitsEmpty(sources) {
      forall n <- names ensures Clean(n) != [] {
        var i :| 0 <= i < |sources| && sources[i].name == n;
      }
      forall n, k | n in names && k in names ensures !(Clean(n) < Clean(k)) {
        var i :| 0 <= i < |sources| && sources[i].name == n;
        var j :| 0 <= j < |sources| && sources[j].name == k;
      }
    }
  }

  /** From readable sources to installed files, as on the two machines of a transfer. */
  method CreateThenInstall(t: Tools, key: string, disk: map<string, OnDisk>, now: string, identity: string,
                           sources: seq<Source>)
      returns (r: Install, dest: Tree)
    requires Lawful(t.scheme) && RoundTrips(t.codec) && Readable(sources, disk)
    requires (forall s <- sources :: !Reserved(s.name)) && Apart(sources)
    ensures fresh(dest) && (r.Installed? <==> FitsEmpty(sources)) && (r.Installed? || r.Stopped?)
    ensures r.Installed? ==> forall n :: n in r.names <==> Named(sources, n)
    ensures r.Installed? ==> forall p :: p in dest.files <==> SomeLands(sources, p)
    ensures r.Installed? ==> forall i :: 0 <= i < |sources| && IsLast(sources, i) ==>
      CarriedTo(dest.files, Clean(sources[i].name), disk[sources[i].path])
  {
    ghost var files, placed;
    var made;
    made, files := Create(t, key, disk, now, identity, sources);
    ghost var lock := made.lock;
    CreatedFitsIff(t, key, disk, sources, lock, files, made.archive);
    CreatedEntries(t, key, disk, sources, lock, files, made.archive);
    dest := new Tree();
    r, placed := InstallInto(t, made.archive, dest);
    if r.Installed? {
      CreatedInstalls(t, key, disk, sources, lock, files, made.archive, dest.files);
    }
  }

  lemma CreatedEntries(t: Tools, key: string, disk: map<string, OnDisk>, sources: seq<Source>,
                       lock: Lock, files: map<string, string>, archive: map<string, string>)
    requires RoundTrips(t.codec) && MadeByCreate(t, key, disk, sources, lock, files, archive)
    requires forall s <- sources :: !Reserved(s.name)
    ensures Parse(t.codec, archive).Parsed? && Wants(t, archive).Keys == Entries(archive)
    ensures forall n :: n in Entries(archive) <==> Named(sources, n)
  {
    CreatedParses(t, key, disk, sources, lock, files, archive);
    NoReservedPins(t, sources, disk, files, lock);
    KeptContents(t, lock, key, files, archive);
    EntriesPinned(lock, files, archive);
  }

  lemma EntriesPinned(lock: Lock, files: map<string, string>, archive: map<string, string>)
    requires lock.artifacts.Keys == files.Keys && Packed(lock, files, archive)
    ensures Entries(archive) == lock.artifacts.Keys
  {
  }

  // ---------------------------------------------------------------- entries that land on one path

  /** An entry added to a verifying archive passes, fits where the archive fits, and may end up in place of another. */
  lemma AddedEntryOverwrites(t: Tools, a: map<string, string>, n: string, added: string, content: string,
                             files: map<Path, File>, dirs: set<Path>) returns (after: map<Path, File>)
    requires Verifies(t, a) && n in Entries(a) && content != a[n]
    requires added !in a && !Reserved(added) && Clean(added) == Clean(n)
    ensures var b := a[added := content];
      && Verifies(t, b) && n in Wants(t, b) && added in Wants(t, b)
      && (Placeable(Entries(b), files, dirs) <==> Placeable(Entries(a), files, dirs))
      && Filled(Wants(t, b), Wants(t, b).Keys, files, after)
      && HoldsAt(after, Clean(n), Wants(t, b)[added]) && !HoldsAt(after, Clean(n), Wants(t, b)[n])
  {
    var b := a[added := content];
    AddedEntryVerifies(t, a, added, content);
    assert Entries(b) == Entries(a) + {added};
    SamePathFits(Entries(a), n, added, files, dirs);
    after := FilledWith(Wants(t, b), files, added);
  }

  lemma AddedEntryVerifies(t: Tools, a: map<string, string>, added: string, content: string)
    requires Verifies(t, a) && added !in a && !Reserved(added)
    ensures Verifies(t, a[added := content]) && Parse(t.codec, a[added := content]) == Parse(t.codec, a)
  {
    var b := a[added := content];
    var lock := Parse(t.codec, a).lock;
    assert FilesOk(t.sha256, lock, a);
    FilesOkMeans(t.sha256, lock, a);
    FilesOkMeans(t.sha256, lock, b);
    assert FilesOk(t.sha256, lock, b);
  }
}
