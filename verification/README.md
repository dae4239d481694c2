# Faraday: verified core

Faraday runs code-generating agents against local models without leaving the machine. This
project models its state machines and algorithms in Dafny and proves what they keep:

- `Pool`, with `PoolBalance`, `PoolUse`, `PoolAlone` and `PoolShutdown`: the warm sandbox pool. Every
  mutex or channel section is one atomic step, class `WarmPool` performs the steps in place, and a
  run is any interleaving of any number of Acquire, Release, replenish and Close operations.
- `Audit`: the hash-chained audit log, its verifier, and what edits, deletions and reorderings
  the verifier can and cannot see.
- `Evidence` and `Bundle`, over `Canonical`, `Signing`, `Hashing` and `Placement`: root digests
  of maps, building, verifying and installing signed archives.
- `PassAtK` and `EvalSuite`: the pass@k product as a binomial ratio, its unbiasedness, the
  code_passk suite and the threshold gate.
- `TraceStore`, `TraceTree` and `Telemetry`: the span and trace tables, the span tree that is
  printed, and runs of the tracer.
- `Router` and `Config`: stable weighted failover, defaults, validation, and what a validated
  configuration routes.
- `Agent`, `CodeFence` and `WhiteSpace`: the repair loop, the extraction of fenced code, and trimming.

SHA-256 is an arbitrary function to 64 lower-case hexadecimal digits. No statement assumes
it to be injective: each asks for no collision among finitely many named texts, or returns
the two texts that collide. Ed25519 (section 5.1 of RFC 8032), hexadecimal coding and JSON are
known by their laws only: a signature made with a key verifies under its public key, and
decoding undoes encoding. A `char` stands for one byte.

## What is false of the code, and when it holds

- Closing the pool. An empty window between the closed check and the send at `close(p.ready)`
  is not enough: a replenish that read `closed == false` before Close swapped the map can track
  its sandbox in the new map and queue it before the channel closes; Close drains it and nobody
  destroys it (`PoolShutdown.QuietChannelStillLeaks`). `PoolShutdown.ShutdownIff` gives the exact
  condition at that point, `PoolShutdown.SafeShutdownIff` the one at the swap. A second Release of
  one sandbox by a caller that no longer holds it queues it twice (`PoolUse.DoubleReleaseQueuesTwice`).
  Runs that get there are given (`PoolShutdown.LeakReached`, `PoolUse.DoubleReleaseReached`).
- Acquire promises a ready or a new sandbox. On a closed and drained channel, and only there, it
  returns nil without an error (`PoolShutdown.NilIff`; a run in `PoolShutdown.NilReached`), and
  `runInSandbox` (internal/mcp/broker.go:97-105) then calls Exec and Release on that nil, which
  panics. The results on shutdown speak of sends on the closed channel only, and of runs in which no
  caller goes on with a nil. Before Close there are none (`PoolBalance.Conservation`).
- The audit chain, which docs/ARCHITECTURE.md:215 calls tamper-evident: every change of an
  earlier entry is to break it. A change of the hashed text that keeps the stored hash does, and one
  that recomputes it breaks the next entry. For an entry whose four strings hold no NUL every change
  of a field changes the text (`Audit.PlainTextUnique`); one with a NUL in any of them can always be
  rewritten with shifted fields unnoticed (`Audit.AmbiguousIff`, `Audit.ShiftUnnoticed`). A recomputed
  last entry and dropped last entries are never noticed (`Audit.EditRecomputingHash`,
  `Audit.RearrangedIffPrefix`).
- The answer of the verifier. The seq is neither hashed nor checked, and 0 stands for an intact chain:
  when the first broken entry is numbered 0, the answer is 0 as well, and evidence.go:145 writes no
  warning. `Audit.ForgedFirst` is such a run, `Audit.ZeroIff` the exact statement. AUTOINCREMENT
  itself numbers from 1.
- Signed archives. By docs/ARCHITECTURE.md:218 the signature is to secure the whole bundle.
  The signature covers the names and digests of the pinned files only. Identity, version and
  date of the evidence manifest, kinds and identity of the bundle lock, and files beside the
  pinned ones are free, and Install writes such files too (`Evidence.UnsignedIsFree`;
  `Evidence.SignedRootPins` and `Bundle.ManifestPins` are exact). Files pinned anew need a signature
  on the new root (`Evidence.RepinnedIff`, `Bundle.RepinnedIff`). That the root text determines the
  pinned names needs names without NUL: one name with a NUL can stand for two
  (`Evidence.NulNamesCollide`).
- Remote spans. `IngestRemote` takes any span id, and the store replaces the row of that id, so that
  a remote record can take a span out of a finished trace (`Telemetry.IngestErases`; in
  `Telemetry.ErasedTrace` nothing of the trace is left). The walk prints all own records of a
  finished trace exactly when the store has kept them (`Telemetry.FinishedPrintedIffKept`), and it
  keeps them from their arrival on exactly when no later remote record bears the id of one with other
  content (`Telemetry.KeptThroughoutIff`). Asking the store whether it holds the id with other
  content, before the insertion, would be enough (`Telemetry.GuardedNeverReplaced`).
- Entries on one path. Install cleans names, and `./bin/tool` lands where `bin/tool` does
  (`Placement.DotSlashSame`). An entry that no pin covers can be added to a signed bundle under such a
  name; the bundle still verifies and fits, and the order of the entries decides which of the two
  contents stays (`Bundle.AddedEntryOverwrites`). A name has its content and mode in every order
  exactly when all names on its path want the same (`Placement.HeldIff`).
- An agent that names no model is to inherit the default one (internal/config/defaults.go:51). It does, but the
  default model is there only when no models are declared: beside other models, none of them and no
  route called `coder`, the completed configuration is rejected (`Config.OmittedModelIff` is exact).
- Create's bundle does not always verify: a source with one of the two reserved names is pinned
  and then overwritten (`Bundle.CreatedVerifiesIff` is exact).
- `renderSpanTree` does not end on a list in which two spans share an id in the wrong way
  (`TraceTree.SharedIdLoops`, exact condition `TraceTree.UnboundedIff`). The primary key of the
  span table excludes such lists.
- The summary of a trace depends on the order of arrival exactly when its roots disagree, or when
  it has none and its spans do not start together (`TraceStore.RowOrderIndependentIff`).
- Extracted code loses the backticks it ends in (`CodeFence.RecoveredIff` is exact).
- Repair prompts tell failures apart up to their first 2000 bytes
  (`Agent.SourcePromptTellsFailures` is exact).

## Model

| member | source | states |
|---|---|---|
| Pool.WarmPool.Acquire | internal/runtime/pool/pool.go:55-70 | Uninterrupted: the oldest ready sandbox, if any; nil iff the channel is closed and empty; else a new tracked one, or driver.New's error, iff it failed, and no change. |
| Pool.WarmPool.Release | internal/runtime/pool/pool.go:72-97 | Uninterrupted: destroyed in a closed pool, whose map stays; before Close destroyed and to be replaced when Reset fails, else queued, or destroyed when the queue is full, and the map loses what is destroyed. |
| Pool.WarmPool.Replenish | internal/runtime/pool/pool.go:99-119 | Uninterrupted: nothing in a closed pool or when driver.New fails, else a tracked sandbox is queued, or destroyed and forgotten when the queue is full. |
| PoolAlone.AcquireAlone | internal/runtime/pool/pool.go:55-70 | The atomic sections of Acquire, run without interruption, come to what the method does, and count a nil iff the method returns one. |
| PoolAlone.ReleaseAlone | internal/runtime/pool/pool.go:72-97 | The same for Release. |
| PoolAlone.ReplenishAlone | internal/runtime/pool/pool.go:99-119 | The same for replenish. |
| PoolAlone.ReplenishCounted | internal/runtime/pool/pool.go:99-111 | Which is counted as lost iff driver.New fails in a pool that is not closed. |
| PoolAlone.CloseAlone | internal/runtime/pool/pool.go:125-142 | The same for Close, from the swap to the last Destroy, whatever else is in flight. |
| Pool.Counted | internal/runtime/pool/pool.go:55-119 | In every interleaving a nil is counted iff an Acquire finds the channel closed and drained, and a lost replenish iff its driver.New fails. |
| Pool.WarmPool.TryReceive | internal/runtime/pool/pool.go:55-60 | The non-blocking receive of Acquire: oldest ready sandbox, nil on a closed empty channel, else nothing. |
| Pool.WarmPool.TrySend | internal/runtime/pool/pool.go:89-92 | The non-blocking send: queued at the end if there is room, full otherwise, a panic on a closed channel. |
| Pool.WarmPool.Close | internal/runtime/pool/pool.go:125-142 | Undisturbed, Close empties queue and map and destroys exactly the tracked sandboxes; a second Close changes and destroys nothing. |
| Pool.WarmPool.New | internal/runtime/pool/pool.go:23-43 | An open pool with exactly size ready and tracked sandboxes iff every driver.New works; otherwise exactly those created so far are destroyed. |
| PoolBalance.Conservation | internal/runtime/pool/pool.go:55-119 | In every interleaving before Close, ready + owed by operations in flight + lost replenishes >= size and ready <= size, no panic, no nil; a quiet pool that lost nothing is full. |
| PoolBalance.SelfHealing | internal/runtime/pool/pool.go:55-119 | Before Close every run can go on, without failure or new call, until the pool is quiet with at least size minus lost and at most size sandboxes ready. |
| PoolBalance.EveryScheduleEnds | internal/runtime/pool/pool.go:55-142 | Before and after Close the operations in flight, Close included, end under every schedule and every outcome of New and Reset, within a number of sections fixed by where they stand. |
| PoolUse.Exclusivity | internal/runtime/pool/pool.go:48-97 | If only holders release, each once, as `runInSandbox` does (internal/mcp/broker.go:97-105), then in every interleaving no sandbox is queued twice, queued while in use or in two hands; before Close queued ones are tracked and alive, and at rest the map is what is queued or held. |
| PoolUse.DoubleReleaseQueuesTwice | internal/runtime/pool/pool.go:72-97 | From every state with room for two, a stray second Release queues the sandbox twice in a row. |
| PoolUse.DoubleReleaseReached | internal/runtime/pool/pool.go:55-60 | Two Acquires on a new pool of two or more lead to such a state. |
| PoolShutdown.SafeShutdown | internal/runtime/pool/pool.go:72-142 | If only holders released before it and no operation is between closed check and send when Close swaps the map, then in every continuation nothing is sent on the closed channel and, once nothing is in flight, every sandbox ever created is destroyed. |
| PoolShutdown.SafeShutdownIff | internal/runtime/pool/pool.go:72-142 | At the swap: that holds of every disciplined continuation iff no operation is in the window. |
| PoolShutdown.ShutdownCompletes | internal/runtime/pool/pool.go:72-142 | And from wherever a shutdown with an empty window stands a schedule leads to that end. |
| PoolShutdown.ShutdownIff | internal/runtime/pool/pool.go:125-142 | At close(p.ready), in disciplined runs: no continuation sends on the closed channel or loses a sandbox iff the window is empty and every queued sandbox is in the map that Close took; then, with nothing in flight, every sandbox ever created is destroyed. |
| PoolShutdown.QuietChannelStillLeaks | internal/runtime/pool/pool.go:99-142 | A run in which the window is empty at close(p.ready) and a sandbox is still lost for ever. |
| PoolShutdown.LeakReached | internal/runtime/pool/pool.go:55-60 | One Acquire on a new pool leads to the state that run starts from. |
| PoolShutdown.NilIff | internal/runtime/pool/pool.go:55-60 | Acquire returns nil without an error iff the channel is closed and drained. |
| PoolShutdown.NilReached | internal/runtime/pool/pool.go:55-142 | Close, its draining and an Acquire are a run that gets there. |
| Audit.AuditLog.Append | internal/store/store.go:361-385 | On any table the log grows by one entry with the given fields and the next seq, whose previous hash is the last one or GENESIS and whose hash is that of its fields between NULs; it is intact afterwards iff it was before, and positive increasing seqs stay so. |
| Audit.AuditLog.Verify | internal/store/store.go:406-423 | On any table: the seq of the first entry whose link is broken, else 0; so 0 iff the chain is intact or that entry is numbered 0, and iff intact where no seq is 0. |
| Audit.ZeroIff | internal/store/store.go:406-423 | The same about the answer as a function of the log. |
| Audit.ForgedFirst | internal/store/store.go:406-423 | A run in which the verifier answers 0 for a log with a forged detail: its seq was set to 0. |
| Audit.PreimageInjective | internal/store/store.go:425-429 | The hashed text determines time, actor, action, target, detail and previous hash when actor, action and target hold no NUL; the detail may. |
| Audit.PlainTextUnique | internal/store/store.go:425-429 | No other fields at all have the text of an entry whose four strings hold no NUL. |
| Audit.AmbiguousIff | internal/store/store.go:425-429 | Another entry with the same hashed text exists iff one of the four strings holds a NUL. |
| Audit.ChainBinding | internal/store/store.go:406-429 | Any two intact logs with one last hash have the same length and the same hashed text, previous hash and hash at every position, or the lemma returns a text from each that collide. |
| Audit.LinksFixFields | internal/store/store.go:425-429 | There the fields agree too, wherever one of the two entries holds no NUL or neither does outside the detail. |
| Audit.EditKeepingHash | internal/store/store.go:406-423 | A change of an entry's hashed text or previous hash that keeps its stored hash and the order of the seqs is found at that entry, and its seq is the answer. |
| Audit.EditRecomputingHash | internal/store/store.go:406-423 | A change of the hashed text with recomputed hash is found at the next entry, whose seq is the answer; without a next entry the log stays intact and only its last hash differs. |
| Audit.AlteredEntry | internal/store/store.go:406-423 | Any change of one entry's hashed text, previous hash or hash breaks the link of that entry, or of the next if the entry itself still fits, and the answer is the seq there; the log stays intact iff it was the last entry and fits. |
| Audit.ShiftUnnoticed | internal/store/store.go:406-429 | An entry with a NUL in one of its strings can be replaced by a different one while the log stays intact. |
| Audit.HashesDistinct | internal/store/store.go:406-429 | No hash occurs twice in an intact log, whatever its entries hold, and none is GENESIS. |
| Audit.RearrangedIffPrefix | internal/store/store.go:406-423 | Entries of any intact log picked in any order, with gaps and repetitions, form an intact log iff they are a prefix of it. |
| Canonical.Print | internal/evidence/evidence.go:240-251 | The text that is hashed depends on the map alone, whatever order its keys come in. |
| Canonical.TextInjective | internal/bundle/bundle.go:211-222 | Maps of any size with NUL-free names and prefix-free payloads have equal texts only when equal. |
| Canonical.SubsetTextInjective | internal/evidence/evidence.go:240-251 | A map of NUL-free payloads has the text of no other map with at least its names, whatever names and payloads hold. |
| Evidence.RootTextGrows | internal/evidence/evidence.go:240-251 | The root text of no files is empty, and one more name, greater than all others, adds that name, a NUL, its digest and a newline. |
| Evidence.RootTextInjective | internal/evidence/evidence.go:240-251 | Equal root texts come from equal digest maps, for NUL-free names and newline-free digests. |
| Evidence.NulNamesCollide | internal/evidence/evidence.go:240-251 | Of any two names and digests a third name can be made that has, alone, the same root text. |
| Evidence.Build | internal/evidence/evidence.go:51-86 | The manifest pins the digest of every collected file and signs the hash of their root text; the archive is the files and the manifest. |
| Evidence.Verify | internal/evidence/verify.go:28-81 | Reports exactly the problems there are, and ok iff there are none: a file missing or of another digest, a root that is not the hash of the pinned root text, a key that does not decode to 32 bytes, and with such a key a signature that does not decode or that Ed25519 rejects on the root. |
| Evidence.CheckFiles | internal/evidence/verify.go:45-58 | The loop finds exactly the missing and the mismatched pinned files and recomputes the digests of those present. |
| Evidence.ChecksRedundant | internal/evidence/verify.go:45-66 | For every manifest and archive: given the manifest's own root, checking every file and checking the recomputed root accept the same. |
| Evidence.BuiltVerifies | internal/evidence/evidence.go:51-86 | Every archive that Build writes passes every check of Verify. |
| Evidence.CollectedLeavesManifest | internal/evidence/evidence.go:89-109 | None of the collected names is the manifest's, and none holds a NUL. |
| Evidence.SignedRootPins | internal/evidence/verify.go:45-79 | Under the root, key and signature of a verifying archive another one verifies iff it pins the same digests and has the same content under every pinned name. |
| Evidence.RepinnedIff | internal/evidence/verify.go:45-79 | Changed or added files under fresh digests and a recomputed root, with the old key and signature, verify iff that signature is one on the new root. |
| Evidence.UnsignedIsFree | internal/evidence/verify.go:45-79 | Identity, version, date and further files can be changed in any verifying archive without a problem being reported. |
| Bundle.RootTextGrows | internal/bundle/bundle.go:211-222 | The root text of no pins is empty, and one more name, greater than all others, adds name, digest, size and mode between NULs and a newline. |
| Bundle.RootTextInjective | internal/bundle/bundle.go:211-222 | Equal root texts pin the same names, digests, sizes and modes; kinds are not covered. |
| Bundle.Create | internal/bundle/bundle.go:61-94 | Fails iff a source is unreadable; otherwise packs the last source of every name, pins it with `sha256:` and its hash, its size, its kind and its permissions, or 0644 when Stat fails, and signs the hash of the root text. |
| Bundle.VerifyFiles | internal/bundle/bundle.go:114-155 | Reports exactly the problems there are, and ok iff there are none: no lock, no manifest, one that does not parse, and else a pinned file missing or of another digest, a root that is not the hash of the root text, a key that does not decode to 32 bytes, and with such a key a signature that does not decode or that Ed25519 rejects on the root. |
| Bundle.RepinnedIff | internal/bundle/bundle.go:114-155 | Changed or added files under fresh pins and a recomputed root, with the old key and signature, verify iff that signature is one on the new root. |
| Bundle.ManifestPins | internal/bundle/bundle.go:114-155 | Under one manifest with one verifying archive, another verifies iff its lock pins the same names, digests, sizes and modes and it has the same content under every pinned name. |
| Bundle.CreatedVerifiesIff | internal/bundle/bundle.go:61-155 | Create's archive verifies iff what was pinned under a reserved name has the hash of what was written there; without reserved names always. |
| Bundle.InstallInto | internal/bundle/bundle.go:166-207 | A bundle that does not verify changes nothing; one that does is installed iff its names fit the tree, every path that entries land on then holding the content of one of them, with the mode of its pin or 0644 where there is none; else it stops at a name that does not fit beside those placed, which stay. |
| Bundle.CreatedInstalls | internal/bundle/bundle.go:61-207 | What Create packed, placed in an empty directory in any order: one file per name and nothing else, with the content of the last source of that name and its permissions, or 0644 where they are 0 or unknown. |
| Bundle.CreatedFitsIff | internal/bundle/bundle.go:61-207 | It verifies, and fits the empty directory iff no name lands on the directory itself or on the way to another. |
| Bundle.CreateThenInstall | internal/bundle/bundle.go:61-207 | Create then Install, for sources without reserved names that land apart: installed iff the names fit, and then exactly the named sources lie at their paths, the last of each name, with its content and its permissions, or 0644 where they are 0 or unknown. |
| Bundle.AddedEntryOverwrites | internal/bundle/bundle.go:114-207 | An entry added to a verifying archive on the path of another verifies and fits with it, and in some order its content is what lies there. |
| Placement.PlaceAll | internal/bundle/bundle.go:187-204 | Over the entries in any order: succeeds iff no name lands on or below a file, on a directory or on the way to another name, and then fills exactly the wanted paths; stopped, it has filled those of the names placed, with which the next does not fit. |
| Placement.HeldIff | internal/bundle/bundle.go:187-204 | In every order a placed name has at its path what it wants iff all names that land there want the same. |
| Placement.DotSlashSame | internal/bundle/bundle.go:191 | A name and the same name after "./" land on one path. |
| Placement.CleanPlain | internal/bundle/bundle.go:191 | Whatever an entry is called, its cleaned path has only plain components below the destination. |
| Placement.CleanStep | internal/bundle/bundle.go:191 | One more component after a slash: empty and "." do nothing, ".." takes one back but never above the destination, any other goes one down. |
| Placement.CleanOne | internal/bundle/bundle.go:191 | A name without a slash is its own path; "", "." and ".." are the destination. |
| Text.LessIff | internal/bundle/bundle.go:216 | The order of sorted names: bytewise, by the first difference, prefixes first. |
| Placement.CleanIdempotent | internal/bundle/bundle.go:191 | Cleaning a printed clean path gives it back. |
| PassAtK.PassAtK | internal/eval/runner.go:303-313 | The product never divides by zero and equals 1 - C(n-c,k)/C(n,k) for 0 <= c <= n, 0 <= k <= n; 1 for k > n, 0 for negative k; and it equals the Python estimator. |
| PassAtK.PythonAgrees | pyservices/eval/faraday_eval/judge.py:17-21 | The Python estimator equals the binomial form on all 0 <= c <= n, 0 <= k <= n, its early return included. |
| PassAtK.EstimateRange | internal/eval/runner.go:303-313 | It lies in [0,1] and is 1 iff fewer than k samples failed. |
| PassAtK.EstimateMonotoneInC | internal/eval/runner.go:303-313 | More passing samples never lower it. |
| PassAtK.EstimateMonotoneInK | internal/eval/runner.go:303-313 | A larger k never lowers it. |
| PassAtK.MeanFailSubsets | internal/eval/runner.go:303-313 | The expected number of k-subsets of failing samples is C(n,k)(1-p)^k. |
| PassAtK.Unbiased | internal/eval/runner.go:303-313 | Averaged over n samples that pass with probability p it is 1-(1-p)^k, for every real p and k <= n. |
| EvalSuite.CountsMean | internal/eval/runner.go:129-138 | The counts are the numbers of samples that passed and that did not. |
| EvalSuite.RunCodePassK | internal/eval/runner.go:112-152 | With k, or 1 if it is not positive, and n samples, or k if they are fewer: a generator error ends the run after the cases before it; otherwise every case has its estimate as score, is recorded passed iff fewer than k samples did not pass, and both metrics are the mean. |
| EvalSuite.CheckThresholds | internal/eval/runner.go:84-91 | Lists every threshold that is missed or has no metric, each once, and passes iff there is none, in every order of the map. |
| EvalSuite.GateAtOne | internal/eval/runner.go:84-152 | A gate that asks 1 of the pass rate, or of pass@k, opens iff in every case fewer than k samples did not pass. |
| EvalSuite.NoCases | internal/eval/runner.go:84-152 | A dataset without cases opens a gate iff the gate asks for nothing. |
| EvalSuite.GateMonotone | internal/eval/runner.go:84-152 | Further passing samples never close a gate. |
| TraceStore.SpanStore.InsertSpan | internal/store/store.go:138-161 | Replaces the span of that id; a root sets name, start and duration of the trace summary to its own, another span only creates one with its start that is not there; no other row changes. |
| TraceStore.SpanStore.GetTrace | internal/store/store.go:207-231 | Exactly the stored spans of the trace, each once, with distinct ids, by start. |
| TraceStore.SpanStore.ListTraces | internal/store/store.go:173-194 | All summaries, or limit (else 20) of them when there are more, with their span counts, each trace once, newest first, none left out that is newer than a listed one. |
| TraceStore.RowOfLastRoot | internal/store/store.go:138-161 | After any sequence of insertions name, start and duration of the summary are those of the last root. |
| TraceStore.RowOfFirst | internal/store/store.go:138-161 | Before any root arrived it is the first span's start without name or duration. |
| TraceStore.RowOrderIndependentIff | internal/store/store.go:138-161 | Every order of arrival gives the same summary iff the roots of the trace agree, or without any its spans start together. |
| TraceStore.SpansOrderIndependent | internal/store/store.go:138-161 | With distinct ids the span table and the spans of each trace are the same in every order of arrival. |
| TraceStore.CountMeaning | internal/store/store.go:173-194 | The span count of a trace is the number of its spans that were not replaced later on. |
| TraceStore.CountDistinct | internal/store/store.go:173-194 | With distinct ids it is the number of its spans that arrived. |
| TraceTree.RenderSpanTree | internal/cli/commands.go:246-276 | Ends whenever no chain from a root is longer than the list, and then prints one line for every such chain, in preorder with siblings by start, at depth chain length. |
| TraceTree.UnboundedIff | internal/cli/commands.go:246-276 | That bound fails iff the walk goes on to every depth. |
| TraceTree.SharedIdLoops | internal/cli/commands.go:246-276 | A root and a child of the same id make it fail. |
| TraceTree.DistinctBounded | internal/cli/commands.go:246-276 | With distinct ids the bound holds whatever the parents are, cycles and missing parents included. |
| TraceTree.ChainUnique | internal/cli/commands.go:246-276 | With distinct ids there is at most one way down to a span. |
| TraceTree.PrintedIffRooted | internal/cli/commands.go:257-275 | A span is printed at a depth iff that many steps up its parents lead to a root. |
| TraceTree.PrintedOnce | internal/cli/commands.go:257-275 | With distinct ids no span is printed twice. |
| TraceTree.ParentFirst | internal/cli/commands.go:257-275 | Every line below the top follows its parent's line, one level deeper. |
| TraceTree.SiblingsByStart | internal/cli/commands.go:257-275 | Siblings, and roots, are printed by start. |
| Telemetry.Tracer.Start | internal/telemetry/telemetry.go:120-130 | A new span has its parent's trace and points to it, or starts a trace as its root; it starts now, without attributes and status. |
| Telemetry.ActiveSpan.End | internal/telemetry/telemetry.go:182-204 | The first End writes to both sinks one record with the span's ids, name, kind, start, status and attributes, the time since its start and the tracer's resource; any later one changes nothing. |
| Telemetry.Tracer.IngestRemote | internal/telemetry/telemetry.go:209-229 | Both sinks get the record with its own id and resource, or a new id and the default resource where it has none, and nothing else changed. |
| Telemetry.RunFromNothing | internal/telemetry/telemetry.go:120-229 | In every run, whatever is ingested: parents precede children and share their trace, local ids are distinct, local roots have traces of their own, and exactly the ended spans arrived, once each. |
| TraceStore.StoredIffLast | internal/store/store.go:138-146 | A span is stored iff it is the last that arrived with its id. |
| Telemetry.EndedIsRooted | internal/telemetry/telemetry.go:120-204 | In a finished trace whose own records are stored as written, every own span's parents lead to a root in the store, whatever else was ingested. |
| Telemetry.FinishedPrintedIffKept | internal/cli/commands.go:246-276 | The walk over a finished trace prints every own record as written iff the store has each of them. |
| Telemetry.KeptThroughoutIff | internal/telemetry/telemetry.go:209-221 | The store has each own record from its arrival on iff no later remote record bears its id with other content. |
| Telemetry.GuardedNeverReplaced | internal/telemetry/telemetry.go:209-221 | Runs in which every ingested id is new to the store, or repeats what it holds, never replace an own record. |
| Telemetry.IngestErases | internal/telemetry/telemetry.go:209-221 | A remote record of another trace with the id of an own record takes that span out of its trace. |
| Telemetry.ErasedTrace | internal/telemetry/telemetry.go:209-221 | A run of three events after which a finished trace has no stored span. |
| Telemetry.SummaryIsRoots | internal/store/store.go:138-161 | Once the local root ended, the summary of a trace without a remote root has that root's name, start and duration, in every order of the Ends and whatever ids remote records bear. |
| Router.Manager.BuildAll | internal/inference/router.go:23-38 | Succeeds iff every model's backend can be built, and then has exactly one backend for each. |
| Router.BuildableIff | internal/inference/router.go:40-64 | They can be built iff every model is a mock, leaves the choice open, or names a known server with an endpoint or a port. |
| Router.BackendBehind | internal/inference/router.go:40-64 | Behind a model stands the mock, by name or for want of a server, else a proxy of its kind to its endpoint, or to its port on this machine. |
| Router.Manager.Resolve | internal/inference/router.go:73-93 | Exactly the usable backends of the name, none of smaller weight before one of greater, ties in configuration order; a name without a route stands for itself. |
| Router.Manager.ChatCompletion | internal/inference/router.go:117-171 | The reply is that of the usable backend that answers with the greatest weight, the first in order among equals, and the route span names it; the attempts before it are exactly the usable backends ahead of it, all failed, and the depth is their number; one chat span per attempt, with its backend and status. |
| Router.AnsweredByWeight | internal/inference/router.go:117-171 | The same in weights and positions: no known backend that answers weighs more, nor as much and stands before; those tried before it are exactly the known ones that do. |
| Router.AnsweredIff | internal/inference/router.go:117-171 | A request is answered iff some usable backend answers. |
| Router.ServesExists | internal/inference/router.go:73-93 | The serving backend exists iff some usable one answers, and is the only one. |
| Router.AgentResolvesIff | internal/config/load.go:75-82 | In a validated configuration with built backends an agent's model resolves to nothing iff it is only a route and the route has no backends. |
| Router.AllUsable | internal/config/load.go:100-107 | In a validated configuration no backend of a route is dropped. |
| Config.Config.ApplyDefaults | internal/config/defaults.go:22-123 | Every omitted field gets its default, in place, and nothing else changes. |
| Config.HeadDefaults | internal/config/defaults.go:22-49 | Version, target, models and tools: the values, for omitted fields only. |
| Config.AgentDefaults | internal/config/defaults.go:51-75 | The values for agents. |
| Config.SandboxDefaults | internal/config/defaults.go:77-98 | The values for the sandbox, without network unless it asks for one. |
| Config.TelemetryDefaults | internal/config/defaults.go:100-112 | The values for telemetry. |
| Config.SuiteDefaults | internal/config/defaults.go:114-122 | The values for suites: k is 1, and code_passk draws k samples. |
| Config.OmittedModelIff | internal/config/defaults.go:51-58 | An agent that names no model refers to nothing iff models are declared, and neither a model nor a route is called coder. |
| Config.OmittedIsSound | internal/config/defaults.go:20-23 | A file that leaves models, routes, suites and every checked field out is valid once completed. |
| Config.UnchangedIffComplete | internal/config/defaults.go:20-123 | The defaults change a configuration iff it leaves out a field that has one. |
| Config.Idempotent | internal/config/defaults.go:20-123 | Applying the defaults twice is applying them once. |
| Config.OnlyTargetDiffers | internal/config/config.go:27 | Configurations that differ in the target block only differ in nothing else after defaults. |
| Config.RetargetedSound | internal/config/load.go:59-73 | A valid configuration stays valid under another target iff its kind is known or left out. |
| Config.SoundIff | internal/config/load.go:59-109 | The rules one by one, in terms of the configuration. |
| Config.Config.Validate | internal/config/load.go:59-109 | No error iff no rule is violated; otherwise a violated rule with none violated before it in the order of the checks. |
| Agent.Run | internal/runtime/agent.go:61-137 | At most maxRepair+1 attempts, 5 without a limit; the first that does not fail, or the last, gives the result; every prompt reports the failure just before it; what is executed is the code of each answer in turn. |
| Agent.CodeIsLastExecuted | internal/runtime/agent.go:108-114 | The result holds the code that was executed last, none if there was no answer. |
| Agent.SourceRunsFenced | internal/runtime/agent.go:108-120 | Of an answer with fenced code, behind any text without a fence, the code is executed, trimmed, without its fence and the backticks it ends in. |
| Agent.SourceRunsRaw | internal/runtime/agent.go:108-120 | An answer in which nothing matches is executed as it is. |
| Agent.SourceReturnsFenced | internal/runtime/agent.go:108-114 | And that is the code of the result when the last answer is of the first kind, |
| Agent.SourceReturnsRaw | internal/runtime/agent.go:108-114 | or of the second. |
| Agent.PromptTexts | internal/runtime/agent.go:139-152 | Every prompt: the agent's system text, else the engine's, and the task; after a failure with output the announcement, the output up to 2000 bytes with an ellipsis if it is cut, and the request. |
| Agent.SolvedIff | internal/runtime/agent.go:90-137 | Solved iff an attempt within the limit passes after failures only, and Iterations names it; unresolved iff all allowed attempts fail. |
| Agent.MoreRepairs | internal/runtime/agent.go:90-137 | A higher limit changes no result but an unresolved one. |
| Agent.ExecOutcomeTrims | internal/runtime/agent.go:173-185 | The reported output is what was printed on both streams, less the white space around it. |
| Agent.EndUnique | internal/runtime/agent.go:90-137 | The model's answers and the tool's reports fix the result. |
| Agent.PromptTellsFailures | internal/runtime/agent.go:139-152 | For any wording two repair prompts are the same iff the failures are cut to the same text. |
| Agent.SourcePromptTellsFailures | internal/runtime/agent.go:139-200 | In the wording of the source: iff the failures are equal, or longer than 2000 bytes and equal up to there. |
| CodeFence.ExtractCodeMeaning | internal/runtime/agent.go:58-193 | The extracted code is the block of the leftmost match, blanks taken greedily and the block lazily, and is empty iff nothing matches. |
| WhiteSpace.LeadingIsRune | internal/runtime/agent.go:183 | What is trimmed in front at each step is the UTF-8 form of a rune of unicode.IsSpace, whenever one stands there. |
| WhiteSpace.BlankIff | internal/runtime/agent.go:58 | The blanks of the fence pattern are the white space runes of one byte but the vertical tab. |
| WhiteSpace.TrailingIsRune | internal/runtime/agent.go:183 | The same at the back. |
| WhiteSpace.TrimSpaceParts | internal/runtime/agent.go:187-193 | Trimming removes white space runes only, of one, two and three bytes, at both ends, and all of them. |
| CodeFence.FencedExtracted | internal/runtime/agent.go:187-193 | Fenced code that holds no fence, behind any prefix without one, is found again, trimmed and without the backticks it ends in. |
| CodeFence.RecoveredIff | internal/runtime/agent.go:187-193 | Such code is recovered iff it does not end in a backtick. |

## Left out

- Float64 rounding in pass@k, metrics and thresholds: modelled over reals. Rounding can make a score 1.0 that is below it. Weights of agents, temperatures and GPU shares are left out with it.
- 64-bit bounds of times, durations, sizes and sequence numbers: unbounded integers.
- Pool: contexts, deadlines and the driver's side effects. Outcomes of New and Reset are arbitrary; the driver is taken to hand out a new sandbox each time. Available and Driver only read.
- Pool.WarmPool.New: runs before the pool is shared, so its own Close is undisturbed.
- AuditEntries, SQL, SQLite errors and the other tables: the audit table is a sequence in seq order.
- Key files and key generation, tar and zstd: archives are maps, the key is a parameter. Order and duplicates of tar entries and header checks are not modelled.
- Evidence documents (cards, SBOM, control mappings): their contents are parameters.
- Bundle.InstallInto: creating the destination directory and chmod are taken to succeed.
- Placement.PlaceAll: runs as a user who may write every file; otherwise an existing file without write permission, from an earlier Install or an earlier entry on the same path, stops it.
- JSON in `Evidence.RoundTrips` and `Bundle.RoundTrips`: decoding is taken to undo encoding; encoding/json replaces bytes that are not UTF-8, so this holds of names and identities in UTF-8.
- Audit.AlteredEntry: edits of one entry that keep the order of the seqs; one that changes it is a rearrangement as well.
- runDeterministic, runJudge, datasets, result rows in the database and the spans of RunSuite: easy members. RunSuite rejects suites of kind "regression" although Validate accepts them.
- EvalSuite.CheckThresholds: names the missed thresholds, not their printed text.
- JSON columns, the NULL for an empty parent, indexes and I/O errors of the span table.
- TraceTree.RenderSpanTree: prints lines as (span, depth) without their text; equal starts keep list order, where sort.Slice leaves their order open.
- Telemetry: nil spans, JSON lines of the file sink as text, write errors. Ids that are drawn at random (never those that remote records bring) are taken to be unused ones.
- Router.Manager.Resolve: the two error texts for a name without backends are one outcome. Models lists names only.
- Router.Manager.ChatCompletion: attributes of the spans beyond model, backend, depth and status; answers are given per position in the route.
- Config: Parse, Schema, the printed paths and texts of violations, and the sections that have neither defaults nor checks; in a suite, its own sandbox block.
- Agent.Run: root and plan spans; broker errors and tool results arrive already decoded.
- HTTP daemon, API client, proxy backend, command tree, sandbox drivers, provisioning, licensing and extensions: branch-level code around the core.
