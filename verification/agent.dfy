/** The generate, execute, repair loop of internal/runtime/agent.go. */
module Agent {
  import opened WhiteSpace
  import opened CodeFence

  datatype Message = Message(role: string, content: string)

  /** What the model answers and what the broker's tool reports, attempt by attempt. */
  datatype Generation = GenerateError(error: string) | Content(content: string)
  datatype Verdict = ToolError(error: string) | Ran(output: string, passed: bool)
  type Generations = nat -> Generation
  type Verdicts = nat -> Verdict

  datatype Status = Solved | Unresolved | Errored(error: string)
  datatype RunResult = RunResult(status: Status, code: string, output: string, iterations: nat)

  const ELLIPSIS := "\U{E2}\U{80}\U{A6}"

  function Truncate(s: string, n: nat): string {
    if |s| <= n then s else s[..n] + ELLIPSIS
  }

  /**
   The fixed texts of the prompts and what is run of an answer. The run is proved for any;
   SOURCE is the engine as it stands.
   */
  datatype Engine = Engine(system: string, failed: string, fix: string, codeOf: string -> string)

  const SOURCE := Engine(
    "You are a meticulous engineer. Return a single fenced code block with a working solution.",
    "\n\nThe previous attempt failed when executed:\n",
    "\n\nFix it and return the corrected code.",
    CodeOf)

  /** What an attempt runs: the fenced block, or the whole answer when there is none. */
  function CodeOf(content: string): string {
    var code := ExtractCode(content);
    if code == "" then content else code
  }

  function UserMessage(engine: Engine, task: string, lastFailure: string, iter: nat): string {
    if iter > 0 && lastFailure != "" then task + engine.failed + Truncate(lastFailure, 2000) + engine.fix else task
  }

  function BuildMessages(engine: Engine, system: string, task: string, lastFailure: string, iter: nat): seq<Message> {
    [Message("system", if system == "" then engine.system else system),
     Message("user", UserMessage(engine, task, lastFailure, iter))]
  }

  function OutputOf(v: Verdict): string {
    match v
    case ToolError(_) => ""
    case Ran(output, _) => output
  }

  /** execOutcome */
  function ExecOutcome(stdout: string, stderr: string, passed: bool): Verdict {
    Ran(TrimSpace(stdout + "\n" + stderr), passed)
  }

  /** The output is what the sandbox printed, without the white space around it. */
  lemma ExecOutcomeTrims(stdout: string, stderr: string, passed: bool) returns (i: nat, j: nat)
    ensures var printed := stdout + "\n" + stderr;
      && i <= j <= |printed| && ExecOutcome(stdout, stderr, passed) == Ran(printed[i..j], passed)
      && Spaces(printed, 0, i) && Spaces(printed, j, |printed|)
      && Leading(printed, i, j) == 0 && Trailing(printed, i, j) == 0
  {
    i, j := TrimSpaceParts(stdout + "\n" + stderr);
  }

  predicate Fails(gens: Generations, verdicts: Verdicts, n: nat) {
    gens(n).Content? && verdicts(n).Ran? && !verdicts(n).passed
  }

  predicate Passes(gens: Generations, verdicts: Verdicts, n: nat) {
    gens(n).Content? && verdicts(n).Ran? && verdicts(n).passed
  }

  /** The output that the prompt of attempt n reports. */
  function FailureBefore(verdicts: Verdicts, n: nat): string {
    if n == 0 then "" else OutputOf(verdicts(n - 1))
  }

  function CodeBefore(engine: Engine, gens: Generations, n: nat): string {
    if n == 0 || gens(n - 1).GenerateError? then "" else engine.codeOf(gens(n - 1).content)
  }

  /** The result of a run that ends with attempt n. */
  function Ending(engine: Engine, gens: Generations, verdicts: Verdicts, n: nat): RunResult {
    match gens(n)
    case GenerateError(e) => RunResult(Errored(e), CodeBefore(engine, gens, n), FailureBefore(verdicts, n), n)
    case Content(c) =>
      match verdicts(n)
      case ToolError(e) => RunResult(Errored(e), engine.codeOf(c), "", n + 1)
      case Ran(output, passed) => RunResult(if passed then Solved else Unresolved, engine.codeOf(c), output, n + 1)
  }

  /** The first attempt that does not fail, or the last one allowed, ends the run. */
  predicate EndsAt(engine: Engine, gens: Generations, verdicts: Verdicts, limit: nat, last: nat, r: RunResult) {
    && last <= limit && (forall n: nat :: n < last ==> Fails(gens, verdicts, n))
    && (last == limit || !Fails(gens, verdicts, last))
    && r == Ending(engine, gens, verdicts, last)
  }

  /** Each prompt reports the failure of the attempt before it. */
  predicate Prompted(engine: Engine, system: string, task: string, verdicts: Verdicts, prompts: seq<seq<Message>>) {
    forall n: nat :: n < |prompts| ==> prompts[n] == BuildMessages(engine, system, task, FailureBefore(verdicts, n), n)
  }

  /** The next prompt, for the attempt after `prompts`. */
  method Ask(engine: Engine, system: string, task: string, ghost verdicts: Verdicts, prompts: seq<seq<Message>>,
             lastFailure: string)
    returns (asked: seq<seq<Message>>)
    requires Prompted(engine, system, task, verdicts, prompts) && lastFailure == FailureBefore(verdicts, |prompts|)
    ensures Prompted(engine, system, task, verdicts, asked) && |asked| == |prompts| + 1
  {
    asked := prompts + [BuildMessages(engine, system, task, lastFailure, |prompts|)];
  }

  /** What was given to the sandbox: the code of each answer, in order. */
  ghost predicate Executed(engine: Engine, gens: Generations, executed: seq<string>) {
    forall n: nat :: n < |executed| ==> gens(n).Content? && executed[n] == engine.codeOf(gens(n).content)
  }

  /** Run, from the first prompt to the result. */
  method Run(engine: Engine, system: string, task: string, maxRepairIterations: int, gens: Generations,
             verdicts: Verdicts)
    returns (r: RunResult, prompts: seq<seq<Message>>, executed: seq<string>)
    ensures var limit := if maxRepairIterations <= 0 then 4 else maxRepairIterations;
      1 <= |prompts| <= limit + 1 && EndsAt(engine, gens, verdicts, limit, |prompts| - 1, r)
    ensures Prompted(engine, system, task, verdicts, prompts)
    ensures Executed(engine, gens, executed)
    ensures |executed| == if gens(|prompts| - 1).GenerateError? then |prompts| - 1 else |prompts|
  {
    var maxRepair := maxRepairIterations;
    if maxRepair <= 0 { maxRepair := 4; }
    r, prompts, executed := RunResult(Unresolved, "", "", 0), [], [];
    var lastFailure := "";
    var iter := 0;
    while iter <= maxRepair
      invariant 0 <= iter <= maxRepair + 1 && |prompts| == iter
      invariant forall n: nat :: n < iter ==> Fails(gens, verdicts, n)
      invariant Prompted(engine, system, task, verdicts, prompts)
      invariant lastFailure == FailureBefore(verdicts, iter)
      invariant Executed(engine, gens, executed) && |executed| == iter
      invariant r == RunResult(Unresolved, CodeBefore(engine, gens, iter), lastFailure, iter)
      decreases maxRepair - iter
    {
      prompts := Ask(engine, system, task, verdicts, prompts, lastFailure);
      var generated := gens(iter);
      if generated.GenerateError? {
        r := r.(status := Errored(generated.error));
        assert r == Ending(engine, gens, verdicts, iter);
        return;
      }
      var code := engine.codeOf(generated.content);
      r := r.(code := code, iterations := iter + 1);
      executed := executed + [code];
      var verdict := verdicts(iter);
      r := r.(output := OutputOf(verdict));
      if verdict.ToolError? {
        r := r.(status := Errored(verdict.error));
        assert r == Ending(engine, gens, verdicts, iter);
        return;
      }
      if verdict.passed {
        r := r.(status := Solved);
        assert r == Ending(engine, gens, verdicts, iter);
        return;
      }
      lastFailure := r.output;
      iter := iter + 1;
    }
    assert Fails(gens, verdicts, maxRepair) && r == Ending(engine, gens, verdicts, maxRepair);
  }

  /** A run has one result: the attempt that ends it and what it ends with. */
  lemma EndUnique(engine: Engine, gens: Generations, verdicts: Verdicts, limit: nat, m: nat, q: RunResult, n: nat,
                  r: RunResult)
    requires EndsAt(engine, gens, verdicts, limit, m, q) && EndsAt(engine, gens, verdicts, limit, n, r)
    ensures m == n && q == r
  {
  }

  /** Solved exactly when an attempt within the limit passes after failures only, and Iterations names it. */
  lemma SolvedIff(engine: Engine, gens: Generations, verdicts: Verdicts, limit: nat, last: nat, r: RunResult)
    requires EndsAt(engine, gens, verdicts, limit, last, r)
    ensures r.status == Solved <==>
      exists n: nat :: n <= limit && Passes(gens, verdicts, n) && forall m: nat :: m < n ==> Fails(gens, verdicts, m)
    ensures r.status == Solved ==> r.iterations == last + 1 && Passes(gens, verdicts, last)
    ensures r.status == Unresolved <==> forall n: nat :: n <= limit ==> Fails(gens, verdicts, n)
  {
    if r.status == Solved { assert Passes(gens, verdicts, last); }
    if n: nat :| n <= limit && Passes(gens, verdicts, n) && forall m: nat :: m < n ==> Fails(gens, verdicts, m) {
      assert last < n ==> Fails(gens, verdicts, last);
      assert n < last ==> Fails(gens, verdicts, n);
    }
    if r.status == Unresolved { assert last == limit && Fails(gens, verdicts, last); }
    if r.status != Unresolved { assert !Fails(gens, verdicts, last); }
  }

  /** A higher limit never turns a solved run into an unsolved one, nor changes its result. */
  lemma MoreRepairs(engine: Engine, gens: Generations, verdicts: Verdicts, limit: nat, last: nat, r: RunResult,
                    higher: nat)
    requires EndsAt(engine, gens, verdicts, limit, last, r) && r.status != Unresolved && limit <= higher
    ensures EndsAt(engine, gens, verdicts, higher, last, r)
  {
  }

  /** The result holds the code that was run last. */
  lemma CodeIsLastExecuted(engine: Engine, gens: Generations, verdicts: Verdicts, limit: nat, last: nat, r: RunResult,
                           executed: seq<string>)
    requires EndsAt(engine, gens, verdicts, limit, last, r) && Executed(engine, gens, executed)
    requires |executed| == if gens(last).GenerateError? then last else last + 1
    ensures r.code == if executed == [] then "" else executed[|executed| - 1]
  {
  }

  /** Fenced code, the only fence of its answer and of what precedes it, is run and returned without the fence, */
  lemma SourceRunsFenced(gens: Generations, executed: seq<string>, n: nat, p: string, tag: string, c: string,
                         rest: string)
    requires Executed(SOURCE, gens, executed) && n < |executed| && gens(n) == Content(Fenced(p, tag, c, rest))
    requires tag in {"python", "py", ""} && NoFence(p) && NoFence(c)
    ensures executed[n] == TrimSpace(Untick(c)) + "\n"
  {
    FencedExtracted(p, tag, c, rest);
  }

  /** an answer in which nothing matches as a whole. */
  lemma SourceRunsRaw(gens: Generations, executed: seq<string>, n: nat, answer: string)
    requires Executed(SOURCE, gens, executed) && n < |executed| && gens(n) == Content(answer)
    requires forall k: nat, b: nat, e: nat :: !Match(answer, k, b, e)
    ensures executed[n] == answer
  {
    ExtractCodeMeaning(answer);
  }

  /** So the result of a run holds the code of its last answer: without the fence, */
  lemma SourceReturnsFenced(gens: Generations, verdicts: Verdicts, limit: nat, last: nat, r: RunResult,
                            p: string, tag: string, c: string, rest: string)
    requires EndsAt(SOURCE, gens, verdicts, limit, last, r) && gens(last) == Content(Fenced(p, tag, c, rest))
    requires tag in {"python", "py", ""} && NoFence(p) && NoFence(c)
    ensures r.code == TrimSpace(Untick(c)) + "\n"
  {
    FencedExtracted(p, tag, c, rest);
  }

  /** or whole. */
  lemma SourceReturnsRaw(gens: Generations, verdicts: Verdicts, limit: nat, last: nat, r: RunResult, answer: string)
    requires EndsAt(SOURCE, gens, verdicts, limit, last, r) && gens(last) == Content(answer)
    requires forall k: nat, b: nat, e: nat :: !Match(answer, k, b, e)
    ensures r.code == answer
  {
    ExtractCodeMeaning(answer);
  }

  /**
   The prompts of a run: the system text of the agent, or else of the engine; the task alone
   at first and after a silent failure; else task, announcement, output cut at 2000 bytes, request.
   */
  lemma PromptTexts(engine: Engine, system: string, task: string, verdicts: Verdicts, prompts: seq<seq<Message>>,
                    n: nat)
    requires Prompted(engine, system, task, verdicts, prompts) && n < |prompts|
    ensures prompts[n] == [Message("system", if system == "" then engine.system else system),
                           Message("user", prompts[n][1].content)]
    ensures n == 0 ==> prompts[n][1].content == task
    ensures n > 0 && verdicts(n - 1).Ran? ==>
      var output := verdicts(n - 1).output;
      prompts[n][1].content ==
        if output == "" then task
        else if |output| <= 2000 then task + engine.failed + output + engine.fix
        else task + engine.failed + (output[..2000] + "\U{E2}\U{80}\U{A6}") + engine.fix
  {
    assert prompts[n] == BuildMessages(engine, system, task, FailureBefore(verdicts, n), n);
  }

  /** Two repair prompts are the same exactly when the failures are cut to the same text. */
  lemma PromptTellsFailures(engine: Engine, task: string, f: string, g: string, n: nat)
    requires n > 0
    ensures UserMessage(engine, task, f, n) == UserMessage(engine, task, g, n) <==>
      Truncate(f, 2000) == Truncate(g, 2000)
  {
    var a, b := Truncate(f, 2000), Truncate(g, 2000);
    if UserMessage(engine, task, f, n) == UserMessage(engine, task, g, n) {
      if f != "" && g != "" { SameMiddle(task + engine.failed, a, b, engine.fix); }
    }
  }

  lemma SameMiddle(before: string, a: string, b: string, after: string)
    requires before + a + after == before + b + after
    ensures a == b
  {
    assert |a| == |b|;
    assert (before + a + after)[|before|..|before| + |a|] == a;
    assert (before + b + after)[|before|..|before| + |b|] == b;
  }

  /** Which failures are cut to the same text: equal ones, and longer ones that begin alike. */
  lemma TruncateTells(f: string, g: string, n: nat)
    ensures Truncate(f, n) == Truncate(g, n) <==> f == g || (|f| > n && |g| > n && f[..n] == g[..n])
  {
    if |f| > n && |g| > n && Truncate(f, n) == Truncate(g, n) {
      assert f[..n] == Truncate(f, n)[..n] && g[..n] == Truncate(g, n)[..n];
    }
    if |f| > n && |g| <= n { assert |Truncate(f, n)| > n; }
    if |g| > n && |f| <= n { assert |Truncate(g, n)| > n; }
  }

  /** In particular in the engine as it stands. */
  lemma SourcePromptTellsFailures(task: string, f: string, g: string, n: nat)
    requires n > 0
    ensures UserMessage(SOURCE, task, f, n) == UserMessage(SOURCE, task, g, n) <==>
      f == g || (|f| > 2000 && |g| > 2000 && f[..2000] == g[..2000])
  {
    PromptTellsFailures(SOURCE, task, f, g, n);
    TruncateTells(f, g, 2000);
  }
}
