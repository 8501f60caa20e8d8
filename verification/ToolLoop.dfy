/** The assistant's tool loop: what the transcript looks like at every exit. */
module ToolLoop {
  import opened Wrappers

  datatype Role = User | Assistant

  datatype ToolCall = ToolCall(id: string, name: string, input: string)

  datatype ToolResult = ToolResult(callID: string, content: string, isError: bool)

  datatype Message = Message(role: Role, text: string, calls: seq<ToolCall>, results: seq<ToolResult>)

  datatype Usage = Usage(input: int, output: int)

  function Add(a: Usage, b: Usage): Usage { Usage(a.input + b.input, a.output + b.output) }

  datatype StopReason = EndTurn | ToolUse | MaxTokens | Refusal

  datatype Reply = Reply(message: Message, stop: StopReason, usage: Usage, err: Option<string>)

  datatype LoopError = BudgetSpent(reason: string) | ProviderFailed(reason: string) | ReplyCutOff | StepLimit

  /** The other parties: the model's n-th answer to a transcript, the i-th tool call of step n, the budget
      before step n, and what counts as valid JSON. */
  datatype Config = Config(
    provider: (nat, seq<Message>) -> Reply,
    exec: (nat, nat, ToolCall) -> (string, bool, bool),
    budget: (nat, Usage) -> Option<string>,
    validJSON: string -> bool,
    maxSteps: int, maxResult: int)

  /** A provider's reply is an assistant turn (text and/or tool calls). */
  ghost predicate ValidProvider(cfg: Config) {
    forall n, ms :: cfg.provider(n, ms).message.role == Assistant && cfg.provider(n, ms).message.results == []
  }

  function StepCap(cfg: Config): nat { if cfg.maxSteps <= 0 then 20 else cfg.maxSteps }
  function ResultCap(cfg: Config): nat { if cfg.maxResult <= 0 then 24 * 1024 else cfg.maxResult }

  /* ---------- one round ---------- */

  const MARKER := "\U{E2}\U{80}\U{A6}(truncated)\U{E2}\U{80}\U{A6}\n"   // UTF-8 bytes

  function Cap(content: string, max: nat): string {
    if |content| > max then MARKER + content[|content| - max..] else content
  }

  /** A fed-back result keeps its tail; a truncated one exceeds the cap by exactly the marker's 18 bytes. */
  lemma CapLength(content: string, max: nat)
    ensures |content| <= max <==> |Cap(content, max)| <= max
    ensures |content| > max ==> |Cap(content, max)| == max + 18 && Cap(content, max)[18..] == content[|content| - max..]
  {}

  /** What goes back to the model for one call: the executor's answer, cut to its last bytes when it is too long. */
  ghost predicate AnswersCall(cfg: Config, step: nat, i: nat, call: ToolCall, result: ToolResult) {
    && result.callID == call.id
    && if !cfg.validJSON(call.input) then result.isError && result.content == "invalid tool input: not valid JSON"
       else
         var (content, isError, _) := cfg.exec(step, i, call);
         var limit := if cfg.maxResult <= 0 then 24576 else cfg.maxResult;
         && result.isError == isError
         && result.content == if |content| <= limit then content
                              else "\U{E2}\U{80}\U{A6}(truncated)\U{E2}\U{80}\U{A6}\n" + content[|content| - limit..]
  }

  predicate Stops(cfg: Config, step: nat, i: nat, call: ToolCall) {
    cfg.validJSON(call.input) && cfg.exec(step, i, call).2
  }

  /** All results of a turn's calls, in call order, in one user turn. */
  ghost predicate ResultsOf(cfg: Config, step: nat, calls: seq<ToolCall>, turn: Message) {
    && turn == Message(User, "", [], turn.results) && |turn.results| == |calls|
    && forall i :: 0 <= i < |calls| ==> AnswersCall(cfg, step, i, calls[i], turn.results[i])
  }

  predicate AnyStops(cfg: Config, step: nat, calls: seq<ToolCall>) {
    exists i :: 0 <= i < |calls| && Stops(cfg, step, i, calls[i])
  }

  lemma CallIsAnswered(cfg: Config, step: nat, i: nat, call: ToolCall)
    ensures !cfg.validJSON(call.input) ==>
              AnswersCall(cfg, step, i, call, ToolResult(call.id, "invalid tool input: not valid JSON", true))
    ensures var (content, isError, _) := cfg.exec(step, i, call);
            cfg.validJSON(call.input) ==>
              AnswersCall(cfg, step, i, call, ToolResult(call.id, Cap(content, ResultCap(cfg)), isError))
    ensures Stops(cfg, step, i, call) <==> cfg.validJSON(call.input) && cfg.exec(step, i, call).2
  {}

  method RunCalls(cfg: Config, step: nat, calls: seq<ToolCall>) returns (turn: Message, stop: bool)
    ensures ResultsOf(cfg, step, calls, turn)
    ensures stop <==> AnyStops(cfg, step, calls)
  {
    hide AnswersCall, Cap, ResultCap, Stops;
    var results: seq<ToolResult> := [];
    stop := false;
    for i := 0 to |calls|
      invariant |results| == i
      invariant forall j :: 0 <= j < i ==> AnswersCall(cfg, step, j, calls[j], results[j])
      invariant stop <==> exists j :: 0 <= j < i && Stops(cfg, step, j, calls[j])
    {
      var call := calls[i];
      CallIsAnswered(cfg, step, i, call);
      var tr: ToolResult;
      if !cfg.validJSON(call.input) {
        tr := ToolResult(call.id, "invalid tool input: not valid JSON", true);
      } else {
        var (content, isError, s) := cfg.exec(step, i, call);
        tr := ToolResult(call.id, Cap(content, ResultCap(cfg)), isError);
        stop := stop || s;
      }
      results := results + [tr];
    }
    return Message(User, "", [], results), stop;
  }

  /* ---------- transcripts ---------- */

  /** Round `k` after `base`: the provider's reply to everything before it, then the results of its calls. */
  ghost predicate Round(cfg: Config, base: nat, ms: seq<Message>, k: nat) {
    base + 2 * k + 1 < |ms|
    && ms[base + 2 * k] == cfg.provider(k, ms[..base + 2 * k]).message
    && ms[base + 2 * k].calls != []
    && ResultsOf(cfg, k, ms[base + 2 * k].calls, ms[base + 2 * k + 1])
  }

  ghost predicate Rounds(cfg: Config, base: nat, ms: seq<Message>, n: nat) {
    base + 2 * n <= |ms| && forall k :: 0 <= k < n ==> Round(cfg, base, ms, k)
  }

  ghost function InputSum(usages: seq<Usage>): int {
    if usages == [] then 0 else InputSum(usages[..|usages| - 1]) + usages[|usages| - 1].input
  }

  ghost function OutputSum(usages: seq<Usage>): int {
    if usages == [] then 0 else OutputSum(usages[..|usages| - 1]) + usages[|usages| - 1].output
  }

  /** What each of the first `n` model calls used. */
  ghost function Usages(cfg: Config, base: nat, ms: seq<Message>, n: nat): seq<Usage>
    requires n > 0 ==> base + 2 * (n - 1) <= |ms|
  {
    seq(n, k requires 0 <= k < n => cfg.provider(k, ms[..base + 2 * k]).usage)
  }

  /** Tokens of the first `n` model calls. */
  ghost function Spent(cfg: Config, base: nat, ms: seq<Message>, n: nat): Usage
    requires n > 0 ==> base + 2 * (n - 1) <= |ms|
  {
    Usage(InputSum(Usages(cfg, base, ms, n)), OutputSum(Usages(cfg, base, ms, n)))
  }

  lemma SpentOneMore(cfg: Config, base: nat, ms: seq<Message>, n: nat)
    requires n > 0 && base + 2 * (n - 1) <= |ms|
    ensures Spent(cfg, base, ms, n)
         == Add(Spent(cfg, base, ms, n - 1), cfg.provider(n - 1, ms[..base + 2 * (n - 1)]).usage)
  {
    assert Usages(cfg, base, ms, n)[..n - 1] == Usages(cfg, base, ms, n - 1);
  }

  /** The last nonempty text among assistant turns of the transcript after `base`. */
  function LastText(base: nat, ms: seq<Message>): string {
    if |ms| <= base then ""
    else if ms[|ms| - 1].role == Assistant && ms[|ms| - 1].text != "" then ms[|ms| - 1].text
    else LastText(base, ms[..|ms| - 1])
  }

  lemma RoundsExtend(cfg: Config, base: nat, ms: seq<Message>, more: seq<Message>, n: nat)
    requires Rounds(cfg, base, ms, n) && ms <= more
    ensures Rounds(cfg, base, more, n)
  {
    forall k | 0 <= k < n ensures Round(cfg, base, more, k) {
      assert Round(cfg, base, ms, k);
      assert more[..base + 2 * k] == ms[..base + 2 * k];
    }
  }

  lemma SpentExtend(cfg: Config, base: nat, ms: seq<Message>, more: seq<Message>, n: nat)
    requires (n > 0 ==> base + 2 * (n - 1) <= |ms|) && ms <= more
    ensures Spent(cfg, base, more, n) == Spent(cfg, base, ms, n)
  {
    forall k | 0 <= k < n ensures more[..base + 2 * k] == ms[..base + 2 * k] {}
    assert Usages(cfg, base, more, n) == Usages(cfg, base, ms, n);
  }

  datatype LoopResult = LoopResult(messages: seq<Message>, final: string, usage: Usage, steps: nat, stopped: bool)

  /** That many model calls are as many as the configuration allows, or twenty by default. */
  ghost predicate ReachesCap(cfg: Config, n: nat) { n == if cfg.maxSteps <= 0 then 20 else cfg.maxSteps }

  /** How a loop can end: after `n` full rounds, either between rounds or on a reply without calls. */
  ghost predicate Exit(cfg: Config, input: seq<Message>, res: LoopResult, err: Option<LoopError>, n: nat) {
    var base, ms := |input|, res.messages;
    && input <= ms && Rounds(cfg, base, ms, n) && res.final == LastText(base, ms)
    && (|| |ms| == base + 2 * n
        || (&& |ms| == base + 2 * n + 1
            && ms[base + 2 * n] == cfg.provider(n, ms[..base + 2 * n]).message && ms[base + 2 * n].calls == []))
    && (res.stopped <==> err.None? && |ms| == base + 2 * n)
    && match err
       case None => if res.stopped then n == res.steps && n > 0 && AnyStops(cfg, n - 1, ms[base + 2 * (n - 1)].calls)
                    else n + 1 == res.steps && |ms| == base + 2 * n + 1
       case Some(BudgetSpent(why)) => n == res.steps && |ms| == base + 2 * n && cfg.budget(n, res.usage) == Some(why)
       case Some(ProviderFailed(why)) =>
         n + 1 == res.steps && |ms| == base + 2 * n && cfg.provider(n, ms).err == Some(why)
       case Some(ReplyCutOff) =>
         n + 1 == res.steps && |ms| == base + 2 * n + 1 && cfg.provider(n, ms[..base + 2 * n]).stop == MaxTokens
       case Some(StepLimit) => n == res.steps && ReachesCap(cfg, n) && |ms| == base + 2 * n
  }

  /** The budget allowed call `k` with what had been spent by then. */
  ghost predicate Allowed(cfg: Config, base: nat, ms: seq<Message>, k: nat)
    requires k > 0 ==> base + 2 * (k - 1) <= |ms|
  {
    cfg.budget(k, Spent(cfg, base, ms, k)).None?
  }

  /** Nothing about round `k` ended the loop. */
  ghost predicate WentOn(cfg: Config, base: nat, ms: seq<Message>, k: nat)
    requires base + 2 * k < |ms|
  {
    && Allowed(cfg, base, ms, k) && cfg.provider(k, ms[..base + 2 * k]).err.None?
    && !AnyStops(cfg, k, ms[base + 2 * k].calls)
  }

  /** Every model call was allowed, and no round before the last gave a reason to stop. */
  ghost predicate NoEarlierEnd(cfg: Config, base: nat, res: LoopResult, n: nat)
    requires base + 2 * n <= |res.messages| && n <= res.steps <= n + 1
  {
    && (forall k :: 0 <= k < res.steps ==> Allowed(cfg, base, res.messages, k))
    && (forall k :: 0 <= k < n - (if res.stopped then 1 else 0) ==> WentOn(cfg, base, res.messages, k))
  }

  lemma WentOnExtends(cfg: Config, base: nat, ms: seq<Message>, more: seq<Message>, k: nat)
    requires base + 2 * k <= |ms| && ms <= more
    ensures Allowed(cfg, base, ms, k) <==> Allowed(cfg, base, more, k)
    ensures base + 2 * k < |ms| ==> (WentOn(cfg, base, ms, k) <==> WentOn(cfg, base, more, k))
  {
    SpentExtend(cfg, base, ms, more, k);
    assert more[..base + 2 * k] == ms[..base + 2 * k];
  }

  /** The first `n` rounds went on; so they do when the transcript grows. */
  ghost predicate AllWentOn(cfg: Config, base: nat, ms: seq<Message>, n: nat)
    requires base + 2 * n <= |ms|
  {
    forall k :: 0 <= k < n ==> WentOn(cfg, base, ms, k)
  }

  lemma AllWentOnExtends(cfg: Config, base: nat, ms: seq<Message>, more: seq<Message>, n: nat)
    requires base + 2 * n <= |ms| && ms <= more && AllWentOn(cfg, base, ms, n)
    ensures AllWentOn(cfg, base, more, n)
  {
    forall k | 0 <= k < n ensures WentOn(cfg, base, more, k) { WentOnExtends(cfg, base, ms, more, k); }
  }

  /** The state between two rounds. */
  ghost predicate Between(cfg: Config, input: seq<Message>, ms: seq<Message>, final: string, usage: Usage, n: nat) {
    && input <= ms && |ms| == |input| + 2 * n && Rounds(cfg, |input|, ms, n)
    && final == LastText(|input|, ms) && usage == Spent(cfg, |input|, ms, n)
  }

  /** The state right after the reply of round `n`. */
  ghost predicate AfterReply(cfg: Config, input: seq<Message>, ms: seq<Message>, final: string, usage: Usage, n: nat) {
    && input <= ms && |ms| == |input| + 2 * n + 1 && Rounds(cfg, |input|, ms, n)
    && ms[|input| + 2 * n] == cfg.provider(n, ms[..|input| + 2 * n]).message
    && final == LastText(|input|, ms) && usage == Spent(cfg, |input|, ms, n + 1)
  }

  lemma ReplyArrives(cfg: Config, input: seq<Message>, ms: seq<Message>, final: string, usage: Usage, n: nat)
    requires ValidProvider(cfg) && Between(cfg, input, ms, final, usage, n)
    ensures var reply := cfg.provider(n, ms);
            AfterReply(cfg, input, ms + [reply.message], if reply.message.text != "" then reply.message.text else final,
                       Add(usage, reply.usage), n)
    ensures Add(usage, cfg.provider(n, ms).usage) == Spent(cfg, |input|, ms, n + 1) && |ms| == |input| + 2 * n
  {
    hide Spent, Round;
    var m := cfg.provider(n, ms).message;
    var more := ms + [m];
    assert ms[..|input| + 2 * n] == ms && more[..|input| + 2 * n] == ms && more[..|more| - 1] == ms;
    RoundsExtend(cfg, |input|, ms, more, n);
    SpentExtend(cfg, |input|, ms, more, n + 1);
    SpentOneMore(cfg, |input|, ms, n + 1);
    assert more[|more| - 1] == m;
  }

  lemma ResultsArrive(cfg: Config, input: seq<Message>, ms: seq<Message>, final: string, usage: Usage, n: nat,
                      turn: Message)
    requires AfterReply(cfg, input, ms, final, usage, n) && ms[|input| + 2 * n].calls != []
    requires ResultsOf(cfg, n, ms[|input| + 2 * n].calls, turn)
    ensures Between(cfg, input, ms + [turn], final, usage, n + 1)
  {
    hide AnswersCall, Spent;
    var more := ms + [turn];
    assert more[..|input| + 2 * n] == ms[..|input| + 2 * n] && more[..|more| - 1] == ms;
    RoundsExtend(cfg, |input|, ms, more, n);
    SpentExtend(cfg, |input|, ms, more, n + 1);
    assert Round(cfg, |input|, more, n);
  }

  /** Run: the transcript is the provider's and the executor's word for word, every token is counted, and
      no more than the allowed number of model calls is made. */
  method Run(cfg: Config, input: seq<Message>) returns (res: LoopResult, err: Option<LoopError>, ghost n: nat)
    requires ValidProvider(cfg)
    ensures Exit(cfg, input, res, err, n)
    ensures res.steps <= if cfg.maxSteps <= 0 then 20 else cfg.maxSteps
    ensures (res.steps > 0 ==> |input| + 2 * (res.steps - 1) <= |res.messages|)
            && res.usage == Spent(cfg, |input|, res.messages, res.steps)
    ensures n <= res.steps <= n + 1 && |input| + 2 * n <= |res.messages| && NoEarlierEnd(cfg, |input|, res, n)
  {
    hide Between, AfterReply, Exit, Spent, ResultsOf, AnyStops, WentOn, Allowed, AllWentOn, NoEarlierEnd;
    hide ValidProvider, Add;
    n := 0;
    res := LoopResult(input, "", Usage(0, 0), 0, false);
    NothingYet(cfg, input);
    while res.steps < StepCap(cfg)
      invariant n == res.steps <= StepCap(cfg) && !res.stopped && |res.messages| == |input| + 2 * n
      invariant Between(cfg, input, res.messages, res.final, res.usage, n) && AllWentOn(cfg, |input|, res.messages, n)
      decreases StepCap(cfg) - res.steps
    {
      BetweenMeans(cfg, input, res, n);
      var refused := cfg.budget(res.steps, res.usage);
      if refused.Some? {
        EndsBetween(cfg, input, res, Some(BudgetSpent(refused.value)), n, res.usage);
        return res, Some(BudgetSpent(refused.value)), n;
      }
      ghost var before := res;
      var reply := cfg.provider(res.steps, res.messages);
      ReplyArrives(cfg, input, res.messages, res.final, res.usage, n);
      res := res.(steps := res.steps + 1, usage := Add(res.usage, reply.usage));
      if reply.err.Some? {
        EndsBetween(cfg, input, res, Some(ProviderFailed(reply.err.value)), n, before.usage);
        return res, Some(ProviderFailed(reply.err.value)), n;
      }
      assert (res.messages + [reply.message])[..|input| + 2 * n] == before.messages;
      res := res.(messages := res.messages + [reply.message]);
      if reply.message.text != "" { res := res.(final := reply.message.text); }
      AllWentOnExtends(cfg, |input|, before.messages, res.messages, n);
      WentOnExtends(cfg, |input|, before.messages, res.messages, n);
      if reply.stop == MaxTokens && |reply.message.calls| == 0 {
        EndsOnReply(cfg, input, res, Some(ReplyCutOff), n);
        return res, Some(ReplyCutOff), n;
      }
      if |reply.message.calls| == 0 {
        EndsOnReply(cfg, input, res, None, n);
        return res, None, n;
      }

      var results, stop := RunCalls(cfg, res.steps - 1, reply.message.calls);
      ResultsArrive(cfg, input, res.messages, res.final, res.usage, n, results);
      ghost var replied := res.messages;
      res := res.(messages := res.messages + [results]);
      AllWentOnExtends(cfg, |input|, replied, res.messages, n);
      RoundEnds(cfg, |input|, before.messages, res.messages, n, stop);
      n := n + 1;
      if stop {
        res := res.(stopped := true);
        EndsBetween(cfg, input, res, None, n, res.usage);
        return res, None, n;
      }
    }
    BetweenMeans(cfg, input, res, n);
    EndsBetween(cfg, input, res, Some(StepLimit), n, res.usage);
    return res, Some(StepLimit), n;
  }

  lemma BetweenMeans(cfg: Config, input: seq<Message>, res: LoopResult, n: nat)
    requires Between(cfg, input, res.messages, res.final, res.usage, n)
    ensures |res.messages| == |input| + 2 * n && res.usage == Spent(cfg, |input|, res.messages, n)
    ensures cfg.budget(n, res.usage).None? <==> Allowed(cfg, |input|, res.messages, n)
  {}

  /** The ends between two rounds. */
  lemma EndsBetween(cfg: Config, input: seq<Message>, res: LoopResult, err: Option<LoopError>, n: nat, usage: Usage)
    requires Between(cfg, input, res.messages, res.final, usage, n) && (res.stopped <==> err.None?)
    requires res.stopped ==> n > 0
    requires AllWentOn(cfg, |input|, res.messages, if res.stopped then n - 1 else n)
    requires match err
             case None => n == res.steps && n > 0 && AnyStops(cfg, n - 1, res.messages[|input| + 2 * (n - 1)].calls)
                          && usage == res.usage && Allowed(cfg, |input|, res.messages, n - 1)
             case Some(BudgetSpent(why)) =>
               n == res.steps && cfg.budget(n, res.usage) == Some(why) && usage == res.usage
             case Some(ProviderFailed(why)) =>
               && n + 1 == res.steps && cfg.provider(n, res.messages).err == Some(why)
               && Allowed(cfg, |input|, res.messages, n) && res.usage == Spent(cfg, |input|, res.messages, n + 1)
             case Some(ReplyCutOff) => false
             case Some(StepLimit) => n == res.steps && ReachesCap(cfg, n) && usage == res.usage
    ensures Exit(cfg, input, res, err, n) && res.usage == Spent(cfg, |input|, res.messages, res.steps)
    ensures |res.messages| == |input| + 2 * n && NoEarlierEnd(cfg, |input|, res, n)
  {
    hide Rounds, LastText, AnyStops, Spent;
    WentOnMeans(cfg, |input|, res.messages, if res.stopped then n - 1 else n);
  }

  /** The ends on a reply without tool calls. */
  lemma EndsOnReply(cfg: Config, input: seq<Message>, res: LoopResult, err: Option<LoopError>, n: nat)
    requires AfterReply(cfg, input, res.messages, res.final, res.usage, n) && AllWentOn(cfg, |input|, res.messages, n)
    requires n + 1 == res.steps && !res.stopped && Allowed(cfg, |input|, res.messages, n)
    requires res.messages[|input| + 2 * n].calls == []
    requires || err.None?
             || (err == Some(ReplyCutOff) && cfg.provider(n, res.messages[..|input| + 2 * n]).stop == MaxTokens)
    ensures Exit(cfg, input, res, err, n) && res.usage == Spent(cfg, |input|, res.messages, res.steps)
    ensures |res.messages| == |input| + 2 * n + 1 && NoEarlierEnd(cfg, |input|, res, n)
  {
    hide Rounds, LastText, AnyStops, Spent;
    WentOnMeans(cfg, |input|, res.messages, n);
  }

  lemma WentOnMeans(cfg: Config, base: nat, ms: seq<Message>, n: nat)
    requires base + 2 * n <= |ms| && AllWentOn(cfg, base, ms, n)
    ensures forall k :: 0 <= k < n ==> WentOn(cfg, base, ms, k) && Allowed(cfg, base, ms, k)
  {
    forall k | 0 <= k < n ensures WentOn(cfg, base, ms, k) && Allowed(cfg, base, ms, k) {
      assert WentOn(cfg, base, ms, k);
    }
  }

  /** A round that is over was allowed, and went on unless an executor asked to stop. */
  lemma RoundEnds(cfg: Config, base: nat, before: seq<Message>, after: seq<Message>, n: nat, stop: bool)
    requires base + 2 * n == |before| && before <= after && |before| < |after| && Allowed(cfg, base, before, n)
    requires cfg.provider(n, before).err.None? && stop == AnyStops(cfg, n, after[base + 2 * n].calls)
    requires AllWentOn(cfg, base, after, n) && base + 2 * (n + 1) <= |after|
    ensures Allowed(cfg, base, after, n) && (!stop ==> AllWentOn(cfg, base, after, n + 1))
  {
    hide AnyStops;
    WentOnExtends(cfg, base, before, after, n);
    assert after[..base + 2 * n] == before;
  }

  lemma NothingYet(cfg: Config, input: seq<Message>)
    ensures Between(cfg, input, input, "", Usage(0, 0), 0) && AllWentOn(cfg, |input|, input, 0)
  {}

  /* ---------- well-formedness ---------- */

  /** `turn` answers exactly these calls, in order. */
  ghost predicate Answers(turn: Message, calls: seq<ToolCall>) {
    && turn.role == User && |turn.results| == |calls|
    && forall i :: 0 <= i < |calls| ==> turn.results[i].callID == calls[i].id
  }

  /** From `base` on, roles alternate starting with the assistant, and every assistant turn with tool
      calls is followed at once by one user turn that answers them. */
  ghost predicate WellFormedFrom(base: nat, ms: seq<Message>) {
    && (forall i, j :: base <= i < j < |ms| && j == i + 1 ==> ms[i].role != ms[j].role)
    && (base < |ms| ==> ms[base].role == Assistant)
    && (forall i :: base <= i < |ms| && ms[i].role == Assistant && ms[i].calls != [] ==>
          i + 1 < |ms| && Answers(ms[i + 1], ms[i].calls))
  }

  /** What sits at offset `2k + odd` after `base`. */
  lemma TurnShape(cfg: Config, input: seq<Message>, res: LoopResult, err: Option<LoopError>, n: nat, k: nat, odd: bool)
    requires ValidProvider(cfg) && Exit(cfg, input, res, err, n)
    requires |input| + 2 * k + (if odd then 1 else 0) < |res.messages|
    ensures TurnFits(res.messages, |input|, |input| + 2 * k + if odd then 1 else 0)
  {
    if k < n { assert Round(cfg, |input|, res.messages, k); }
  }

  lemma TurnsFit(cfg: Config, input: seq<Message>, res: LoopResult, err: Option<LoopError>, n: nat, i: nat)
    requires ValidProvider(cfg) && Exit(cfg, input, res, err, n) && |input| <= i < |res.messages|
    ensures TurnFits(res.messages, |input|, i)
  {
    hide Exit, ValidProvider, TurnFits;
    var k, odd := (i - |input|) / 2, (i - |input|) % 2 == 1;
    assert i == |input| + 2 * k + if odd then 1 else 0;
    TurnShape(cfg, input, res, err, n, k, odd);
  }

  /** On every exit the new part of the transcript is well formed. */
  lemma ExitIsWellFormed(cfg: Config, input: seq<Message>, res: LoopResult, err: Option<LoopError>, n: nat)
    requires ValidProvider(cfg) && Exit(cfg, input, res, err, n)
    ensures WellFormedFrom(|input|, res.messages)
  {
    hide Exit, ValidProvider, Answers;
    forall i | |input| <= i < |res.messages| ensures TurnFits(res.messages, |input|, i) {
      TurnsFit(cfg, input, res, err, n, i);
    }
    FittingIsWellFormed(|input|, res.messages);
  }

  lemma FittingIsWellFormed(base: nat, ms: seq<Message>)
    requires forall i :: base <= i < |ms| ==> TurnFits(ms, base, i)
    ensures WellFormedFrom(base, ms)
  {
    hide Answers;
    forall i, j | base <= i < j < |ms| && j == i + 1 ensures ms[i].role != ms[j].role {
      assert TurnFits(ms, base, i) && TurnFits(ms, base, j);
    }
    forall i | base <= i < |ms| && ms[i].role == Assistant && ms[i].calls != []
      ensures i + 1 < |ms| && Answers(ms[i + 1], ms[i].calls)
    {
      assert TurnFits(ms, base, i);
    }
    if base < |ms| { assert TurnFits(ms, base, base); }
  }

  ghost predicate TurnFits(ms: seq<Message>, base: nat, i: nat)
    requires i < |ms|
  {
    if (i - base) % 2 == 1 then ms[i].role == User
    else ms[i].role == Assistant && (ms[i].calls != [] ==> i + 1 < |ms| && Answers(ms[i + 1], ms[i].calls))
  }

  /* ---------- conversations ---------- */

  /** A stored conversation: user and assistant alternate, calls are answered, and it ends on a settled
      assistant turn. */
  ghost predicate Resumable(ms: seq<Message>) {
    && (forall i, j :: 0 <= i < j < |ms| && j == i + 1 ==> ms[i].role != ms[j].role)
    && (|ms| > 0 ==> ms[0].role == User && ms[|ms| - 1].role == Assistant && ms[|ms| - 1].calls == [])
    && (forall i :: 0 <= i < |ms| && ms[i].role == Assistant && ms[i].calls != [] ==>
          i + 1 < |ms| && Answers(ms[i + 1], ms[i].calls))
  }

  function UserTurn(text: string): Message { Message(User, text, [], []) }

  function ErrorText(e: LoopError): string {
    match e
    case BudgetSpent(r) => r
    case ProviderFailed(r) => r
    case ReplyCutOff => "the model's reply was cut off (max tokens)"
    case StepLimit => "assistant step limit reached"
  }

  datatype ChatTurn = ChatTurn(user: string, reply: string, error: string)

  class Conversation {
    var messages: seq<Message>
    var turns: seq<ChatTurn>

    constructor ()
      ensures messages == [] && turns == [] && Resumable(messages)
    {
      messages, turns := [], [];
    }

    /** aiChat's use of the loop: whatever happens in a turn, the stored conversation stays resumable, keeps
        what it had, and loses the message only if an executor stopped the loop without an error. */
    method Chat(cfg: Config, message: string)
      returns (reply: string, err: Option<LoopError>, ghost res: LoopResult, ghost n: nat)
      requires Resumable(messages) && ValidProvider(cfg)
      modifies this
      ensures Exit(cfg, old(messages) + [Message(User, message, [], [])], res, err, n)
      ensures |turns| == |old(turns)| + 1
      ensures messages == if res.messages[|res.messages| - 1].role == Assistant then res.messages
                          else if err.None? then old(messages)
                          else old(messages) + [
                            Message(User, message, [], []),
                            Message(Assistant, "(stopped: " + turns[|old(turns)|].error + ")", [], [])]
      ensures Resumable(messages) && old(messages) <= messages
      ensures messages == old(messages) <==> res.stopped
      ensures reply == res.final
      ensures turns == old(turns) + [ChatTurn(message, reply, turns[|old(turns)|].error)]
      ensures turns[|old(turns)|].error == match err
              case None => ""
              case Some(BudgetSpent(why)) => why
              case Some(ProviderFailed(why)) => why
              case Some(ReplyCutOff) => "the model's reply was cut off (max tokens)"
              case Some(StepLimit) => "assistant step limit reached"
    {
      hide *;
      var loop;
      loop, err, n := Run(cfg, messages + [UserTurn(message)]);
      StoredMeans(messages, message, loop.messages, err);
      ExitEnds(cfg, messages + [UserTurn(message)], loop, err, n);
      res := loop;
      StoredIsResumable(cfg, messages, message, res, err, n);
      reply := loop.final;
      turns := turns + [ChatTurn(message, reply, if err.Some? then ErrorText(err.value) else "")];
      messages := Stored(messages, message, loop.messages, err);
    }
  }

  lemma StoredIsResumable(cfg: Config, before: seq<Message>, message: string, res: LoopResult, err: Option<LoopError>,
                          n: nat)
    requires ValidProvider(cfg) && Resumable(before) && Exit(cfg, before + [UserTurn(message)], res, err, n)
    ensures var after := Stored(before, message, res.messages, err);
            Resumable(after) && before <= after && (after == before <==> res.stopped)
  {
    hide Exit, Resumable, WellFormedFrom, ValidProvider;
    var input := before + [UserTurn(message)];
    ExitIsWellFormed(cfg, input, res, err, n);
    ExitEnds(cfg, input, res, err, n);
    if res.messages[|res.messages| - 1].role == Assistant {
      LoopIsResumable(before, UserTurn(message), res.messages);
      assert before == input[..|before|] == res.messages[..|before|];
    } else if err.Some? {
      ApologyIsResumable(before, UserTurn(message), Apology(err.value).text);
    }
  }

  function Apology(e: LoopError): Message {
    Message(Assistant, "(stopped: " + ErrorText(e) + ")", [], [])
  }

  /** What a turn leaves stored: the loop's transcript if it ended on the assistant, else, after an error,
      the message and an apology, else what was there. */
  function Stored(before: seq<Message>, message: string, after: seq<Message>, err: Option<LoopError>): seq<Message> {
    if |after| > 0 && after[|after| - 1].role == Assistant then after
    else if err.Some? then before + [UserTurn(message), Apology(err.value)]
    else before
  }

  lemma StoredMeans(before: seq<Message>, message: string, after: seq<Message>, err: Option<LoopError>)
    ensures UserTurn(message) == Message(User, message, [], [])
    ensures after != [] && after[|after| - 1].role == Assistant ==> Stored(before, message, after, err) == after
    ensures after != [] && after[|after| - 1].role == User ==>
              Stored(before, message, after, err)
              == if err.None? then before
                 else before + [Message(User, message, [], []),
                                Message(Assistant, "(stopped: " + ErrorText(err.value) + ")", [], [])]
    ensures forall why :: err == Some(BudgetSpent(why)) || err == Some(ProviderFailed(why)) ==>
              ErrorText(err.value) == why
    ensures err == Some(ReplyCutOff) ==> ErrorText(err.value) == "the model's reply was cut off (max tokens)"
    ensures err == Some(StepLimit) ==> ErrorText(err.value) == "assistant step limit reached"
  {}

  /** An exit keeps its input, and one without an error ends on the assistant unless it was stopped. */
  lemma ExitEnds(cfg: Config, input: seq<Message>, res: LoopResult, err: Option<LoopError>, n: nat)
    requires ValidProvider(cfg) && Exit(cfg, input, res, err, n) && input != [] && input[|input| - 1].role == User
    ensures input <= res.messages && res.messages != []
    ensures res.stopped ==> err.None?
    ensures err.None? ==> (res.messages[|res.messages| - 1].role == Assistant <==> !res.stopped)
  {
    var base, ms := |input|, res.messages;
    if err.None? && res.stopped { assert Round(cfg, base, ms, n - 1); }
  }

  lemma ApologyIsResumable(before: seq<Message>, user: Message, text: string)
    requires Resumable(before) && user.role == User
    ensures Resumable(before + [user, Message(Assistant, text, [], [])])
  {}

  lemma LoopIsResumable(before: seq<Message>, user: Message, after: seq<Message>)
    requires Resumable(before) && user.role == User && before + [user] <= after
    requires WellFormedFrom(|before| + 1, after) && after[|after| - 1].role == Assistant
    ensures Resumable(after)
  {}

  /** After any sequence of turns the stored conversation is resumable and still starts with what it was. */
  method ChatAll(conv: Conversation, cfgs: seq<Config>, messages: seq<string>)
    requires Resumable(conv.messages) && |cfgs| == |messages| && forall i :: 0 <= i < |cfgs| ==> ValidProvider(cfgs[i])
    modifies conv
    ensures Resumable(conv.messages) && old(conv.messages) <= conv.messages
    ensures |conv.turns| == |old(conv.turns)| + |messages|
  {
    for i := 0 to |messages|
      invariant Resumable(conv.messages) && old(conv.messages) <= conv.messages
      invariant |conv.turns| == |old(conv.turns)| + i
    {
      var reply, err, res, n := conv.Chat(cfgs[i], messages[i]);
    }
  }
}
