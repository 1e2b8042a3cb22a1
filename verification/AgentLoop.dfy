/**
 FunesAgent::run_loop: the loop between a model and its tools.

 The model, the tools, the result store and the stop button are oracles: the
 n-th answer of each is an arbitrary function of n, so what is proved holds
 against every behaviour of all of them.
 */
module AgentLoop {
  import opened Wrappers
  import opened JsonValues
  import opened Transcript
  import opened ToolBudget
  import opened CompletionContract
  import opened AnswerSchema
  import opened RunLog
  import ContextBudget
  import ContextBudgetLaws

  datatype Reply = Reply(content: string, calls: seq<ToolRequest>, promptTokens: int)

  /** A completion answered, or an exception: over the context window, or anything else. */
  datatype LlmOutcome = Answered(reply: Reply) | Refused(overflow: bool, reported: int)

  datatype ToolOutcome = ToolOutcome(text: string, error: bool, images: seq<string>)

  datatype Config = Config(
    maxSteps: int,
    contextLimit: int,
    required: seq<string>,
    toolLimits: ToolLimits,
    answerFromTool: string,
    schema: Json,
    tools: seq<ToolEntry>)

  datatype World = World(
    parse: string -> Option<Json>,
    dump: Json -> string,
    llm: nat -> LlmOutcome,
    tool: nat -> ToolOutcome,
    stored: nat -> Option<string>,   // the preview, when the n-th tool result went to the store
    stopped: nat -> bool,            // the stop button, read at each step
    streaming: bool,
    visionFirst: bool)

  /** A value the parser delivered reads back from its printed form, and the empty text is no JSON. */
  ghost predicate JsonTextOk(w: World) {
    && (forall s :: w.parse(s).Some? ==> w.parse(w.dump(w.parse(s).value)) == w.parse(s))
    && w.parse("") == None
  }

  datatype RunResult = Returned(text: string) | Threw

  const STOPPED := "(stopped by user)"
  const SCHEMA_REMINDER := "Your answer does not match the required format."
  const REFUSAL := ToolOutcome("refused", true, [])
  const NOTICE := UserMessage("No tools are available for this turn.")

  /** A finished answer: every required tool satisfied, and under a schema an extractable value that satisfies it. */
  ghost predicate Accepted(cfg: Config, w: World, satisfied: set<string>, text: string) {
    AllDone(cfg, satisfied) && Fits(cfg, w, text)
  }

  ghost predicate AllDone(cfg: Config, satisfied: set<string>) {
    forall tool :: tool in cfg.required ==> tool in satisfied
  }

  /** There is no schema, or a value that satisfies it can be extracted. */
  ghost predicate Fits(cfg: Config, w: World, text: string) {
    || cfg.schema.Null? || cfg.schema == Obj([]) || cfg.schema == Arr([])
    || (ExtractAnswerJson(w.parse, text).Some?
        && Satisfies(cfg.schema, ExtractAnswerJson(w.parse, text).value))
  }

  predicate HasSchema(cfg: Config) {
    !cfg.schema.Null? && cfg.schema != Obj([]) && cfg.schema != Arr([])
  }

  // ── What ends a run ──

  /** A text on its way out: failed for what is missing, or for its shape, or as it is. */
  ghost predicate FinishedWith(cfg: Config, w: World, satisfied: set<string>, text: string, r: string) {
    r == if !AllDone(cfg, satisfied) then ContractFailure(Missing(cfg.required, satisfied), text)
         else if !Fits(cfg, w, text) then SchemaFailure(text)
         else text
  }

  /** The reminders of a run are spent: one for each required tool and two more, or three when none is required. */
  ghost predicate Spent(cfg: Config, nudged: nat) {
    nudged == if cfg.required == [] then 3 else |cfg.required| + 2
  }

  /** What a completion without calls ends a run with, at `step`, `retry` being what a second try would get. */
  ghost predicate AnswerEnds(cfg: Config, w: World, satisfied: set<string>, nudged: nat, lastTool: string,
                             step: nat, said: string, retry: LlmOutcome, text: string) {
    if !AllDone(cfg, satisfied) then
      Spent(cfg, nudged) && text == ContractFailure(Missing(cfg.required, satisfied), said)
    else
      var answer := AnswerOf(step, said, retry);
      if cfg.schema.Null? || cfg.schema == Obj([]) || cfg.schema == Arr([]) then
        text == if answer == "" then EmptyAnswerFailure(lastTool) else answer
      else if Fits(cfg, w, answer) then text == w.dump(ExtractAnswerJson(w.parse, answer).value)
      else Spent(cfg, nudged) && text == SchemaFailure(answer)
  }

  /** When it does not: tools are owed or the answer is rejected, and a reminder is left. */
  ghost predicate AnswerIsNudged(cfg: Config, w: World, satisfied: set<string>, nudged: nat,
                                 step: nat, said: string, retry: LlmOutcome) {
    && !Spent(cfg, nudged)
    && (AllDone(cfg, satisfied) ==> !Fits(cfg, w, AnswerOf(step, said, retry)))
  }

  /** The tool may call no more: it is past the ceiling of all tools, and its own declared one is higher still. */
  ghost predicate PastCeiling(cfg: Config, tool: string, calls: nat) {
    && calls > Max(cfg.maxSteps, 6)
    && tool in cfg.toolLimits && calls <= cfg.toolLimits[tool]
  }

  /** What the k-th of a completion's calls ends a run with: the detector, or the tool whose result is the answer. */
  ghost predicate CallEnds(cfg: Config, w: World, satisfied: set<string>, names: map<string, nat>, ran: nat,
                           calls: seq<ToolRequest>, charged: seq<Charge>, k: nat, text: string) {
    && k < |calls|
    && (|| (|charged| == k && PastCeiling(cfg, calls[k].name, Count(names, calls[k].name))
            && FinishedWith(cfg, w, satisfied, LoopFailure(calls[k].name), text))
        || (|charged| == k + 1 && charged[k].ok && ran > 0 && !w.tool(ran - 1).error
            && calls[k].name == cfg.answerFromTool != ""
            && FinishedWith(cfg, w, satisfied, w.tool(ran - 1).text, text)))
    && forall j :: 0 <= j < |charged| ==> charged[j].request == calls[j]
  }

  /** No call so far was the one whose result is the answer. */
  ghost predicate NoneAnswers(cfg: Config, charged: seq<Charge>) {
    forall j :: 0 <= j < |charged| && charged[j].ok ==>
      charged[j].request.name != cfg.answerFromTool || cfg.answerFromTool == ""
  }

  /** What a run has to show when it ends. */
  datatype Outcome = Outcome(
    satisfied: set<string>,
    names: map<string, nat>,     // calls counted, by key
    ran: nat,
    charges: seq<Charge>,
    nudged: nat,
    lastTool: string,
    asked: nat)

  /** A run throws only on a refusal, and any text it returns is a failure that says so or an accepted answer. */
  ghost predicate Ends(cfg: Config, w: World, satisfied: set<string>, asked: nat, r: RunResult) {
    match r
    case Threw => asked > 0 && w.llm(asked - 1).Refused?
    case Returned(text) => IsRunFailure(text) || Accepted(cfg, w, satisfied, text)
  }

  /** A step ends the run as its completion, the at-th answer of the model, says. */
  ghost predicate StepEnds(cfg: Config, w: World, end: Outcome, step: nat, at: nat, r: RunResult) {
    && at < end.asked
    && match w.llm(at)
       case Refused(_, _) => r == Threw && end.asked == at + 1
       case Answered(reply) =>
         && r.Returned?
         && if reply.calls == []
            then AnswerEnds(cfg, w, end.satisfied, end.nudged, end.lastTool, step, reply.content, w.llm(at + 1), r.text)
            else exists n, k :: 0 <= n <= |end.charges|
                   && CallEnds(cfg, w, end.satisfied, end.names, end.ran, reply.calls, end.charges[n..], k, r.text)
  }

  /** How a run of so many steps ends: at the stop button, as its last step does, or at the limit. */
  ghost predicate ProperResult(cfg: Config, w: World, end: Outcome, steps: nat, limit: int, at: nat, r: RunResult) {
    || (r == Returned(STOPPED) && w.stopped(steps))
    || (Ends(cfg, w, end.satisfied, end.asked, r)
        && ((steps > 0 && StepEnds(cfg, w, end, steps - 1, at, r))
            || (steps >= limit && r.Returned?
                && FinishedWith(cfg, w, end.satisfied, MaxStepsFailure(end.lastTool), r.text))))
  }

  /** Every completion without calls, of the steps before this one, was answered by a reminder. */
  ghost predicate Heeded(w: World, log: seq<Completion>, nudges: seq<Nudge>, step: int) {
    forall i: nat :: i < |log| && log[i].step < step && !log[i].retry && SaysOnly(w.llm(i)) ==>
      RemindedAt(nudges, log[i].step)
  }

  ghost predicate AllBefore(log: seq<Completion>, step: nat) {
    forall i :: 0 <= i < |log| ==> log[i].step < step
  }

  predicate SaysOnly(o: LlmOutcome) { o.Answered? && o.reply.calls == [] }

  predicate RemindedAt(nudges: seq<Nudge>, step: nat) {
    ContractNudged(step) in nudges || SchemaNudged(step) in nudges
  }

  /** At most a second try, after an empty completion. */
  ghost predicate RetriedOnly(before: seq<Completion>, after: seq<Completion>, step: nat) {
    && |before| <= |after| && after[..|before|] == before
    && forall i :: |before| <= i < |after| ==> after[i].retry && after[i].step == step
  }

  /** All the calls the model asked for, in order. */
  function CallsAsked(w: World, log: seq<Completion>): seq<ToolRequest> {
    if log == [] then []
    else
      var last := |log| - 1;
      CallsAsked(w, log[..last])
      + if !log[last].retry && w.llm(last).Answered? then w.llm(last).reply.calls else []
  }

  function Requests(charges: seq<Charge>): (r: seq<ToolRequest>)
    ensures |r| == |charges|
  {
    seq(|charges|, k requires 0 <= k < |charges| => charges[k].request)
  }

  /** One step's requests: those before the last of them were refused. */
  ghost predicate Sent(w: World, before: seq<Completion>, after: seq<Completion>, step: nat) {
    && |before| < |after| && after[..|before|] == before
    && forall i :: |before| <= i < |after| ==>
      after[i].step == step && !after[i].retry && (i + 1 < |after| ==> w.llm(i).Refused?)
  }

  /** The text of a retry; nothing when it failed. */
  function SaidIn(o: LlmOutcome): string { if o.Answered? then o.reply.content else "" }

  /** What a completion without calls amounts to: its text, after a step the retry's when it is empty. */
  function AnswerOf(step: nat, said: string, retry: LlmOutcome): string {
    if said == "" && step > 0 then SaidIn(retry) else said
  }

  /** What a nudge adds to the transcript. */
  function Injected(said: string, reminder: string): seq<ChatMessage> {
    (if said == "" then [] else [AssistantMessage(said, [])]) + [UserMessage(reminder)]
  }

  function Max(a: int, b: int): int { if a > b then a else b }

  /** Each entry with the comma or bracket after it. */
  function EntryBytes(entries: seq<ToolEntry>): nat {
    if entries == [] then 0 else EntryBytes(entries[..|entries| - 1]) + entries[|entries| - 1].size + 1
  }

  function DumpBytes(entries: seq<ToolEntry>): nat { if entries == [] then 2 else 1 + EntryBytes(entries) }

  function SizesOf(entries: seq<ToolEntry>): nat {
    if entries == [] then 0 else entries[0].size + SizesOf(entries[1..])
  }

  /** A schema dumped: its entries, a comma between any two, and the brackets; a quarter of that in tokens. */
  lemma {:induction false} SchemaInBytes(entries: seq<ToolEntry>)
    ensures DumpBytes(entries) == 2 + SizesOf(entries) + if entries == [] then 0 else |entries| - 1
    ensures SchemaTokens(entries) == DumpBytes(entries) / 4
  {
    EntriesInBytes(entries);
  }

  lemma {:induction false} EntriesInBytes(entries: seq<ToolEntry>)
    ensures EntryBytes(entries) == SizesOf(entries) + |entries|
  {
    if entries != [] {
      var init, last := entries[..|entries| - 1], entries[|entries| - 1];
      EntriesInBytes(init);
      SizesAtEnd(init, last);
      assert entries == init + [last];
    }
  }

  lemma {:induction false} SizesAtEnd(init: seq<ToolEntry>, last: ToolEntry)
    ensures SizesOf(init + [last]) == SizesOf(init) + last.size
  {
    if init != [] {
      SizesAtEnd(init[1..], last);
      assert (init + [last])[1..] == init[1..] + [last];
    }
  }

  function SchemaTokens(entries: seq<ToolEntry>): nat { DumpBytes(entries) / 4 }

  /** static_cast<int>: towards zero. */
  function Truncate(x: real): int {
    if x >= 0.0 then x.Floor else -((-x).Floor)
  }

  function Quarter(n: int): int {
    if n >= 0 then n / 4 else -((-n) / 4)
  }

  /** The prompt's share of the window, in estimated tokens. */
  function TrimBudget(cfg: Config, ratio: real): int
    requires ratio >= 1.0
  {
    Truncate((cfg.contextLimit - Quarter(cfg.contextLimit)) as real / ratio)
  }

  function Scaled(a: real, k: real): real { a * k }

  lemma Quotient(a: real, k: real)
    requires a >= 0.0 && k >= 1.0
    ensures a / k >= 0.0 && Scaled(a / k, k) == a
  {
  }

  lemma ScaledSum(a: real, b: real, k: real)
    ensures Scaled(a + b, k) == Scaled(a, k) + Scaled(b, k) && Scaled(1.0, k) == k
  {
  }

  lemma ScaledSign(a: real, k: real)
    requires a >= 0.0 && k >= 1.0
    ensures Scaled(a, k) >= 0.0 && (a > 0.0 ==> Scaled(a, k) > 0.0)
  {
  }

  lemma Between(b: real, x: real, k: real)
    requires k >= 1.0 && b <= x < b + 1.0
    ensures Scaled(b, k) <= Scaled(x, k) < Scaled(b, k) + k
  {
    hide Scaled;
    var low, high := x - b, b + 1.0 - x;
    assert b + low == x && x + high == b + 1.0;
    ScaledSign(low, k);
    ScaledSign(high, k);
    ScaledSum(b, low, k);
    ScaledSum(x, high, k);
    ScaledSum(b, 1.0, k);
  }

  lemma {:induction false} FloorFits(share: nat, ratio: real, budget: int)
    requires ratio >= 1.0 && budget == (share as real / ratio).Floor
    ensures 0 <= budget && Scaled(budget as real, ratio) <= share as real < Scaled(budget as real, ratio) + ratio
  {
    hide Scaled;
    Quotient(share as real, ratio);
    Between(budget as real, share as real / ratio, ratio);
  }

  lemma ThreeQuarters(limit: nat)
    ensures limit - Quarter(limit) == (3 * limit + 3) / 4 >= 0
  {
    assert limit == 4 * (limit / 4) + limit % 4;
  }

  /** A quarter is cut towards zero, whatever the sign. */
  lemma QuarterTowardsZero(n: int)
    ensures n >= 0 ==> 4 * Quarter(n) <= n < 4 * Quarter(n) + 4
    ensures n < 0 ==> 4 * Quarter(n) - 4 < n <= 4 * Quarter(n)
  {
  }

  /** Scaled by the ratio the budget is the largest whole number within three quarters of the window, rounded up. */
  lemma {:induction false} TrimBudgetFits(cfg: Config, ratio: real)
    requires ratio >= 1.0 && cfg.contextLimit >= 0
    ensures var budget, share := TrimBudget(cfg, ratio), (3 * cfg.contextLimit + 3) / 4;
      0 <= budget && budget as real * ratio <= share as real < budget as real * ratio + ratio
  {
    ThreeQuarters(cfg.contextLimit);
    var share := (3 * cfg.contextLimit + 3) / 4;
    FloorFits(share, ratio, (share as real / ratio).Floor);
    hide Quarter;
    assert share as real / ratio >= 0.0;
    assert TrimBudget(cfg, ratio) == (share as real / ratio).Floor;
  }

  /** After an overflow: at least a quarter more, or what the server's figure implies. */
  function RefusalRatio(ratio: real, reported: int, sent: nat): (r: real)
    requires ratio >= 1.0
    ensures r >= ratio * 1.25 >= 1.0
    ensures reported > 0 && sent > 0 ==> r * sent as real >= reported as real
    ensures r == ratio * 1.25 || (reported > 0 && sent > 0 && r * sent as real == reported as real)
  {
    var learned := if reported > 0 && sent > 0 then reported as real / sent as real else 0.0;
    if ratio * 1.25 >= learned then ratio * 1.25 else learned
  }

  /** After a reply: what the prompt really cost per estimated token, never below 1. */
  function ServedRatio(ratio: real, promptTokens: int, sent: nat): (r: real)
    requires ratio >= 1.0
    ensures r >= 1.0
    ensures promptTokens <= 0 || sent == 0 ==> r == ratio
    ensures promptTokens > 0 && sent > 0 ==>
      r * sent as real >= promptTokens as real && (r == 1.0 || r * sent as real == promptTokens as real)
  {
    if promptTokens <= 0 || sent == 0 then ratio
    else if promptTokens as real / sent as real > 1.0 then promptTokens as real / sent as real
    else 1.0
  }

  /** The tools still on offer. */
  function Without(tools: seq<ToolEntry>, exhausted: set<string>): (offered: seq<ToolEntry>)
    ensures Offers(offered, exhausted)
  {
    if tools == [] then []
    else
      var before, last := Without(tools[..|tools| - 1], exhausted), tools[|tools| - 1];
      if last.name in exhausted then before else before + [last]
  }

  function RecordOf(w: World, tc: ToolRequest): CallRecord {
    CallRecord(tc.id, tc.name, w.dump(tc.args))
  }

  function RecordsOf(w: World, calls: seq<ToolRequest>): (records: seq<CallRecord>)
    ensures |records| == |calls|
    ensures forall k :: 0 <= k < |calls| ==> records[k].id == calls[k].id
  {
    seq(|calls|, k requires 0 <= k < |calls| => RecordOf(w, calls[k]))
  }

  function ToolMessage(tc: ToolRequest, content: string, images: seq<string>): ChatMessage {
    ChatMessage(Tool, content, tc.id, tc.name, [], images)
  }

  /** Every message of `before` is still in its place, system and user messages untouched. */
  ghost predicate Kept(before: seq<ChatMessage>, now: seq<ChatMessage>) {
    && |before| <= |now|
    && forall k :: 0 <= k < |before| ==>
      && SameSkeleton(before[k], now[k])
      && (before[k].role == System || before[k].role == User ==> now[k] == before[k])
  }

  lemma SentAgain(w: World, a: seq<Completion>, b: seq<Completion>, c: seq<Completion>, step: nat)
    requires Sent(w, a, b, step) && Sent(w, b, c, step) && w.llm(|b| - 1).Refused?
    ensures Sent(w, a, c, step)
  {
    forall i | |a| <= i < |c|
      ensures c[i].step == step && !c[i].retry && (i + 1 < |c| ==> w.llm(i).Refused?)
    {
      if i < |b| { assert c[i] == c[..|b|][i] == b[i]; }
    }
    assert c[..|a|] == c[..|b|][..|a|];
  }

  lemma KeptTransitive(a: seq<ChatMessage>, b: seq<ChatMessage>, c: seq<ChatMessage>)
    requires Kept(a, b) && Kept(b, c)
    ensures Kept(a, c)
  {
    forall k | 0 <= k < |a| ensures SameSkeleton(a[k], c[k]) {
      assert SameSkeleton(a[k], b[k]) && SameSkeleton(b[k], c[k]);
    }
  }

  class Agent {
    const cfg: Config
    const w: World

    var history: seq<ChatMessage>
    var asked: nat            // completions asked for
    var ran: nat              // tools dispatched
    var sigCounts: map<string, nat>
    var nameCounts: map<string, nat>
    var satisfied: set<string>
    var exhausted: set<string>
    var nudgesUsed: nat
    var forceToolCall: bool
    var stepLimit: int
    var lastTool: string
    var overflowRetried: bool
    var tokenRatio: real
    var promptTokens: int
    var mainChoice: Choice
    var visionChoice: Choice

    ghost var completions: seq<Completion>
    ghost var charges: seq<Charge>
    ghost var nudges: seq<Nudge>

    constructor (cfg: Config, w: World, history: seq<ChatMessage>)
      ensures this.cfg == cfg && this.w == w && this.history == history
      ensures asked == 0 && ran == 0 && promptTokens == 0
      ensures sigCounts == map[] && nameCounts == map[] && satisfied == {} && exhausted == {}
      ensures nudgesUsed == 0 && !forceToolCall && stepLimit == cfg.maxSteps && lastTool == ""
      ensures !overflowRetried && tokenRatio == 1.0
      ensures mainChoice == Configured && visionChoice == Configured
      ensures completions == [] && charges == [] && nudges == []
    {
      this.cfg, this.w, this.history := cfg, w, history;
      asked, ran, promptTokens := 0, 0, 0;
      sigCounts, nameCounts, satisfied, exhausted := map[], map[], {}, {};
      nudgesUsed, forceToolCall, stepLimit, lastTool := 0, false, cfg.maxSteps, "";
      overflowRetried, tokenRatio := false, 1.0;
      mainChoice, visionChoice := Configured, Configured;
      completions, charges, nudges := [], [], [];
    }

    function Budget(): nat { NudgeBudget(cfg.required) }

    // ── The context window ──

    method KeepInWindow() returns (ghost p: nat, ghost i: nat, out: ContextBudget.TrimOutcome)
      requires WellFormed(history) && tokenRatio >= 1.0
      modifies this`history
      ensures ContextBudget.IsTrim(old(history), TrimBudget(cfg, tokenRatio), SchemaTokens(cfg.tools),
                                   p, i, history, out)
      ensures WellFormed(history) && |history| == |old(history)| && Kept(old(history), history)
    {
      hide ContextBudget.IsTrim, ContextBudget.Tail, WellFormed, EstimateTokens;
      var promptBudget := cfg.contextLimit - Quarter(cfg.contextLimit);
      var budget := Truncate(promptBudget as real / tokenRatio);
      var buffer := new ChatMessage[|history|](i requires 0 <= i < |history| reads this => history[i]);
      assert buffer[..] == history;
      ghost var before := history;
      out, p, i := ContextBudget.TrimToFit(buffer, budget, SchemaTokens(cfg.tools));
      history := buffer[..];
      ContextBudgetLaws.TrimProtects(before, budget, SchemaTokens(cfg.tools), p, i, history, out);
    }

    method SetChoice(vision: bool, c: Choice)
      modifies this`mainChoice, this`visionChoice
      ensures if vision then visionChoice == c && mainChoice == old(mainChoice)
              else mainChoice == c && visionChoice == old(visionChoice)
    {
      if vision { visionChoice := c; } else { mainChoice := c; }
    }

    method OfferTools() returns (offered: seq<ToolEntry>)
      ensures offered == Without(cfg.tools, exhausted)
    {
      offered := cfg.tools;
      if exhausted == {} {
        NoneWithout(cfg.tools);
      } else {
        offered := [];
        for k := 0 to |cfg.tools|
          invariant offered == Without(cfg.tools[..k], exhausted)
        {
          assert cfg.tools[..k + 1][..k] == cfg.tools[..k];
          if cfg.tools[k].name !in exhausted { offered := offered + [cfg.tools[k]]; }
        }
        assert cfg.tools[..|cfg.tools|] == cfg.tools;
      }
    }

    /** Every completion so far is proper, and none is later than `step`. */
    ghost predicate Logged(step: nat)
      reads this`completions, this`nudges, this`exhausted, this`asked
    {
      && ProperLog(completions, nudges, NOTICE, exhausted)
      && asked == |completions|
      && forall i :: 0 <= i < |completions| ==> completions[i].step <= step
    }

    lemma AskedIsLogged(step: nat)
      requires Logged(step)
      ensures asked == |completions| && ProperLog(completions, nudges, NOTICE, exhausted) && Logged(step + 1)
    {
    }

    predicate ChoicesRestored()
      reads this`mainChoice, this`visionChoice
    {
      mainChoice == Configured && visionChoice == Configured
    }

    /** A call is forced exactly after a contract nudge, tools are withheld otherwise on the last step. */
    ghost predicate ChoiceFits(step: nat, vision: bool, withhold: bool)
      reads this`mainChoice, this`visionChoice, this`nudges, this`stepLimit
    {
      && (if vision then visionChoice else mainChoice) ==
         (if NudgedBefore(step, nudges) then Required
          else if step + 1 >= stepLimit then Withheld else Configured)
      && (withhold <==> (if vision then visionChoice else mainChoice) == Withheld)
    }

    /** One request to the model; `c` is what the log will say of it. */
    method Ask(ghost c: Completion) returns (o: LlmOutcome)
      requires Logged(c.step) && ProperCompletion(c, nudges, NOTICE) && c.exhausted == exhausted
      modifies this`asked, this`completions
      ensures Logged(c.step)
      ensures completions == old(completions) + [c] && asked == old(asked) + 1
      ensures o == w.llm(old(asked))
    {
      LogStep(completions, nudges, NOTICE, exhausted, c);
      completions := completions + [c];
      o := w.llm(asked);
      asked := asked + 1;
    }

    /** What the log says of a request over the transcript as it now stands. */
    ghost function Entry(step: nat, withhold: bool, vision: bool, offered: seq<ToolEntry>): Completion
      reads this
    {
      Completion(step, stepLimit, false, if withhold then history + [NOTICE] else history, offered,
                 if vision then visionChoice else mainChoice, vision, exhausted)
    }

    /** The last request of the run, and its answer. */
    ghost predicate LastAsked(c: Completion, o: LlmOutcome)
      reads this`completions, this`asked
    {
      completions != [] && completions[|completions| - 1] == c && asked > 0 && o == w.llm(asked - 1)
    }

    /** The step's request over the current transcript, with the notice when tools are withheld. */
    method Send(step: nat, withhold: bool, vision: bool, offered: seq<ToolEntry>) returns (o: LlmOutcome, sent: nat)
      requires WellFormed(history) && Logged(step) && Offers(offered, exhausted)
      requires ChoiceFits(step, vision, withhold)
      modifies this`asked, this`completions
      ensures Logged(step) && |completions| == |old(completions)| + 1 && asked == old(asked) + 1
      ensures Sent(w, old(completions), completions, step)
      ensures LastAsked(Entry(step, withhold, vision, offered), o)
      ensures sent == EstimateTokens(if withhold then history + [NOTICE] else history) + SchemaTokens(offered)
    {
      hide WellFormed, EstimateTokens, SchemaTokens;
      var msgs := if withhold then history + [NOTICE] else history;
      PushPlain(history, NOTICE);
      o := Ask(Completion(step, stepLimit, false, msgs, offered,
                          if vision then visionChoice else mainChoice, vision, exhausted));
      sent := EstimateTokens(msgs) + SchemaTokens(offered);
    }

    /** Streaming was asked for and failed, and not for the size of the prompt. */
    predicate StreamingFailed(o: LlmOutcome) { o.Refused? && w.streaming && !o.overflow }

    /** The request, sent once more without streaming when streaming itself failed. */
    method SendWithFallback(step: nat, withhold: bool, vision: bool, offered: seq<ToolEntry>)
      returns (o: LlmOutcome, sent: nat)
      requires WellFormed(history) && Logged(step) && Offers(offered, exhausted)
      requires ChoiceFits(step, vision, withhold)
      modifies this`asked, this`completions
      ensures Logged(step) && Sent(w, old(completions), completions, step)
      ensures |completions| == |old(completions)| + if StreamingFailed(w.llm(old(asked))) then 2 else 1
      ensures LastAsked(Entry(step, withhold, vision, offered), o)
    {
      hide WellFormed, Logged, Offers, ChoiceFits;
      o, sent := Send(step, withhold, vision, offered);
      if StreamingFailed(o) {
        ghost var first := completions;
        AskedIsLogged(step);
        o, sent := Send(step, withhold, vision, offered);
        SentAgain(w, old(completions), first, completions, step);
      }
    }

    /** The server refused the prompt as too big: learn the real ratio, trim to it, try once more. */
    method RetryOverflow(step: nat, withhold: bool, vision: bool, offered: seq<ToolEntry>, sent0: nat, reported: int)
      returns (o: LlmOutcome, sent: nat)
      requires WellFormed(history) && tokenRatio >= 1.0 && Logged(step) && Offers(offered, exhausted)
      requires ChoiceFits(step, vision, withhold) && !overflowRetried
      modifies this`history, this`asked, this`completions, this`tokenRatio, this`overflowRetried
      ensures overflowRetried && tokenRatio >= old(tokenRatio) * 1.25
      ensures WellFormed(history) && |history| == |old(history)| && Kept(old(history), history)
      ensures Logged(step) && |completions| == |old(completions)| + 1
      ensures Sent(w, old(completions), completions, step)
      ensures LastAsked(Entry(step, withhold, vision, offered), o)
      ensures tokenRatio == RefusalRatio(old(tokenRatio), reported, sent0)
    {
      hide Kept, ContextBudget.IsTrim, TrimBudget, SchemaTokens, RefusalRatio, WellFormed, Logged, Offers, ChoiceFits;
      overflowRetried := true;
      tokenRatio := RefusalRatio(tokenRatio, reported, sent0);
      var _, _, _ := KeepInWindow();
      o, sent := Send(step, withhold, vision, offered);
    }

    /** Trim and ask; on an overflow, once per run, trim harder and ask again. None is an exception. */
    method Request(step: nat, withhold: bool, vision: bool, offered: seq<ToolEntry>)
      returns (o: LlmOutcome, sent: nat)
      requires WellFormed(history) && tokenRatio >= 1.0 && Logged(step) && Offers(offered, exhausted)
      requires ChoiceFits(step, vision, withhold)
      modifies this`history, this`asked, this`completions, this`tokenRatio, this`overflowRetried
      ensures WellFormed(history) && |history| == |old(history)| && Kept(old(history), history)
      ensures tokenRatio >= 1.0 && Logged(step)
      ensures LastAsked(Entry(step, withhold, vision, offered), o)
      ensures o.Refused? && o.overflow ==> overflowRetried
      ensures Sent(w, old(completions), completions, step)
      ensures |completions| - Flag(overflowRetried) <= |old(completions)| - Flag(old(overflowRetried)) + 2
    {
      hide Logged, WellFormed, Kept, Sent, ContextBudget.IsTrim, TrimBudget, SchemaTokens, Offers, ChoiceFits;
      ghost var before := history;
      var _, _, _ := KeepInWindow();
      ghost var trimmed := history;
      o, sent := SendWithFallback(step, withhold, vision, offered);
      if o.Refused? && o.overflow && !overflowRetried {
        ghost var first := completions;
        AskedIsLogged(step);
        o, sent := RetryOverflow(step, withhold, vision, offered, sent, o.reported);
        SentAgain(w, old(completions), first, completions, step);
        KeptTransitive(before, trimmed, history);
      }
    }

    /** What a step is sent with: the client, the tools on offer, and whether they are withheld. */
    method Prepare(step: nat) returns (withhold: bool, vision: bool, offered: seq<ToolEntry>)
      requires ChoicesRestored() && (forceToolCall <==> NudgedBefore(step, nudges))
      modifies this`mainChoice, this`visionChoice
      ensures withhold <==> !forceToolCall && step + 1 >= stepLimit
      ensures vision <==> step == 0 && w.visionFirst
      ensures offered == Without(cfg.tools, exhausted)
      ensures ChoiceFits(step, vision, withhold)
      ensures (if vision then mainChoice else visionChoice) == Configured
      ensures !forceToolCall && !withhold ==> ChoicesRestored()
    {
      hide Without, NudgedBefore;
      withhold := !forceToolCall && step + 1 >= stepLimit;
      vision := step == 0 && w.visionFirst;
      offered := OfferTools();
      if forceToolCall { SetChoice(vision, Required); }
      else if withhold { SetChoice(vision, Withheld); }
    }

    /** The completion of one step; None when it throws. The client's tool choice is restored either way. */
    method Complete(step: nat) returns (o: Option<Reply>)
      requires WellFormed(history) && tokenRatio >= 1.0 && ChoicesRestored() && Logged(step)
      requires forceToolCall <==> NudgedBefore(step, nudges)
      modifies this`history, this`asked, this`completions, this`tokenRatio, this`overflowRetried,
        this`mainChoice, this`visionChoice, this`forceToolCall, this`promptTokens
      ensures WellFormed(history) && tokenRatio >= 1.0 && ChoicesRestored() && Logged(step)
      ensures |history| == |old(history)| && Kept(old(history), history)
      ensures o.Some? ==> !forceToolCall
      ensures o.Some? ==>
        && asked > 0 && w.llm(asked - 1) == Answered(o.value)
        && completions != []
        && var c := completions[|completions| - 1];
           && c.step == step && c.offered == Without(cfg.tools, exhausted)
           && c.messages == if c.choice == Withheld then history + [NOTICE] else history
      ensures o.None? ==> asked > 0 && w.llm(asked - 1).Refused?
      ensures Sent(w, old(completions), completions, step) && asked == |completions|
      ensures |completions| - Flag(overflowRetried) <= |old(completions)| - Flag(old(overflowRetried)) + 2
    {
      hide Logged, WellFormed, Kept, Sent, ServedRatio, Without, Offers, NudgedBefore, SchemaTokens, ProperLog;
      var withhold, vision, offered := Prepare(step);
      var outcome, sent := Request(step, withhold, vision, offered);
      if outcome.Refused? {
        SetChoice(vision, Configured);
        AskedIsLogged(step);
        return None;
      }
      TakeReply(outcome.reply, sent, vision, withhold);
      AskedIsLogged(step);
      return Some(outcome.reply);
    }

    /** Restores the client's choice and learns what the prompt really cost. */
    method TakeReply(reply: Reply, sent: nat, vision: bool, withhold: bool)
      requires tokenRatio >= 1.0
      requires (if vision then mainChoice else visionChoice) == Configured
      requires !forceToolCall && !withhold ==> ChoicesRestored()
      modifies this`mainChoice, this`visionChoice, this`forceToolCall, this`promptTokens, this`tokenRatio
      ensures ChoicesRestored() && !forceToolCall
      ensures tokenRatio == ServedRatio(old(tokenRatio), reply.promptTokens, sent)
      ensures promptTokens == if reply.promptTokens > 0 then reply.promptTokens else old(promptTokens)
    {
      hide ServedRatio;
      if forceToolCall || withhold {
        SetChoice(vision, Configured);
        forceToolCall := false;
      }
      if reply.promptTokens > 0 { promptTokens := reply.promptTokens; }
      tokenRatio := ServedRatio(tokenRatio, reply.promptTokens, sent);
    }

    // ── The model stops: is it allowed to? ──

    /** Every way out of the loop with a text routes through here. */
    method Finish(text: string) returns (r: string)
      ensures FinishedWith(cfg, w, satisfied, text, r)
      ensures IsRunFailure(r) || Accepted(cfg, w, satisfied, r)
      ensures IsRunFailure(text) ==> IsRunFailure(r)
    {
      var missing := ComputeMissing(cfg.required, satisfied);
      NothingMissingIff(cfg.required, satisfied);
      ViolatedIff(cfg, w, text);
      if missing != [] { return ContractFailure(missing, text); }
      if SchemaViolated(cfg, w, text) { return SchemaFailure(text); }
      return text;
    }

    /** Puts what the model said, and the reminder, into the transcript. */
    method PushNudge(said: string, reminder: string, n: Nudge)
      requires WellFormed(history) && Logged(n.step)
      modifies this`history, this`nudges
      ensures history == old(history) + Injected(said, reminder)
      ensures nudges == old(nudges) + [n]
      ensures WellFormed(history) && Logged(n.step)
    {
      if said != "" {
        PushPlain(history, AssistantMessage(said, []));
        history := history + [AssistantMessage(said, [])];
      }
      PushPlain(history, UserMessage(reminder));
      history := history + [UserMessage(reminder)];
      NudgeKeepsLog(completions, nudges, NOTICE, exhausted, n);
      nudges := nudges + [n];
    }

    /** One more try without tools, to get words out of an empty completion; its failure is not the run's. */
    method RetryEmpty(step: nat) returns (content: string)
      requires WellFormed(history) && ChoicesRestored() && Logged(step) && step > 0
      modifies this`asked, this`completions, this`mainChoice, this`promptTokens
      ensures ChoicesRestored() && Logged(step) && |completions| == |old(completions)| + 1
      ensures completions[..|old(completions)|] == old(completions) && completions[|old(completions)|].retry
      ensures completions[|old(completions)|].step == step
      ensures content == SaidIn(w.llm(old(asked)))
      ensures var o := w.llm(old(asked));
        promptTokens == if o.Answered? && o.reply.promptTokens > 0 then o.reply.promptTokens else old(promptTokens)
    {
      hide WellFormed;
      SetMainChoice(Withheld);
      PushPlain(history, NOTICE);
      var outcome := Ask(Completion(step, stepLimit, true, history + [NOTICE], [], mainChoice, false, exhausted));
      SetMainChoice(Configured);
      match outcome {
        case Answered(reply) =>
          if reply.promptTokens > 0 { promptTokens := reply.promptTokens; }
          return reply.content;
        case Refused(_, _) => return "";
      }
    }

    method SetMainChoice(c: Choice)
      modifies this`mainChoice
      ensures mainChoice == c
    {
      mainChoice := c;
    }

    /** Nudges are numbered by what has been used of their budget, and all lie before `step`. */
    ghost predicate NudgesCounted(step: nat)
      reads this`nudges, this`nudgesUsed
    {
      && nudgesUsed == |nudges| <= Budget()
      && forall n :: n in nudges ==> n.step < step
    }

    lemma NudgesWithin(step: nat)
      requires NudgesCounted(step)
      ensures |nudges| <= Budget()
    {
    }

    /** One nudge out of the shared budget, or the failure once the budget is spent. */
    method Remind(said: string, reminder: string, n: Nudge, failure: string) returns (exit: Option<string>)
      requires WellFormed(history) && Logged(n.step) && NudgesCounted(n.step)
      modifies this`history, this`nudgesUsed, this`nudges
      ensures Logged(n.step)
      ensures exit.Some? ==> exit.value == failure && history == old(history) && nudges == old(nudges)
      ensures exit.Some? <==> |old(nudges)| == Budget()
      ensures exit.None? ==>
        && WellFormed(history) && Kept(old(history), history)
        && history == old(history) + Injected(said, reminder)
        && nudges == old(nudges) + [n] && NudgesCounted(n.step + 1)
    {
      hide WellFormed, Logged;
      nudgesUsed := nudgesUsed + 1;
      if nudgesUsed <= Budget() {
        PushNudge(said, reminder, n);
        return None;
      }
      return Some(failure);
    }

    /** What one nudge leaves behind, whichever rule asked for it. */
    twostate predicate NudgedOnce(step: nat)
      reads this
    {
      && WellFormed(history) && Kept(old(history), history)
      && |nudges| == |old(nudges)| + 1 && NudgesCounted(step + 1)
      && (forceToolCall <==> NudgedBefore(step + 1, nudges))
      && stepLimit == (if !forceToolCall && step + 1 >= old(stepLimit) then old(stepLimit) + 1 else old(stepLimit))
    }

    /** The model stopped while tools are owed: the next completion is forced to call. */
    method OweTurn(step: nat, said: string, missing: seq<string>) returns (exit: Option<string>)
      requires WellFormed(history) && Logged(step) && NudgesCounted(step) && !forceToolCall
      modifies this`history, this`nudgesUsed, this`nudges, this`forceToolCall
      ensures Logged(step)
      ensures exit.Some? ==> history == old(history) && nudges == old(nudges) && IsRunFailure(exit.value)
                             && exit.value == ContractFailure(missing, said) && !forceToolCall
      ensures exit.None? ==> NudgedOnce(step) && forceToolCall
      ensures exit.None? ==>
        history == old(history) + Injected(said, ContractNudge(missing))
        && nudges == old(nudges) + [ContractNudged(step)]
      ensures exit.Some? <==> |old(nudges)| == Budget()
    {
      hide WellFormed, Logged, Kept, ContractFailure, ContractNudge;
      exit := Remind(said, ContractNudge(missing), ContractNudged(step), ContractFailure(missing, said));
      if exit.None? { forceToolCall := true; }
    }

    /** An answer the schema rejects: reminded, on the last step with one more step to answer in. */
    method RejectTurn(step: nat, answer: string) returns (exit: Option<string>)
      requires WellFormed(history) && Logged(step) && NudgesCounted(step) && !forceToolCall
      modifies this`history, this`nudgesUsed, this`nudges, this`stepLimit
      ensures Logged(step)
      ensures exit.Some? ==> history == old(history) && nudges == old(nudges) && stepLimit == old(stepLimit)
                             && IsRunFailure(exit.value) && exit.value == SchemaFailure(answer)
      ensures exit.None? ==> NudgedOnce(step) && !forceToolCall
      ensures exit.None? ==>
        history == old(history) + Injected(answer, SCHEMA_REMINDER) && nudges == old(nudges) + [SchemaNudged(step)]
      ensures exit.Some? <==> |old(nudges)| == Budget()
    {
      hide WellFormed, Logged, Kept, SchemaFailure;
      exit := Remind(answer, SCHEMA_REMINDER, SchemaNudged(step), SchemaFailure(answer));
      if exit.None? && step + 1 >= stepLimit { stepLimit := stepLimit + 1; }
    }

    /**
     A completion without tool calls. Either the run ends with a proper text, or
     exactly one nudge is injected — forcing a call when tools are owed, buying
     one extra step when an answer is rejected on the last.
     */
    method AnswerTurn(step: nat, said: string) returns (exit: Option<string>)
      requires JsonTextOk(w) && WellFormed(history) && ChoicesRestored() && Logged(step)
      requires NudgesCounted(step) && !forceToolCall
      modifies this`history, this`asked, this`completions, this`mainChoice, this`promptTokens,
        this`nudgesUsed, this`nudges, this`forceToolCall, this`stepLimit
      ensures ChoicesRestored() && Logged(step) && |old(completions)| <= |completions| <= |old(completions)| + 1
      ensures RetriedOnly(old(completions), completions, step)
      ensures exit.Some? ==>
        AnswerEnds(cfg, w, satisfied, |nudges|, lastTool, step, said, w.llm(old(asked)), exit.value)
      ensures exit.None? ==>
        && AnswerIsNudged(cfg, w, satisfied, |old(nudges)|, step, said, w.llm(old(asked)))
        && old(nudges) <= nudges && RemindedAt(nudges, step)
      ensures exit.Some? ==>
        && history == old(history) && nudges == old(nudges) && stepLimit == old(stepLimit)
        && (IsRunFailure(exit.value) || Accepted(cfg, w, satisfied, exit.value))
      ensures exit.None? ==> NudgedOnce(step)
      ensures exit.None? ==> forceToolCall == (Missing(cfg.required, satisfied) != [])
      ensures Missing(cfg.required, satisfied) != [] ==> (exit.Some? <==> |old(nudges)| == Budget())
      ensures Missing(cfg.required, satisfied) == [] ==>
        var answer := AnswerOf(step, said, w.llm(old(asked)));
        if answer == "" && !HasSchema(cfg) then exit == Some(EmptyAnswerFailure(lastTool))
        else if SchemaViolated(cfg, w, answer) then (exit.Some? <==> |old(nudges)| == Budget())
        else exit == Some(if HasSchema(cfg) then Canonical(w, answer) else answer)
    {
      hide WellFormed, Logged, Kept, Accepted, AllDone, Fits, Missing, ExtractAnswerJson, ValidateAnswer, NudgedBefore,
           JsonTextOk, EmptyAnswerFailure, SchemaViolated, IsRunFailure, ContractFailure, SchemaFailure;
      var missing := ComputeMissing(cfg.required, satisfied);
      AllDoneIff(cfg, satisfied);
      if missing != [] {
        exit := OweTurn(step, said, missing);
        return;
      }

      var answer := said;
      if answer == "" && step > 0 { answer := RetryEmpty(step); }
      if answer == "" && !HasSchema(cfg) { return Some(EmptyAnswerFailure(lastTool)); }
      if !HasSchema(cfg) {
        PlainAnswerIsAccepted(cfg, w, satisfied, answer);
        return Some(answer);
      }
      ViolatedIff(cfg, w, answer);
      if SchemaViolated(cfg, w, answer) {
        exit := RejectTurn(step, answer);
        return;
      }
      CanonicalIsDumped(cfg, w, answer);
      CanonicalIsAccepted(cfg, w, satisfied, answer);
      return Some(Canonical(w, answer));
    }

    // ── The model calls tools ──

    /** The declared ceiling of a key; without one, the tool itself has the default and a script none. */
    function Ceiling(tool: string, key: string): int {
      EffectiveLimit(cfg.toolLimits, key, if key == tool then MaxSameTool(cfg.maxSteps) else -1)
    }

    /** One more call is over the key's ceiling: the one declared, or for the tool itself max_steps or six. */
    ghost predicate Over(tool: string, names: map<string, nat>, key: string) {
      if key in cfg.toolLimits && cfg.toolLimits[key] >= 0 then Count(names, key) + 1 > cfg.toolLimits[key]
      else key == tool && Count(names, key) + 1 > Max(cfg.maxSteps, 6)
    }

    /** Charges the call to each of its keys, stopping at the first that is over its limit. */
    method ChargeKeys(tc: ToolRequest, nameCalls: nat, ghost names: map<string, nat>) returns (refused: Option<string>)
      requires nameCalls == Count(nameCounts, tc.name) && nameCounts == names[tc.name := Count(names, tc.name) + 1]
      modifies this`nameCounts
      ensures Count(nameCounts, tc.name) == nameCalls
      ensures forall key :: Count(old(nameCounts), key) <= Count(nameCounts, key)
      ensures refused.Some? ==>
        && refused.value in CallKeys(tc.name, tc.args)
        && 0 <= Ceiling(tc.name, refused.value) < Count(nameCounts, refused.value)
      ensures refused.None? ==> forall key :: key in CallKeys(tc.name, tc.args) ==>
        && (key != tc.name ==> Count(nameCounts, key) == Count(old(nameCounts), key) + 1)
        && (Declares(cfg.toolLimits, key) ==> Count(nameCounts, key) <= cfg.toolLimits[key])
      ensures
        if refused.None? then forall key :: key in CallKeys(tc.name, tc.args) ==> !Over(tc.name, names, key)
        else Over(tc.name, names, refused.value) && (Over(tc.name, names, tc.name) ==> refused.value == tc.name)
    {
      hide CallKeys;
      var keys := CallKeys(tc.name, tc.args);
      for k := 0 to |keys|
        invariant forall key :: key in keys[..k] ==> !Over(tc.name, names, key)
        invariant Count(nameCounts, tc.name) == nameCalls
        invariant forall key :: Count(old(nameCounts), key) <= Count(nameCounts, key)
        invariant forall key :: key !in keys[..k] ==> Count(nameCounts, key) == Count(old(nameCounts), key)
        invariant forall key :: key in keys[..k] ==>
          && (key != tc.name ==> Count(nameCounts, key) == Count(old(nameCounts), key) + 1)
          && (Declares(cfg.toolLimits, key) ==> Count(nameCounts, key) <= cfg.toolLimits[key])
      {
        var key := keys[k];
        assert keys[..k + 1] == keys[..k] + [key];
        var keyCalls := nameCalls;
        if key != tc.name {
          keyCalls := Count(nameCounts, key) + 1;
          nameCounts := nameCounts[key := keyCalls];
        }
        var limit := Ceiling(tc.name, key);
        assert keyCalls == Count(names, key) + 1;
        if limit >= 0 && keyCalls > limit { return Some(key); }
      }
      assert keys[..|keys|] == keys;
      return None;
    }

    function Signature(tc: ToolRequest): string { tc.name + "|" + w.dump(tc.args) }

    /** What a call must meet, in counters before and after it was counted, to be run. */
    ghost predicate MayRun(tc: ToolRequest, names: map<string, nat>, signatures: map<string, nat>,
                           names': map<string, nat>) {
      && (forall key :: key in CallKeys(tc.name, tc.args) ==>
            && Count(names', key) > Count(names, key)
            && (Declares(cfg.toolLimits, key) ==> Count(names, key) + 1 <= cfg.toolLimits[key]))
      && Count(names, tc.name) + 1 <= MaxSameTool(cfg.maxSteps)
      && Count(signatures, Signature(tc)) + 1 <= MAX_IDENTICAL
    }

    /** Counts the call and decides: run it, refuse it, or stop the run. */
    method Admit(tc: ToolRequest) returns (verdict: Verdict)
      modifies this`sigCounts, this`nameCounts, this`exhausted
      ensures sigCounts == old(sigCounts)[Signature(tc) := Count(old(sigCounts), Signature(tc)) + 1]
      ensures Counted(old(nameCounts), nameCounts, tc.name)
      ensures old(exhausted) <= exhausted <= old(exhausted) + {tc.name}
      ensures verdict == Run_ ==>
        MayRun(tc, old(nameCounts), old(sigCounts), nameCounts) && exhausted == old(exhausted)
      ensures verdict.OverBudget? <==>
        exists key :: key in CallKeys(tc.name, tc.args) && Over(tc.name, old(nameCounts), key)
      ensures verdict.OverBudget? ==>
        && Over(tc.name, old(nameCounts), verdict.key)
        && (Over(tc.name, old(nameCounts), tc.name) ==> verdict.key == tc.name)
      ensures !verdict.OverBudget? ==>
        var calls, same := Count(old(nameCounts), tc.name) + 1, Count(old(sigCounts), Signature(tc)) + 1;
        verdict == if same >= 3 then Repeated(same) else if calls > Max(cfg.maxSteps, 6) then Loop else Run_
      ensures exhausted == old(exhausted) +
        if verdict == OverBudget(tc.name) || (verdict.Repeated? && verdict.calls >= 4) then {tc.name} else {}
      ensures verdict.Repeated? && verdict.calls > MAX_IDENTICAL + 1 ==> tc.name in exhausted
      ensures verdict == OverBudget(tc.name) ==> tc.name in exhausted
      ensures verdict.Repeated? ==> verdict.calls == Count(sigCounts, Signature(tc)) > MAX_IDENTICAL
      ensures verdict.OverBudget? ==>
        && verdict.key in CallKeys(tc.name, tc.args)
        && 0 <= Ceiling(tc.name, verdict.key) < Count(nameCounts, verdict.key)
      ensures verdict == Loop ==> Count(nameCounts, tc.name) > MaxSameTool(cfg.maxSteps)
    {
      hide CallKeys;
      var sigCalls := Count(sigCounts, Signature(tc)) + 1;
      sigCounts := sigCounts[Signature(tc) := sigCalls];
      var nameCalls := Count(nameCounts, tc.name) + 1;
      nameCounts := nameCounts[tc.name := nameCalls];
      var refused := ChargeKeys(tc, nameCalls, old(nameCounts));
      if refused.Some? {
        if refused.value == tc.name { exhausted := exhausted + {tc.name}; }
        return OverBudget(refused.value);
      }
      var repeat := RepeatActionOf(sigCalls);
      if repeat == Run {
        if nameCalls > MaxSameTool(cfg.maxSteps) { return Loop; }
        return Run_;
      }
      if repeat == RefuseAndWithdraw { exhausted := exhausted + {tc.name}; }
      return Repeated(sigCalls);
    }

    /** Success inserts every key of the call, failure erases them. */
    method Settle(keys: seq<string>, ok: bool)
      modifies this`satisfied
      ensures forall key :: key in satisfied <==> if key in keys then ok else key in old(satisfied)
    {
      for k := 0 to |keys|
        invariant forall key :: key in satisfied <==> if key in keys[..k] then ok else key in old(satisfied)
      {
        assert keys[..k + 1] == keys[..k] + [keys[k]];
        if ok { satisfied := satisfied + {keys[k]}; } else { satisfied := satisfied - {keys[k]}; }
      }
      assert keys[..|keys|] == keys;
    }

    /** The counters, the budget and the satisfied set as the log says they are. */
    ghost predicate Accounted()
      reads this`charges, this`nameCounts, this`sigCounts, this`satisfied, this`ran
    {
      && CountersCover(charges, nameCounts, sigCounts)
      && TrueToTools(charges, w) && ran == Runs(charges)
      && WithinBudget(charges, cfg.maxSteps, cfg.toolLimits)
      && SatisfiedIsLatest(charges, satisfied)
    }

    /** The text of a tool message: an error object, the store's preview, or the result itself. */
    function ResultText(result: ToolOutcome, preview: Option<string>): string {
      if result.error then "{\"error\": " + w.dump(Str(result.text)) + "}"
      else match preview
        case Some(p) => p
        case None => result.text
    }

    /** The message that answers a call, refused or run as the n-th. */
    ghost predicate IsAnswerTo(tc: ToolRequest, run: bool, n: nat, m: ChatMessage) {
      && Answers(m, tc.id) && m.name == tc.name && m.calls == []
      && var result := if run then w.tool(n) else REFUSAL;
         && m.images == result.images
         && m.content ==
            if result.error then "{\"error\": " + w.dump(Str(result.text)) + "}"
            else if w.stored(n).Some? then w.stored(n).value
            else result.text
    }

    lemma AnswersIt(tc: ToolRequest, run: bool, n: nat, m: ChatMessage)
      requires IsAnswerTo(tc, run, n, m)
      ensures Answers(m, tc.id)
    {
    }

    /** Runs the call, or refuses it, and enters it in the log and the satisfied set. */
    method Execute(tc: ToolRequest, run: bool, ghost names: map<string, nat>, ghost signatures: map<string, nat>)
      returns (result: ToolOutcome)
      requires CountersCover(charges, names, signatures) && WithinBudget(charges, cfg.maxSteps, cfg.toolLimits)
      requires SatisfiedIsLatest(charges, satisfied) && TrueToTools(charges, w) && ran == Runs(charges)
      requires Counted(names, nameCounts, tc.name)
      requires sigCounts == signatures[Signature(tc) := Count(signatures, Signature(tc)) + 1]
      requires run ==> MayRun(tc, names, signatures, nameCounts)
      modifies this`satisfied, this`charges, this`ran, this`lastTool
      ensures Accounted()
      ensures result == if run then w.tool(old(ran)) else REFUSAL
      ensures charges == old(charges) + [Charge(tc, Signature(tc), run, !result.error)]
      ensures ran == old(ran) + if run then 1 else 0
    {
      hide CountersCover, WithinBudget, SatisfiedIsLatest, Counted;
      result := REFUSAL;
      if run {
        result := w.tool(ran);
        ran := ran + 1;
      }
      lastTool := tc.name;
      ghost var charge := Charge(tc, Signature(tc), run, !result.error);
      ghost var was := satisfied;
      Settle(CallKeys(tc.name, tc.args), !result.error);
      BudgetStep(charges, names, signatures, charge, nameCounts, cfg.maxSteps, cfg.toolLimits);
      CountersStep(charges, names, signatures, charge, nameCounts);
      SatisfiedStep(charges, was, charge, satisfied);
      assert (charges + [charge])[..|charges|] == charges;
      charges := charges + [charge];
    }

    /** One call: counted, run or refused, charged, and answered in the transcript. */
    method ChargeCall(tc: ToolRequest) returns (exit: Option<string>)
      requires Accounted()
      modifies this`history, this`sigCounts, this`nameCounts, this`exhausted, this`satisfied, this`charges,
        this`ran, this`lastTool
      ensures old(exhausted) <= exhausted
      ensures Accounted()
      ensures exit.Some? ==> IsRunFailure(exit.value) || Accepted(cfg, w, satisfied, exit.value)
      ensures exit.Some? ==> history == old(history)
      ensures exit.None? ==>
        && |charges| == |old(charges)| + 1 && charges[..|old(charges)|] == old(charges)
        && charges[|old(charges)|].request == tc
        && |history| == |old(history)| + 1 && history[..|old(history)|] == old(history)
        && IsAnswerTo(tc, charges[|old(charges)|].dispatched, old(ran), history[|old(history)|])
        && NoneAnswers(cfg, charges[|old(charges)|..])
      ensures exit.None? ==> (charges[|old(charges)|].dispatched <==>
        && Count(old(sigCounts), Signature(tc)) + 1 <= 2
        && forall key :: key in CallKeys(tc.name, tc.args) ==> !Over(tc.name, old(nameCounts), key))
      ensures exit.Some? ==>
        && old(charges) <= charges
        && CallEnds(cfg, w, satisfied, nameCounts, ran, [tc], charges[|old(charges)|..], 0, exit.value)
    {
      hide FinishedWith, MayRun, Missing, CountersCover, WithinBudget, SatisfiedIsLatest, Accepted, TrueToTools, Runs,
           CallKeys, IsRunFailure, LoopFailure, IsAnswerTo, Declares;
      ghost var names, signatures := nameCounts, sigCounts;
      var verdict := Admit(tc);
      if verdict == Loop {
        LoopStops(charges, names, signatures, nameCounts, sigCounts);
        assert CallKeys(tc.name, tc.args)[0] == tc.name && !Over(tc.name, names, tc.name);
        assert charges[|charges|..] == [];
        exit := Stop(LoopFailure(tc.name));
        return;
      }
      ghost var log := charges;
      var result := Execute(tc, verdict == Run_, names, signatures);
      assert charges[|log|..] == [charges[|log|]];
      if !result.error && cfg.answerFromTool != "" && tc.name == cfg.answerFromTool {
        exit := Stop(result.text);
        return;
      }
      Answer(tc, result, verdict == Run_);
      return None;
    }

    /** Puts the result of the call that ran last, or the refusal, into the transcript. */
    method Answer(tc: ToolRequest, result: ToolOutcome, run: bool)
      requires run ==> ran > 0
      requires result == if run then w.tool(ran - 1) else REFUSAL
      modifies this`history
      ensures |history| == |old(history)| + 1 && history[..|old(history)|] == old(history)
      ensures IsAnswerTo(tc, run, if run then ran - 1 else ran, history[|old(history)|])
    {
      var preview := if result.error || ran == 0 then None else w.stored(ran - 1);
      history := history + [ToolMessage(tc, ResultText(result, preview), result.images)];
    }

    method Stop(text: string) returns (exit: Option<string>)
      ensures exit.Some? && (IsRunFailure(exit.value) || Accepted(cfg, w, satisfied, exit.value))
      ensures FinishedWith(cfg, w, satisfied, text, exit.value)
    {
      var r := Finish(text);
      return Some(r);
    }

    /**
     From `length` on the transcript is the message that asks and, in order, an
     answer to each call, each of them charged behind the `before` ones.
     */
    ghost predicate TurnAnswered(reply: Reply, length: nat, before: seq<Charge>)
      reads this
    {
      && |history| == length + 1 + |reply.calls|
      && history[length] == AssistantMessage(reply.content, RecordsOf(w, reply.calls))
      && |charges| == |before| + |reply.calls| && before <= charges
      && forall k :: 0 <= k < |reply.calls| ==>
        && charges[|before| + k].request == reply.calls[k]
        && Answers(history[length + 1 + k], reply.calls[k].id)
    }

    /** A completion with calls: every one is answered, in order, right behind the message that asks. */
    method CallTurn(step: nat, reply: Reply) returns (exit: Option<string>)
      requires Accounted() && WellFormed(history) && Logged(step)
      modifies this`history, this`sigCounts, this`nameCounts, this`exhausted, this`satisfied, this`charges,
        this`ran, this`lastTool
      ensures Accounted() && Logged(step) && Kept(old(history), history)
      ensures exit.Some? ==> IsRunFailure(exit.value) || Accepted(cfg, w, satisfied, exit.value)
      ensures exit.None? ==> WellFormed(history) && TurnAnswered(reply, |old(history)|, old(charges))
      ensures exit.None? ==> NoneAnswers(cfg, charges[|old(charges)|..])
      ensures old(charges) <= charges
      ensures exit.Some? ==> exists k ::
        CallEnds(cfg, w, satisfied, nameCounts, ran, reply.calls, charges[|old(charges)|..], k, exit.value)
    {
      hide Accounted, Accepted, WellFormed, ProperLog, ResultText, CallEnds, NoneAnswers, IsAnswerTo;
      NothingAnswers(cfg);
      ghost var before, asking, n := history, AssistantMessage(reply.content, RecordsOf(w, reply.calls)), |charges|;
      history := history + [AssistantMessage(reply.content, RecordsOf(w, reply.calls))];
      assert charges[n..] == [];
      for k := 0 to |reply.calls|
        invariant Accounted() && Logged(step)
        invariant |history| == |before| + 1 + k && history[..|before|] == before && history[|before|] == asking
        invariant forall j :: 0 <= j < k ==> Answers(history[|before| + 1 + j], reply.calls[j].id)
        invariant |charges| == n + k
        invariant forall j :: 0 <= j < k ==> charges[n + j].request == reply.calls[j]
        invariant old(charges) <= charges && NoneAnswers(cfg, charges[n..])
      {
        ghost var offeredBefore, past, log, runs := exhausted, history, charges, ran;
        exit := ChargeCall(reply.calls[k]);
        WithdrawKeepsLog(completions, nudges, NOTICE, offeredBefore, exhausted);
        if exit.Some? {
          PrefixIsKept(before, history);
          EndsAtCall(cfg, w, satisfied, nameCounts, ran, reply.calls, log, charges, n, k, exit.value);
          return;
        }
        NoneAnswersYet(cfg, log, charges, n);
        AnswersIt(reply.calls[k], charges[|log|].dispatched, runs, history[|past|]);
        AnsweredSoFar(before, asking, reply.calls, past, history, k);
        ChargedSoFar(reply.calls, log, charges, n, k);
      }
      PrefixIsKept(before, history);
      AnsweredTurnKeepsWellFormed(before, history);
      return None;
    }

    // ── The loop ──

    /** Everything a run has promised by the start of a step. */
    ghost predicate Running(step: nat, start: seq<ChatMessage>)
      reads this
    {
      && WellFormed(history) && Kept(start, history)
      && Accounted() && Logged(step) && NudgesCounted(step)
      && ChoicesRestored() && tokenRatio >= 1.0
      && (forceToolCall <==> NudgedBefore(step, nudges))
      && stepLimit <= cfg.maxSteps + |nudges|
      && step <= |completions| <= 3 * step + Flag(overflowRetried)
      && AllBefore(completions, step)
      && Heeded(w, completions, nudges, step) && Requests(charges) == CallsAsked(w, completions)
    }

    /** What every exit keeps. */
    ghost predicate Left(steps: nat, start: seq<ChatMessage>)
      reads this
    {
      && |nudges| <= Budget() && steps <= |completions| <= 3 * steps + Flag(overflowRetried)
      && Accounted() && ChoicesRestored() && Kept(start, history)
      && ProperLog(completions, nudges, NOTICE, exhausted) && asked == |completions|
      && Heeded(w, completions, nudges, steps - 1) && Requests(charges) <= CallsAsked(w, completions)
    }

    /** What becomes of a completion: an answer to judge, or calls to run. */
    method Respond(step: nat, reply: Reply, ghost start: seq<ChatMessage>) returns (text: Option<string>)
      requires JsonTextOk(w) && WellFormed(history) && Kept(start, history)
      requires Accounted() && Logged(step) && NudgesCounted(step) && ChoicesRestored() && !forceToolCall
      modifies this
      ensures overflowRetried == old(overflowRetried) && tokenRatio == old(tokenRatio)
      ensures Kept(start, history) && Accounted() && Logged(step) && ChoicesRestored() && |nudges| <= Budget()
      ensures |old(completions)| <= |completions| <= |old(completions)| + 1
      ensures text.Some? ==> IsRunFailure(text.value) || Accepted(cfg, w, satisfied, text.value)
      ensures RetriedOnly(old(completions), completions, step) && old(charges) <= charges
      ensures text.Some? ==> nudges == old(nudges)
      ensures if reply.calls == [] then
                && charges == old(charges)
                && (text.Some? ==>
                      AnswerEnds(cfg, w, satisfied, |nudges|, lastTool, step, reply.content, w.llm(old(asked)), text.value))
                && (text.None? ==>
                      && AnswerIsNudged(cfg, w, satisfied, |old(nudges)|, step, reply.content, w.llm(old(asked)))
                      && old(nudges) <= nudges && |nudges| == |old(nudges)| + 1 && RemindedAt(nudges, step))
              else
                && completions == old(completions) && nudges == old(nudges)
                && (text.Some? ==> exists k ::
                      CallEnds(cfg, w, satisfied, nameCounts, ran, reply.calls, charges[|old(charges)|..], k, text.value))
                && (text.None? ==>
                      TurnAnswered(reply, |old(history)|, old(charges)) && NoneAnswers(cfg, charges[|old(charges)|..]))
      ensures text.None? ==>
        && WellFormed(history) && NudgesCounted(step + 1) && (forceToolCall <==> NudgedBefore(step + 1, nudges))
        && |old(nudges)| <= |nudges| && stepLimit - |nudges| <= old(stepLimit) - |old(nudges)|
    {
      hide WellFormed, Kept, Accounted, Logged, Accepted, NudgedBefore, JsonTextOk, AnswerOf, SchemaViolated,
           HasSchema, Canonical, EmptyAnswerFailure, Missing, IsRunFailure, TurnAnswered, AnswerEnds, AnswerIsNudged,
           CallEnds, NoneAnswers;
      ghost var answered := history;
      if reply.calls == [] {
        text := AnswerTurn(step, reply.content);
        if text.None? { KeptTransitive(start, answered, history); }
      } else {
        text := CallTurn(step, reply);
        KeptTransitive(start, answered, history);
        NoNudgeYet(step, nudges);
      }
    }

    ghost function End(): Outcome
      reads this
    {
      Outcome(satisfied, nameCounts, ran, charges, |nudges|, lastTool, asked)
    }

    /**
     A step that does not end the run, from a transcript of this length and this
     many reminders: its words got a reminder, or its calls were all answered
     and none was the answer.
     */
    ghost predicate WentOn(step: nat, reply: Reply, retry: LlmOutcome, length: nat, before: seq<Charge>, nudged: nat)
      reads this
    {
      if reply.calls == [] then
        && AnswerIsNudged(cfg, w, satisfied, nudged, step, reply.content, retry)
        && |nudges| == nudged + 1 && RemindedAt(nudges, step) && charges == before
      else
        && |nudges| == nudged && TurnAnswered(reply, length, before) && NoneAnswers(cfg, charges[|before|..])
    }

    /** What the completion comes to, and what the log says then. */
    method Conclude(step: nat, reply: Reply, ghost log: seq<Completion>, ghost start: seq<ChatMessage>)
      returns (text: Option<string>)
      requires JsonTextOk(w) && WellFormed(history) && Kept(start, history)
      requires Accounted() && Logged(step) && NudgesCounted(step) && ChoicesRestored() && !forceToolCall
      requires Sent(w, log, completions, step) && completions != [] && w.llm(|completions| - 1) == Answered(reply)
      requires Heeded(w, log, nudges, step) && AllBefore(log, step) && Requests(charges) == CallsAsked(w, log)
      modifies this
      ensures overflowRetried == old(overflowRetried) && tokenRatio == old(tokenRatio)
      ensures Kept(start, history) && Accounted() && Logged(step) && ChoicesRestored() && |nudges| <= Budget()
      ensures |old(completions)| <= |completions| <= |old(completions)| + 1
      ensures text.Some? ==>
        && StepEnds(cfg, w, End(), step, |old(completions)| - 1, Returned(text.value))
        && Ends(cfg, w, satisfied, asked, Returned(text.value))
        && Heeded(w, completions, nudges, step) && Requests(charges) <= CallsAsked(w, completions)
      ensures text.None? ==>
        && WentOn(step, reply, w.llm(|old(completions)|), |old(history)|, old(charges), |old(nudges)|)
        && Heeded(w, completions, nudges, step + 1) && AllBefore(completions, step + 1)
        && Requests(charges) == CallsAsked(w, completions)
      ensures text.None? ==>
        && WellFormed(history) && NudgesCounted(step + 1) && (forceToolCall <==> NudgedBefore(step + 1, nudges))
        && |old(nudges)| <= |nudges| && stepLimit - |nudges| <= old(stepLimit) - |old(nudges)|
    {
      hide WellFormed, Kept, Accounted, Logged, Accepted, NudgedBefore, JsonTextOk, IsRunFailure, Sent, RetriedOnly,
           Heeded, AllBefore, CallsAsked, Requests, AnswerEnds, AnswerIsNudged, NoneAnswers, CallEnds, NudgesCounted;
      ghost var mid, said, before := completions, nudges, charges;
      AskedIsLogged(step);
      text := Respond(step, reply, start);
      AskedIsLogged(step);
      AskedMore(w, log, mid, completions, step);
      if text.Some? {
        HeededSoFar(w, log, mid, completions, said, nudges, step);
        if reply.calls != [] { ChargedSome(cfg, w, End(), reply.calls, before, text.value); }
      } else {
        HeededNow(w, log, mid, completions, said, nudges, step);
        if reply.calls != [] { ChargedAll(reply.calls, before, charges); }
      }
    }

    /** One iteration: it ends the run as its completion says, or leaves everything promised for the next one. */
    method Step(step: nat, ghost start: seq<ChatMessage>) returns (exit: Option<RunResult>, ghost at: nat)
      requires JsonTextOk(w) && Running(step, start)
      modifies this
      ensures old(asked) <= at < asked
      ensures exit.Some? ==> StepEnds(cfg, w, End(), step, at, exit.value)
      ensures exit.None? ==>
        && w.llm(at).Answered?
        && WentOn(step, w.llm(at).reply, w.llm(at + 1), |old(history)|, old(charges), |old(nudges)|)
      ensures exit.Some? ==> Ends(cfg, w, satisfied, asked, exit.value) && Left(step + 1, start)
      ensures exit.None? ==> Running(step + 1, start) && |nudges| >= |old(nudges)|
    {
      hide WellFormed, Kept, Accounted, ProperLog, Accepted, NudgedBefore, JsonTextOk, Without, IsRunFailure, Sent,
           RetriedOnly, Heeded, AllBefore, CallsAsked, Requests, AnswerEnds, CallEnds, Logged, NudgesCounted, WentOn;
      ghost var atStart, log := history, completions;
      AskedIsLogged(step);
      NudgesWithin(step);
      var reply := Complete(step);
      AskedIsLogged(step);
      SentMore(w, log, completions, step);
      at := asked - 1;
      KeptTransitive(start, atStart, history);
      if reply.None? {
        HeededSoFar(w, log, completions, completions, nudges, nudges, step);
        AskedMore(w, log, completions, completions, step);
        return Some(Threw), at;
      }
      var text := Conclude(step, reply.value, log, start);
      AskedIsLogged(step);
      return if text.Some? then Some(Returned(text.value)) else None, at;
    }

    /**
     The run. Whatever the model, the tools and the stop button do: it ends
     within max_steps plus the nudge budget, and as the last completion says, at
     the first press of the button, or at the limit; a completion without calls
     ends it or gets a reminder, and every call is charged once, in order.
     */
    method RunLoop() returns (r: RunResult, ghost steps: nat, ghost at: nat)
      requires JsonTextOk(w) && Running(0, history)
      modifies this
      ensures ProperResult(cfg, w, End(), steps, stepLimit, at, r)
      ensures steps <= Max(cfg.maxSteps, 0) + Budget() && Left(steps, old(history))
      ensures forall k: nat :: k < steps ==> !w.stopped(k)
      ensures steps == 0 ==> old(stepLimit) <= 0 || w.stopped(0)
    {
      hide WellFormed, Kept, Accounted, ProperLog, Accepted, NudgedBefore, JsonTextOk, StepEnds, Heeded, AllBefore,
           CallsAsked, Requests, FinishedWith;
      ghost var start := history;
      var step := 0;
      at := 0;
      while step < stepLimit
        invariant 0 <= step <= Max(cfg.maxSteps, 0) + |nudges|
        invariant Running(step, start)
        invariant forall k: nat :: k < step ==> !w.stopped(k)
        invariant step == 0 ==> stepLimit == old(stepLimit)
        decreases Max(cfg.maxSteps, 0) + Budget() - step
      {
        HeededBefore(w, completions, nudges, step);
        if w.stopped(step) { return Returned(STOPPED), step, at; }
        var exit;
        exit, at := Step(step, start);
        step := step + 1;
        if exit.Some? { return exit.value, step, at; }
      }
      HeededBefore(w, completions, nudges, step);
      var text := Finish(MaxStepsFailure(lastTool));
      return Returned(text), step, at;
    }
  }

  /** A run starts from a well-formed transcript and nothing else. */
  method Run(cfg: Config, w: World, history: seq<ChatMessage>)
    returns (agent: Agent, r: RunResult, ghost steps: nat, ghost at: nat)
    requires JsonTextOk(w) && WellFormed(history)
    ensures fresh(agent) && agent.cfg == cfg && agent.w == w
    ensures ProperResult(cfg, w, agent.End(), steps, agent.stepLimit, at, r)
    ensures (forall k: nat :: k < steps ==> !w.stopped(k)) && (steps == 0 ==> cfg.maxSteps <= 0 || w.stopped(0))
    ensures steps <= Max(cfg.maxSteps, 0) + NudgeBudget(cfg.required) && |agent.nudges| <= NudgeBudget(cfg.required)
    ensures steps <= |agent.completions| <= 3 * steps + 1
    ensures Heeded(w, agent.completions, agent.nudges, steps - 1)
    ensures Requests(agent.charges) <= CallsAsked(w, agent.completions)
    ensures WithinBudget(agent.charges, cfg.maxSteps, cfg.toolLimits)
    ensures SatisfiedIsLatest(agent.charges, agent.satisfied) && TrueToTools(agent.charges, w)
    ensures agent.asked == |agent.completions| && agent.ran == Runs(agent.charges)
    ensures ProperLog(agent.completions, agent.nudges, NOTICE, agent.exhausted)
    ensures agent.ChoicesRestored() && Kept(history, agent.history)
  {
    agent := new Agent(cfg, w, history);
    r, steps, at := agent.RunLoop();
  }

  // ── What was asked, what was heeded ──

  lemma HeededBefore(w: World, log: seq<Completion>, nudges: seq<Nudge>, step: nat)
    requires Heeded(w, log, nudges, step)
    ensures Heeded(w, log, nudges, step - 1)
  {
  }

  lemma SentMore(w: World, before: seq<Completion>, after: seq<Completion>, step: nat)
    requires Sent(w, before, after, step)
    ensures |before| < |after| && RetriedOnly(after, after, step)
  {
  }

  lemma StillReminded(before: seq<Nudge>, now: seq<Nudge>, step: nat)
    requires before <= now && RemindedAt(before, step)
    ensures RemindedAt(now, step)
  {
  }

  /** A step leaves the earlier steps heeded. */
  lemma HeededSoFar(w: World, before: seq<Completion>, mid: seq<Completion>, after: seq<Completion>,
                    said: seq<Nudge>, nudges: seq<Nudge>, step: nat)
    requires Heeded(w, before, said, step) && said <= nudges
    requires Sent(w, before, mid, step) && RetriedOnly(mid, after, step)
    ensures Heeded(w, after, nudges, step)
  {
    forall i: nat | i < |after| && after[i].step < step && !after[i].retry && SaysOnly(w.llm(i))
      ensures RemindedAt(nudges, after[i].step)
    {
      assert i < |mid| ==> after[i] == after[..|mid|][i] == mid[i];
      assert i < |before| ==> mid[i] == mid[..|before|][i] == before[i];
      StillReminded(said, nudges, after[i].step);
    }
  }

  /** And itself, once its words have got their reminder. */
  lemma HeededNow(w: World, before: seq<Completion>, mid: seq<Completion>, after: seq<Completion>,
                  said: seq<Nudge>, nudges: seq<Nudge>, step: nat)
    requires Heeded(w, before, said, step) && AllBefore(before, step) && said <= nudges
    requires Sent(w, before, mid, step) && RetriedOnly(mid, after, step)
    requires SaysOnly(w.llm(|mid| - 1)) ==> RemindedAt(nudges, step)
    ensures Heeded(w, after, nudges, step + 1) && AllBefore(after, step + 1)
  {
    forall i: nat | i < |after|
      ensures after[i].step < step + 1
      ensures !after[i].retry && SaysOnly(w.llm(i)) ==> RemindedAt(nudges, after[i].step)
    {
      assert i < |mid| ==> after[i] == after[..|mid|][i] == mid[i];
      assert i < |before| ==> mid[i] == mid[..|before|][i] == before[i];
      if i < |before| && !before[i].retry && SaysOnly(w.llm(i)) { StillReminded(said, nudges, before[i].step); }
    }
  }

  lemma {:induction false} RefusedAsksNothing(w: World, before: seq<Completion>, after: seq<Completion>)
    requires |before| <= |after| && after[..|before|] == before
    requires forall i :: |before| <= i < |after| ==> after[i].retry || w.llm(i).Refused?
    ensures CallsAsked(w, after) == CallsAsked(w, before)
  {
    if |after| == |before| {
      assert after == before;
    } else {
      var init := after[..|after| - 1];
      assert init[..|before|] == before;
      RefusedAsksNothing(w, before, init);
    }
  }

  /** A step asks for what the answer to its last request calls. */
  lemma AskedMore(w: World, before: seq<Completion>, mid: seq<Completion>, after: seq<Completion>, step: nat)
    requires Sent(w, before, mid, step) && RetriedOnly(mid, after, step)
    ensures CallsAsked(w, after) == CallsAsked(w, before) +
      match w.llm(|mid| - 1) case Answered(reply) => reply.calls case Refused(_, _) => []
  {
    var init := mid[..|mid| - 1];
    assert init[..|before|] == before;
    RefusedAsksNothing(w, before, init);
    RefusedAsksNothing(w, mid, after);
  }

  lemma {:induction false} ChargedAll(calls: seq<ToolRequest>, before: seq<Charge>, now: seq<Charge>)
    requires before <= now && |now| == |before| + |calls|
    requires forall k :: 0 <= k < |calls| ==> now[|before| + k].request == calls[k]
    ensures Requests(now) == Requests(before) + calls
  {
  }

  lemma ChargedSome(cfg: Config, w: World, end: Outcome, calls: seq<ToolRequest>, before: seq<Charge>, text: string)
    requires before <= end.charges
    requires exists k :: CallEnds(cfg, w, end.satisfied, end.names, end.ran, calls, end.charges[|before|..], k, text)
    ensures Requests(end.charges) <= Requests(before) + calls
  {
    var charged := end.charges[|before|..];
    var k :| CallEnds(cfg, w, end.satisfied, end.names, end.ran, calls, charged, k, text);
    assert forall j :: 0 <= j < |charged| ==> charged[j] == end.charges[|before| + j];
    var r, all := Requests(end.charges), Requests(before) + calls;
    assert |r| <= |all| && forall j :: 0 <= j < |r| ==> r[j] == all[j];
    assert r == all[..|r|];
  }

  datatype Verdict = Run_ | OverBudget(key: string) | Repeated(calls: nat) | Loop

  predicate SchemaViolated(cfg: Config, w: World, text: string) {
    HasSchema(cfg) &&
    match ExtractAnswerJson(w.parse, text)
    case None => true
    case Some(v) => ValidateAnswer(cfg.schema, v).Some?
  }

  /** The extracted value printed again, without whatever the model wrapped it in. */
  function Canonical(w: World, text: string): string {
    match ExtractAnswerJson(w.parse, text)
    case Some(v) => w.dump(v)
    case None => text
  }

  lemma AllDoneIff(cfg: Config, satisfied: set<string>)
    ensures Missing(cfg.required, satisfied) == [] <==> AllDone(cfg, satisfied)
  {
    NothingMissingIff(cfg.required, satisfied);
  }

  lemma CanonicalIsDumped(cfg: Config, w: World, text: string)
    requires HasSchema(cfg) && Fits(cfg, w, text)
    ensures ExtractAnswerJson(w.parse, text).Some?
    ensures Canonical(w, text) == w.dump(ExtractAnswerJson(w.parse, text).value)
  {
  }

  lemma ViolatedIff(cfg: Config, w: World, text: string)
    ensures SchemaViolated(cfg, w, text) <==> !Fits(cfg, w, text)
  {
    if ExtractAnswerJson(w.parse, text).Some? {
      ValidateIff(cfg.schema, ExtractAnswerJson(w.parse, text).value);
    }
  }

  lemma NotViolatedIsAccepted(cfg: Config, w: World, satisfied: set<string>, text: string)
    requires Missing(cfg.required, satisfied) == [] && !SchemaViolated(cfg, w, text)
    ensures Accepted(cfg, w, satisfied, text)
  {
    NothingMissingIff(cfg.required, satisfied);
    if HasSchema(cfg) {
      ValidateIff(cfg.schema, ExtractAnswerJson(w.parse, text).value);
    }
  }

  lemma PlainAnswerIsAccepted(cfg: Config, w: World, satisfied: set<string>, text: string)
    requires Missing(cfg.required, satisfied) == [] && !HasSchema(cfg)
    ensures Accepted(cfg, w, satisfied, text) && !SchemaViolated(cfg, w, text)
  {
    NothingMissingIff(cfg.required, satisfied);
  }

  /** The canonical text of an extracted value is itself an accepted answer. */
  lemma CanonicalIsAccepted(cfg: Config, w: World, satisfied: set<string>, text: string)
    requires JsonTextOk(w) && Missing(cfg.required, satisfied) == []
    requires HasSchema(cfg) && !SchemaViolated(cfg, w, text)
    ensures Accepted(cfg, w, satisfied, Canonical(w, text))
  {
    var v := ExtractAnswerJson(w.parse, text).value;
    var source := ExtractedIsParsed(w.parse, text);
    assert w.parse(w.dump(v)) == w.parse(source) == Some(v);
    assert ExtractAnswerJson(w.parse, w.dump(v)) == Some(v);
    NotViolatedIsAccepted(cfg, w, satisfied, w.dump(v));
  }

  lemma NoNudgeYet(step: nat, nudges: seq<Nudge>)
    requires forall n :: n in nudges ==> n.step < step
    ensures !NudgedBefore(step + 1, nudges)
  {
  }

  // ── The log against the tools ──

  function Runs(charges: seq<Charge>): nat {
    if charges == [] then 0
    else Runs(charges[..|charges| - 1]) + if charges[|charges| - 1].dispatched then 1 else 0
  }

  /** A call is logged a success exactly when its tool ran and reported no error. */
  ghost predicate TrueToTools(charges: seq<Charge>, w: World) {
    charges == [] ||
    var before, last := charges[..|charges| - 1], charges[|charges| - 1];
    TrueToTools(before, w) && (last.ok <==> last.dispatched && !w.tool(Runs(before)).error)
  }

  /** Counting a call that then stops the run leaves the counters covering the log. */
  lemma LoopStops(charges: seq<Charge>, names: map<string, nat>, signatures: map<string, nat>,
                  names': map<string, nat>, signatures': map<string, nat>)
    requires CountersCover(charges, names, signatures)
    requires forall key :: Count(names, key) <= Count(names', key)
    requires forall key :: Count(signatures, key) <= Count(signatures', key)
    ensures CountersCover(charges, names', signatures')
  {
    forall key ensures Dispatched(charges, key) <= Count(names', key)
               ensures DispatchedTool(charges, key) <= Count(names', key) {
      assert Dispatched(charges, key) <= Count(names, key);
      assert DispatchedTool(charges, key) <= Count(names, key);
    }
  }

  lemma AnsweredSoFar(before: seq<ChatMessage>, asking: ChatMessage, calls: seq<ToolRequest>, past: seq<ChatMessage>,
                      now: seq<ChatMessage>, k: nat)
    requires k < |calls| && |past| == |before| + 1 + k && past[..|before|] == before && past[|before|] == asking
    requires forall j :: 0 <= j < k ==> Answers(past[|before| + 1 + j], calls[j].id)
    requires |now| == |past| + 1 && now[..|past|] == past && Answers(now[|past|], calls[k].id)
    ensures now[..|before|] == before && now[|before|] == asking
    ensures forall j :: 0 <= j < k + 1 ==> Answers(now[|before| + 1 + j], calls[j].id)
  {
    hide Answers;
    assert forall j :: 0 <= j < |past| ==> now[j] == now[..|past|][j];
    assert now[..|before|] == past[..|before|];
  }

  lemma ChargedSoFar(calls: seq<ToolRequest>, log: seq<Charge>, now: seq<Charge>, n: nat, k: nat)
    requires k < |calls| && |log| == n + k && |now| == |log| + 1 && now[..|log|] == log && now[|log|].request == calls[k]
    requires forall j :: 0 <= j < k ==> log[n + j].request == calls[j]
    ensures forall j :: 0 <= j < k + 1 ==> now[n + j].request == calls[j]
  {
    assert forall j :: 0 <= j < |log| ==> now[j] == now[..|log|][j];
  }

  lemma NothingAnswers(cfg: Config)
    ensures NoneAnswers(cfg, [])
  {
  }

  lemma NoneAnswersYet(cfg: Config, log: seq<Charge>, now: seq<Charge>, n: nat)
    requires n <= |log| <= |now| && now[..|log|] == log
    requires NoneAnswers(cfg, log[n..]) && NoneAnswers(cfg, now[|log|..])
    ensures NoneAnswers(cfg, now[n..])
  {
    forall j | 0 <= j < |now[n..]| && now[n..][j].ok
      ensures now[n..][j].request.name != cfg.answerFromTool || cfg.answerFromTool == ""
    {
      if n + j < |log| {
        assert log[n..][j] == now[..|log|][n + j];
      } else {
        assert now[|log|..][n + j - |log|] == now[n..][j];
      }
    }
  }

  /** The call at which a turn ends, as the k-th of the completion's. */
  lemma EndsAtCall(cfg: Config, w: World, satisfied: set<string>, names: map<string, nat>, ran: nat,
                   calls: seq<ToolRequest>, log: seq<Charge>, now: seq<Charge>, n: nat, k: nat, text: string)
    requires k < |calls| && |log| == n + k && log <= now
    requires forall j :: 0 <= j < k ==> log[n + j].request == calls[j]
    requires CallEnds(cfg, w, satisfied, names, ran, [calls[k]], now[|log|..], 0, text)
    ensures CallEnds(cfg, w, satisfied, names, ran, calls, now[n..], k, text)
  {
    hide FinishedWith, PastCeiling;
    var turn, last := now[n..], now[|log|..];
    assert |turn| == k + |last|;
    forall j | 0 <= j < |turn| ensures turn[j].request == calls[j] {
      if j < k { assert turn[j] == log[n + j]; } else { assert turn[j] == last[j - k]; }
    }
    if |last| == 1 { assert turn[k] == last[0]; }
  }

  // ── The transcript ──

  lemma PrefixIsKept(before: seq<ChatMessage>, now: seq<ChatMessage>)
    requires |before| <= |now| && now[..|before|] == before
    ensures Kept(before, now)
  {
    assert forall k :: 0 <= k < |before| ==> now[k] == now[..|before|][k];
  }

  /** An assistant message with its calls, each answered in order, extends a well-formed transcript. */
  lemma {:induction false} AnsweredTurnKeepsWellFormed(before: seq<ChatMessage>, now: seq<ChatMessage>)
    requires WellFormed(before) && |before| < |now| && now[..|before|] == before
    requires now[|before|].role == Assistant && |now| == |before| + 1 + |now[|before|].calls|
    requires forall k :: 0 <= k < |now[|before|].calls| ==>
      Answers(now[|before| + 1 + k], now[|before|].calls[k].id)
    ensures WellFormed(now)
  {
    var turn := now[|before|..];
    assert forall k :: 0 <= k < |turn| ==> turn[k] == now[|before| + k];
    assert turn[1 + |Asked(turn[0])|..] == [];
    assert WellFormed(turn);
    WellFormedAppend(before, turn);
    assert now == before + turn;
  }

  function Flag(b: bool): nat { if b then 1 else 0 }

  lemma {:induction false} NoneWithout(tools: seq<ToolEntry>)
    ensures Without(tools, {}) == tools
  {
    if tools != [] {
      NoneWithout(tools[..|tools| - 1]);
    }
  }
}
