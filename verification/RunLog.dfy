/** What a run leaves behind for its owner to check: every call charged and every completion asked for. */
module RunLog {
  import opened JsonValues
  import opened Transcript
  import opened ToolBudget

  /** A tool call the model asked for; `id` is echoed by the answering message. */
  datatype ToolRequest = ToolRequest(id: string, name: string, args: Json)

  /** One call the loop answered: run, or refused without running. */
  datatype Charge = Charge(request: ToolRequest, signature: string, dispatched: bool, ok: bool) {
    function Keys(): seq<string> { CallKeys(request.name, request.args) }
  }

  function Dispatched(charges: seq<Charge>, key: string): nat {
    if charges == [] then 0
    else
      var last := charges[|charges| - 1];
      Dispatched(charges[..|charges| - 1], key) + if last.dispatched && key in last.Keys() then 1 else 0
  }

  function DispatchedTool(charges: seq<Charge>, name: string): nat {
    if charges == [] then 0
    else
      var last := charges[|charges| - 1];
      DispatchedTool(charges[..|charges| - 1], name) + if last.dispatched && last.request.name == name then 1 else 0
  }

  function Identical(charges: seq<Charge>, signature: string): nat {
    if charges == [] then 0
    else
      var last := charges[|charges| - 1];
      Identical(charges[..|charges| - 1], signature) + if last.signature == signature then 1 else 0
  }

  function DispatchedIdentical(charges: seq<Charge>, signature: string): nat {
    if charges == [] then 0
    else
      var last := charges[|charges| - 1];
      DispatchedIdentical(charges[..|charges| - 1], signature)
      + if last.dispatched && last.signature == signature then 1 else 0
  }

  /** The most recent call charged to `key` succeeded. */
  predicate LatestSucceeded(charges: seq<Charge>, key: string) {
    charges != [] &&
    var last := charges[|charges| - 1];
    if key in last.Keys() then last.ok else LatestSucceeded(charges[..|charges| - 1], key)
  }

  function Count(counts: map<string, nat>, key: string): nat {
    if key in counts then counts[key] else 0
  }

  /** The counters never fall behind the log. */
  ghost predicate CountersCover(charges: seq<Charge>, names: map<string, nat>, signatures: map<string, nat>) {
    && (forall key :: Dispatched(charges, key) <= Count(names, key))
    && (forall name :: DispatchedTool(charges, name) <= Count(names, name))
    && (forall signature :: Identical(charges, signature) <= Count(signatures, signature))
    && (forall signature :: DispatchedIdentical(charges, signature) <= Identical(charges, signature))
  }

  const MIN_SAME_TOOL: int := 6

  function MaxSameTool(maxSteps: int): int {
    if maxSteps > MIN_SAME_TOOL then maxSteps else MIN_SAME_TOOL
  }

  const MAX_IDENTICAL: nat := 2

  /** No tool runs more often than the ceiling, no key more often than declared, nothing three times over. */
  ghost predicate WithinBudget(charges: seq<Charge>, maxSteps: int, limits: ToolLimits) {
    && (forall name :: DispatchedTool(charges, name) <= MaxSameTool(maxSteps))
    && (forall key :: Declares(limits, key) ==> Dispatched(charges, key) <= limits[key])
    && (forall signature :: DispatchedIdentical(charges, signature) <= MAX_IDENTICAL)
  }

  ghost predicate SatisfiedIsLatest(charges: seq<Charge>, satisfied: set<string>) {
    forall key :: key in satisfied <==> LatestSucceeded(charges, key)
  }

  /** The counters after a call of `name` with the given keys has been counted. */
  ghost predicate Counted(before: map<string, nat>, after: map<string, nat>, name: string) {
    && (forall key :: Count(before, key) <= Count(after, key))
    && Count(after, name) == Count(before, name) + 1
  }

  /** Logging one more call keeps the counters covering the log. */
  lemma CountersStep(charges: seq<Charge>, names: map<string, nat>, signatures: map<string, nat>,
                     c: Charge, names': map<string, nat>)
    requires CountersCover(charges, names, signatures)
    requires Counted(names, names', c.request.name)
    requires c.dispatched ==> forall key :: key in c.Keys() ==> Count(names', key) > Count(names, key)
    ensures CountersCover(charges + [c], names',
                          signatures[c.signature := Count(signatures, c.signature) + 1])
  {
    var log := charges + [c];
    assert log[..|log| - 1] == charges;
    forall key ensures Dispatched(log, key) <= Count(names', key) {
      assert Dispatched(charges, key) <= Count(names, key);
    }
    forall name ensures DispatchedTool(log, name) <= Count(names', name) {
      assert DispatchedTool(charges, name) <= Count(names, name);
    }
    var signatures' := signatures[c.signature := Count(signatures, c.signature) + 1];
    forall signature ensures Identical(log, signature) <= Count(signatures', signature)
                     ensures DispatchedIdentical(log, signature) <= Identical(log, signature) {
      assert Identical(charges, signature) <= Count(signatures, signature);
    }
  }

  /** A call that passed every check keeps the run within budget; a refused one always does. */
  lemma BudgetStep(charges: seq<Charge>, names: map<string, nat>, signatures: map<string, nat>,
                   c: Charge, names': map<string, nat>, maxSteps: int, limits: ToolLimits)
    requires CountersCover(charges, names, signatures) && WithinBudget(charges, maxSteps, limits)
    requires c.dispatched ==>
      && (forall key :: key in c.Keys() && Declares(limits, key) ==> Count(names, key) + 1 <= limits[key])
      && Count(names, c.request.name) + 1 <= MaxSameTool(maxSteps)
      && Count(signatures, c.signature) + 1 <= MAX_IDENTICAL
    ensures WithinBudget(charges + [c], maxSteps, limits)
  {
    var log := charges + [c];
    assert log[..|log| - 1] == charges;
    forall name ensures DispatchedTool(log, name) <= MaxSameTool(maxSteps) {
      assert DispatchedTool(charges, name) <= Count(names, name);
    }
    forall key | Declares(limits, key) ensures Dispatched(log, key) <= limits[key] {
      assert Dispatched(charges, key) <= Count(names, key);
    }
    forall signature ensures DispatchedIdentical(log, signature) <= MAX_IDENTICAL {
      assert Identical(charges, signature) <= Count(signatures, signature);
    }
  }

  /** Inserting the keys of a success, erasing those of a failure, tracks the latest outcome. */
  lemma {:induction false} SatisfiedStep(charges: seq<Charge>, satisfied: set<string>, c: Charge, satisfied': set<string>)
    requires SatisfiedIsLatest(charges, satisfied)
    requires forall key :: key in satisfied' <==> if key in c.Keys() then c.ok else key in satisfied
    ensures SatisfiedIsLatest(charges + [c], satisfied')
  {
    var log := charges + [c];
    assert log[..|log| - 1] == charges;
  }

  // ── Completions ──

  datatype ToolEntry = ToolEntry(name: string, size: nat)

  datatype Choice = Configured | Required | Withheld

  datatype Completion = Completion(
    step: nat,
    limit: int,               // the step limit in force
    retry: bool,              // the tool-free second try after an empty completion
    messages: seq<ChatMessage>,
    offered: seq<ToolEntry>,
    choice: Choice,
    vision: bool,
    exhausted: set<string>)   // the tools withdrawn by then

  datatype Nudge = ContractNudged(step: nat) | SchemaNudged(step: nat)

  ghost predicate Offers(offered: seq<ToolEntry>, exhausted: set<string>) {
    forall k :: 0 <= k < |offered| ==> offered[k].name !in exhausted
  }

  predicate EndsWith(h: seq<ChatMessage>, m: ChatMessage) {
    h != [] && h[|h| - 1] == m
  }

  ghost predicate NudgedBefore(step: nat, nudges: seq<Nudge>) {
    step > 0 && ContractNudged(step - 1) in nudges
  }

  /**
   What every completion of a run owes the model: a well-formed transcript, no
   withdrawn tool, a call forced exactly after a contract nudge, and tools
   withheld — with the notice that says so — exactly on the last step and on a
   retry.
   */
  ghost predicate ProperCompletion(c: Completion, nudges: seq<Nudge>, notice: ChatMessage) {
    && WellFormed(c.messages)
    && Offers(c.offered, c.exhausted)
    && c.choice == (if c.retry then Withheld
                    else if NudgedBefore(c.step, nudges) then Required
                    else if c.step + 1 >= c.limit then Withheld
                    else Configured)
    && (c.choice == Withheld ==> EndsWith(c.messages, notice))
    && (c.retry ==> c.offered == [] && c.step > 0)
  }

  /** A log of completions: all proper, steps in order, withdrawn tools only growing. */
  ghost predicate ProperLog(log: seq<Completion>, nudges: seq<Nudge>, notice: ChatMessage, exhausted: set<string>) {
    && (forall i :: 0 <= i < |log| ==> ProperCompletion(log[i], nudges, notice) && log[i].exhausted <= exhausted)
    && (forall i, j :: 0 <= i < j < |log| ==> log[i].step <= log[j].step && log[i].exhausted <= log[j].exhausted)
  }

  lemma LogStep(log: seq<Completion>, nudges: seq<Nudge>, notice: ChatMessage, exhausted: set<string>, c: Completion)
    requires ProperLog(log, nudges, notice, exhausted) && ProperCompletion(c, nudges, notice)
    requires c.exhausted == exhausted && forall i :: 0 <= i < |log| ==> log[i].step <= c.step
    ensures ProperLog(log + [c], nudges, notice, exhausted)
  {
  }

  /** A nudge at a later step says nothing about earlier completions. */
  lemma {:induction false} NudgeKeepsLog(log: seq<Completion>, nudges: seq<Nudge>, notice: ChatMessage,
                                          exhausted: set<string>, n: Nudge)
    requires ProperLog(log, nudges, notice, exhausted)
    requires forall i :: 0 <= i < |log| ==> log[i].step <= n.step
    ensures ProperLog(log, nudges + [n], notice, exhausted)
  {
    forall i | 0 <= i < |log| ensures ProperCompletion(log[i], nudges + [n], notice) {
      assert ProperCompletion(log[i], nudges, notice);
      assert NudgedBefore(log[i].step, nudges + [n]) <==> NudgedBefore(log[i].step, nudges);
    }
  }

  lemma WithdrawKeepsLog(log: seq<Completion>, nudges: seq<Nudge>, notice: ChatMessage,
                         exhausted: set<string>, more: set<string>)
    requires ProperLog(log, nudges, notice, exhausted) && exhausted <= more
    ensures ProperLog(log, nudges, notice, more)
  {
  }
}
