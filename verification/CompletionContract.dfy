/** Which tools an answer still needs a success of, and the texts that tell the model so. */
module CompletionContract {

  // "FAILED — ", the dash in UTF-8
  const FAILURE_MARKER := "FAILED \U{E2}\U{80}\U{94} "

  /** A prefix test: a model that writes about a failure has not failed. */
  predicate IsRunFailure(answer: string) { FAILURE_MARKER <= answer }

  // Slack on top of one reminder per required tool, and the budget without a contract.
  const NUDGE_SLACK: nat := 2
  const SCHEMA_NUDGES: nat := 3

  function NudgeBudget(required: seq<string>): nat {
    if required != [] then |required| + NUDGE_SLACK else SCHEMA_NUDGES
  }

  /** The first n required tools that are not satisfied, each named once, in declaration order. */
  function MissingOf(required: seq<string>, satisfied: set<string>, n: nat): seq<string>
    requires n <= |required|
  {
    if n == 0 then []
    else
      var before := MissingOf(required, satisfied, n - 1);
      var tool := required[n - 1];
      if tool in satisfied || tool in required[..n - 1] then before else before + [tool]
  }

  function Missing(required: seq<string>, satisfied: set<string>): seq<string> {
    MissingOf(required, satisfied, |required|)
  }

  method ComputeMissing(required: seq<string>, satisfied: set<string>) returns (out: seq<string>)
    ensures out == Missing(required, satisfied)
  {
    out := [];
    var seen: set<string> := {};
    for i := 0 to |required|
      invariant out == MissingOf(required, satisfied, i)
      invariant forall tool :: tool in seen <==> tool in required[..i] && tool !in satisfied
    {
      var tool := required[i];
      assert required[..i + 1] == required[..i] + [tool];
      if tool in satisfied { continue; }
      if tool in seen { continue; }
      seen := seen + {tool};
      out := out + [tool];
    }
  }

  /** Exactly the unsatisfied required tools, none twice. */
  lemma {:induction false} MissingMeans(required: seq<string>, satisfied: set<string>, n: nat)
    requires n <= |required|
    ensures forall tool :: tool in MissingOf(required, satisfied, n) <==>
              tool in required[..n] && tool !in satisfied
    ensures forall i, j :: 0 <= i < j < |MissingOf(required, satisfied, n)| ==>
              MissingOf(required, satisfied, n)[i] != MissingOf(required, satisfied, n)[j]
  {
    if n > 0 {
      MissingMeans(required, satisfied, n - 1);
      assert required[..n] == required[..n - 1] + [required[n - 1]];
      var before, now := MissingOf(required, satisfied, n - 1), MissingOf(required, satisfied, n);
      forall i, j | 0 <= i < j < |now| ensures now[i] != now[j] {
        if j == |before| {
          assert now[i] in before;
        }
      }
    }
  }

  /** Nothing is missing exactly when every required tool is satisfied. */
  lemma NothingMissingIff(required: seq<string>, satisfied: set<string>)
    ensures Missing(required, satisfied) == [] <==> forall tool :: tool in required ==> tool in satisfied
  {
    MissingMeans(required, satisfied, |required|);
    assert required[..|required|] == required;
    var missing := Missing(required, satisfied);
    assert missing != [] ==> missing[0] in missing;
  }

  // ── The texts a run ends with ──

  /** "a, b and c" */
  function JoinTools(tools: seq<string>): string {
    JoinFrom(tools, 0)
  }

  function Ticked(tool: string): string { "`" + tool + "`" }

  function JoinFrom(tools: seq<string>, i: nat): string
    decreases |tools| - i
  {
    if i >= |tools| then ""
    else
      (if i == 0 then "" else if i + 1 == |tools| then " and " else ", ")
      + Ticked(tools[i]) + JoinFrom(tools, i + 1)
  }

  /** Each in backquotes, commas between. */
  function Listed(tools: seq<string>): string {
    if tools == [] then ""
    else if |tools| == 1 then "`" + tools[0] + "`"
    else Listed(tools[..|tools| - 1]) + ", " + ("`" + tools[|tools| - 1] + "`")
  }

  /** All of them are named, in order, the last behind an "and". */
  lemma {:induction false} JoinedNamesAll(tools: seq<string>)
    ensures |tools| <= 1 ==> JoinTools(tools) == Listed(tools)
    ensures |tools| >= 2 ==>
      JoinTools(tools) == Listed(tools[..|tools| - 1]) + " and " + ("`" + tools[|tools| - 1] + "`")
  {
    if |tools| >= 1 {
      assert JoinFrom(tools, 0) == Ticked(tools[0]) + JoinFrom(tools, 1);
      assert Listed(tools[..1]) == Ticked(tools[0]);
    }
    if |tools| >= 2 { JoinedFrom(tools, 1); }
  }

  lemma ListedStep(tools: seq<string>, i: nat)
    requires 1 <= i < |tools|
    ensures Listed(tools[..i + 1]) == Listed(tools[..i]) + ", " + Ticked(tools[i])
  {
    assert tools[..i + 1][..i] == tools[..i];
  }

  lemma JoinStep(tools: seq<string>, i: nat)
    requires 1 <= i < |tools|
    ensures i + 1 < |tools| ==> JoinFrom(tools, i) == ", " + Ticked(tools[i]) + JoinFrom(tools, i + 1)
    ensures i + 1 == |tools| ==> JoinFrom(tools, i) == " and " + Ticked(tools[i])
  {
    hide Ticked;
  }

  lemma {:induction false} Regroup(a: string, b: string, c: string, d: string)
    ensures a + (b + c + d) == a + b + c + d && a + (b + c) == a + b + c
  {
  }

  lemma {:induction false} JoinedFrom(tools: seq<string>, i: nat)
    requires 1 <= i < |tools|
    ensures Listed(tools[..i]) + JoinFrom(tools, i) == Listed(tools[..|tools| - 1]) + " and " + Ticked(tools[|tools| - 1])
    decreases |tools| - i
  {
    hide Ticked, Listed, JoinFrom;
    JoinStep(tools, i);
    if i + 1 < |tools| {
      ListedStep(tools, i);
      JoinedFrom(tools, i + 1);
      Regroup(Listed(tools[..i]), ", ", Ticked(tools[i]), JoinFrom(tools, i + 1));
    } else {
      Regroup(Listed(tools[..i]), " and ", Ticked(tools[i]), "");
    }
  }

  function ContractNudge(missing: seq<string>): string { JoinTools(missing) + " has not succeeded yet" }

  function ContractFailure(missing: seq<string>, answer: string): (s: string)
    ensures IsRunFailure(s)
  {
    FAILURE_MARKER + "these required calls never succeeded: " + JoinTools(missing) + answer
  }

  function SchemaFailure(answer: string): (s: string)
    ensures IsRunFailure(s)
  {
    FAILURE_MARKER + "no usable answer: " + answer
  }

  function EmptyAnswerFailure(lastTool: string): (s: string)
    ensures IsRunFailure(s)
  {
    FAILURE_MARKER + "no answer after " + lastTool
  }

  function LoopFailure(tool: string): (s: string)
    ensures IsRunFailure(s)
  {
    FAILURE_MARKER + "no progress with " + tool
  }

  function MaxStepsFailure(lastTool: string): (s: string)
    ensures IsRunFailure(s)
  {
    FAILURE_MARKER + "out of steps after " + lastTool
  }
}
