/** Which keys a tool call counts against, and how many calls a key allows. */
module ToolBudget {
  import opened Wrappers
  import opened JsonValues

  const MAX_SCRIPT_NAME: nat := 64

  predicate SafeScriptChar(c: char) {
    'a' <= c <= 'z' || 'A' <= c <= 'Z' || '0' <= c <= '9' || c == '-' || c == '_'
  }

  function Lower(c: char): char {
    if 'A' <= c <= 'Z' then c - 'A' + 'a' else c
  }

  /** Keeps letters, digits, '-' and '_', lower-cased, up to 64 of them. */
  function SafeScriptName(raw: string): (name: string)
    ensures |name| <= MAX_SCRIPT_NAME
  {
    if raw == [] then []
    else
      var before := SafeScriptName(raw[..|raw| - 1]);
      var c := raw[|raw| - 1];
      if |before| < MAX_SCRIPT_NAME && SafeScriptChar(c) then before + [Lower(c)] else before
  }

  const RUN_SCRIPT := "run_script"

  function ScriptOf(tool: string, args: Json): Option<string> {
    if tool != RUN_SCRIPT then None
    else match Get(args, "name")
      case Some(Str(name)) => if name != "" && SafeScriptName(name) == name then Some(name) else None
      case _ => None
  }

  /** The tool's name, then the script's own key when the call runs one. */
  function CallKeys(tool: string, args: Json): (keys: seq<string>)
    ensures 1 <= |keys| <= 2 && keys[0] == tool
    ensures |keys| == 2 ==> keys[1] != keys[0]
  {
    match ScriptOf(tool, args)
    case None => [tool]
    case Some(name) => [tool, tool + ":" + name]
  }

  predicate CleanName(name: string) {
    && |name| <= 64
    && forall i :: 0 <= i < |name| ==>
      'a' <= name[i] <= 'z' || '0' <= name[i] <= '9' || name[i] == '-' || name[i] == '_'
  }

  lemma {:induction false} SafeNameIff(name: string)
    ensures SafeScriptName(name) == name <==> CleanName(name)
    ensures |SafeScriptName(name)| <= |name|
  {
    if name != [] {
      var init, last := name[..|name| - 1], name[|name| - 1];
      SafeNameIff(init);
      assert name == init + [last];
      LastChar(init, last);
    }
  }

  lemma LastChar(init: string, last: char)
    ensures CleanName(init + [last]) <==>
      CleanName(init) && |init| < 64 && SafeScriptChar(last) && Lower(last) == last
  {
    var name := init + [last];
    assert name[|init|] == last && forall i :: 0 <= i < |init| ==> name[i] == init[i];
  }

  /** A call counts against a script's key exactly when it runs a script by a clean name. */
  lemma {:induction false} ScriptKeyExactly(tool: string, args: Json, name: string)
    ensures CallKeys(tool, args) == [tool, "run_script:" + name] <==>
      tool == "run_script" && Get(args, "name") == Some(Str(name)) && name != "" && CleanName(name)
  {
    hide SafeScriptName, CleanName;
    SafeNameIff(name);
    var script := ScriptOf(tool, args);
    if script.Some? {
      var head := "run_script:";
      assert RUN_SCRIPT + ":" == head;
      assert CallKeys(tool, args) == [tool, head + script.value];
      assert (head + script.value)[|head|..] == script.value && (head + name)[|head|..] == name;
    }
  }

  type ToolLimits = map<string, int>

  predicate Declares(limits: ToolLimits, key: string) {
    key in limits && limits[key] >= 0
  }

  /** Negative means no ceiling. */
  function EffectiveLimit(limits: ToolLimits, key: string, defaultCeiling: int): int {
    if Declares(limits, key) then limits[key] else defaultCeiling
  }

  datatype RepeatAction = Run | Refuse | RefuseAndWithdraw

  function RepeatActionOf(identicalCalls: nat): RepeatAction {
    if identicalCalls <= 2 then Run
    else if identicalCalls == 3 then Refuse
    else RefuseAndWithdraw
  }

  /** Two calls share the qualified key exactly when they run the same script. */
  lemma SameQualifiedKey(a: Json, b: Json)
    requires |CallKeys(RUN_SCRIPT, a)| == 2 && |CallKeys(RUN_SCRIPT, b)| == 2
    ensures CallKeys(RUN_SCRIPT, a)[1] == CallKeys(RUN_SCRIPT, b)[1] <==>
            ScriptOf(RUN_SCRIPT, a) == ScriptOf(RUN_SCRIPT, b)
  {
    var x, y := ScriptOf(RUN_SCRIPT, a).value, ScriptOf(RUN_SCRIPT, b).value;
    var head := RUN_SCRIPT + ":";
    assert (head + x)[|head|..] == x && (head + y)[|head|..] == y;
  }
}
