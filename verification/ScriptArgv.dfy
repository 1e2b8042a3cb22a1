/** A script's argument list, as the agent builds it and as the script reads it. */
module ScriptArgv {
  import opened Wrappers
  import opened Text
  import opened JsonValues

  datatype ParamType = StringParam | NumberParam | BooleanParam

  datatype ScriptParam = ScriptParam(name: string, kind: ParamType, required: bool, choices: seq<string>)

  datatype ScriptSpec = ScriptSpec(interpreter: string, file: string, params: seq<ScriptParam>)

  /** How a double prints, and which texts std::stod takes whole. */
  datatype Numbers = Numbers(show: real -> string, isNumber: string -> bool)

  datatype Refusal =
    | UnknownParameter(key: string)
    | MissingParameter(name: string)
    | NotABoolean(name: string)
    | NotAScalar(name: string)
    | NotANumber(name: string)
    | UncleanValue(name: string)
    | NotAChoice(name: string)

  /** What a parameter contributes to the command line. */
  datatype Arg = Absent | Flag | Value(text: string)

  const MAX_ARG_BYTES: nat := 4096

  predicate CleanValue(v: string) {
    |v| <= MAX_ARG_BYTES && forall i :: 0 <= i < |v| ==> v[i] >= 0x20 as char && v[i] != 0x7F as char
  }

  function IntText(i: int): string { if i < 0 then "-" + Decimal(-i) else Decimal(i) }

  function JsonScalar(o: Numbers, v: Json): string {
    match v
    case Str(s) => s
    case Int(i) => IntText(i)
    case Float(r) => o.show(r)
    case Bool(b) => if b then "true" else "false"
    case _ => ""
  }

  predicate IsNumberValue(v: Json) { v.Int? || v.Float? }

  /** One parameter, given what the call says of it. */
  function ArgOf(o: Numbers, p: ScriptParam, given: Option<Json>): Result<Arg, Refusal> {
    if given.None? || given.value.Null? then
      if p.required then Err(MissingParameter(p.name)) else Ok(Absent)
    else
      var v := given.value;
      if p.kind.BooleanParam? then
        match v
        case Bool(on) => Ok(if on then Flag else Absent)
        case Str(s) => Ok(if s == "true" then Flag else Absent)
        case _ => Err(NotABoolean(p.name))
      else if v.Obj? || v.Arr? then Err(NotAScalar(p.name))
      else
        var text := JsonScalar(o, v);
        if p.kind.NumberParam? && !IsNumberValue(v) && !o.isNumber(text) then Err(NotANumber(p.name))
        else if !CleanValue(text) then Err(UncleanValue(p.name))
        else if p.choices != [] && text !in p.choices then Err(NotAChoice(p.name))
        else Ok(Value(text))
  }

  /** The text a scalar is passed on as. */
  ghost predicate IsTextOf(o: Numbers, v: Json, text: string) {
    match v
    case Str(s) => text == s
    case Int(i) => if i >= 0 then text == Decimal(i) else text == "-" + Decimal(-i)
    case Float(r) => text == o.show(r)
    case Bool(b) => (b && text == "true") || (!b && text == "false")
    case _ => false
  }

  /** The parameter takes this text: short, without control characters, a number where one is due, one of the choices. */
  ghost predicate Takes(o: Numbers, p: ScriptParam, v: Json, text: string) {
    && (p.kind.NumberParam? ==> v.Int? || v.Float? || o.isNumber(text))
    && |text| <= 4096 && (forall c :: c in text ==> 0x20 as char <= c && c != 0x7F as char)
    && (p.choices == [] || text in p.choices)
  }

  /** A parameter that is no boolean is accepted exactly when given a scalar whose text it takes, and passes that on. */
  lemma AcceptedExactly(o: Numbers, p: ScriptParam, v: Json, text: string)
    requires !p.kind.BooleanParam? && !v.Null?
    ensures ArgOf(o, p, Some(v)) == Ok(Value(text)) <==> IsTextOf(o, v, text) && Takes(o, p, v, text)
    ensures ArgOf(o, p, Some(v)).Ok? ==> ArgOf(o, p, Some(v)).value.Value?
  {
    CleanExactly(JsonScalar(o, v));
  }

  lemma CleanExactly(text: string)
    ensures CleanValue(text) <==> |text| <= 4096 && forall c :: c in text ==> 0x20 as char <= c && c != 0x7F as char
  {
    assert forall i :: 0 <= i < |text| ==> text[i] in text;
  }

  /** A boolean is on for true or "true", off for false or any other text, and nothing else is a boolean. */
  lemma BooleanExactly(o: Numbers, p: ScriptParam, v: Json)
    requires p.kind.BooleanParam? && !v.Null?
    ensures ArgOf(o, p, Some(v)) ==
      if v == Bool(true) || v == Str("true") then Ok(Flag)
      else if v.Bool? || v.Str? then Ok(Absent)
      else Err(NotABoolean(p.name))
  {
  }

  /** What is not given, or given as null, is refused when required and left out otherwise. */
  lemma NotGivenExactly(o: Numbers, p: ScriptParam, given: Option<Json>)
    requires given.None? || given == Some(Null)
    ensures ArgOf(o, p, given) == if p.required then Err(MissingParameter(p.name)) else Ok(Absent)
  {
  }

  function TokenOf(p: ScriptParam, arg: Arg): seq<string> {
    match arg
    case Absent => []
    case Flag => ["--" + p.name]
    case Value(text) => ["--" + p.name + "=" + text]
  }

  predicate Known(params: seq<ScriptParam>, key: string) {
    exists k :: 0 <= k < |params| && params[k].name == key
  }

  /** Whether each parameter is accepted, in manifest order. */
  ghost predicate Accepted(o: Numbers, params: seq<ScriptParam>, args: Json) {
    forall k :: 0 <= k < |params| ==> ArgOf(o, params[k], Get(args, params[k].name)).Ok?
  }

  /** The tokens of accepted parameters, in manifest order. */
  function Tokens(o: Numbers, params: seq<ScriptParam>, args: Json): seq<string> {
    if params == [] then []
    else
      var p := params[|params| - 1];
      var arg := ArgOf(o, p, Get(args, p.name));
      Tokens(o, params[..|params| - 1], args) + (if arg.Ok? then TokenOf(p, arg.value) else [])
  }

  function Head(spec: ScriptSpec): seq<string> {
    (if spec.interpreter != "" then [spec.interpreter] else []) + [spec.file]
  }

  function Fields(args: Json): seq<(string, Json)> { if args.Obj? then args.fields else [] }

  ghost predicate AllKnown(params: seq<ScriptParam>, fields: seq<(string, Json)>) {
    forall k :: 0 <= k < |fields| ==> Known(params, fields[k].0)
  }

  /** The first key the script does not have. */
  ghost predicate FirstUnknown(params: seq<ScriptParam>, fields: seq<(string, Json)>, e: Refusal) {
    exists k :: 0 <= k < |fields| && e == UnknownParameter(fields[k].0) && !Known(params, fields[k].0)
      && AllKnown(params, fields[..k])
  }

  /** The first parameter that cannot be taken, and why. */
  ghost predicate FirstRefused(o: Numbers, params: seq<ScriptParam>, args: Json, e: Refusal) {
    exists k :: 0 <= k < |params| && Accepted(o, params[..k], args)
      && ArgOf(o, params[k], Get(args, params[k].name)) == Err(e)
  }

  method CheckKnown(params: seq<ScriptParam>, fields: seq<(string, Json)>) returns (refusal: Option<Refusal>)
    ensures refusal.None? <==> AllKnown(params, fields)
    ensures refusal.Some? ==> FirstUnknown(params, fields, refusal.value)
  {
    hide Known;
    for k := 0 to |fields|
      invariant AllKnown(params, fields[..k])
    {
      var known := IsKnown(params, fields[k].0);
      if !known { return Some(UnknownParameter(fields[k].0)); }
      assert fields[..k + 1] == fields[..k] + [fields[k]];
    }
    assert fields[..|fields|] == fields;
    return None;
  }

  lemma TokensStep(o: Numbers, params: seq<ScriptParam>, args: Json, k: nat)
    requires k <= |params|
    ensures k == 0 ==> Tokens(o, params[..k], args) == []
    ensures k < |params| && ArgOf(o, params[k], Get(args, params[k].name)).Ok? ==>
      Tokens(o, params[..k + 1], args) ==
        Tokens(o, params[..k], args) + TokenOf(params[k], ArgOf(o, params[k], Get(args, params[k].name)).value)
  {
    hide ArgOf, TokenOf, Get;
    if k < |params| { assert params[..k + 1][..k] == params[..k]; }
  }

  method BuildTokens(o: Numbers, params: seq<ScriptParam>, args: Json) returns (r: Result<seq<string>, Refusal>)
    ensures r.Ok? <==> Accepted(o, params, args)
    ensures r.Ok? ==> r.value == Tokens(o, params, args)
    ensures r.Err? ==> FirstRefused(o, params, args, r.error)
  {
    hide ArgOf, TokenOf, Get, Tokens;
    var built: seq<string> := [];
    TokensStep(o, params, args, 0);
    for k := 0 to |params|
      invariant Accepted(o, params[..k], args)
      invariant built == Tokens(o, params[..k], args)
    {
      var p := params[k];
      TokensStep(o, params, args, k);
      var arg := ArgOf(o, p, Get(args, p.name));
      if arg.Err? { return Err(arg.error); }
      built := built + TokenOf(p, arg.value);
    }
    assert params[..|params|] == params;
    return Ok(built);
  }

  /** `argv0` is what the caller's vector held; a refusal leaves it so. Unknown keys are refused first. */
  method BuildArgv(o: Numbers, spec: ScriptSpec, args: Json, argv0: seq<string>)
    returns (refusal: Option<Refusal>, argv: seq<string>)
    ensures refusal.None? <==> AllKnown(spec.params, Fields(args)) && Accepted(o, spec.params, args)
    ensures argv == if refusal.None? then
                      (if spec.interpreter == "" then [spec.file] else [spec.interpreter, spec.file])
                      + Tokens(o, spec.params, args)
                    else argv0
    ensures refusal.Some? ==>
      if AllKnown(spec.params, Fields(args)) then FirstRefused(o, spec.params, args, refusal.value)
      else FirstUnknown(spec.params, Fields(args), refusal.value)
  {
    hide Accepted, AllKnown, FirstUnknown, FirstRefused, Tokens;
    refusal := CheckKnown(spec.params, Fields(args));
    if refusal.Some? { return refusal, argv0; }
    var built := BuildTokens(o, spec.params, args);
    if built.Err? { return Some(built.error), argv0; }
    return None, Head(spec) + built.value;
  }

  method IsKnown(params: seq<ScriptParam>, key: string) returns (known: bool)
    ensures known <==> Known(params, key)
  {
    for k := 0 to |params|
      invariant forall j :: 0 <= j < k ==> params[j].name != key
    {
      if params[k].name == key { return true; }
    }
    return false;
  }

  // ── The script's side ──

  /** What the script finds under a key: a text, or True for a bare flag. */
  datatype Found = True | Text(text: string)

  /** Key and value of a token; None when it does not start with "--". */
  function ParseToken(token: string): Option<(string, Found)> {
    if !("--" <= token) then None
    else
      var rest := token[2..];
      var n := FindFrom(rest, '=', 0);
      Some((rest[..n], if n == |rest| then True else Text(rest[n + 1..])))
  }

  function Parsed(tokens: seq<string>): Option<map<string, Found>> {
    if tokens == [] then Some(map[])
    else match (Parsed(tokens[..|tokens| - 1]), ParseToken(tokens[|tokens| - 1]))
      case (Some(args), Some((key, found))) => Some(args[key := found])
      case _ => None
  }

  /** None is the script's exit on an argument it did not expect. */
  method ParseArgs(argv: seq<string>) returns (r: Option<map<string, Found>>)
    ensures r == Parsed(argv)
  {
    var args: map<string, Found> := map[];
    for i := 0 to |argv|
      invariant Parsed(argv[..i]) == Some(args)
    {
      assert argv[..i + 1][..i] == argv[..i];
      var entry := ParseToken(argv[i]);
      if entry.None? {
        BadTokenSpoils(argv, i + 1);
        return None;
      }
      args := args[entry.value.0 := entry.value.1];
    }
    assert argv[..|argv|] == argv;
    return Some(args);
  }

  lemma {:induction false} BadTokenSpoils(argv: seq<string>, i: nat)
    requires i <= |argv| && Parsed(argv[..i]).None?
    ensures Parsed(argv).None?
    decreases |argv| - i
  {
    if i == |argv| {
      assert argv[..i] == argv;
    } else {
      assert argv[..i + 1][..i] == argv[..i];
      BadTokenSpoils(argv, i + 1);
    }
  }

  // ── The two agree ──

  function FoundOf(arg: Arg): Found
    requires !arg.Absent?
  {
    if arg.Flag? then True else Text(arg.text)
  }

  lemma {:induction false} NameEndsAt(name: string, text: string)
    requires '=' !in name
    ensures FindFrom(name, '=', 0) == |name| && FindFrom(name + "=" + text, '=', 0) == |name|
  {
    hide FindFrom;
    FoundAt(name, '=', 0, |name|);
    var rest := name + "=" + text;
    assert forall i :: 0 <= i < |name| ==> rest[i] == name[i] && name[i] in name;
    FoundAt(rest, '=', 0, |name|);
  }

  /** A token says its parameter's name and value, whatever the value contains. */
  lemma {:induction false} TokenParses(name: string, text: string)
    requires '=' !in name
    ensures ParseToken("--" + name) == Some((name, True))
    ensures ParseToken("--" + name + "=" + text) == Some((name, Text(text)))
  {
    hide FindFrom;
    NameEndsAt(name, text);
    var rest := name + "=" + text;
    assert ("--" + name)[2..] == name && name[..|name|] == name;
    assert "--" + name + "=" + text == "--" + rest && ("--" + rest)[2..] == rest;
    assert rest[..|name|] == name && rest[|name| + 1..] == text;
  }

  predicate DistinctNames(params: seq<ScriptParam>) {
    forall i, j :: 0 <= i < j < |params| ==> params[i].name != params[j].name
  }

  predicate PlainNames(params: seq<ScriptParam>) {
    forall i :: 0 <= i < |params| ==> '=' !in params[i].name
  }

  /** The script finds each parameter exactly as it was accepted: its text, True for a flag, nothing when absent. */
  ghost predicate Recovers(o: Numbers, params: seq<ScriptParam>, args: Json, found: map<string, Found>) {
    && (forall key :: key in found ==> Known(params, key))
    && forall k :: 0 <= k < |params| ==>
      var arg := ArgOf(o, params[k], Get(args, params[k].name));
      && arg.Ok?
      && (params[k].name in found <==> !arg.value.Absent?)
      && (params[k].name in found ==> found[params[k].name] == FoundOf(arg.value))
  }

  lemma {:induction false} TokensRecover(o: Numbers, params: seq<ScriptParam>, args: Json)
    requires Accepted(o, params, args) && DistinctNames(params) && PlainNames(params)
    ensures Parsed(Tokens(o, params, args)).Some?
    ensures Recovers(o, params, args, Parsed(Tokens(o, params, args)).value)
  {
    hide ArgOf, ParseToken;
    if params != [] {
      var init, p := params[..|params| - 1], params[|params| - 1];
      TokensRecover(o, init, args);
      var arg := ArgOf(o, p, Get(args, p.name)).value;
      var before := Tokens(o, init, args);
      assert Tokens(o, params, args) == before + TokenOf(p, arg);
      assert p == params[|params| - 1] && '=' !in p.name;
      hide Tokens, Recovers, TokenOf, Parsed;
      ParsedOneMore(p, arg, before);
      RecoversOneMore(o, params, args, Parsed(before).value, arg);
    }
  }

  /** A parameter's token adds what it contributes to the dictionary of the tokens before it. */
  lemma {:induction false} ParsedOneMore(p: ScriptParam, arg: Arg, before: seq<string>)
    requires '=' !in p.name && Parsed(before).Some?
    ensures Parsed(before + TokenOf(p, arg)) ==
      Some(if arg.Absent? then Parsed(before).value else Parsed(before).value[p.name := FoundOf(arg)])
  {
    hide ParseToken;
    TokenParses(p.name, if arg.Value? then arg.text else "");
    if arg.Absent? {
      assert before + TokenOf(p, arg) == before;
    } else {
      var all := before + TokenOf(p, arg);
      assert all[..|all| - 1] == before;
    }
  }

  lemma RecoversOneMore(o: Numbers, params: seq<ScriptParam>, args: Json, found: map<string, Found>, arg: Arg)
    requires params != [] && DistinctNames(params)
    requires Recovers(o, params[..|params| - 1], args, found)
    requires ArgOf(o, params[|params| - 1], Get(args, params[|params| - 1].name)) == Ok(arg)
    ensures Recovers(o, params, args,
                     if arg.Absent? then found else found[params[|params| - 1].name := FoundOf(arg)])
  {
    hide ArgOf;
    var init, last := params[..|params| - 1], params[|params| - 1];
    forall key | key in found ensures Known(params, key) && key != last.name {
      assert Known(init, key);
      var k :| 0 <= k < |init| && init[k].name == key;
      assert params[k].name == key;
    }
    assert Known(params, last.name);
  }

  /** The whole way round: what the agent accepts is what the script sees. */
  method Deliver(o: Numbers, spec: ScriptSpec, args: Json)
    returns (refusal: Option<Refusal>, found: Option<map<string, Found>>)
    requires DistinctNames(spec.params) && PlainNames(spec.params)
    ensures refusal.None? ==> found.Some? && Recovers(o, spec.params, args, found.value)
    ensures refusal.Some? ==> found.None?
  {
    var argv: seq<string>;
    refusal, argv := BuildArgv(o, spec, args, []);
    if refusal.Some? { return refusal, None; }
    TokensRecover(o, spec.params, args);
    hide Tokens;
    assert argv[|Head(spec)|..] == Tokens(o, spec.params, args);
    found := ParseArgs(argv[|Head(spec)|..]);
  }

  /** What a boolean parameter takes as off: everything but true and the text "true". */
  predicate TurnedOff(v: Json) { v == Bool(false) || (v.Str? && v.s != "true") }

  /** An accepted required parameter was given, and contributes nothing exactly when it is a boolean turned off. */
  lemma RequiredIsPresent(o: Numbers, p: ScriptParam, given: Option<Json>)
    requires p.required && ArgOf(o, p, given).Ok?
    ensures given.Some? && !given.value.Null?
    ensures ArgOf(o, p, given).value.Absent? <==> p.kind.BooleanParam? && TurnedOff(given.value)
  {
  }

  /** So the script misses a required parameter of an accepted call exactly then. */
  lemma RequiredIsMissedExactly(o: Numbers, params: seq<ScriptParam>, args: Json, k: nat)
    requires Accepted(o, params, args) && DistinctNames(params) && PlainNames(params)
    requires k < |params| && params[k].required
    ensures Parsed(Tokens(o, params, args)).Some? && Get(args, params[k].name).Some?
    ensures params[k].name !in Parsed(Tokens(o, params, args)).value
            <==> params[k].kind.BooleanParam? && TurnedOff(Get(args, params[k].name).value)
  {
    hide ArgOf, Parsed, Tokens;
    TokensRecover(o, params, args);
    RequiredIsPresent(o, params[k], Get(args, params[k].name));
  }

  /** A call it happens to: one required flag, given as false, is accepted and says nothing. */
  lemma RequiredFlagOff(o: Numbers, name: string)
    ensures var params, args := [ScriptParam(name, BooleanParam, true, [])], Obj([(name, Bool(false))]);
      AllKnown(params, Fields(args)) && Accepted(o, params, args) && Tokens(o, params, args) == []
  {
    var params, args := [ScriptParam(name, BooleanParam, true, [])], Obj([(name, Bool(false))]);
    assert Get(args, name) == Some(Bool(false)) && params[..0] == [];
    assert params[0].name == name;
  }
}
