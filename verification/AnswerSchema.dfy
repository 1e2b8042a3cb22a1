/**
 Typed final answers: the JSON a model's answer must contain, and the subset of
 JSON Schema it is checked against.
 */
module AnswerSchema {
  import opened Wrappers
  import opened Text
  import opened JsonValues

  // ── The checker ──

  datatype Step = Key(name: string) | Index(i: nat)

  datatype Fault =
    | WrongType(want: string)
    | NoTypeMatches
    | NotInEnum
    | FieldMissing(name: string)
    | FieldNull(name: string)
    | TooFew(bound: nat)
    | TooMany(bound: nat)

  datatype Violation = Violation(path: seq<Step>, fault: Fault)

  predicate MatchesType(want: string, v: Json) {
    if want == "object" then v.Obj?
    else if want == "array" then v.Arr?
    else if want == "string" then v.Str?
    else if want == "boolean" then v.Bool?
    else if want == "integer" then v.Int?
    else if want == "number" then v.Int? || v.Float?
    else if want == "null" then v.Null?
    else true
  }

  function CheckType(schema: Json, value: Json): Option<Fault> {
    match Get(schema, "type")
    case Some(Str(want)) => if MatchesType(want, value) then None else Some(WrongType(want))
    case Some(Arr(alts)) =>
      if exists k :: 0 <= k < |alts| && alts[k].Str? && MatchesType(alts[k].s, value) then None
      else Some(NoTypeMatches)
    case _ => None
  }

  function CheckEnum(schema: Json, value: Json): Option<Fault> {
    match Get(schema, "enum")
    case Some(Arr(allowed)) =>
      if exists k :: 0 <= k < |allowed| && JsonEq(allowed[k], value) then None else Some(NotInEnum)
    case _ => None
  }

  function CheckRequired(names: seq<Json>, value: Json): Option<Fault> {
    if names == [] then None
    else if !names[0].Str? then CheckRequired(names[1..], value)
    else match Get(value, names[0].s)
      case None => Some(FieldMissing(names[0].s))
      case Some(Null) => Some(FieldNull(names[0].s))
      case Some(_) => CheckRequired(names[1..], value)
  }

  /** A bound is any non-negative integer, however it was written; anything else is no bound. */
  function ItemBound(schema: Json, key: string): Option<nat> {
    match Get(schema, key)
    case Some(Int(n)) => if n < 0 then None else Some(n)
    case _ => None
  }

  function At(path: seq<Step>, fault: Option<Fault>): Option<Violation> {
    match fault
    case None => None
    case Some(f) => Some(Violation(path, f))
  }

  function Check(schema: Json, value: Json, path: seq<Step>): Option<Violation>
    decreases schema, 3
  {
    if !schema.Obj? then None
    else if CheckType(schema, value).Some? then At(path, CheckType(schema, value))
    else if CheckEnum(schema, value).Some? then At(path, CheckEnum(schema, value))
    else
      var err := CheckObject(schema, value, path);
      if err.Some? then err else CheckArray(schema, value, path)
  }

  function CheckObject(schema: Json, value: Json, path: seq<Step>): Option<Violation>
    decreases schema, 2
  {
    if !value.Obj? then None
    else
      var missing := match Get(schema, "required")
        case Some(Arr(names)) => CheckRequired(names, value)
        case _ => None;
      if missing.Some? then At(path, missing)
      else match Get(schema, "properties")
        case Some(Obj(props)) => CheckProperties(schema, props, 0, value, path)
        case _ => None
  }

  function CheckProperties(schema: Json, props: seq<(string, Json)>, k: nat, value: Json, path: seq<Step>)
    : Option<Violation>
    requires Get(schema, "properties") == Some(Obj(props)) && k <= |props|
    decreases schema, 1, |props| - k
  {
    if k == |props| then None
    else
      var (name, sub) := props[k];
      var field := Get(value, name);
      var err := if field.None? then None else Check(sub, field.value, path + [Key(name)]);
      if err.Some? then err else CheckProperties(schema, props, k + 1, value, path)
  }

  function CheckArray(schema: Json, value: Json, path: seq<Step>): Option<Violation>
    decreases schema, 2
  {
    if !value.Arr? then None
    else
      var few, many := ItemBound(schema, "minItems"), ItemBound(schema, "maxItems");
      if few.Some? && |value.items| < few.value then Some(Violation(path, TooFew(few.value)))
      else if many.Some? && |value.items| > many.value then Some(Violation(path, TooMany(many.value)))
      else match Get(schema, "items")
        case Some(Obj(fields)) => CheckItems(schema, Obj(fields), value.items, 0, path)
        case _ => None
  }

  function CheckItems(schema: Json, sub: Json, elements: seq<Json>, k: nat, path: seq<Step>): Option<Violation>
    requires Get(schema, "items") == Some(sub) && k <= |elements|
    decreases schema, 1, |elements| - k
  {
    if k == |elements| then None
    else
      var err := Check(sub, elements[k], path + [Index(k)]);
      if err.Some? then err else CheckItems(schema, sub, elements, k + 1, path)
  }

  function ValidateAnswer(schema: Json, value: Json): Option<Violation> {
    if schema.Null? || schema == Obj([]) || schema == Arr([]) then None else Check(schema, value, [])
  }

  // ── What the schema language means ──

  /** The names a value's type goes by. */
  function TypeNames(v: Json): set<string> {
    match v
    case Obj(_) => {"object"}
    case Arr(_) => {"array"}
    case Str(_) => {"string"}
    case Bool(_) => {"boolean"}
    case Int(_) => {"integer", "number"}
    case Float(_) => {"number"}
    case Null => {"null"}
  }

  /** A name that is none of the seven constrains nothing. */
  predicate IsOf(want: string, v: Json) {
    want in {"object", "array", "string", "boolean", "integer", "number", "null"} ==> want in TypeNames(v)
  }

  ghost predicate TypeHolds(schema: Json, v: Json) {
    match Get(schema, "type")
    case Some(Str(want)) => IsOf(want, v)
    case Some(Arr(alts)) => exists alt :: alt in alts && alt.Str? && IsOf(alt.s, v)
    case _ => true
  }

  ghost predicate EnumHolds(schema: Json, v: Json) {
    match Get(schema, "enum")
    case Some(Arr(allowed)) => exists a :: a in allowed && JsonEq(a, v)
    case _ => true
  }

  ghost predicate RequiredHolds(schema: Json, v: Json) {
    match Get(schema, "required")
    case Some(Arr(names)) =>
      v.Obj? ==> forall n :: n in names && n.Str? ==> Get(v, n.s).Some? && !Get(v, n.s).value.Null?
    case _ => true
  }

  /** Bounds on the number of items; a negative or non-integer one is none. */
  ghost predicate BoundsHold(schema: Json, v: Json) {
    v.Arr? ==>
      && (forall n :: Get(schema, "minItems") == Some(Int(n)) && n >= 0 ==> |v.items| >= n)
      && (forall n :: Get(schema, "maxItems") == Some(Int(n)) && n >= 0 ==> |v.items| <= n)
  }

  /** Sub-schema k of `properties`, when there is one. */
  predicate Property(schema: Json, k: nat, name: string, sub: Json) {
    && Get(schema, "properties").Some? && Get(schema, "properties").value.Obj?
    && var props := Get(schema, "properties").value.fields;
       k < |props| && props[k] == (name, sub)
  }

  /** v satisfies every keyword the schema states, here and below. */
  ghost predicate Satisfies(schema: Json, v: Json)
    decreases schema, 1
  {
    schema.Obj? ==>
      && TypeHolds(schema, v)
      && EnumHolds(schema, v)
      && RequiredHolds(schema, v)
      && PropertiesHold(schema, v)
      && BoundsHold(schema, v)
      && ItemsHold(schema, v)
  }

  ghost predicate PropertiesHold(schema: Json, v: Json)
    decreases schema, 0
  {
    v.Obj? ==> forall k, name, sub {:trigger Property(schema, k, name, sub)} ::
      Property(schema, k, name, sub) && Get(v, name).Some? ==>
        (PropertyIsPart(schema, k, name, sub); Satisfies(sub, Get(v, name).value))
  }

  ghost predicate ItemsHold(schema: Json, v: Json)
    decreases schema, 0
  {
    v.Arr? && Get(schema, "items").Some? ==>
      forall i :: 0 <= i < |v.items| ==> Satisfies(Get(schema, "items").value, v.items[i])
  }

  lemma PropertyIsPart(schema: Json, k: nat, name: string, sub: Json)
    requires Property(schema, k, name, sub)
    ensures sub < schema
  {
    var props := Get(schema, "properties").value;
    assert props.fields[k] == (name, sub);
    assert sub < props < schema;
  }

  lemma {:induction false} RequiredIff(names: seq<Json>, v: Json)
    ensures CheckRequired(names, v).None? <==>
            forall n :: n in names && n.Str? ==> Get(v, n.s).Some? && !Get(v, n.s).value.Null?
  {
    if names != [] {
      RequiredIff(names[1..], v);
      assert forall n :: n in names <==> n == names[0] || n in names[1..];
    }
  }

  lemma TypeIff(schema: Json, v: Json)
    ensures CheckType(schema, v).None? <==> TypeHolds(schema, v)
  {
  }

  lemma EnumIff(schema: Json, v: Json)
    ensures CheckEnum(schema, v).None? <==> EnumHolds(schema, v)
  {
    hide JsonEq;
  }

  /** The checker accepts exactly the values that satisfy the schema. */
  lemma {:induction false} CheckIff(schema: Json, v: Json, path: seq<Step>)
    ensures Check(schema, v, path).None? <==> Satisfies(schema, v)
    decreases schema, 2
  {
    hide CheckObject, CheckArray, CheckType, CheckEnum, TypeHolds, EnumHolds, PropertiesHold, ItemsHold, RequiredHolds,
         BoundsHold;
    if schema.Obj? {
      TypeIff(schema, v);
      EnumIff(schema, v);
      ObjectIff(schema, v, path);
      ArrayIff(schema, v, path);
    }
  }

  lemma {:induction false} ObjectIff(schema: Json, v: Json, path: seq<Step>)
    ensures CheckObject(schema, v, path).None? <==> RequiredHolds(schema, v) && PropertiesHold(schema, v)
    decreases schema, 1
  {
    match Get(schema, "required") {
      case Some(Arr(names)) => RequiredIff(names, v);
      case _ =>
    }
    match Get(schema, "properties") {
      case Some(Obj(props)) =>
        PropertiesIff(schema, props, 0, v, path);
        forall k: nat | k < |props| ensures Property(schema, k, props[k].0, props[k].1) {
        }
      case _ =>
    }
  }

  lemma {:induction false} ArrayIff(schema: Json, v: Json, path: seq<Step>)
    ensures CheckArray(schema, v, path).None? <==> BoundsHold(schema, v) && ItemsHold(schema, v)
    decreases schema, 1
  {
    match Get(schema, "items") {
      case Some(sub) => if v.Arr? { ItemsIff(schema, sub, v.items, 0, path); }
      case None =>
    }
  }

  lemma {:induction false} PropertiesIff(schema: Json, props: seq<(string, Json)>, k: nat, v: Json, path: seq<Step>)
    requires Get(schema, "properties") == Some(Obj(props)) && k <= |props|
    ensures CheckProperties(schema, props, k, v, path).None? <==>
            forall j {:trigger props[j]} :: k <= j < |props| && Get(v, props[j].0).Some? ==>
              Satisfies(props[j].1, Get(v, props[j].0).value)
    decreases schema, 0, |props| - k
  {
    if k < |props| {
      var (name, sub) := props[k];
      assert Property(schema, k, name, sub);
      PropertyIsPart(schema, k, name, sub);
      if Get(v, name).Some? {
        CheckIff(sub, Get(v, name).value, path + [Key(name)]);
      }
      PropertiesIff(schema, props, k + 1, v, path);
    }
  }

  lemma {:induction false} ItemsIff(schema: Json, sub: Json, elements: seq<Json>, k: nat, path: seq<Step>)
    requires Get(schema, "items") == Some(sub) && k <= |elements|
    ensures CheckItems(schema, sub, elements, k, path).None? <==>
            forall i :: k <= i < |elements| ==> Satisfies(sub, elements[i])
    decreases schema, 0, |elements| - k
  {
    if k < |elements| {
      CheckIff(sub, elements[k], path + [Index(k)]);
      ItemsIff(schema, sub, elements, k + 1, path);
    }
  }

  /** validate_answer is empty exactly on the answers the schema allows. */
  lemma ValidateIff(schema: Json, v: Json)
    ensures ValidateAnswer(schema, v).None? <==> Satisfies(schema, v)
  {
    if schema == Obj([]) {
      CheckIff(schema, v, []);
      assert Check(schema, v, []).None?;
    } else if !(schema.Null? || schema == Arr([])) {
      CheckIff(schema, v, []);
    }
  }

  // ── The reported violation is real ──

  ghost predicate FaultHolds(schema: Json, v: Json, fault: Fault) {
    match fault
    case WrongType(want) => Get(schema, "type") == Some(Str(want)) && !MatchesType(want, v)
    case NoTypeMatches => Get(schema, "type").Some? && Get(schema, "type").value.Arr? && !TypeHolds(schema, v)
    case NotInEnum => !EnumHolds(schema, v)
    case FieldMissing(name) => Demanded(schema, name) && v.Obj? && Get(v, name).None?
    case FieldNull(name) => Demanded(schema, name) && v.Obj? && Get(v, name) == Some(Null)
    case TooFew(n) => ItemBound(schema, "minItems") == Some(n) && v.Arr? && |v.items| < n
    case TooMany(n) => ItemBound(schema, "maxItems") == Some(n) && v.Arr? && |v.items| > n
  }

  ghost predicate Demanded(schema: Json, name: string) {
    && Get(schema, "required").Some? && Get(schema, "required").value.Arr?
    && Str(name) in Get(schema, "required").value.items
  }

  /** Walking `path` through schema and value together ends at a broken keyword. */
  ghost predicate FaultAt(schema: Json, v: Json, path: seq<Step>, fault: Fault)
    decreases |path|
  {
    if path == [] then FaultHolds(schema, v, fault)
    else match path[0]
      case Key(name) =>
        Get(v, name).Some? &&
        exists k, sub {:trigger Property(schema, k, name, sub)} ::
          Property(schema, k, name, sub) && FaultAt(sub, Get(v, name).value, path[1..], fault)
      case Index(i) =>
        && v.Arr? && i < |v.items| && Get(schema, "items").Some?
        && FaultAt(Get(schema, "items").value, v.items[i], path[1..], fault)
  }

  lemma {:induction false} RequiredFault(names: seq<Json>, v: Json)
    requires CheckRequired(names, v).Some?
    ensures match CheckRequired(names, v).value
            case FieldMissing(name) => Str(name) in names && Get(v, name).None?
            case FieldNull(name) => Str(name) in names && Get(v, name) == Some(Null)
            case _ => false
  {
    if !names[0].Str? || (Get(v, names[0].s).Some? && Get(v, names[0].s) != Some(Null)) {
      RequiredFault(names[1..], v);
    }
  }

  /** A refusal names a place below `path` where the value really breaks the schema. */
  ghost predicate Reported(schema: Json, v: Json, path: seq<Step>, err: Violation) {
    path <= err.path && FaultAt(schema, v, err.path[|path|..], err.fault)
  }

  lemma FaultHere(schema: Json, v: Json, path: seq<Step>, fault: Fault)
    requires FaultHolds(schema, v, fault)
    ensures Reported(schema, v, path, Violation(path, fault))
  {
    assert path[|path|..] == [];
  }

  lemma {:induction false} ViolationIsReal(schema: Json, v: Json, path: seq<Step>)
    requires Check(schema, v, path).Some?
    ensures Reported(schema, v, path, Check(schema, v, path).value)
    decreases schema, 2
  {
    hide FaultAt, CheckObject, CheckArray;
    if CheckType(schema, v).Some? {
      FaultHere(schema, v, path, CheckType(schema, v).value);
    } else if CheckEnum(schema, v).Some? {
      FaultHere(schema, v, path, NotInEnum);
    } else if CheckObject(schema, v, path).Some? {
      ObjectViolationIsReal(schema, v, path);
    } else {
      ArrayViolationIsReal(schema, v, path);
    }
  }

  lemma {:induction false} ObjectViolationIsReal(schema: Json, v: Json, path: seq<Step>)
    requires CheckObject(schema, v, path).Some?
    ensures Reported(schema, v, path, CheckObject(schema, v, path).value)
    decreases schema, 1
  {
    hide FaultAt;
    match Get(schema, "required") {
      case Some(Arr(names)) =>
        if CheckRequired(names, v).Some? {
          RequiredFault(names, v);
          FaultHere(schema, v, path, CheckRequired(names, v).value);
          return;
        }
      case _ =>
    }
    PropertyViolationIsReal(schema, Get(schema, "properties").value.fields, 0, v, path);
  }

  lemma {:induction false} PropertyViolationIsReal(schema: Json, props: seq<(string, Json)>, k: nat, v: Json,
                                                    path: seq<Step>)
    requires Get(schema, "properties") == Some(Obj(props)) && k <= |props|
    requires CheckProperties(schema, props, k, v, path).Some?
    ensures Reported(schema, v, path, CheckProperties(schema, props, k, v, path).value)
    decreases schema, 0, |props| - k
  {
    var (name, sub) := props[k];
    assert Property(schema, k, name, sub);
    PropertyIsPart(schema, k, name, sub);
    var below := path + [Key(name)];
    if Get(v, name).Some? && Check(sub, Get(v, name).value, below).Some? {
      ViolationIsReal(sub, Get(v, name).value, below);
      var err := Check(sub, Get(v, name).value, below).value;
      assert err.path[|path|..][0] == Key(name) && err.path[|path|..][1..] == err.path[|below|..];
    } else {
      PropertyViolationIsReal(schema, props, k + 1, v, path);
    }
  }

  lemma {:induction false} ArrayViolationIsReal(schema: Json, v: Json, path: seq<Step>)
    requires CheckArray(schema, v, path).Some?
    ensures Reported(schema, v, path, CheckArray(schema, v, path).value)
    decreases schema, 1
  {
    hide FaultAt;
    var few, many := ItemBound(schema, "minItems"), ItemBound(schema, "maxItems");
    if few.Some? && |v.items| < few.value {
      FaultHere(schema, v, path, TooFew(few.value));
    } else if many.Some? && |v.items| > many.value {
      FaultHere(schema, v, path, TooMany(many.value));
    } else {
      ItemViolationIsReal(schema, Get(schema, "items").value, v, 0, path);
    }
  }

  lemma {:induction false} ItemViolationIsReal(schema: Json, sub: Json, v: Json, k: nat, path: seq<Step>)
    requires Get(schema, "items") == Some(sub) && v.Arr? && k <= |v.items|
    requires CheckItems(schema, sub, v.items, k, path).Some?
    ensures Reported(schema, v, path, CheckItems(schema, sub, v.items, k, path).value)
    decreases schema, 0, |v.items| - k
  {
    var below := path + [Index(k)];
    if Check(sub, v.items[k], below).Some? {
      ViolationIsReal(sub, v.items[k], below);
      var err := Check(sub, v.items[k], below).value;
      assert err.path[|path|..][0] == Index(k) && err.path[|path|..][1..] == err.path[|below|..];
    } else {
      ItemViolationIsReal(schema, sub, v, k + 1, path);
    }
  }

  // ── Richer schemas degrade, they never fail shut ──

  /** t is s with keywords deleted, at the top or anywhere below. */
  ghost predicate Relaxed(s: Json, t: Json)
    decreases s, 1
  {
    if !s.Obj? then t == s
    else
      && t.Obj?
      && forall key :: Get(t, key).Some? ==>
        Get(s, key).Some? && RelaxedAt(s, key, Get(s, key).value, Get(t, key).value)
  }

  /** Keyword `key` is kept as it is, or its sub-schemas are relaxed (or, for properties, dropped). */
  ghost predicate RelaxedAt(s: Json, key: string, sv: Json, tv: Json)
    requires Get(s, key) == Some(sv)
    decreases s, 0
  {
    || sv == tv
    || (key == "items" && Relaxed(sv, tv))
    || (key == "properties" && sv.Obj? && tv.Obj? &&
        forall k :: 0 <= k < |tv.fields| ==>
          exists j :: 0 <= j < |sv.fields| && sv.fields[j].0 == tv.fields[k].0 &&
            Relaxed(sv.fields[j].1, tv.fields[k].1))
  }

  /** Deleting keywords never rejects an answer that was accepted before. */
  lemma {:induction false} RelaxingKeepsAnswers(s: Json, t: Json, v: Json)
    requires Relaxed(s, t) && Satisfies(s, v)
    ensures Satisfies(t, v)
    decreases s, 2
  {
    assert t.Obj? ==> s.Obj?;
    hide Relaxed, PropertiesHold, ItemsHold;
    if t.Obj? {
      SameKeyword(s, t, "type"); SameKeyword(s, t, "enum"); SameKeyword(s, t, "required");
      SameKeyword(s, t, "minItems"); SameKeyword(s, t, "maxItems");
      RelaxingKeepsProperties(s, t, v);
      RelaxingKeepsItems(s, t, v);
    }
  }

  lemma {:induction false} RelaxingKeepsProperties(s: Json, t: Json, v: Json)
    requires Relaxed(s, t) && t.Obj? && s.Obj? && PropertiesHold(s, v)
    ensures PropertiesHold(t, v)
    decreases s, 1
  {
    forall k: nat, name, sub | v.Obj? && Property(t, k, name, sub) && Get(v, name).Some?
      ensures Satisfies(sub, Get(v, name).value)
    {
      var sp, tp := Get(s, "properties").value, Get(t, "properties").value;
      assert RelaxedAt(s, "properties", sp, tp);
      if sp == tp {
        assert Property(s, k, name, sub);
      } else {
        var j :| 0 <= j < |sp.fields| && sp.fields[j].0 == name && Relaxed(sp.fields[j].1, tp.fields[k].1);
        assert Property(s, j, name, sp.fields[j].1);
        PropertyIsPart(s, j, name, sp.fields[j].1);
        RelaxingKeepsAnswers(sp.fields[j].1, sub, Get(v, name).value);
      }
    }
  }

  lemma {:induction false} RelaxingKeepsItems(s: Json, t: Json, v: Json)
    requires Relaxed(s, t) && t.Obj? && s.Obj? && ItemsHold(s, v)
    ensures ItemsHold(t, v)
    decreases s, 1
  {
    if v.Arr? && Get(t, "items").Some? {
      var si, ti := Get(s, "items").value, Get(t, "items").value;
      assert RelaxedAt(s, "items", si, ti);
      forall i | 0 <= i < |v.items| ensures Satisfies(ti, v.items[i]) {
        if si != ti {
          RelaxingKeepsAnswers(si, ti, v.items[i]);
        }
      }
    }
  }

  lemma SameKeyword(s: Json, t: Json, key: string)
    requires Relaxed(s, t) && s.Obj? && t.Obj? && key != "items" && key != "properties"
    ensures Get(t, key).None? || Get(t, key) == Get(s, key)
  {
  }

  // ── Finding the JSON in an answer ──

  /** std::string::rfind of one character. */
  function FindLast(text: string, c: char): (r: Option<nat>)
    ensures r.Some? ==> r.value < |text| && text[r.value] == c
    ensures forall i :: (if r.Some? then r.value + 1 else 0) <= i < |text| ==> text[i] != c
  {
    if text == [] then None
    else if text[|text| - 1] == c then Some(|text| - 1)
    else FindLast(text[..|text| - 1], c)
  }

  const FENCE := "```"

  /** What stands between the line that opens a code block and the next fence. */
  function FencedBlock(text: string): Option<string> {
    var open := FindText(text, FENCE, 0);
    if open.None? then None
    else
      var newline := FindText(text, "\n", open.value);
      if newline.None? then None
      else
        var close := FindText(text, FENCE, newline.value + 1);
        if close.None? then None else Some(text[newline.value + 1..close.value])
  }

  /** The widest {...} or [...] span, whichever opens first. */
  function WidestSpan(text: string): Option<string> {
    var obj, arr := FindText(text, "{", 0), FindText(text, "[", 0);
    var isObj := obj.Some? && (arr.None? || obj.value < arr.value);
    var start := if isObj then obj else arr;
    if start.None? then None
    else
      var end := FindLast(text, if isObj then '}' else ']');
      if end.None? || end.value < start.value then None else Some(text[start.value..end.value + 1])
  }

  function ParseBody(parse: string -> Option<Json>, body: Option<string>): Option<Json> {
    if body.None? then None else parse(body.value)
  }

  function ExtractAnswerJson(parse: string -> Option<Json>, answer: string): Option<Json> {
    if answer == [] then None
    else if parse(answer).Some? then parse(answer)
    else if ParseBody(parse, FencedBlock(answer)).Some? then ParseBody(parse, FencedBlock(answer))
    else ParseBody(parse, WidestSpan(answer))
  }

  /** What is extracted is what the parser made of some part of the answer. */
  lemma ExtractedIsParsed(parse: string -> Option<Json>, answer: string) returns (source: string)
    requires ExtractAnswerJson(parse, answer).Some?
    ensures parse(source) == ExtractAnswerJson(parse, answer)
  {
    hide FencedBlock, WidestSpan;
    source := if parse(answer).Some? then answer
              else if ParseBody(parse, FencedBlock(answer)).Some? then FencedBlock(answer).value
              else WidestSpan(answer).value;
  }

  /** `at` is the first place from `from` on where `what` occurs. */
  ghost predicate FirstAt(text: string, what: string, from: nat, at: nat) {
    && from <= at <= |text| && what <= text[at..]
    && forall i :: from <= i < at ==> !(what <= text[i..])
  }

  lemma {:induction false} FirstIsFound(text: string, what: string, from: nat, at: nat)
    requires FirstAt(text, what, from, at)
    ensures FindText(text, what, from) == Some(at)
  {
  }

  /** The body between the first fence and the next is what is parsed, whatever prose or tag surrounds it. */
  lemma FenceIsFound(parse: string -> Option<Json>, text: string, open: nat, newline: nat, close: nat)
    requires FirstAt(text, FENCE, 0, open) && FirstAt(text, "\n", open, newline)
    requires newline < |text| && FirstAt(text, FENCE, newline + 1, close)
    requires parse(text).None? && parse(text[newline + 1..close]).Some?
    ensures ExtractAnswerJson(parse, text) == parse(text[newline + 1..close])
  {
    hide FindText, FindLast, WidestSpan, FirstAt;
    FirstIsFound(text, FENCE, 0, open);
    FirstIsFound(text, "\n", open, newline);
    FirstIsFound(text, FENCE, newline + 1, close);
    assert FencedBlock(text) == Some(text[newline + 1..close]);
  }

  /** Prose around a bare object is cut away, whatever the object holds. */
  lemma ObjectSpanIsFound(parse: string -> Option<Json>, text: string, first: nat, last: nat)
    requires first < last < |text| && text[first] == '{' && text[last] == '}'
    requires forall i :: 0 <= i < first ==> text[i] != '{' && text[i] != '['
    requires forall i :: last < i < |text| ==> text[i] != '}'
    requires parse(text).None? && ParseBody(parse, FencedBlock(text)).None?
    ensures ExtractAnswerJson(parse, text) == parse(text[first..last + 1])
  {
    hide FindText, FindLast, FencedBlock;
    OccursFirst(text, "{", 0, first);
    var arr := FindText(text, "[", 0);
    if arr.Some? {
      assert text[arr.value..][0] == '[';
    }
    assert FindLast(text, '}') == Some(last);
    assert WidestSpan(text) == Some(text[first..last + 1]);
    hide WidestSpan;
  }

  /** And around a bare array. */
  lemma ArraySpanIsFound(parse: string -> Option<Json>, text: string, first: nat, last: nat)
    requires first < last < |text| && text[first] == '[' && text[last] == ']'
    requires forall i :: 0 <= i < first ==> text[i] != '{' && text[i] != '['
    requires forall i :: last < i < |text| ==> text[i] != ']'
    requires parse(text).None? && ParseBody(parse, FencedBlock(text)).None?
    ensures ExtractAnswerJson(parse, text) == parse(text[first..last + 1])
  {
    hide FindText, FindLast, FencedBlock;
    OccursFirst(text, "[", 0, first);
    var obj := FindText(text, "{", 0);
    if obj.Some? {
      assert text[obj.value..][0] == '{';
    }
    assert FindLast(text, ']') == Some(last);
    assert WidestSpan(text) == Some(text[first..last + 1]);
    hide WidestSpan;
  }

  /** A text without an opening bracket or brace, which does not parse and has no fence, gives nothing. */
  lemma NothingIsFound(parse: string -> Option<Json>, text: string)
    requires forall i :: 0 <= i < |text| ==> text[i] != '{' && text[i] != '['
    requires parse(text).None? && FindText(text, FENCE, 0).None?
    ensures ExtractAnswerJson(parse, text).None?
  {
    hide FindLast, FindText;
    FoundIsIn(text, '{');
    FoundIsIn(text, '[');
  }

  lemma FoundIsIn(text: string, c: char)
    ensures FindText(text, [c], 0).Some? ==> exists i :: 0 <= i < |text| && text[i] == c
  {
    hide FindText;
    var at := FindText(text, [c], 0);
    if at.Some? {
      assert text[at.value] == text[at.value..][0] == [c][0];
    }
  }
}
