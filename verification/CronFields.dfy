/** Parsing a five-field cron expression ("minute hour day-of-month month day-of-week"). */
module CronFields {
  import opened Wrappers
  import opened Arithmetic
  import opened Text
  import opened CronSchedule

  datatype CronError =
    | EmptyTerm
    | BadStep
    | StepNotPositive
    | NotANumber
    | OutOfRange
    | NothingSelected
    | WrongFieldCount(found: nat)

  // ── Numbers ──

  const INT_MIN: int := -2147483648
  const INT_MAX: int := 2147483647

  /** How many digits the text starts with. */
  function DigitRun(s: string): (n: nat)
    ensures n <= |s|
    ensures forall c :: c in s[..n] ==> IsDigit(c)
    ensures n < |s| ==> !IsDigit(s[n])
  {
    if s != "" && IsDigit(s[0]) then 1 + DigitRun(s[1..]) else 0
  }

  /** std::stoi on a text without blanks: an optional sign, then digits, then anything. */
  function Stoi(s: string): (r: Option<int>)
    ensures r.Some? ==> INT_MIN <= r.value <= INT_MAX
  {
    var signed := s != "" && (s[0] == '-' || s[0] == '+');
    var rest := if signed then s[1..] else s;
    var n := DigitRun(rest);
    if n == 0 then None
    else
      var v := (if signed && s[0] == '-' then -1 else 1) * DecimalValue(rest[..n]);
      if INT_MIN <= v <= INT_MAX then Some(v) else None
  }

  // ── One term ──

  /** The first place of a character, or the length. */
  function Find(s: string, c: char): (n: nat)
    ensures n <= |s| && c !in s[..n] && (n < |s| ==> s[n] == c)
  {
    FindFrom(s, c, 0)
  }

  datatype Span = Span(start: int, end: int, step: int)

  /** The bounds of a field; day-of-week counts Sunday as 0 and, written out, as 7. */
  datatype FieldKind = FieldKind(lo: int, hi: int, weekday: bool)

  const MINUTE := FieldKind(0, 59, false)
  const HOUR := FieldKind(0, 23, false)
  const DAY_OF_MONTH := FieldKind(1, 31, false)
  const MONTH := FieldKind(1, 12, false)
  const DAY_OF_WEEK := FieldKind(0, 7, true)

  function Sunday(kind: FieldKind, v: int): int { if kind.weekday && v == 7 then 0 else v }

  function ParseStep(part: string): Result<int, CronError> {
    var slash := Find(part, '/');
    if slash == |part| then Ok(1)
    else match Stoi(part[slash + 1..])
      case None => Err(BadStep)
      case Some(step) => if step <= 0 then Err(StepNotPositive) else Ok(step)
  }

  /** The two ends, before they are checked. */
  function ParseRange(range: string, kind: FieldKind): (r: Option<(int, int)>)
    ensures r.Some? && kind.weekday ==> r.value.1 != 7
  {
    if range == "*" then Some((kind.lo, if kind.weekday then 6 else kind.hi))
    else
      var dash := Find(range, '-');
      if dash < |range| then
        match (Stoi(range[..dash]), Stoi(range[dash + 1..]))
        case (Some(a), Some(b)) => Some((Sunday(kind, a), Sunday(kind, b)))
        case _ => None
      else match Stoi(range)
        case Some(a) => Some((Sunday(kind, a), Sunday(kind, a)))
        case None => None
  }

  /** "*", "*" over n, "a", "a-b" or "a-b/n" */
  function ParseTerm(part: string, kind: FieldKind): (r: Result<Span, CronError>)
    ensures r.Ok? ==> kind.lo <= r.value.start <= r.value.end <= kind.hi && r.value.step > 0
    ensures r.Ok? && kind.weekday ==> r.value.end != 7
  {
    if part == "" then Err(EmptyTerm)
    else match ParseStep(part)
      case Err(e) => Err(e)
      case Ok(step) =>
        match ParseRange(part[..Find(part, '/')], kind)
        case None => Err(NotANumber)
        case Some((start, end)) =>
          if start < kind.lo || start > kind.hi || end < kind.lo || end > kind.hi || start > end then Err(OutOfRange)
          else Ok(Span(start, end, step))
  }

  /** A whole number of steps after the start. */
  predicate OnStep(span: Span, v: int)
    requires span.step > 0
  {
    (v - span.start) % span.step == 0
  }

  predicate Selects(span: Span, v: int)
    requires span.step > 0
  {
    span.start <= v <= span.end && OnStep(span, v)
  }

  // ── Written out, a term reads back ──

  lemma {:induction false} DigitRunOf(digits: string, rest: string)
    requires forall c :: c in digits ==> IsDigit(c)
    requires rest != "" ==> !IsDigit(rest[0])
    ensures DigitRun(digits + rest) == |digits|
  {
    if digits == "" {
      assert digits + rest == rest;
    } else {
      assert (digits + rest)[1..] == digits[1..] + rest;
      DigitRunOf(digits[1..], rest);
    }
  }

  /** A printed number reads back, whatever other text follows it. */
  lemma StoiOfDecimal(n: nat, rest: string)
    requires n <= INT_MAX && (rest != "" ==> !IsDigit(rest[0]))
    ensures Stoi(Decimal(n) + rest) == Some(n)
  {
    DecimalRoundTrip(n);
    DigitRunOf(Decimal(n), rest);
    var s := Decimal(n) + rest;
    assert s[0] == Decimal(n)[0] && IsDigit(s[0]);
    assert s[..|Decimal(n)|] == Decimal(n);
  }

  lemma FindAfter(head: string, c: char, rest: string)
    requires c !in head
    ensures Find(head + [c] + rest, c) == |head|
    ensures Find(head, c) == |head|
  {
    var s := head + [c] + rest;
    assert forall i :: 0 <= i < |head| ==> s[i] == head[i] && head[i] in head;
    FoundAt(s, c, 0, |head|);
    FoundAt(head, c, 0, |head|);
  }

  /** A number reads exactly when it fits 32 bits, with a plus, a minus or no sign. */
  lemma {:induction false} StoiLimits(n: nat, sign: string)
    requires sign in {"", "+", "-"}
    ensures var v := if sign == "-" then -(n as int) else n;
      Stoi(sign + Decimal(n)) == if -2147483648 <= v <= 2147483647 then Some(v) else None
  {
    DecimalRoundTrip(n);
    hide Decimal, Stoi;
    DigitRunOf(Decimal(n), "");
    assert Decimal(n) + "" == Decimal(n);
    SignedStoi(sign, Decimal(n));
  }

  lemma {:induction false} SignedStoi(sign: string, digits: string)
    requires digits != "" && sign in {"", "+", "-"} && (forall c :: c in digits ==> IsDigit(c))
    requires DigitRun(digits) == |digits|
    ensures var v := (if sign == "-" then -1 else 1) * DecimalValue(digits);
      Stoi(sign + digits) == if INT_MIN <= v <= INT_MAX then Some(v) else None
  {
    hide DigitRun, DecimalValue;
    var s := sign + digits;
    assert digits[0] in digits && digits[..|digits|] == digits;
    if sign == "" {
      assert s == digits;
    } else {
      assert s[1..] == digits && s[0] == sign[0];
    }
  }

  /** "a-b" */
  function RangeText(a: nat, b: nat): string { Decimal(a) + "-" + Decimal(b) }

  /** "a-b/n" */
  function TermText(a: nat, b: nat, n: nat): string { RangeText(a, b) + "/" + Decimal(n) }

  lemma RangeTextReads(a: nat, b: nat, kind: FieldKind)
    requires a <= INT_MAX && b <= INT_MAX && (kind.weekday ==> a < 7 && b < 7)
    ensures ParseRange(RangeText(a, b), kind) == Some((a as int, b as int))
    ensures forall c :: c in RangeText(a, b) ==> IsDigit(c) || c == '-'
  {
    hide Stoi, Find, Decimal;
    DecimalRoundTrip(a);
    DecimalRoundTrip(b);
    var range := RangeText(a, b);
    assert '-' !in Decimal(a) && range == Decimal(a) + ['-'] + Decimal(b);
    FindAfter(Decimal(a), '-', Decimal(b));
    assert range[..|Decimal(a)|] == Decimal(a) && range[|Decimal(a)| + 1..] == Decimal(b);
    assert Decimal(a) + "" == Decimal(a) && Decimal(b) + "" == Decimal(b);
    StoiOfDecimal(a, "");
    StoiOfDecimal(b, "");
    assert '-' in range;
    assert range != "*";
  }

  lemma {:induction false} TermRoundTrip(a: nat, b: nat, n: nat, kind: FieldKind)
    requires kind.lo <= a <= b <= kind.hi <= INT_MAX && 0 < n <= INT_MAX && (kind.weekday ==> b < 7)
    ensures ParseTerm(TermText(a, b, n), kind) == Ok(Span(a, b, n))
  {
    hide Stoi, Find, Decimal, ParseRange, RangeText;
    var range := RangeText(a, b);
    RangeTextReads(a, b, kind);
    assert '/' !in range;
    var text := range + ['/'] + Decimal(n);
    FindAfter(range, '/', Decimal(n));
    assert text[..|range|] == range && text[|range| + 1..] == Decimal(n);
    assert Decimal(n) + "" == Decimal(n);
    StoiOfDecimal(n, "");
  }

  // ── One field ──

  /** The pieces between commas; nothing follows a last comma. */
  function Terms(field: string): seq<string>
    decreases |field|
  {
    if field == "" then []
    else
      var n := Find(field, ',');
      [field[..n]] + Terms(if n == |field| then "" else field[n + 1..])
  }

  ghost predicate SelectedBy(terms: seq<string>, kind: FieldKind, v: int) {
    exists i :: 0 <= i < |terms| && ParseTerm(terms[i], kind).Ok? && Selects(ParseTerm(terms[i], kind).value, v)
  }

  ghost predicate AllParse(terms: seq<string>, kind: FieldKind) {
    forall i :: 0 <= i < |terms| ==> ParseTerm(terms[i], kind).Ok?
  }

  /** The first term that does not parse, and why. */
  ghost predicate FirstBad(terms: seq<string>, kind: FieldKind, e: CronError) {
    exists i :: 0 <= i < |terms| && ParseTerm(terms[i], kind) == Err(e) && AllParse(terms[..i], kind)
  }

  /** Inserts start, start + step, … up to end. */
  method InsertSpan(span: Span, into: set<int>) returns (out: set<int>)
    requires span.step > 0 && span.start <= span.end
    ensures forall v :: v in out <==> v in into || Selects(span, v)
  {
    hide OnStep;
    out := into;
    var v := span.start;
    OnStepStart(span);
    while v <= span.end
      invariant span.start <= v && OnStep(span, v)
      invariant forall u :: u in out <==> u in into || (Selects(span, u) && u < v)
      decreases span.end - v
    {
      out := out + {v};
      OnStepNext(span, v);
      v := v + span.step;
    }
  }

  lemma OnStepStart(span: Span)
    requires span.step > 0
    ensures OnStep(span, span.start)
  {
  }

  /** The next value on the step is one step away. */
  lemma OnStepNext(span: Span, v: int)
    requires span.step > 0 && OnStep(span, v)
    ensures OnStep(span, v + span.step)
    ensures forall u :: v < u < v + span.step ==> !OnStep(span, u)
  {
    var k, a := span.step, v - span.start;
    Multiple(a + k, k, a / k + 1);
    forall u | v < u < v + k ensures !OnStep(span, u) {
      DivUnique(u - span.start, k, a / k, u - v);
    }
  }

  method ParseField(field: string, kind: FieldKind) returns (r: Result<set<int>, CronError>)
    ensures r.Ok? <==> Terms(field) != [] && AllParse(Terms(field), kind)
    ensures r.Ok? ==> forall v :: v in r.value <==> SelectedBy(Terms(field), kind, v)
    ensures r.Err? ==> (Terms(field) == [] && r.error == NothingSelected) || FirstBad(Terms(field), kind, r.error)
    ensures r.Ok? ==> Spans(r.value, kind.lo, kind.hi)
  {
    hide ParseTerm, Selects, Terms, AllParse, SelectedBy, FirstBad, Spans, Find;
    TermsStep(field);
    var out: set<int> := {};
    var rest := field;
    ghost var done: seq<string> := [];
    NothingYet(kind);
    while rest != ""
      invariant Terms(field) == done + Terms(rest)
      invariant AllParse(done, kind)
      invariant forall v :: v in out <==> SelectedBy(done, kind, v)
      decreases |rest|
    {
      var n := Find(rest, ',');
      var part := rest[..n];
      TermsAdvance(field, done, rest);
      rest := if n == |rest| then "" else rest[n + 1..];
      var term := ParseTerm(part, kind);
      if term.Err? {
        BadTerm(Terms(field), done, part, kind);
        return Err(term.error);
      }
      out := InsertSpan(term.value, out);
      SelectedStep(done, part, kind);
      done := done + [part];
    }
    TermsStep(rest);
    assert Terms(field) == done;
    SelectedSpans(done, kind, out);
    if out == {} { return Err(NothingSelected); }
    return Ok(out);
  }

  lemma TermsStep(rest: string)
    ensures (rest == "" <==> Terms(rest) == [])
    ensures rest != "" ==>
      var n := Find(rest, ',');
      Terms(rest) == [rest[..n]] + Terms(if n == |rest| then "" else rest[n + 1..])
  {
  }

  lemma {:induction false} TermsAdvance(field: string, done: seq<string>, rest: string)
    requires rest != "" && Terms(field) == done + Terms(rest)
    ensures var n := Find(rest, ',');
      && Terms(field) == (done + [rest[..n]]) + Terms(if n == |rest| then "" else rest[n + 1..])
      && done + [rest[..n]] <= Terms(field)
  {
    hide Terms, Find;
    TermsStep(rest);
  }

  lemma NothingYet(kind: FieldKind)
    ensures AllParse([], kind) && forall v :: !SelectedBy([], kind, v)
  {
  }

  lemma BadTerm(terms: seq<string>, done: seq<string>, part: string, kind: FieldKind)
    requires done + [part] <= terms && AllParse(done, kind) && ParseTerm(part, kind).Err?
    ensures FirstBad(terms, kind, ParseTerm(part, kind).error) && terms != [] && !AllParse(terms, kind)
  {
    hide ParseTerm;
    assert terms[|done|] == (done + [part])[|done|];
    assert terms[..|done|] == done;
  }

  lemma SelectedStep(done: seq<string>, part: string, kind: FieldKind)
    requires ParseTerm(part, kind).Ok? && AllParse(done, kind)
    ensures AllParse(done + [part], kind)
    ensures forall v :: SelectedBy(done + [part], kind, v) <==>
              SelectedBy(done, kind, v) || Selects(ParseTerm(part, kind).value, v)
  {
    hide ParseTerm, Selects;
    forall v ensures SelectedBy(done + [part], kind, v) <==>
                     SelectedBy(done, kind, v) || Selects(ParseTerm(part, kind).value, v) {
      assert (done + [part])[|done|] == part;
      if SelectedBy(done, kind, v) {
        var i :| 0 <= i < |done| && ParseTerm(done[i], kind).Ok? && Selects(ParseTerm(done[i], kind).value, v);
        assert (done + [part])[i] == done[i];
      }
    }
  }

  /** What parsed terms select lies within the bounds, and there is always something. */
  lemma SelectedSpans(terms: seq<string>, kind: FieldKind, values: set<int>)
    requires AllParse(terms, kind) && forall v :: v in values <==> SelectedBy(terms, kind, v)
    ensures if terms == [] then values == {} else Spans(values, kind.lo, kind.hi) && values != {}
  {
    hide ParseTerm;
    forall v | v in values ensures kind.lo <= v <= kind.hi {
      SelectedInRange(terms, kind, v);
    }
    if terms != [] {
      var span := ParseTerm(terms[0], kind).value;
      OnStepStart(span);
      assert Selects(span, span.start);
      assert SelectedBy(terms, kind, span.start);
    }
  }

  lemma SelectedInRange(terms: seq<string>, kind: FieldKind, v: int)
    requires SelectedBy(terms, kind, v)
    ensures kind.lo <= v <= kind.hi
  {
  }

  // ── The expression ──

  predicate Blank(c: char) {
    c == ' ' || c == '\t' || c == '\n' || c == '\r' || c == 0x0B as char || c == 0x0C as char
  }

  /** The length of the word the text starts with. */
  function WordLength(s: string): (n: nat)
    ensures n <= |s|
    ensures forall k :: 0 <= k < n ==> !Blank(s[k])
    ensures n < |s| ==> Blank(s[n])
  {
    if s == "" || Blank(s[0]) then 0 else 1 + WordLength(s[1..])
  }

  function Words(s: string): seq<string>
    decreases |s|
  {
    if s == "" then []
    else if Blank(s[0]) then Words(s[1..])
    else [s[..WordLength(s)]] + Words(s[WordLength(s)..])
  }

  method SplitWords(expr: string) returns (fields: seq<string>)
    ensures fields == Words(expr)
  {
    fields := [];
    var rest := expr;
    while rest != ""
      invariant Words(expr) == fields + Words(rest)
      decreases |rest|
    {
      if Blank(rest[0]) {
        rest := rest[1..];
      } else {
        var n := WordLength(rest);
        fields := fields + [rest[..n]];
        rest := rest[n..];
      }
    }
  }

  ghost predicate FieldReads(field: string, kind: FieldKind, values: set<int>) {
    && Terms(field) != [] && AllParse(Terms(field), kind)
    && forall v :: v in values <==> SelectedBy(Terms(field), kind, v)
  }

  /** The expression says exactly this, field by field. */
  ghost predicate Reads(fields: seq<string>, e: CronExpr) {
    && |fields| == 5
    && FieldReads(fields[0], MINUTE, e.minutes) && FieldReads(fields[1], HOUR, e.hours)
    && FieldReads(fields[2], DAY_OF_MONTH, e.daysOfMonth) && FieldReads(fields[3], MONTH, e.months)
    && FieldReads(fields[4], DAY_OF_WEEK, e.daysOfWeek)
    && e.anyDayOfMonth == (fields[2] == "*") && e.anyDayOfWeek == (fields[4] == "*")
  }

  method ParseCronExpr(expr: string) returns (r: Result<CronExpr, CronError>)
    ensures r.Ok? ==> Reads(Words(expr), r.value) && Parsed(r.value)
    ensures r.Err? ==> forall e :: !Reads(Words(expr), e)
    ensures |Words(expr)| != 5 ==> r == Err(WrongFieldCount(|Words(expr)|))
  {
    hide Terms, Words, AllParse, SelectedBy, FirstBad;
    var fields := SplitWords(expr);
    if |fields| != 5 { return Err(WrongFieldCount(|fields|)); }
    var minutes := ParseField(fields[0], MINUTE);
    if minutes.Err? { return Err(minutes.error); }
    var hours := ParseField(fields[1], HOUR);
    if hours.Err? { return Err(hours.error); }
    var days := ParseField(fields[2], DAY_OF_MONTH);
    if days.Err? { return Err(days.error); }
    var months := ParseField(fields[3], MONTH);
    if months.Err? { return Err(months.error); }
    var weekdays := ParseField(fields[4], DAY_OF_WEEK);
    if weekdays.Err? { return Err(weekdays.error); }
    var e := CronExpr(minutes.value, hours.value, days.value, months.value, weekdays.value,
                      fields[2] == "*", fields[4] == "*");
    StarReads(DAY_OF_MONTH, 31);
    StarReads(DAY_OF_WEEK, 6);
    WeekdaysStopAtSix(fields[4], e.daysOfWeek);
    return Ok(e);
  }

  /** "*" selects the whole range, for day-of-week without the second Sunday. */
  lemma StarReads(kind: FieldKind, last: int)
    requires kind.lo <= last == (if kind.weekday then 6 else kind.hi) <= kind.hi
    ensures Terms("*") == ["*"] && ParseTerm("*", kind).Ok?
    ensures forall v :: SelectedBy(Terms("*"), kind, v) <==> kind.lo <= v <= last
  {
    assert Find("*", ',') == 1;
    assert "*"[..1] == "*";
    assert Terms("*") == ["*"];
    assert Find("*", '/') == 1;
    var span := Span(kind.lo, last, 1);
    assert ParseTerm("*", kind) == Ok(span);
    forall v ensures SelectedBy(["*"], kind, v) <==> Selects(span, v) {
      assert ["*"][0] == "*";
    }
  }

  /** A number selects itself. */
  lemma NumberReads(n: nat, kind: FieldKind)
    requires kind.lo <= n <= kind.hi <= INT_MAX && (kind.weekday ==> n < 7)
    ensures FieldReads(Decimal(n), kind, {n}) && Decimal(n) != "*"
  {
    hide Stoi, Find, Decimal;
    var field := Decimal(n);
    DecimalRoundTrip(n);
    assert ',' !in field && '/' !in field && '-' !in field && '*' !in field;
    FindAfter(field, ',', "");
    FindAfter(field, '/', "");
    FindAfter(field, '-', "");
    TermsStep(field);
    TermsStep("");
    assert field[..|field|] == field && field + "" == field;
    StoiOfDecimal(n, "");
    assert field != "*" by { assert "*"[0] == '*'; }
    assert ParseTerm(field, kind) == Ok(Span(n, n, 1));
    assert Terms(field) == [field];
    forall v ensures SelectedBy([field], kind, v) <==> v == n {
      assert [field][0] == field && Selects(Span(n, n, 1), v) <==> v == n;
    }
  }

  /** The last value a star reaches. */
  function StarEnd(kind: FieldKind): int { if kind.weekday then 6 else kind.hi }

  /** A field of one term selects what the term selects. */
  lemma OneTerm(field: string, kind: FieldKind, span: Span)
    requires field != "" && ',' !in field && ParseTerm(field, kind) == Ok(span)
    ensures Terms(field) == [field] && AllParse(Terms(field), kind)
    ensures forall v :: SelectedBy(Terms(field), kind, v) <==>
      span.start <= v <= span.end && (v - span.start) % span.step == 0
  {
    hide ParseTerm, Find;
    FindAfter(field, ',', "");
    TermsStep(field);
    TermsStep("");
    assert field[..|field|] == field;
    forall v ensures SelectedBy([field], kind, v) <==> Selects(span, v) {
      assert [field][0] == field;
    }
  }

  /** "*" over n: every n-th value from the start of the field's range. */
  lemma StarStepReads(n: nat, kind: FieldKind)
    requires kind.lo <= StarEnd(kind) <= kind.hi && 0 < n <= INT_MAX
    ensures var terms := Terms("*/" + Decimal(n)); terms != [] && AllParse(terms, kind)
    ensures forall v :: SelectedBy(Terms("*/" + Decimal(n)), kind, v) <==>
      kind.lo <= v <= StarEnd(kind) && (v - kind.lo) % n == 0
  {
    var field := "*/" + Decimal(n);
    StarStepParses(n, kind);
    DecimalRoundTrip(n);
    hide ParseTerm, Terms, Find, Decimal;
    assert ',' !in "*/";
    OneTerm(field, kind, Span(kind.lo, StarEnd(kind), n));
  }

  lemma {:induction false} StarSlash(text: string)
    ensures var field := "*/" + text;
      Find(field, '/') == 1 && field[..1] == "*" && field[2..] == text
  {
    assert "*/" + text == "*" + ['/'] + text;
    FindAfter("*", '/', text);
  }

  lemma StarStepParses(n: nat, kind: FieldKind)
    requires kind.lo <= StarEnd(kind) <= kind.hi && 0 < n <= INT_MAX
    ensures ParseTerm("*/" + Decimal(n), kind) == Ok(Span(kind.lo, StarEnd(kind), n))
  {
    hide Stoi, Find, Decimal;
    StarSlash(Decimal(n));
    assert Decimal(n) + "" == Decimal(n);
    StoiOfDecimal(n, "");
  }

  /** "a-b": every value from a to b. */
  lemma {:induction false} RangeReads(a: nat, b: nat, kind: FieldKind)
    requires kind.lo <= a <= b <= kind.hi <= INT_MAX && (kind.weekday ==> b < 7)
    ensures var field := Decimal(a) + "-" + Decimal(b);
      && Terms(field) != [] && AllParse(Terms(field), kind)
      && forall v :: SelectedBy(Terms(field), kind, v) <==> a <= v <= b
  {
    hide Terms, Find, ParseRange, Decimal;
    var field := RangeText(a, b);
    RangeTextReads(a, b, kind);
    assert '/' !in field && ',' !in field;
    FindAfter(field, '/', "");
    assert field[..|field|] == field;
    OneTerm(field, kind, Span(a, b, 1));
  }

  /** Weekday 7 is Sunday too. */
  lemma SevenIsSunday()
    ensures FieldReads("7", DAY_OF_WEEK, {0})
  {
    assert Find("7", '/') == 1 && Find("7", '-') == 1;
    assert "7"[..1] == "7";
    assert Decimal(7) == "7" && "7" + "" == "7";
    StoiOfDecimal(7, "");
    hide Stoi;
    assert ParseTerm("7", DAY_OF_WEEK) == Ok(Span(0, 0, 1));
    OneTerm("7", DAY_OF_WEEK, Span(0, 0, 1));
  }

  /** A step below one is refused. */
  lemma {:induction false} StepBelowOneIsRefused(text: string, kind: FieldKind)
    requires Stoi(text).Some? && Stoi(text).value <= 0
    ensures ParseTerm("*/" + text, kind) == Err(StepNotPositive)
  {
    hide Stoi, Find;
    StarSlash(text);
  }

  /** Fields joined by a comma select what either does. */
  lemma {:induction false} CommaJoins(f: string, g: string, kind: FieldKind)
    requires f != "" && f[|f| - 1] != ','
    ensures Terms(f + "," + g) == Terms(f) + Terms(g)
    ensures AllParse(Terms(f + "," + g), kind) <==> AllParse(Terms(f), kind) && AllParse(Terms(g), kind)
    ensures forall v :: SelectedBy(Terms(f + "," + g), kind, v) <==>
      SelectedBy(Terms(f), kind, v) || SelectedBy(Terms(g), kind, v)
  {
    hide ParseTerm, Selects, Find;
    TermsJoin(f, g);
    BothParse(Terms(f), Terms(g), kind);
  }

  lemma {:induction false} TermsJoin(f: string, g: string)
    requires f != "" && f[|f| - 1] != ','
    ensures Terms(f + "," + g) == Terms(f) + Terms(g)
    decreases |f|
  {
    hide Find, Terms;
    var s, n := f + "," + g, Find(f, ',');
    TermsStep(f);
    TermsStep(s);
    TermsStep("");
    assert f[..n] + [','] + s[n + 1..] == s by {
      assert s[n] == ',';
    }
    FindAfter(f[..n], ',', s[n + 1..]);
    assert s[..n] == f[..n];
    if n == |f| {
      assert s[n + 1..] == g;
      TermsStep(g);
    } else {
      var rest := f[n + 1..];
      assert rest != "" && rest[|rest| - 1] == f[|f| - 1];
      assert s[n + 1..] == rest + "," + g;
      TermsJoin(rest, g);
    }
  }

  lemma {:induction false} BothParse(a: seq<string>, b: seq<string>, kind: FieldKind)
    ensures AllParse(a + b, kind) <==> AllParse(a, kind) && AllParse(b, kind)
    ensures forall v :: SelectedBy(a + b, kind, v) <==> SelectedBy(a, kind, v) || SelectedBy(b, kind, v)
  {
    hide ParseTerm, Selects;
    var all := a + b;
    assert forall i :: 0 <= i < |a| ==> all[i] == a[i];
    assert forall i :: 0 <= i < |b| ==> all[|a| + i] == b[i];
    assert forall i :: |a| <= i < |all| ==> all[i] == b[i - |a|];
  }

  /** A number outside the field's bounds is refused. */
  lemma OutsideIsRefused(n: nat, kind: FieldKind)
    requires (n < kind.lo || n > kind.hi) && kind.hi >= 7 && n <= INT_MAX
    ensures ParseTerm(Decimal(n), kind) == Err(OutOfRange)
  {
    hide Stoi, Find, Decimal;
    var field := Decimal(n);
    DecimalRoundTrip(n);
    assert '/' !in field && '-' !in field && '*' !in field;
    FindAfter(field, '/', "");
    FindAfter(field, '-', "");
    assert field[..|field|] == field && field + "" == field;
    StoiOfDecimal(n, "");
    assert field != "*" by { assert "*"[0] == '*'; }
  }

  /** The bounds of the five fields: what a star reads as in each, and that nothing beyond them is taken. */
  lemma BoundsOfFields()
    ensures forall v :: SelectedBy(Terms("*"), MINUTE, v) <==> 0 <= v <= 59
    ensures forall v :: SelectedBy(Terms("*"), HOUR, v) <==> 0 <= v <= 23
    ensures forall v :: SelectedBy(Terms("*"), DAY_OF_MONTH, v) <==> 1 <= v <= 31
    ensures forall v :: SelectedBy(Terms("*"), MONTH, v) <==> 1 <= v <= 12
    ensures forall v :: SelectedBy(Terms("*"), DAY_OF_WEEK, v) <==> 0 <= v <= 6
    ensures ParseTerm(Decimal(60), MINUTE).Err? && ParseTerm(Decimal(24), HOUR).Err?
    ensures ParseTerm(Decimal(0), DAY_OF_MONTH).Err? && ParseTerm(Decimal(32), DAY_OF_MONTH).Err?
    ensures ParseTerm(Decimal(0), MONTH).Err? && ParseTerm(Decimal(13), MONTH).Err?
    ensures ParseTerm(Decimal(8), DAY_OF_WEEK).Err?
  {
    hide ParseTerm, Terms, SelectedBy, Decimal;
    StarReads(MINUTE, 59);
    StarReads(HOUR, 23);
    StarReads(DAY_OF_MONTH, 31);
    StarReads(MONTH, 12);
    StarReads(DAY_OF_WEEK, 6);
    OutsideIsRefused(60, MINUTE);
    OutsideIsRefused(24, HOUR);
    OutsideIsRefused(0, DAY_OF_MONTH);
    OutsideIsRefused(32, DAY_OF_MONTH);
    OutsideIsRefused(0, MONTH);
    OutsideIsRefused(13, MONTH);
    OutsideIsRefused(8, DAY_OF_WEEK);
  }

  predicate IsWord(w: string) { w != "" && forall k :: 0 <= k < |w| ==> !Blank(w[k]) }

  lemma {:induction false} WordLengthOf(w: string, rest: string)
    requires (forall k :: 0 <= k < |w| ==> !Blank(w[k])) && (rest != "" ==> Blank(rest[0]))
    ensures WordLength(w + rest) == |w|
  {
    if w == "" {
      assert w + rest == rest;
    } else {
      assert (w + rest)[1..] == w[1..] + rest;
      WordLengthOf(w[1..], rest);
    }
  }

  function Joined(words: seq<string>): string {
    if words == [] then "" else words[0] + (if |words| == 1 then "" else " " + Joined(words[1..]))
  }

  /** Words written with a blank between them come apart as they were. */
  lemma {:induction false} WordsRoundTrip(words: seq<string>)
    requires forall i :: 0 <= i < |words| ==> IsWord(words[i])
    ensures Words(Joined(words)) == words
  {
    if words != [] {
      var w, rest := words[0], if |words| == 1 then "" else " " + Joined(words[1..]);
      assert IsWord(w);
      WordLengthOf(w, rest);
      var text := w + rest;
      assert text[..|w|] == w && text[|w|..] == rest && text[0] == w[0];
      if |words| == 1 {
        assert words == [w];
      } else {
        WordsRoundTrip(words[1..]);
        assert rest[1..] == Joined(words[1..]);
        assert words == [w] + words[1..];
      }
    }
  }

  /** "0 0 29 2 *" reads as the expression that only leap days meet. */
  lemma LeapDaysRead()
    ensures Reads(Words("0 0 29 2 *"), LEAP_DAYS)
  {
    hide Words, FieldReads;
    var words := ["0", "0", "29", "2", "*"];
    assert Decimal(0) == "0" && Decimal(2) == "2" && Decimal(29) == "29";
    assert Joined(words) == "0 0 29 2 *" by {
      assert Joined(words[4..]) == "*";
      assert Joined(words[3..]) == "2 *";
      assert Joined(words[2..]) == "29 2 *";
      assert Joined(words[1..]) == "0 29 2 *";
    }
    WordsRoundTrip(words);
    NumberReads(0, MINUTE);
    NumberReads(0, HOUR);
    NumberReads(29, DAY_OF_MONTH);
    NumberReads(2, MONTH);
    StarIsRead();
  }

  lemma StarIsRead()
    ensures FieldReads("*", DAY_OF_WEEK, LEAP_DAYS.daysOfWeek)
  {
    hide ParseTerm, Terms;
    StarReads(DAY_OF_WEEK, 6);
  }

  /** 7 is read as 0 at either end, so no span reaches it. */
  lemma {:induction false} WeekdaysStopAtSix(field: string, values: set<int>)
    requires FieldReads(field, DAY_OF_WEEK, values)
    ensures forall v :: v in values ==> v <= 6
  {
    hide OnStep, ParseTerm, Terms;
    forall v | v in values ensures v <= 6 {
      var terms := Terms(field);
      var i :| 0 <= i < |terms| && ParseTerm(terms[i], DAY_OF_WEEK).Ok?
               && Selects(ParseTerm(terms[i], DAY_OF_WEEK).value, v);
    }
  }
}
