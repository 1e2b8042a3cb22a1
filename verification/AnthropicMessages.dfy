/**
 The transcript in Anthropic's message format: tool results have no role of
 their own there, so a run of them becomes one user turn that must answer the
 tool_use blocks of the assistant turn right before it.
 */
module AnthropicMessages {
  import opened Wrappers
  import opened JsonValues
  import opened Transcript

  datatype Part = TextPart(text: string) | ImagePart(data: string)

  datatype Content = Plain(text: string) | Parts(parts: seq<Part>)

  datatype ToolUse = ToolUse(id: string, name: string, input: Json)

  datatype ToolResult = ToolResult(toolUseId: string, content: Content)

  datatype Turn =
    | UserTurn(content: Content)
    | AssistantTurn(text: string, uses: seq<ToolUse>)   // "" is no text block
    | ResultsTurn(results: seq<ToolResult>)

  function ContentValue(m: ChatMessage): Content {
    if m.images == [] then Plain(m.content)
    else Parts((if m.content == "" then [] else [TextPart(m.content)])
               + seq(|m.images|, k requires 0 <= k < |m.images| => ImagePart(m.images[k])))
  }

  /** Arguments that do not parse are sent as an empty object. */
  function UseOf(parse: string -> Option<Json>, c: CallRecord): ToolUse {
    ToolUse(c.id, c.name, match parse(c.arguments) case Some(v) => v case None => Obj([]))
  }

  function UsesOf(parse: string -> Option<Json>, calls: seq<CallRecord>): seq<ToolUse> {
    seq(|calls|, k requires 0 <= k < |calls| => UseOf(parse, calls[k]))
  }

  function ResultOf(m: ChatMessage): ToolResult {
    ToolResult(m.toolCallId, ContentValue(m))
  }

  /** How many tool messages h starts with. */
  function ToolRun(h: seq<ChatMessage>): (n: nat)
    ensures n <= |h|
    ensures forall k :: 0 <= k < n ==> h[k].role == Tool
    ensures n < |h| ==> h[n].role != Tool
  {
    if h == [] || h[0].role != Tool then 0 else 1 + ToolRun(h[1..])
  }

  function ResultsOf(h: seq<ChatMessage>): seq<ToolResult> {
    seq(|h|, k requires 0 <= k < |h| => ResultOf(h[k]))
  }

  function Turns(parse: string -> Option<Json>, h: seq<ChatMessage>): seq<Turn>
    decreases |h|
  {
    if h == [] then []
    else match h[0].role
      case User => [UserTurn(ContentValue(h[0]))] + Turns(parse, h[1..])
      case Assistant => [AssistantTurn(h[0].content, UsesOf(parse, h[0].calls))] + Turns(parse, h[1..])
      case Tool => [ResultsTurn(ResultsOf(h[..ToolRun(h)]))] + Turns(parse, h[ToolRun(h)..])
      case _ => Turns(parse, h[1..])
  }

  /** The last system message wins. */
  function SystemText(h: seq<ChatMessage>): string {
    if h == [] then ""
    else if h[|h| - 1].role == System then h[|h| - 1].content
    else SystemText(h[..|h| - 1])
  }

  /** The tool_use blocks of one assistant message. */
  method BuildUses(parse: string -> Option<Json>, calls: seq<CallRecord>) returns (uses: seq<ToolUse>)
    ensures uses == UsesOf(parse, calls)
  {
    uses := [];
    for k := 0 to |calls|
      invariant uses == UsesOf(parse, calls[..k])
    {
      uses := uses + [UseOf(parse, calls[k])];
    }
    assert calls[..|calls|] == calls;
  }

  /** Folds the run of tool messages that starts at `start`. */
  method FoldResults(messages: seq<ChatMessage>, start: nat) returns (results: seq<ToolResult>, i: nat)
    requires start < |messages|
    ensures i == start + ToolRun(messages[start..]) <= |messages|
    ensures results == ResultsOf(messages[start..][..ToolRun(messages[start..])])
  {
    ghost var rest := messages[start..];
    results, i := [], start;
    while i < |messages| && messages[i].role == Tool
      invariant start <= i <= start + ToolRun(rest) <= |messages|
      invariant results == ResultsOf(rest[..i - start])
    {
      assert messages[i] == rest[i - start];
      results := results + [ResultOf(messages[i])];
      i := i + 1;
    }
    assert i < |messages| ==> rest[i - start] == messages[i];
  }

  lemma {:induction false} SystemTextSkips(h: seq<ChatMessage>, i: nat, j: nat)
    requires i <= j <= |h| && forall k :: i <= k < j ==> h[k].role != System
    ensures SystemText(h[..j]) == SystemText(h[..i])
  {
    if i < j {
      SystemTextSkips(h, i, j - 1);
      assert h[..j][..j - 1] == h[..j - 1];
    }
  }

  /** One turn more, and what is left to build. */
  lemma TurnsFrom(parse: string -> Option<Json>, messages: seq<ChatMessage>, i: nat, done: seq<Turn>)
    requires i < |messages|
    ensures var rest := messages[i..];
            done + Turns(parse, rest) == match messages[i].role
              case User => done + [UserTurn(ContentValue(messages[i]))] + Turns(parse, messages[i + 1..])
              case Assistant => done + [AssistantTurn(messages[i].content, UsesOf(parse, messages[i].calls))]
                                + Turns(parse, messages[i + 1..])
              case Tool => done + [ResultsTurn(ResultsOf(rest[..ToolRun(rest)]))]
                           + Turns(parse, messages[i + ToolRun(rest)..])
              case _ => done + Turns(parse, messages[i + 1..])
  {
    var rest := messages[i..];
    assert rest[1..] == messages[i + 1..];
    assert rest[ToolRun(rest)..] == messages[i + ToolRun(rest)..];
  }

  method BuildAnthropicMessages(parse: string -> Option<Json>, messages: seq<ChatMessage>)
    returns (system: string, turns: seq<Turn>)
    ensures system == SystemText(messages)
    ensures turns == Turns(parse, messages)
  {
    hide SystemText, UsesOf, ResultsOf, ContentValue, Turns;
    system, turns := "", [];
    var i := 0;
    assert SystemText(messages[..0]) == "" by { NoSystemText(messages[..0]); }
    assert messages[0..] == messages;
    while i < |messages|
      invariant i <= |messages|
      invariant system == SystemText(messages[..i])
      invariant turns + Turns(parse, messages[i..]) == Turns(parse, messages)
    {
      var msg := messages[i];
      ghost var from := i;
      TurnsFrom(parse, messages, i, turns);
      if msg.role == System {
        system := msg.content;
        i := i + 1;
        LastSystemText(messages[..i]);
      } else if msg.role == User {
        turns := turns + [UserTurn(ContentValue(msg))];
        i := i + 1;
      } else if msg.role == Assistant {
        var uses := BuildUses(parse, msg.calls);
        turns := turns + [AssistantTurn(msg.content, uses)];
        i := i + 1;
      } else if msg.role == Tool {
        var results;
        results, i := FoldResults(messages, i);
        turns := turns + [ResultsTurn(results)];
        assert forall k :: from <= k < i ==> messages[k] == messages[from..][k - from];
      } else {
        i := i + 1;
      }
      if msg.role != System { SystemTextSkips(messages, from, i); }
    }
    assert messages[..i] == messages;
    NoTurns(parse, messages[i..]);
  }

  lemma NoTurns(parse: string -> Option<Json>, h: seq<ChatMessage>)
    requires h == []
    ensures Turns(parse, h) == []
  {
  }

  lemma NoSystemText(h: seq<ChatMessage>)
    requires h == []
    ensures SystemText(h) == ""
  {
  }

  lemma LastSystemText(h: seq<ChatMessage>)
    requires h != [] && h[|h| - 1].role == System
    ensures SystemText(h) == h[|h| - 1].content
  {
  }

  // ── What the wire format requires ──

  function UseIds(uses: seq<ToolUse>): seq<string> {
    seq(|uses|, k requires 0 <= k < |uses| => uses[k].id)
  }

  function ResultIds(results: seq<ToolResult>): seq<string> {
    seq(|results|, k requires 0 <= k < |results| => results[k].toolUseId)
  }

  /**
   Every assistant turn with tool_use blocks is followed at once by one results
   turn answering exactly those ids in order, and there is no other results turn.
   */
  predicate Paired(turns: seq<Turn>) {
    if turns == [] then true
    else match turns[0]
      case ResultsTurn(_) => false
      case UserTurn(_) => Paired(turns[1..])
      case AssistantTurn(_, uses) =>
        if uses == [] then Paired(turns[1..])
        else
          && |turns| >= 2
          && turns[1].ResultsTurn?
          && ResultIds(turns[1].results) == UseIds(uses)
          && Paired(turns[2..])
  }

  lemma {:induction false} RunOfTools(h: seq<ChatMessage>, n: nat)
    requires n <= |h| && (forall k :: 0 <= k < n ==> h[k].role == Tool) && (n < |h| ==> h[n].role != Tool)
    ensures ToolRun(h) == n
  {
    if n > 0 { RunOfTools(h[1..], n - 1); }
  }

  /** The answers of one message fold into one results turn. */
  lemma {:induction false} AnswersFold(parse: string -> Option<Json>, tools: seq<ChatMessage>, n: nat)
    requires 0 < n <= |tools| && (forall k :: 0 <= k < n ==> tools[k].role == Tool)
    requires n < |tools| ==> tools[n].role != Tool
    ensures Turns(parse, tools) == [ResultsTurn(ResultsOf(tools[..n]))] + Turns(parse, tools[n..])
  {
    hide ResultsOf;
    RunOfTools(tools, n);
  }

  lemma AskingTurn(parse: string -> Option<Json>, h: seq<ChatMessage>)
    requires h != [] && h[0].role == Assistant
    ensures Turns(parse, h) == [AssistantTurn(h[0].content, UsesOf(parse, h[0].calls))] + Turns(parse, h[1..])
  {
    hide UsesOf;
  }

  lemma SameIds(parse: string -> Option<Json>, calls: seq<CallRecord>, answers: seq<ChatMessage>)
    requires |answers| == |calls| && forall k :: 0 <= k < |calls| ==> Answers(answers[k], calls[k].id)
    ensures ResultIds(ResultsOf(answers)) == UseIds(UsesOf(parse, calls))
  {
  }

  /** Behind a message with calls stand its answers, and then no other tool message. */
  lemma {:induction false} AnswersBehind(h: seq<ChatMessage>, tools: seq<ChatMessage>, n: nat)
    requires WellFormed(h) && h != [] && tools == h[1..] && n == |Asked(h[0])| > 0
    ensures h[0].role == Assistant && n == |h[0].calls| <= |tools|
    ensures tools[n..] == h[1 + n..] && tools[..n] == h[1..1 + n]
    ensures forall k :: 0 <= k < n ==> tools[k].role == Tool
    ensures forall k :: 0 <= k < n ==> Answers(tools[..n][k], h[0].calls[k].id)
    ensures n < |tools| ==> tools[n].role != Tool
  {
    forall k | 0 <= k < n ensures Answers(tools[k], h[0].calls[k].id) && tools[k].role == Tool {
      assert tools[k] == h[1 + k] && Answers(h[1 + k], Asked(h[0])[k]);
    }
    assert n < |tools| ==> h[1 + n..][0] == tools[n];
  }

  /** A message with calls and its answers become one tool_use turn and one results turn. */
  lemma {:induction false} AnsweredTurns(parse: string -> Option<Json>, h: seq<ChatMessage>)
    requires WellFormed(h) && h != [] && Asked(h[0]) != []
    ensures var n := |Asked(h[0])|;
      var uses, results := UsesOf(parse, h[0].calls), ResultsOf(h[1..1 + n]);
      && Turns(parse, h) == [AssistantTurn(h[0].content, uses), ResultsTurn(results)] + Turns(parse, h[1 + n..])
      && ResultIds(results) == UseIds(uses) && uses != []
  {
    var n, tools := |Asked(h[0])|, h[1..];
    AnswersBehind(h, tools, n);
    hide Turns, ResultsOf, UseIds, ResultIds, WellFormed, Asked, Answers;
    AskingTurn(parse, h);
    AnswersFold(parse, tools, n);
    SameIds(parse, h[0].calls, tools[..n]);
  }

  /** A well-formed transcript is sent with every tool_use answered. */
  lemma {:induction false} WellFormedIsPaired(parse: string -> Option<Json>, h: seq<ChatMessage>)
    requires WellFormed(h)
    ensures Paired(Turns(parse, h))
    decreases |h|
  {
    if h != [] {
      var n := |Asked(h[0])|;
      WellFormedIsPaired(parse, h[1 + n..]);
      if n > 0 {
        AnsweredTurns(parse, h);
        hide Turns, WellFormed, UsesOf, ResultsOf, ResultIds, UseIds;
        var turns := Turns(parse, h);
        assert turns[2..] == Turns(parse, h[1 + n..]);
      }
    }
  }

  // ── Nothing is lost on the way ──

  /** Who said what: texts, images and calls as the messages have them, arguments as the wire has them. */
  datatype Said =
    | FromUser(text: string, images: seq<string>)
    | FromAssistant(text: string, calls: seq<(string, string, Json)>)
    | FromTool(id: string, text: string, images: seq<string>)

  function CallOf(parse: string -> Option<Json>, c: CallRecord): (string, string, Json) {
    (c.id, c.name, if parse(c.arguments).Some? then parse(c.arguments).value else Obj([]))
  }

  function CallsOf(parse: string -> Option<Json>, calls: seq<CallRecord>): seq<(string, string, Json)> {
    seq(|calls|, k requires 0 <= k < |calls| => CallOf(parse, calls[k]))
  }

  function SaidBy(parse: string -> Option<Json>, h: seq<ChatMessage>): seq<Said> {
    if h == [] then []
    else
      var m := h[0];
      var here := match m.role
        case User => [FromUser(m.content, m.images)]
        case Assistant => [FromAssistant(m.content, CallsOf(parse, m.calls))]
        case Tool => [FromTool(m.toolCallId, m.content, m.images)]
        case _ => [];
      here + SaidBy(parse, h[1..])
  }

  function TextIn(c: Content): string {
    match c
    case Plain(text) => text
    case Parts(parts) => if parts != [] && parts[0].TextPart? then parts[0].text else ""
  }

  function ImagesIn(c: Content): seq<string> {
    match c
    case Plain(_) => []
    case Parts(parts) => Images(parts)
  }

  function Images(parts: seq<Part>): seq<string> {
    if parts == [] then []
    else (if parts[0].ImagePart? then [parts[0].data] else []) + Images(parts[1..])
  }

  function CallsIn(uses: seq<ToolUse>): seq<(string, string, Json)> {
    seq(|uses|, k requires 0 <= k < |uses| => (uses[k].id, uses[k].name, uses[k].input))
  }

  function ResultsIn(results: seq<ToolResult>): seq<Said> {
    seq(|results|, k requires 0 <= k < |results| =>
      FromTool(results[k].toolUseId, TextIn(results[k].content), ImagesIn(results[k].content)))
  }

  function Unrolled(turns: seq<Turn>): seq<Said> {
    if turns == [] then []
    else
      var here := match turns[0]
        case UserTurn(c) => [FromUser(TextIn(c), ImagesIn(c))]
        case AssistantTurn(text, uses) => [FromAssistant(text, CallsIn(uses))]
        case ResultsTurn(results) => ResultsIn(results);
      here + Unrolled(turns[1..])
  }

  lemma {:induction false} ImagesOnly(parts: seq<Part>, images: seq<string>)
    requires |parts| == |images| && forall k :: 0 <= k < |images| ==> parts[k] == ImagePart(images[k])
    ensures Images(parts) == images
  {
    if images != [] { ImagesOnly(parts[1..], images[1..]); }
  }

  /** A content says the text and the images, in parts exactly when there are images, and never an empty text part. */
  lemma ContentSays(m: ChatMessage)
    ensures TextIn(ContentValue(m)) == m.content && ImagesIn(ContentValue(m)) == m.images
    ensures ContentValue(m).Plain? <==> m.images == []
    ensures ContentValue(m).Parts? ==> TextPart("") !in ContentValue(m).parts
  {
    if m.images != [] {
      var parts := seq(|m.images|, k requires 0 <= k < |m.images| => ImagePart(m.images[k]));
      ImagesOnly(parts, m.images);
      var all := ContentValue(m).parts;
      if m.content != "" {
        assert all[0] == TextPart(m.content) && all[1..] == parts;
        assert Images(all) == Images(parts);
      } else {
        assert all == parts && parts[0].ImagePart?;
      }
      forall k | 0 <= k < |all| ensures all[k] != TextPart("") {
        assert all[k] == TextPart(m.content) || all[k].ImagePart?;
      }
    }
  }

  lemma {:induction false} ResultsInFront(m: ChatMessage, rest: seq<ChatMessage>)
    ensures ResultsIn(ResultsOf([m] + rest)) == [FromTool(m.toolCallId, m.content, m.images)] + ResultsIn(ResultsOf(rest))
  {
    ContentSays(m);
    hide ContentValue, TextIn, ImagesIn;
    var all, tail := ResultsIn(ResultsOf([m] + rest)), ResultsIn(ResultsOf(rest));
    assert forall k :: 0 <= k < |rest| ==> ([m] + rest)[k + 1] == rest[k];
    assert forall k :: 0 <= k < |rest| ==> all[k + 1] == tail[k];
  }

  lemma {:induction false} ToolsSaid(parse: string -> Option<Json>, h: seq<ChatMessage>, n: nat)
    requires n <= |h| && forall k :: 0 <= k < n ==> h[k].role == Tool
    ensures SaidBy(parse, h) == ResultsIn(ResultsOf(h[..n])) + SaidBy(parse, h[n..])
  {
    if n > 0 {
      hide ResultsIn, ResultsOf;
      ToolsSaid(parse, h[1..], n - 1);
      assert h[1..][n - 1..] == h[n..];
      assert h[..n] == [h[0]] + h[1..][..n - 1];
      ResultsInFront(h[0], h[1..][..n - 1]);
    } else {
      assert h[0..] == h && ResultsIn(ResultsOf(h[..0])) == [];
    }
  }

  lemma UsesSay(parse: string -> Option<Json>, calls: seq<CallRecord>)
    ensures CallsIn(UsesOf(parse, calls)) == CallsOf(parse, calls)
  {
  }

  /**
   Unrolling the turns gives back every non-system message in order: its text,
   its images, its ids, and its calls with their arguments.
   */
  lemma {:induction false} TurnsLoseNothing(parse: string -> Option<Json>, h: seq<ChatMessage>)
    ensures Unrolled(Turns(parse, h)) == SaidBy(parse, h)
    decreases |h|
  {
    hide ContentValue, TextIn, ImagesIn, UsesOf, ResultsOf, CallsOf, CallsIn, ResultsIn;
    if h != [] {
      var turns := Turns(parse, h);
      if h[0].role == Tool {
        var n := ToolRun(h);
        TurnsLoseNothing(parse, h[n..]);
        ToolsSaid(parse, h, n);
        assert turns[1..] == Turns(parse, h[n..]);
      } else {
        TurnsLoseNothing(parse, h[1..]);
        if h[0].role == User || h[0].role == Assistant {
          assert turns[1..] == Turns(parse, h[1..]);
          ContentSays(h[0]);
          UsesSay(parse, h[0].calls);
        }
      }
    }
  }
}
