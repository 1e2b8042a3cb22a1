/**
 The conversation a run keeps: messages, the call/result discipline the LLM
 wire formats insist on, and the token estimate of the context budget.
 */
module Transcript {
  import opened Wrappers

  datatype Role = System | User | Assistant | Tool | OtherRole

  /** One entry of an assistant message's `tool_calls`; `arguments` is JSON text. */
  datatype CallRecord = CallRecord(id: string, name: string, arguments: string)

  /** `calls == []` stands for the null `tool_calls` of a message without any. */
  datatype ChatMessage = ChatMessage(
    role: Role,
    content: string,
    toolCallId: string,
    name: string,
    calls: seq<CallRecord>,
    images: seq<string>)

  function UserMessage(content: string): ChatMessage {
    ChatMessage(User, content, "", "", [], [])
  }

  function AssistantMessage(content: string, calls: seq<CallRecord>): ChatMessage {
    ChatMessage(Assistant, content, "", "", calls, [])
  }

  function CallIds(calls: seq<CallRecord>): (ids: seq<string>)
    ensures |ids| == |calls|
    ensures forall k :: 0 <= k < |calls| ==> ids[k] == calls[k].id
  {
    seq(|calls|, k requires 0 <= k < |calls| => calls[k].id)
  }

  /** The ids a message asks to have answered. */
  function Asked(m: ChatMessage): seq<string> {
    if m.role == Assistant then CallIds(m.calls) else []
  }

  predicate Answers(m: ChatMessage, id: string) {
    m.role == Tool && m.toolCallId == id
  }

  /**
   Every message that asks for n calls is followed at once by exactly n tool
   messages carrying the same ids in the same order, and there is no other
   tool message.
   */
  predicate WellFormed(h: seq<ChatMessage>) {
    h == [] ||
    (&& h[0].role != Tool
     && |Asked(h[0])| < |h|
     && (forall k :: 0 <= k < |Asked(h[0])| ==> Answers(h[1 + k], Asked(h[0])[k]))
     && WellFormed(h[1 + |Asked(h[0])|..]))
  }

  // ── The same discipline read one message at a time ──

  /** The ids still owed after one more message; None once the order is broken. */
  function Owed(before: Option<seq<string>>, m: ChatMessage): Option<seq<string>> {
    match before
    case None => None
    case Some(ids) =>
      if ids != [] then (if Answers(m, ids[0]) then Some(ids[1..]) else None)
      else if m.role == Tool then None
      else Some(Asked(m))
  }

  function OwedAfter(before: Option<seq<string>>, h: seq<ChatMessage>): Option<seq<string>>
    decreases |h|
  {
    if h == [] then before else OwedAfter(Owed(before, h[0]), h[1..])
  }

  lemma {:induction false} OwedAfterPush(before: Option<seq<string>>, h: seq<ChatMessage>, m: ChatMessage)
    ensures OwedAfter(before, h + [m]) == Owed(OwedAfter(before, h), m)
    decreases |h|
  {
    if h == [] {
      assert h + [m] == [m];
    } else {
      assert (h + [m])[1..] == h[1..] + [m];
      OwedAfterPush(Owed(before, h[0]), h[1..], m);
    }
  }

  lemma {:induction false} BrokenStaysBroken(h: seq<ChatMessage>)
    ensures OwedAfter(None, h) == None
  {
    if h != [] {
      BrokenStaysBroken(h[1..]);
    }
  }

  /** Owing `ids` can only be settled by the next |ids| messages, in order. */
  lemma {:induction false} SettleDebt(ids: seq<string>, h: seq<ChatMessage>)
    ensures OwedAfter(Some(ids), h) == Some([]) <==>
            && |ids| <= |h|
            && (forall k :: 0 <= k < |ids| ==> Answers(h[k], ids[k]))
            && OwedAfter(Some([]), h[|ids|..]) == Some([])
  {
    if ids == [] {
      assert h[0..] == h;
    } else if h != [] {
      if Answers(h[0], ids[0]) {
        SettleDebt(ids[1..], h[1..]);
        if |ids| <= |h| {
          assert h[1..][|ids[1..]|..] == h[|ids|..];
          assert forall k :: 0 < k < |ids| ==> h[k] == h[1..][k - 1] && ids[k] == ids[1..][k - 1];
          assert forall k :: 0 <= k < |ids| - 1 ==> h[1..][k] == h[k + 1] && ids[1..][k] == ids[k + 1];
        }
      } else {
        BrokenStaysBroken(h[1..]);
      }
    }
  }

  /** The one-message-at-a-time reading accepts exactly the well-formed transcripts. */
  lemma {:induction false} WellFormedIffNothingOwed(h: seq<ChatMessage>)
    ensures WellFormed(h) <==> OwedAfter(Some([]), h) == Some([])
    decreases |h|
  {
    if h != [] {
      if h[0].role == Tool {
        BrokenStaysBroken(h[1..]);
      } else {
        var ids := Asked(h[0]);
        SettleDebt(ids, h[1..]);
        if |ids| < |h| {
          assert h[1..][|ids|..] == h[1 + |ids|..];
          WellFormedIffNothingOwed(h[1 + |ids|..]);
        }
      }
    }
  }

  /** Appending a message that neither asks nor answers keeps a transcript well-formed. */
  lemma PushPlain(h: seq<ChatMessage>, m: ChatMessage)
    requires WellFormed(h) && m.role != Tool && Asked(m) == []
    ensures WellFormed(h + [m])
  {
    WellFormedIffNothingOwed(h);
    OwedAfterPush(Some([]), h, m);
    WellFormedIffNothingOwed(h + [m]);
  }

  lemma {:induction false} OwedAfterAppend(before: Option<seq<string>>, h: seq<ChatMessage>, t: seq<ChatMessage>)
    ensures OwedAfter(before, h + t) == OwedAfter(OwedAfter(before, h), t)
    decreases |h|
  {
    if h == [] {
      assert h + t == t;
    } else {
      assert (h + t)[1..] == h[1..] + t;
      OwedAfterAppend(Owed(before, h[0]), h[1..], t);
    }
  }

  lemma WellFormedAppend(h: seq<ChatMessage>, t: seq<ChatMessage>)
    requires WellFormed(h) && WellFormed(t)
    ensures WellFormed(h + t)
  {
    WellFormedIffNothingOwed(h);
    WellFormedIffNothingOwed(t);
    OwedAfterAppend(Some([]), h, t);
    WellFormedIffNothingOwed(h + t);
  }

  /** What the discipline looks at: roles and ids only. */
  predicate SameSkeleton(a: ChatMessage, b: ChatMessage) {
    && a.role == b.role && a.toolCallId == b.toolCallId && a.name == b.name
    && |a.calls| == |b.calls|
    && forall k :: 0 <= k < |a.calls| ==>
      a.calls[k].id == b.calls[k].id && a.calls[k].name == b.calls[k].name
  }

  lemma {:induction false} SkeletonKeepsWellFormed(a: seq<ChatMessage>, b: seq<ChatMessage>)
    requires |a| == |b| && forall i :: 0 <= i < |a| ==> SameSkeleton(a[i], b[i])
    requires WellFormed(a)
    ensures WellFormed(b)
    decreases |a|
  {
    if a != [] {
      assert SameSkeleton(a[0], b[0]);
      var n := |Asked(a[0])|;
      assert Asked(a[0]) == Asked(b[0]);
      forall k | 0 <= k < n ensures Answers(b[1 + k], Asked(b[0])[k]) {
        assert SameSkeleton(a[1 + k], b[1 + k]);
      }
      SkeletonKeepsWellFormed(a[1 + n..], b[1 + n..]);
    }
  }

  // ── The token estimate ──

  const TOKENS_PER_IMAGE: nat := 800

  /** Bytes of one character inside a dumped JSON string. */
  function EscapedWidth(c: char): nat {
    if c == '\"' || c == '\\' || c == '\n' || c == '\r' || c == '\t'
       || c == 0x08 as char || c == 0x0C as char then 2
    else if c < 0x20 as char then 6
    else 1
  }

  function EscapedBytes(s: string): (n: nat)
    ensures n >= |s|
  {
    if s == [] then 0 else EscapedBytes(s[..|s| - 1]) + EscapedWidth(s[|s| - 1])
  }

  function DumpedString(s: string): nat { 2 + EscapedBytes(s) }

  // {"function":{"arguments":A,"name":N},"id":I,"type":"function"} without A, N and I.
  const CALL_FRAME: nat := 59

  function DumpedCall(c: CallRecord): nat {
    CALL_FRAME + DumpedString(c.arguments) + DumpedString(c.name) + DumpedString(c.id)
  }

  /** Bytes of the dumped calls with their separating commas. */
  function DumpedCalls(calls: seq<CallRecord>): nat {
    if calls == [] then 0
    else DumpedCalls(calls[..|calls| - 1]) + DumpedCall(calls[|calls| - 1]) + 1
  }

  /** tool_calls.dump().size(): brackets, and one comma fewer than elements. */
  function DumpedCallArray(calls: seq<CallRecord>): nat {
    DumpedCalls(calls) + (if calls == [] then 0 else 1)
  }

  function Chars(h: seq<ChatMessage>): nat {
    if h == [] then 0
    else Chars(h[..|h| - 1]) + MessageChars(h[|h| - 1])
  }

  function MessageChars(m: ChatMessage): nat { |m.content| + DumpedCallArray(m.calls) }

  function Images(h: seq<ChatMessage>): nat {
    if h == [] then 0 else Images(h[..|h| - 1]) + |h[|h| - 1].images|
  }

  function EstimateTokens(h: seq<ChatMessage>): nat {
    Chars(h) / 4 + Images(h) * TOKENS_PER_IMAGE
  }

  predicate NoHeavier(a: ChatMessage, b: ChatMessage) {
    MessageChars(a) <= MessageChars(b) && |a.images| <= |b.images|
  }

  /** Making messages no heavier cannot raise the estimate. */
  lemma {:induction false} LighterIsCheaper(a: seq<ChatMessage>, b: seq<ChatMessage>)
    requires |a| == |b| && forall i :: 0 <= i < |a| ==> NoHeavier(a[i], b[i])
    ensures Chars(a) <= Chars(b) && Images(a) <= Images(b) && EstimateTokens(a) <= EstimateTokens(b)
  {
    if a != [] {
      var n := |a| - 1;
      assert NoHeavier(a[n], b[n]);
      LighterIsCheaper(a[..n], b[..n]);
    }
  }

  // ── What the estimate counts ──

  function ContentBytes(h: seq<ChatMessage>): nat {
    if h == [] then 0 else |h[0].content| + ContentBytes(h[1..])
  }

  function ArgumentBytes(calls: seq<CallRecord>): nat {
    if calls == [] then 0 else |calls[0].arguments| + ArgumentBytes(calls[1..])
  }

  function AllArgumentBytes(h: seq<ChatMessage>): nat {
    if h == [] then 0 else ArgumentBytes(h[0].calls) + AllArgumentBytes(h[1..])
  }

  function ImageCount(h: seq<ChatMessage>): nat {
    if h == [] then 0 else |h[0].images| + ImageCount(h[1..])
  }

  const HEX := "0123456789abcdef"

  /** A character inside a JSON string, as it is dumped. */
  function EscapedChar(c: char): string {
    if c == '\"' then "\\\""
    else if c == '\\' then "\\\\"
    else if c == '\n' then "\\n"
    else if c == '\r' then "\\r"
    else if c == '\t' then "\\t"
    else if c == 0x08 as char then "\\b"
    else if c == 0x0C as char then "\\f"
    else if c < 0x20 as char then "\\u00" + [HEX[c as int / 16], HEX[c as int % 16]]
    else [c]
  }

  function Quoted(s: string): string { "\"" + Escaped(s) + "\"" }

  function Escaped(s: string): string {
    if s == [] then "" else EscapedChar(s[0]) + Escaped(s[1..])
  }

  /** A call as it is dumped, keys in order. */
  function CallText(c: CallRecord): string {
    "{\"function\":{\"arguments\":" + Quoted(c.arguments) + ",\"name\":" + Quoted(c.name) + "},\"id\":" + Quoted(c.id)
    + ",\"type\":\"function\"}"
  }

  function CommaSeparated(calls: seq<CallRecord>): string {
    if calls == [] then ""
    else CallText(calls[0]) + (if |calls| == 1 then "" else "," + CommaSeparated(calls[1..]))
  }

  lemma {:induction false} EscapedBytesFront(s: string)
    requires s != []
    ensures EscapedBytes(s) == EscapedWidth(s[0]) + EscapedBytes(s[1..])
  {
    if |s| > 1 {
      EscapedBytesFront(s[..|s| - 1]);
      assert s[1..][..|s| - 2] == s[..|s| - 1][1..];
    }
  }

  lemma {:induction false} EscapedLength(s: string)
    ensures |Escaped(s)| == EscapedBytes(s)
  {
    if s != [] {
      EscapedBytesFront(s);
      EscapedLength(s[1..]);
    }
  }

  lemma CallTextLength(c: CallRecord)
    ensures |CallText(c)| == DumpedCall(c)
  {
    EscapedLength(c.arguments);
    EscapedLength(c.name);
    EscapedLength(c.id);
  }

  lemma {:induction false} DumpedCallsFront(calls: seq<CallRecord>)
    requires calls != []
    ensures DumpedCalls(calls) == DumpedCall(calls[0]) + 1 + DumpedCalls(calls[1..])
  {
    hide DumpedCall;
    if |calls| > 1 {
      DumpedCallsFront(calls[..|calls| - 1]);
      assert calls[1..][..|calls| - 2] == calls[..|calls| - 1][1..];
    }
  }

  /** What is counted for the calls of a message is the length of their JSON text. */
  lemma {:induction false} DumpedIsLength(calls: seq<CallRecord>)
    requires calls != []
    ensures |"[" + CommaSeparated(calls) + "]"| == DumpedCallArray(calls)
  {
    hide CallText, DumpedCall;
    DumpedCallsFront(calls);
    CallTextLength(calls[0]);
    if |calls| > 1 { DumpedIsLength(calls[1..]); }
  }

  lemma {:induction false} FrontOf(h: seq<ChatMessage>)
    requires h != []
    ensures Chars(h) == MessageChars(h[0]) + Chars(h[1..]) && Images(h) == |h[0].images| + Images(h[1..])
  {
    hide MessageChars;
    if |h| > 1 {
      FrontOf(h[..|h| - 1]);
      assert h[1..][..|h| - 2] == h[..|h| - 1][1..];
    }
  }

  lemma {:induction false} DumpedCoversArguments(calls: seq<CallRecord>)
    ensures ArgumentBytes(calls) <= DumpedCallArray(calls)
  {
    if calls != [] {
      DumpedCallsFront(calls);
      DumpedCoversArguments(calls[1..]);
    }
  }

  /** Every byte of content and arguments is counted, and 800 tokens for every image. */
  lemma {:induction false} CountsEverything(h: seq<ChatMessage>)
    ensures ContentBytes(h) + AllArgumentBytes(h) <= Chars(h) && ImageCount(h) == Images(h)
    ensures (forall k :: 0 <= k < |h| ==> h[k].calls == []) ==> ContentBytes(h) == Chars(h)
  {
    hide DumpedCallArray;
    if h != [] {
      FrontOf(h);
      DumpedCoversArguments(h[0].calls);
      NoCallsNoBytes();
      CountsEverything(h[1..]);
    }
  }

  lemma NoCallsNoBytes()
    ensures DumpedCallArray([]) == 0
  {
  }

  /** Without calls the estimate is a quarter of the content, and 800 for every image. */
  lemma PlainEstimate(h: seq<ChatMessage>)
    requires forall k :: 0 <= k < |h| ==> h[k].calls == []
    ensures EstimateTokens(h) == ContentBytes(h) / 4 + 800 * ImageCount(h)
  {
    CountsEverything(h);
  }

  /** An estimate within a room bounds the bytes and the images. */
  lemma RoomInBytes(h: seq<ChatMessage>, room: int)
    requires EstimateTokens(h) <= room
    ensures ContentBytes(h) + AllArgumentBytes(h) <= 4 * (room - 800 * ImageCount(h)) + 3
  {
    CountsEverything(h);
  }

  /** One message: a quarter of its bytes and of the JSON text of its calls, and 800 for each image. */
  lemma EstimateOfMessage(m: ChatMessage)
    ensures EstimateTokens([m]) ==
      (|m.content| + (if m.calls == [] then 0 else |"[" + CommaSeparated(m.calls) + "]"|)) / 4 + 800 * |m.images|
  {
    FrontOf([m]);
    assert [m][1..] == [];
    if m.calls != [] { DumpedIsLength(m.calls); }
  }
}
