/** The incremental server-sent-events parser: bytes in, payloads of "data:" lines out. */
module SseLines {
  import opened Text

  /** The text before an optional carriage return. */
  function Unreturned(line: string): string {
    if line != "" && line[|line| - 1] == '\r' then line[..|line| - 1] else line
  }

  const DATA := "data:"

  /** What a line emits: the text after "data:" and one optional blank, when there is any. */
  function PayloadOf(line: string): seq<string> {
    var text := Unreturned(line);
    if !(DATA <= text) then []
    else
      var rest := text[|DATA|..];
      var payload := if rest != "" && rest[0] == ' ' then rest[1..] else rest;
      if payload == "" then [] else [payload]
  }

  function LineEnd(s: string): (n: nat)
    ensures n <= |s|
  {
    FindFrom(s, '\n', 0)
  }

  /** The one-shot parse of a whole stream. */
  function Payloads(stream: string): seq<string>
    decreases |stream|
  {
    var n := LineEnd(stream);
    if n == |stream| then [] else PayloadOf(stream[..n]) + Payloads(stream[n + 1..])
  }

  /** What a stream leaves unparsed. */
  function Leftover(stream: string): string
    decreases |stream|
  {
    var n := LineEnd(stream);
    if n == |stream| then stream else Leftover(stream[n + 1..])
  }

  /** The first line and the rest of the stream, or no line yet. */
  lemma FirstLine(stream: string)
    ensures var n := LineEnd(stream);
      if n == |stream| then Payloads(stream) == [] && Leftover(stream) == stream
      else Payloads(stream) == PayloadOf(stream[..n]) + Payloads(stream[n + 1..])
           && Leftover(stream) == Leftover(stream[n + 1..])
  {
  }

  class SseLineParser {
    var buffer: string
    var emitted: seq<string>       // the on_data calls
    ghost var fed: string          // every byte so far

    /** Whatever the cuts were: the payloads are those of the stream, the buffer its unfinished line. */
    ghost predicate Valid()
      reads this
    {
      emitted == Payloads(fed) && buffer == Leftover(fed)
    }

    constructor ()
      ensures Valid() && fed == "" && emitted == []
    {
      buffer, emitted, fed := "", [], "";
    }

    method Feed(data: string)
      requires Valid()
      modifies this
      ensures Valid() && fed == old(fed) + data
      ensures old(emitted) <= emitted
    {
      hide PayloadOf, Payloads, Leftover, FindFrom;
      ParseAppend(fed, data);
      fed := fed + data;
      buffer := buffer + data;
      var pos := LineEnd(buffer);
      while pos < |buffer|
        invariant pos == LineEnd(buffer) && fed == old(fed) + data
        invariant old(emitted) <= emitted
        invariant Payloads(fed) == emitted + Payloads(buffer) && Leftover(fed) == Leftover(buffer)
        decreases |buffer|
      {
        FirstLine(buffer);
        var line := buffer[..pos];
        buffer := buffer[pos + 1..];
        Emit(line);
        pos := LineEnd(buffer);
      }
      FirstLine(buffer);
    }

    method Emit(line0: string)
      modifies this`emitted
      ensures emitted == old(emitted) + PayloadOf(line0)
    {
      var line := line0;
      if line != "" && line[|line| - 1] == '\r' { line := line[..|line| - 1]; }
      if DATA <= line {
        var payload := line[|DATA|..];
        if payload != "" && payload[0] == ' ' { payload := payload[1..]; }
        if payload != "" { emitted := emitted + [payload]; }
      }
    }
  }

  /** A stream continued: parse what is there, then what is left over with the rest. */
  lemma {:induction false} ParseAppend(a: string, b: string)
    ensures Payloads(a + b) == Payloads(a) + Payloads(Leftover(a) + b)
    ensures Leftover(a + b) == Leftover(Leftover(a) + b)
    decreases |a|
  {
    hide PayloadOf, Payloads, Leftover, FindFrom;
    FirstLine(a);
    FirstLine(a + b);
    var n := LineEnd(a);
    if n < |a| {
      FoundAt(a + b, '\n', 0, n);
      ParseAppend(a[n + 1..], b);
      assert (a + b)[..n] == a[..n] && (a + b)[n + 1..] == a[n + 1..] + b;
    }
  }

  /** The leftover is exactly the bytes after the last newline. */
  lemma {:induction false} LeftoverIsTail(stream: string)
    ensures |Leftover(stream)| <= |stream|
    ensures var cut := |stream| - |Leftover(stream)|;
      stream[cut..] == Leftover(stream) && '\n' !in Leftover(stream) && (cut == 0 || stream[cut - 1] == '\n')
    decreases |stream|
  {
    hide Leftover, FindFrom, PayloadOf, Payloads;
    FirstLine(stream);
    var n := LineEnd(stream);
    if n < |stream| {
      LeftoverIsTail(stream[n + 1..]);
      var cut := |stream| - |Leftover(stream)|;
      assert stream[n + 1..][cut - n - 1..] == stream[cut..];
    } else {
      assert stream[0..] == stream;
    }
  }

  function Concat(chunks: seq<string>): string {
    if chunks == [] then "" else Concat(chunks[..|chunks| - 1]) + chunks[|chunks| - 1]
  }

  /** Any way of cutting a stream into chunks gives the payloads of the stream. */
  method FeedAll(chunks: seq<string>) returns (emitted: seq<string>, left: string)
    ensures emitted == Payloads(Concat(chunks)) && left == Leftover(Concat(chunks))
  {
    var parser := new SseLineParser();
    for i := 0 to |chunks|
      invariant parser.Valid() && parser.fed == Concat(chunks[..i])
    {
      assert chunks[..i + 1][..i] == chunks[..i];
      parser.Feed(chunks[i]);
    }
    assert chunks[..|chunks|] == chunks;
    return parser.emitted, parser.buffer;
  }

  lemma LineHolds(payload: string)
    requires payload != "" && payload[|payload| - 1] != '\r'
    ensures PayloadOf(DATA + " " + payload) == [payload]
  {
    var line := DATA + " " + payload;
    assert line[|line| - 1] == payload[|payload| - 1];
    assert line[|DATA|..] == " " + payload;
    assert (" " + payload)[1..] == payload;
  }

  /** A payload put on a line of its own comes out as it went in. */
  lemma PayloadRoundTrip(payload: string, rest: string)
    requires payload != "" && '\n' !in payload && payload[|payload| - 1] != '\r'
    ensures Payloads(DATA + " " + payload + "\n" + rest) == [payload] + Payloads(rest)
  {
    hide Payloads, PayloadOf, Leftover, FindFrom;
    var line := DATA + " " + payload;
    var s := line + "\n" + rest;
    forall i | 0 <= i < |line| ensures s[i] != '\n' {
      assert s[i] == line[i];
      assert i > |DATA| ==> line[i] == payload[i - |DATA| - 1];
    }
    FoundAt(s, '\n', 0, |line|);
    assert s[..|line|] == line && s[|line| + 1..] == rest;
    FirstLine(s);
    LineHolds(payload);
  }
}
