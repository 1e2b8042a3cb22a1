/** Tool calls that a model spelled out in its text: a name in the opening tag, arguments up to the closing one. */
module XmlBlocks {
  import opened Wrappers
  import opened Text

  datatype Block = Block(name: string, body: string)

  /** Where one block lies: its name, its body, and the end of its closing tag. */
  datatype Place = Place(nameStart: nat, nameEnd: nat, close: nat, end: nat)

  predicate NameChar(c: char) {
    'a' <= c <= 'z' || 'A' <= c <= 'Z' || '0' <= c <= '9' || c == '_'
  }

  predicate IsName(name: string) {
    name != "" && forall i :: 0 <= i < |name| ==> NameChar(name[i])
  }

  /** A name is made of the bytes of a-z, A-Z, 0-9 and the underscore, and has one at least. */
  lemma NamesExactly(name: string)
    ensures IsName(name) <==> name != "" && forall i :: 0 <= i < |name| ==>
      97 <= name[i] as int <= 122 || 65 <= name[i] as int <= 90 || 48 <= name[i] as int <= 57 || name[i] as int == 95
  {
  }

  /** The next opening tag with its '>' and the closing tag after it, from `pos` on. */
  function NextPlace(text: string, open: string, close: string, pos: nat): (p: Option<Place>)
    requires pos <= |text|
    ensures p.Some? ==>
      pos <= p.value.nameStart <= p.value.nameEnd < p.value.close <= p.value.end <= |text|
  {
    match FindText(text, open, pos)
    case None => None
    case Some(at) =>
      var nameStart := at + |open|;
      var nameEnd := FindFrom(text, '>', nameStart);
      if nameEnd == |text| then None
      else match FindText(text, close, nameEnd + 1)
        case None => None
        case Some(end) => Some(Place(nameStart, nameEnd, end, end + |close|))
  }

  /** The blocks from `pos` on; one with another name than letters, digits and underscores is skipped. */
  function BlocksFrom(text: string, open: string, close: string, pos: nat): seq<Block>
    requires pos <= |text|
    decreases |text| - pos
  {
    match NextPlace(text, open, close, pos)
    case None => []
    case Some(p) =>
      var name := text[p.nameStart..p.nameEnd];
      (if IsName(name) then [Block(name, text[p.nameEnd + 1..p.close])] else [])
      + BlocksFrom(text, open, close, p.end)
  }

  lemma BlocksStep(text: string, open: string, close: string, pos: nat)
    requires pos <= |text|
    ensures match NextPlace(text, open, close, pos)
            case None => BlocksFrom(text, open, close, pos) == []
            case Some(p) =>
              var name := text[p.nameStart..p.nameEnd];
              if IsName(name)
              then BlocksFrom(text, open, close, pos) ==
                     [Block(name, text[p.nameEnd + 1..p.close])] + BlocksFrom(text, open, close, p.end)
              else BlocksFrom(text, open, close, pos) == BlocksFrom(text, open, close, p.end)
  {
    hide NextPlace, IsName;
  }

  method ExtractXmlBlocks(text: string, open: string, close: string) returns (blocks: seq<Block>)
    ensures blocks == BlocksFrom(text, open, close, 0)
  {
    hide IsName, BlocksFrom, FindText, FindFrom;
    blocks := [];
    var pos := 0;
    while true
      invariant pos <= |text|
      invariant BlocksFrom(text, open, close, 0) == blocks + BlocksFrom(text, open, close, pos)
      decreases |text| - pos
    {
      BlocksStep(text, open, close, pos);
      var at := FindText(text, open, pos);
      if at.None? { break; }
      var nameStart := at.value + |open|;
      var nameEnd := FindFrom(text, '>', nameStart);
      if nameEnd == |text| { break; }
      var name := text[nameStart..nameEnd];
      var end := FindText(text, close, nameEnd + 1);
      if end.None? { break; }
      if IsName(name) { blocks := blocks + [Block(name, text[nameEnd + 1..end.value])]; }
      pos := end.value + |close|;
    }
  }

  // ── Written out, blocks read back ──

  function Written(open: string, close: string, b: Block): string {
    open + b.name + ">" + b.body + close
  }

  function WrittenAll(open: string, close: string, blocks: seq<Block>): string {
    if blocks == [] then "" else Written(open, close, blocks[0]) + WrittenAll(open, close, blocks[1..])
  }

  /** A proper name, and a body that the closing tag ends and nothing in it ends sooner. */
  predicate Writable(close: string, b: Block) {
    IsName(b.name) && FindText(b.body + close, close, 0) == Some(|b.body|)
  }

  lemma NextPlaceShifts(head: string, rest: string, open: string, close: string, pos: nat)
    requires pos <= |rest|
    ensures NextPlace(head + rest, open, close, |head| + pos) ==
            match NextPlace(rest, open, close, pos)
            case Some(p) => Some(Place(|head| + p.nameStart, |head| + p.nameEnd, |head| + p.close, |head| + p.end))
            case None => None
  {
    hide FindText, FindFrom;
    FindTextShifts(head, rest, open, pos);
    var at := FindText(rest, open, pos);
    if at.Some? {
      var nameStart := at.value + |open|;
      var nameEnd := FindFrom(rest, '>', nameStart);
      assert forall i :: 0 <= i < |rest| ==> (head + rest)[|head| + i] == rest[i];
      forall i | |head| + nameStart <= i < |head| + nameEnd ensures (head + rest)[i] != '>' {
        assert (head + rest)[i] == rest[i - |head|];
      }
      FoundAt(head + rest, '>', |head| + nameStart, |head| + nameEnd);
      if nameEnd < |rest| { FindTextShifts(head, rest, close, nameEnd + 1); }
    }
  }

  /** What stands before the place one reads from does not matter. */
  lemma {:induction false} BlocksShift(head: string, rest: string, open: string, close: string, pos: nat)
    requires pos <= |rest|
    ensures BlocksFrom(head + rest, open, close, |head| + pos) == BlocksFrom(rest, open, close, pos)
    decreases |rest| - pos
  {
    hide IsName, NextPlace;
    NextPlaceShifts(head, rest, open, close, pos);
    var next := NextPlace(rest, open, close, pos);
    if next.Some? {
      var p := next.value;
      BlocksShift(head, rest, open, close, p.end);
      assert (head + rest)[|head| + p.nameStart..|head| + p.nameEnd] == rest[p.nameStart..p.nameEnd];
      assert (head + rest)[|head| + p.nameEnd + 1..|head| + p.close] == rest[p.nameEnd + 1..p.close];
    }
  }

  lemma SameStart(text: string, rest: string, what: string, from: nat)
    requires from + |what| <= |text|
    ensures what <= (text + rest)[from..] <==> what <= text[from..]
  {
    assert (text + rest)[from..][..|what|] == text[from..][..|what|];
  }

  lemma {:induction false} EndsSooner(body: string, close: string, rest: string, from: nat)
    requires close != "" && from <= |body| && FindText(body + close, close, from) == Some(|body|)
    ensures FindText(body + close + rest, close, from) == Some(|body|)
    decreases |body| - from
  {
    var short, long := body + close, body + close + rest;
    if from == |body| {
      assert long[from..] == close + rest;
    } else {
      SameStart(short, rest, close, from);
      assert short + rest == long;
      EndsSooner(body, close, rest, from + 1);
    }
  }

  /** Behind the opening tag the closing one is found where the body ends. */
  lemma {:induction false} FoundBehind(head: string, tail: string, close: string, n: nat)
    requires FindText(tail, close, 0) == Some(n)
    ensures FindText(head + tail, close, |head|) == Some(|head| + n)
  {
    hide FindText;
    FindTextShifts(head, tail, close, 0);
    assert |head| + 0 == |head|;
  }

  /** A name without the bracket that ends it is read to that bracket. */
  lemma {:induction false} NameIsRead(open: string, name: string, tail: string)
    requires IsName(name)
    ensures FindFrom((open + name + ">") + tail, '>', |open|) == |open| + |name|
  {
    hide FindFrom;
    var head := open + name + ">";
    var text, nameEnd := head + tail, |open| + |name|;
    forall i | |open| <= i < nameEnd ensures text[i] != '>' {
      assert text[i] == head[i] == name[i - |open|];
    }
    assert text[nameEnd] == head[nameEnd] == '>';
    FoundAt(text, '>', |open|, nameEnd);
  }

  /** One block at the start of a text is found whole. */
  lemma WrittenIsPlaced(open: string, close: string, b: Block, rest: string)
    requires open != "" && close != "" && Writable(close, b)
    ensures var text := Written(open, close, b) + rest;
      NextPlace(text, open, close, 0) ==
        Some(Place(|open|, |open| + |b.name|, |open| + |b.name| + 1 + |b.body|, |Written(open, close, b)|))
  {
    hide FindText, FindFrom, Written, IsName;
    WrittenSplits(open, close, b, rest);
    var text := Written(open, close, b) + rest;
    assert FindText(text, open, 0) == Some(0) by {
      assert text[0..] == text && text[..|open|] == open;
      StartsHere(text, open);
    }
    NameIsRead(open, b.name, b.body + close + rest);
    EndsSooner(b.body, close, rest, 0);
    FoundBehind(open + b.name + ">", b.body + close + rest, close, |b.body|);
  }

  lemma WrittenSplits(open: string, close: string, b: Block, rest: string)
    ensures Written(open, close, b) + rest == (open + b.name + ">") + (b.body + close + rest)
    ensures |Written(open, close, b)| == |open| + |b.name| + 1 + |b.body| + |close|
  {
  }

  lemma PartsOf(open: string, close: string, b: Block, rest: string)
    ensures var text, nameEnd := Written(open, close, b) + rest, |open| + |b.name|;
      && |Written(open, close, b)| == nameEnd + 1 + |b.body| + |close|
      && text[|open|..nameEnd] == b.name && text[nameEnd + 1..nameEnd + 1 + |b.body|] == b.body
  {
  }

  lemma StartsHere(text: string, what: string)
    requires what <= text[0..]
    ensures FindText(text, what, 0) == Some(0)
  {
  }

  /** Blocks written one after another are read back, each with its name and its body. */
  lemma {:induction false} BlocksRoundTrip(open: string, close: string, blocks: seq<Block>)
    requires open != "" && close != "" && forall i :: 0 <= i < |blocks| ==> Writable(close, blocks[i])
    ensures BlocksFrom(WrittenAll(open, close, blocks), open, close, 0) == blocks
  {
    hide NextPlace, FindText, BlocksFrom, Written;
    if blocks == [] {
      NothingFound(open, close);
    } else {
      var b, rest := blocks[0], WrittenAll(open, close, blocks[1..]);
      var first := Written(open, close, b);
      var text := first + rest;
      WrittenIsPlaced(open, close, b, rest);
      BlocksStep(text, open, close, 0);
      BlocksRoundTrip(open, close, blocks[1..]);
      BlocksShift(first, rest, open, close, 0);
      PartsOf(open, close, b, rest);
    }
  }

  lemma NothingFound(open: string, close: string)
    requires open != ""
    ensures BlocksFrom("", open, close, 0) == []
  {
  }
}
