/**
 Byte-string helpers. A `std::string` holds bytes, so throughout this project a
 `char` of a `string` stands for one byte and non-ASCII literals are written as
 their UTF-8 bytes.
 */
module Text {
  import opened Wrappers

  // std::string::max_size() on a 64-bit platform.
  const MAX_SIZE: nat := 0x7FFF_FFFF_FFFF_FFFF

  /** std::to_string of a non-negative number. */
  function Decimal(n: nat): (s: string)
    ensures |s| >= 1
  {
    if n < 10 then [Digit(n)] else Decimal(n / 10) + [Digit(n % 10)]
  }

  function Digit(d: nat): char
    requires d < 10
  {
    '0' + d as char
  }

  predicate IsDigit(c: char) { '0' <= c <= '9' }

  /** The number a string of digits denotes. */
  function DecimalValue(s: string): (n: nat)
    requires forall c :: c in s ==> IsDigit(c)
  {
    if s == [] then 0
    else
      assert IsDigit(s[|s| - 1]);
      10 * DecimalValue(s[..|s| - 1]) + (s[|s| - 1] - '0') as nat
  }

  /** Printing and reading a number are inverse. */
  lemma {:induction false} DecimalRoundTrip(n: nat)
    ensures forall c :: c in Decimal(n) ==> IsDigit(c)
    ensures DecimalValue(Decimal(n)) == n
  {
    if n >= 10 {
      DecimalRoundTrip(n / 10);
      var s := Decimal(n);
      assert s[..|s| - 1] == Decimal(n / 10);
    }
  }

  /** A decimal is much shorter than the number it prints. */
  lemma {:induction false} DecimalIsShort(n: nat)
    ensures |Decimal(n)| <= n / 200 + 3
  {
    if n < 1000 {
      DecimalDigits(n, 3);
    } else {
      DecimalIsShort(n / 10);
    }
  }

  /** Any size a std::string can have prints in at most 19 digits. */
  lemma DecimalOfSize(n: nat)
    requires n <= MAX_SIZE
    ensures |Decimal(n)| <= 19
  {
    assert Pow10(19) == 10_000_000_000_000_000_000 by {
      assert Pow10(5) == 100_000 && Pow10(10) == 100_000 * 100_000;
      assert Pow10(15) == 100_000 * Pow10(10);
    }
    DecimalDigits(n, 19);
  }

  /** A number below 10^k prints in at most k digits. */
  lemma {:induction false} DecimalDigits(n: nat, k: nat)
    requires k >= 1 && n < Pow10(k)
    ensures |Decimal(n)| <= k
  {
    if n >= 10 {
      DecimalDigits(n / 10, k - 1);
    }
  }

  function Pow10(k: nat): (p: nat)
    ensures p >= 1
  {
    if k == 0 then 1 else 10 * Pow10(k - 1)
  }

  /** std::string::find of a byte: its first place from `start` on, or the length. */
  function FindFrom(s: string, c: char, start: nat): (n: nat)
    requires start <= |s|
    ensures start <= n <= |s| && (n < |s| ==> s[n] == c) && forall i :: start <= i < n ==> s[i] != c
    decreases |s| - start
  {
    if start == |s| || s[start] == c then start else FindFrom(s, c, start + 1)
  }

  /** The place it is found at is the only one such that nothing before is it. */
  lemma {:induction false} FoundAt(s: string, c: char, start: nat, at: nat)
    requires start <= at <= |s| && (forall i :: start <= i < at ==> s[i] != c) && (at < |s| ==> s[at] == c)
    ensures FindFrom(s, c, start) == at
    decreases at - start
  {
    if start < at { FoundAt(s, c, start + 1, at); }
  }

  /** std::string::find: the first place at or after `from` where `what` occurs. */
  function FindText(text: string, what: string, from: nat): (r: Option<nat>)
    ensures r.Some? ==> from <= r.value && r.value + |what| <= |text| && what <= text[r.value..]
    ensures forall i :: from <= i <= |text| && (r.None? || i < r.value) ==> !(what <= text[i..])
    decreases |text| - from
  {
    if from > |text| then None
    else if what <= text[from..] then Some(from)
    else FindText(text, what, from + 1)
  }

  lemma OccursFirst(text: string, what: string, from: nat, at: nat)
    requires what != [] && from <= at && at + |what| <= |text| && what <= text[at..]
    requires forall i :: from <= i < at ==> text[i] != what[0]
    ensures FindText(text, what, from) == Some(at)
  {
    forall i | from <= i < at ensures !(what <= text[i..]) {
      assert text[i..][0] == text[i];
    }
  }

  /** Searching behind a head is searching the rest. */
  lemma {:induction false} FindTextShifts(head: string, rest: string, what: string, from: nat)
    ensures FindText(head + rest, what, |head| + from) ==
            match FindText(rest, what, from) case Some(at) => Some(|head| + at) case None => None
    decreases |rest| - from
  {
    if from <= |rest| {
      assert (head + rest)[|head| + from..] == rest[from..];
      if !(what <= rest[from..]) { FindTextShifts(head, rest, what, from + 1); }
    }
  }

  /** A UTF-8 continuation byte, 10xxxxxx. */
  predicate IsContinuation(c: char) { 0x80 as char <= c < 0xC0 as char }

  /** The length of the UTF-8 sequence a lead byte announces, 0 for a byte that leads none. */
  function SequenceLength(lead: char): nat {
    if lead < 0x80 as char then 1
    else if 0xC0 as char <= lead < 0xE0 as char then 2
    else if 0xE0 as char <= lead < 0xF0 as char then 3
    else if 0xF0 as char <= lead < 0xF8 as char then 4
    else 0
  }

  /** By payload bits: 0xxxxxxx leads one byte, 110xxxxx two, 1110xxxx three, 11110xxx four, and nothing else leads. */
  lemma BytesByPayload(x: nat)
    ensures x < 128 ==> SequenceLength(x as char) == 1 && !IsContinuation(x as char)
    ensures x < 64 ==> SequenceLength((128 + x) as char) == 0 && IsContinuation((128 + x) as char)
    ensures x < 32 ==> SequenceLength((192 + x) as char) == 2 && !IsContinuation((192 + x) as char)
    ensures x < 16 ==> SequenceLength((224 + x) as char) == 3 && !IsContinuation((224 + x) as char)
    ensures x < 8 ==> SequenceLength((240 + x) as char) == 4 && SequenceLength((248 + x) as char) == 0
    ensures x < 8 ==> !IsContinuation((240 + x) as char) && !IsContinuation((248 + x) as char)
  {
  }

  /** Steps back over at most `budget` continuation bytes. */
  function SequenceStart(s: string, at: nat, budget: nat): (start: nat)
    requires at < |s|
    ensures start <= at <= start + budget
    ensures forall i :: start < i <= at ==> IsContinuation(s[i])
  {
    if budget > 0 && at > 0 && IsContinuation(s[at]) then SequenceStart(s, at - 1, budget - 1)
    else at
  }

  /** Cuts `s` to at most `maxBytes`, dropping a trailing sequence the cut would split. */
  function TruncateUtf8Safe(s: string, maxBytes: nat): (r: string)
    ensures r <= s
    ensures |r| <= maxBytes || r == s
    ensures |s| > maxBytes ==> maxBytes - 4 <= |r| <= maxBytes
  {
    if |s| <= maxBytes then s
    else if maxBytes == 0 then []
    else
      var start := SequenceStart(s, maxBytes - 1, 3);
      var expected := SequenceLength(s[start]);
      if expected == 0 || maxBytes - start < expected then s[..start] else s[..maxBytes]
  }

  /** Whole sequences, one after another. */
  predicate ValidUtf8(s: string)
    decreases |s|
  {
    s == [] ||
    var n := SequenceLength(s[0]);
    && 0 < n <= |s| && (forall i :: 1 <= i < n ==> IsContinuation(s[i])) && ValidUtf8(s[n..])
  }

  lemma {:induction false} OneMoreSequence(s: string, n: nat, b: nat)
    requires ValidUtf8(s) && s != [] && n == SequenceLength(s[0]) <= b <= |s| && ValidUtf8(s[n..b])
    ensures ValidUtf8(s[..b])
  {
    var t := s[..b];
    assert t[n..] == s[n..b] && t[0] == s[0];
    assert forall i :: 1 <= i < n ==> t[i] == s[i];
  }

  lemma {:induction false} TailOf(s: string, n: nat, rest: nat)
    requires n <= n + rest < |s|
    ensures s[n..][..rest] == s[n..n + rest] && s[n..][rest] == s[n + rest]
    ensures forall i :: n + rest < i < |s| ==> s[i] == s[n..][i - n]
  {
  }

  lemma FirstSequence(s: string)
    requires ValidUtf8(s) && s != []
    ensures var n := SequenceLength(s[0]);
      0 < n <= |s| && (forall i :: 0 < i < n ==> IsContinuation(s[i])) && ValidUtf8(s[n..]) && ValidUtf8(s[..0])
  {
  }

  /** The last sequence boundary that is not beyond `max`. */
  lemma {:induction false} LastBoundary(s: string, max: nat) returns (b: nat)
    requires ValidUtf8(s) && max < |s|
    ensures b <= max && ValidUtf8(s[..b]) && max < b + SequenceLength(s[b]) <= |s|
    ensures forall i :: b < i < b + SequenceLength(s[b]) ==> IsContinuation(s[i])
    decreases |s|
  {
    FirstSequence(s);
    hide ValidUtf8, SequenceLength, IsContinuation;
    var n := SequenceLength(s[0]);
    if max < n {
      b := 0;
    } else {
      var tail := s[n..];
      var rest := LastBoundary(tail, max - n);
      b := n + rest;
      TailOf(s, n, rest);
      OneMoreSequence(s, n, b);
    }
  }

  /** Where the last sequence starts. */
  lemma {:induction false} LastSequence(s: string) returns (start: nat)
    requires ValidUtf8(s) && s != []
    ensures start < |s| && ValidUtf8(s[..start]) && start + SequenceLength(s[start]) == |s|
    ensures forall i :: start < i < |s| ==> IsContinuation(s[i])
  {
    start := LastBoundary(s, |s| - 1);
  }

  lemma LeadIsNoContinuation(c: char)
    ensures SequenceLength(c) > 0 ==> !IsContinuation(c)
    ensures SequenceLength(c) <= 4
  {
  }

  /** Stepping back from within a sequence stops at its lead byte. */
  lemma {:induction false} StepsBackToLead(s: string, lead: nat, at: nat, budget: nat)
    requires lead <= at < |s| && at - lead <= budget && !IsContinuation(s[lead])
    requires forall i :: lead < i <= at ==> IsContinuation(s[i])
    ensures SequenceStart(s, at, budget) == lead
    decreases at
  {
    if at > lead { StepsBackToLead(s, lead, at - 1, budget - 1); }
  }

  /** Cut within a sequence, everything before it stays. */
  lemma {:induction false} CutInside(s: string, b: nat, maxBytes: nat)
    requires b < |s| && b < maxBytes < b + SequenceLength(s[b]) <= |s|
    requires forall i :: b < i < b + SequenceLength(s[b]) ==> IsContinuation(s[i])
    ensures TruncateUtf8Safe(s, maxBytes) == s[..b]
  {
    LeadIsNoContinuation(s[b]);
    hide SequenceLength, IsContinuation;
    StepsBackToLead(s, b, maxBytes - 1, 3);
  }

  /** Cut behind a whole sequence, it stays too. */
  lemma {:induction false} CutBehind(s: string, start: nat, maxBytes: nat)
    requires start < maxBytes < |s| && start + SequenceLength(s[start]) == maxBytes
    requires forall i :: start < i < maxBytes ==> IsContinuation(s[i])
    ensures TruncateUtf8Safe(s, maxBytes) == s[..maxBytes]
  {
    LeadIsNoContinuation(s[start]);
    hide SequenceLength, IsContinuation;
    StepsBackToLead(s, start, maxBytes - 1, 3);
  }

  /** Cutting keeps whole sequences, and as many of them as fit. */
  lemma {:induction false} TruncateKeepsUtf8(s: string, maxBytes: nat)
    requires ValidUtf8(s)
    ensures var r := TruncateUtf8Safe(s, maxBytes);
      && ValidUtf8(r)
      && (|r| < |s| ==> |r| + SequenceLength(s[|r|]) > maxBytes)
  {
    if maxBytes < |s| {
      var b := LastBoundary(s, maxBytes);
      if b < maxBytes {
        hide ValidUtf8, SequenceLength, IsContinuation;
        CutInside(s, b, maxBytes);
      } else if maxBytes > 0 {
        hide ValidUtf8, SequenceLength, IsContinuation, TruncateUtf8Safe;
        var head := s[..b];
        var start := LastSequence(head);
        forall i | start < i < maxBytes ensures IsContinuation(s[i]) {
          assert head[i] == s[i];
        }
        assert head[start] == s[start];
        CutBehind(s, start, maxBytes);
      }
    }
  }
}
