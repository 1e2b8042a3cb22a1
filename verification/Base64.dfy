/** Base64 as RFC 4648, section 4 has it, encoded and decoded with a bit buffer. */
module Base64 {
  import opened Wrappers
  import opened Arithmetic

  type Byte = b: int | 0 <= b < 256

  type Sextet = v: int | 0 <= v < 64

  function Digit64(v: Sextet): char {
    if v < 26 then 'A' + v as char
    else if v < 52 then 'a' + (v - 26) as char
    else if v < 62 then '0' + (v - 52) as char
    else if v == 62 then '+' else '/'
  }

  /** The decode table; None for the characters outside the alphabet. */
  function Value64(c: char): Option<Sextet> {
    if 'A' <= c <= 'Z' then Some((c - 'A') as int)
    else if 'a' <= c <= 'z' then Some((c - 'a') as int + 26)
    else if '0' <= c <= '9' then Some((c - '0') as int + 52)
    else if c == '+' then Some(62)
    else if c == '/' then Some(63)
    else None
  }

  lemma ValueOfDigit(v: Sextet)
    ensures Value64(Digit64(v)) == Some(v)
  {
  }

  // ── Encoding ──

  /** Three octets as one 24-bit number. */
  function Group(a: Byte, b: Byte, c: Byte): int { a * 0x10000 + b * 0x100 + c }

  function SextetAt(n: int, shift: int): Sextet
    requires shift == 18 || shift == 12 || shift == 6 || shift == 0
  {
    (if shift == 18 then n / 0x40000 else if shift == 12 then n / 0x1000 else if shift == 6 then n / 0x40 else n) % 64
  }

  function Digits(n: int): (s: string)
    ensures |s| == 4
  {
    [Digit64(SextetAt(n, 18)), Digit64(SextetAt(n, 12)), Digit64(SextetAt(n, 6)), Digit64(SextetAt(n, 0))]
  }

  /** Three octets are four digits; one or two left over are padded to four. */
  function Encoded(data: seq<Byte>): string {
    if |data| == 0 then ""
    else if |data| == 1 then Digits(Group(data[0], 0, 0))[..2] + "=="
    else if |data| == 2 then Digits(Group(data[0], data[1], 0))[..3] + "="
    else Digits(Group(data[0], data[1], data[2])) + Encoded(data[3..])
  }

  method Encode(data: seq<Byte>) returns (out: string)
    ensures out == Encoded(data)
  {
    hide SextetAt, Digit64, Group;
    out := "";
    var i := 0;
    while i + 2 < |data|
      invariant 0 <= i <= |data|
      invariant Encoded(data) == out + Encoded(data[i..])
    {
      assert data[i..][3..] == data[i + 3..];
      var n := Group(data[i], data[i + 1], data[i + 2]);
      out := out + [Digit64(SextetAt(n, 18))] + [Digit64(SextetAt(n, 12))]
             + [Digit64(SextetAt(n, 6))] + [Digit64(SextetAt(n, 0))];
      i := i + 3;
    }
    var remaining := |data| - i;
    if remaining == 1 {
      var n := Group(data[i], 0, 0);
      out := out + [Digit64(SextetAt(n, 18))] + [Digit64(SextetAt(n, 12))] + "==";
    } else if remaining == 2 {
      var n := Group(data[i], data[i + 1], 0);
      out := out + [Digit64(SextetAt(n, 18))] + [Digit64(SextetAt(n, 12))] + [Digit64(SextetAt(n, 6))] + "=";
    }
  }

  // ── Decoding ──

  predicate Skipped(c: char) { c == '=' || c == '\n' || c == '\r' || c == ' ' }

  function Clean(text: string): string {
    if text == "" then ""
    else
      var before, last := Clean(text[..|text| - 1]), text[|text| - 1];
      if Skipped(last) then before else before + [last]
  }

  predicate InAlphabet(text: string) {
    forall i :: 0 <= i < |text| ==> Value64(text[i]).Some?
  }

  predicate Even(bits: int) { bits == 0 || bits == 2 || bits == 4 || bits == 6 }

  function Power(bits: int): (p: int)
    requires Even(bits)
    ensures p > 0
  {
    if bits == 0 then 1 else if bits == 2 then 4 else if bits == 4 then 16 else 64
  }

  /** Everything read so far as one number of any size, and how many of its low bits are still to come out. */
  datatype Reading = Reading(out: seq<Byte>, all: nat, bits: nat)

  const START := Reading([], 0, 0)

  function Read(r: Reading, v: Sextet): (next: Reading)
    requires Even(r.bits)
    ensures Even(next.bits)
  {
    var all := r.all * 64 + v;
    if r.bits + 6 >= 8 then
      Reading(r.out + [all / Power(r.bits - 2) % 256], all, r.bits - 2)
    else Reading(r.out, all, r.bits + 6)
  }

  function ReadAll(r: Reading, text: string): (next: Reading)
    requires Even(r.bits) && InAlphabet(text)
    ensures Even(next.bits)
  {
    if text == "" then r else Read(ReadAll(r, text[..|text| - 1]), Value64(text[|text| - 1]).value)
  }

  function Decoded(text: string): Option<seq<Byte>> {
    var clean := Clean(text);
    if |clean| % 4 == 1 || !InAlphabet(clean) then None else Some(ReadAll(START, clean).out)
  }

  const WORD: int := 0x1_0000_0000

  /** A 32-bit buffer takes in the same digits as one that never overflows. */
  lemma WordTakesIn(all: nat, v: Sextet)
    ensures (all % WORD * 64 + v) % WORD == (all * 64 + v) % WORD
  {
    assert all * 64 + v == (all % WORD * 64 + v) + (all / WORD * 64) * WORD;
    DivShift(all % WORD * 64 + v, WORD, all / WORD * 64);
  }

  /** And the byte taken out of it is the same. */
  lemma WordGivesOut(all: nat, bits: nat)
    requires Even(bits)
    ensures all % WORD / Power(bits) % 256 == all / Power(bits) % 256
  {
    var q, w, p := all / WORD, all % WORD, Power(bits);
    var high := q * (if bits == 0 then 0x100_0000 else if bits == 2 then 0x40_0000
                     else if bits == 4 then 0x10_0000 else 0x4_0000);
    assert all == w + (high * 256) * p;
    DivShift(w, p, high * 256);
    DivShift(w / p, 256, high);
  }

  method Decode(text: string) returns (r: Option<seq<Byte>>)
    ensures r == Decoded(text)
  {
    var clean := "";
    for i := 0 to |text|
      invariant clean == Clean(text[..i])
    {
      assert text[..i + 1][..i] == text[..i];
      if Skipped(text[i]) { continue; }
      clean := clean + [text[i]];
    }
    assert text[..|text|] == text;
    if |clean| % 4 == 1 { return None; }

    var out: seq<Byte> := [];
    var buffer, bits := 0, 0;
    for i := 0 to |clean|
      invariant InAlphabet(clean[..i])
      invariant var soFar := ReadAll(START, clean[..i]);
                out == soFar.out && buffer == soFar.all % WORD && bits == soFar.bits
    {
      assert clean[..i + 1][..i] == clean[..i];
      var v := Value64(clean[i]);
      if v.None? {
        assert !InAlphabet(clean);
        return None;
      }
      ghost var before := ReadAll(START, clean[..i]);
      WordTakesIn(before.all, v.value);
      buffer := (buffer * 64 + v.value) % WORD;
      bits := bits + 6;
      if bits >= 8 {
        bits := bits - 8;
        WordGivesOut(before.all * 64 + v.value, bits);
        out := out + [buffer / Power(bits) % 256];
      }
    }
    assert clean[..|clean|] == clean;
    return Some(out);
  }

  // ── Decoding undoes encoding ──

  lemma {:induction false} ReadAllAppend(r: Reading, a: string, b: string)
    requires Even(r.bits) && InAlphabet(a) && InAlphabet(b)
    ensures InAlphabet(a + b) && ReadAll(r, a + b) == ReadAll(ReadAll(r, a), b)
  {
    if b == "" {
      assert a + b == a;
    } else {
      var init := b[..|b| - 1];
      assert (a + b)[..|a + b| - 1] == a + init;
      ReadAllAppend(r, a, init);
    }
  }

  lemma {:induction false} CleanAppend(a: string, b: string)
    ensures Clean(a + b) == Clean(a) + Clean(b)
  {
    if b == "" {
      assert a + b == a;
    } else {
      var init := b[..|b| - 1];
      assert (a + b)[..|a + b| - 1] == a + init;
      CleanAppend(a, init);
    }
  }

  lemma {:induction false} CleanKeeps(text: string)
    requires InAlphabet(text)
    ensures Clean(text) == text
  {
    if text != "" { CleanKeeps(text[..|text| - 1]); }
  }

  lemma DigitsInAlphabet(n: int, k: nat)
    requires k <= 4
    ensures InAlphabet(Digits(n)[..k])
  {
    ValueOfDigit(SextetAt(n, 18));
    ValueOfDigit(SextetAt(n, 12));
    ValueOfDigit(SextetAt(n, 6));
    ValueOfDigit(SextetAt(n, 0));
  }

  /** How three octets fall into four sextets. */
  lemma SextetsOf(a: Byte, b: Byte, c: Byte)
    ensures var n := Group(a, b, c);
      && SextetAt(n, 18) == a / 4 && SextetAt(n, 12) == a % 4 * 16 + b / 16
      && SextetAt(n, 6) == b % 16 * 4 + c / 64 && SextetAt(n, 0) == c % 64
  {
    var n := Group(a, b, c);
    DivUnique(n, 0x40000, a / 4, a % 4 * 0x10000 + b * 0x100 + c);
    DivUnique(n, 0x1000, a * 16 + b / 16, b % 16 * 0x100 + c);
    DivUnique(n, 0x40, a * 1024 + b * 4 + c / 64, c % 64);
    DivUnique(a * 16 + b / 16, 64, a / 4, a % 4 * 16 + b / 16);
    DivUnique(a * 1024 + b * 4 + c / 64, 64, a * 16 + b / 16, b % 16 * 4 + c / 64);
  }

  /** The octets come back from their sextets, whatever was read before them. */
  lemma Recombine(all: nat, a: Byte, b: Byte, c: Byte)
    ensures ((all * 64 + a / 4) * 64 + (a % 4 * 16 + b / 16)) / 16 % 256 == a
    ensures (((all * 64 + a / 4) * 64 + (a % 4 * 16 + b / 16)) * 64 + (b % 16 * 4 + c / 64)) / 4 % 256 == b
    ensures ((((all * 64 + a / 4) * 64 + (a % 4 * 16 + b / 16)) * 64 + (b % 16 * 4 + c / 64)) * 64 + c % 64) % 256 == c
  {
    DivUnique(all * 4096 + a * 16 + b / 16, 16, all * 256 + a, b / 16);
    DivUnique(all * 256 + a, 256, all, a);
    DivUnique(all * 262144 + a * 1024 + b * 4 + c / 64, 4, all * 65536 + a * 256 + b, c / 64);
    DivUnique(all * 65536 + a * 256 + b, 256, all * 256 + a, b);
    DivUnique(all * 16777216 + a * 65536 + b * 256 + c, 256, all * 65536 + a * 256 + b, c);
  }

  lemma ReadOne(r: Reading, text: string, v: Sextet)
    requires Even(r.bits) && InAlphabet(text)
    ensures InAlphabet(text + [Digit64(v)])
    ensures ReadAll(r, text + [Digit64(v)]) == Read(ReadAll(r, text), v)
  {
    ValueOfDigit(v);
    assert (text + [Digit64(v)])[..|text|] == text;
  }

  /** Two digits carry the first octet, three the second, four the third. */
  lemma ReadDigits(r: Reading, a: Byte, b: Byte, c: Byte)
    requires r.bits == 0
    ensures var n := Group(a, b, c);
      && InAlphabet(Digits(n)[..2]) && InAlphabet(Digits(n)[..3]) && InAlphabet(Digits(n))
      && ReadAll(r, Digits(n)[..2]).out == r.out + [a]
      && ReadAll(r, Digits(n)[..3]).out == r.out + [a, b]
      && ReadAll(r, Digits(n)).out == r.out + [a, b, c] && ReadAll(r, Digits(n)).bits == 0
  {
    hide InAlphabet, Digit64, SextetAt, Group;
    var n := Group(a, b, c);
    var text := Digits(n);
    EmptyIsRead(r);
    ReadOne(r, "", SextetAt(n, 18));
    var one := "" + [Digit64(SextetAt(n, 18))];
    ReadOne(r, one, SextetAt(n, 12));
    var two := one + [Digit64(SextetAt(n, 12))];
    ReadOne(r, two, SextetAt(n, 6));
    var three := two + [Digit64(SextetAt(n, 6))];
    ReadOne(r, three, SextetAt(n, 0));
    assert text[..2] == two && text[..3] == three && text == three + [Digit64(SextetAt(n, 0))];
    SextetsOf(a, b, c);
    Recombine(r.all, a, b, c);
  }

  lemma EmptyIsRead(r: Reading)
    requires Even(r.bits)
    ensures InAlphabet("") && ReadAll(r, "") == r
  {
  }

  lemma TailReads(r: Reading, a: Byte, b: Byte, pair: bool)
    requires r.bits == 0
    ensures var data := if pair then [a, b] else [a];
      && InAlphabet(Clean(Encoded(data))) && |Clean(Encoded(data))| == |data| + 1
      && ReadAll(r, Clean(Encoded(data))).out == r.out + data
  {
    hide Digits, InAlphabet, ReadAll;
    var n := Group(a, if pair then b else 0, 0);
    var text, pad := Digits(n)[..if pair then 3 else 2], if pair then "=" else "==";
    ReadDigits(r, a, if pair then b else 0, 0);
    assert Encoded(if pair then [a, b] else [a]) == text + pad;
    CleanAppend(text, pad);
    CleanKeeps(text);
    PaddingIsSkipped();
    assert text + "" == text;
  }

  lemma EncodedStep(data: seq<Byte>)
    requires |data| >= 3
    ensures Encoded(data) == Digits(Group(data[0], data[1], data[2])) + Encoded(data[3..])
  {
    hide Digits, Group;
  }

  /** Decoding what was encoded gives it back, for every byte string and after any reading. */
  lemma {:induction false} EncodedReads(r: Reading, data: seq<Byte>)
    requires r.bits == 0
    ensures InAlphabet(Clean(Encoded(data))) && |Clean(Encoded(data))| % 4 != 1
    ensures ReadAll(r, Clean(Encoded(data))).out == r.out + data
    decreases |data|
  {
    hide InAlphabet, ReadAll, Encoded, Clean, Digits, Group;
    if |data| == 0 {
      NothingEncoded(r);
      assert data == [] && r.out + data == r.out;
    } else if |data| == 1 {
      assert data == [data[0]];
      TailReads(r, data[0], 0, false);
    } else if |data| == 2 {
      assert data == [data[0], data[1]];
      TailReads(r, data[0], data[1], true);
    } else {
      var text, rest := Digits(Group(data[0], data[1], data[2])), data[3..];
      EncodedStep(data);
      ReadDigits(r, data[0], data[1], data[2]);
      CleanAppend(text, Encoded(rest));
      CleanKeeps(text);
      EncodedReads(ReadAll(r, text), rest);
      ReadAllAppend(r, text, Clean(Encoded(rest)));
      assert data == [data[0], data[1], data[2]] + rest;
    }
  }

  lemma NothingEncoded(r: Reading)
    requires Even(r.bits)
    ensures Clean(Encoded([])) == "" && InAlphabet("") && ReadAll(r, "") == r
  {
  }

  lemma PaddingIsSkipped()
    ensures Clean("=") == "" && Clean("==") == ""
  {
    assert "=="[..1] == "=" && "="[..0] == "";
  }

  lemma RoundTrip(data: seq<Byte>)
    ensures Decoded(Encoded(data)) == Some(data)
  {
    hide Encoded, Clean, InAlphabet, ReadAll;
    EncodedReads(START, data);
    assert START.out + data == data;
  }

  predicate FromBase64(text: string) {
    forall c :: c in text ==> Value64(c).Some? || c == '='
  }

  lemma FromBase64Append(a: string, b: string)
    requires FromBase64(a) && FromBase64(b)
    ensures FromBase64(a + b)
  {
  }

  lemma DigitsFromBase64(n: int, k: nat)
    requires k <= 4
    ensures FromBase64(Digits(n)[..k]) && FromBase64("=") && FromBase64("==")
  {
    hide Digits;
    DigitsInAlphabet(n, k);
  }

  /** Four digits for every three octets begun, all of them from the alphabet or padding. */
  lemma {:induction false} EncodedShape(data: seq<Byte>)
    ensures |Encoded(data)| == (|data| + 2) / 3 * 4 && FromBase64(Encoded(data))
  {
    hide FromBase64, Digits, Group;
    if |data| == 0 {
      NothingFromBase64();
    } else if |data| < 3 {
      var n := Group(data[0], if |data| == 2 then data[1] else 0, 0);
      DigitsFromBase64(n, |data| + 1);
      FromBase64Append(Digits(n)[..|data| + 1], if |data| == 1 then "==" else "=");
    } else {
      var n := Group(data[0], data[1], data[2]);
      DigitsFromBase64(n, 4);
      assert Digits(n)[..4] == Digits(n);
      EncodedStep(data);
      EncodedShape(data[3..]);
      FromBase64Append(Digits(n), Encoded(data[3..]));
    }
  }

  lemma NothingFromBase64()
    ensures FromBase64("")
  {
  }
}
