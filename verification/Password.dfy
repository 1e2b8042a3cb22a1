/**
 Password records, "pbkdf2_sha256$<iterations>$<salt>$<hash>" with salt and hash
 in base64. The key derivation is any function; it may also fail.
 */
module Password {
  import opened Wrappers
  import opened Text
  import opened Base64

  const PREFIX := "pbkdf2_sha256$"
  const DEFAULT_ITERATIONS: nat := 600000
  const MAX_ITERATIONS: nat := 10000000
  const MAX_DIGITS: nat := 9
  const HASH_BYTES: nat := 32

  /** Password, salt, iterations; None is an OpenSSL failure. */
  type Derive = (string, seq<Byte>, nat) -> Option<seq<Byte>>

  function FindDollar(s: string, start: nat): (n: nat)
    requires start <= |s|
    ensures start <= n <= |s| && (n < |s| ==> s[n] == '$')
  {
    FindFrom(s, '$', start)
  }

  predicate AllDigits(s: string) { forall c :: c in s ==> IsDigit(c) }

  /** Strict base-10: nothing but one to nine digits, and a sensible value. */
  method ParseIterations(s: string) returns (r: Option<nat>)
    ensures r == Iterations(s)
  {
    if s == "" || |s| > MAX_DIGITS { return None; }
    var value := 0;
    for i := 0 to |s|
      invariant AllDigits(s[..i]) && value == DecimalValue(s[..i])
    {
      if s[i] < '0' || s[i] > '9' {
        assert s[i] in s && !IsDigit(s[i]);
        return None;
      }
      assert s[..i + 1][..i] == s[..i];
      value := value * 10 + (s[i] - '0') as nat;
    }
    assert s[..|s|] == s;
    if value <= 0 || value > MAX_ITERATIONS { return None; }
    return Some(value);
  }

  function Iterations(s: string): Option<nat> {
    if s == "" || |s| > 9 || !AllDigits(s) then None
    else if 0 < DecimalValue(s) <= 10000000 then Some(DecimalValue(s)) else None
  }

  // ── Comparing ──

  /** Bitwise exclusive or. */
  function Xor(a: nat, b: nat): nat {
    if a == 0 && b == 0 then 0 else (a % 2 + b % 2) % 2 + 2 * Xor(a / 2, b / 2)
  }

  /** Bitwise or. */
  function Or(a: nat, b: nat): nat {
    if a == 0 && b == 0 then 0 else (if a % 2 + b % 2 > 0 then 1 else 0) + 2 * Or(a / 2, b / 2)
  }

  lemma {:induction false} XorIsZero(a: nat, b: nat)
    ensures Xor(a, b) == 0 <==> a == b
  {
    if a != 0 || b != 0 { XorIsZero(a / 2, b / 2); }
  }

  lemma {:induction false} OrIsZero(a: nat, b: nat)
    ensures Or(a, b) == 0 <==> a == 0 && b == 0
  {
    if a != 0 || b != 0 { OrIsZero(a / 2, b / 2); }
  }

  /** Looks at every byte, wherever the first difference is. */
  method ConstantTimeEquals(a: seq<Byte>, b: seq<Byte>) returns (same: bool)
    ensures same <==> a == b
  {
    if |a| != |b| { return false; }
    var diff: nat := 0;
    for i := 0 to |a|
      invariant diff == 0 <==> a[..i] == b[..i]
    {
      assert a[..i + 1] == a[..i] + [a[i]] && b[..i + 1] == b[..i] + [b[i]];
      XorIsZero(a[i], b[i]);
      OrIsZero(diff, Xor(a[i], b[i]));
      if a[..i + 1] == b[..i + 1] {
        assert a[..i] == a[..i + 1][..i] == b[..i + 1][..i] == b[..i];
        assert a[i] == a[..i + 1][i] == b[..i + 1][i] == b[i];
      }
      diff := Or(diff, Xor(a[i], b[i]));
    }
    assert a[..|a|] == a && b[..|b|] == b;
    return diff == 0;
  }

  // ── Records ──

  datatype Record = Record(iterations: string, salt: string, hash: string)

  /** The three parts, when the text starts with the prefix and has exactly two dollars after it. */
  function Split(encoded: string): Option<Record> {
    if !(PREFIX <= encoded) then None
    else
      var first := FindDollar(encoded, |PREFIX|);
      if first == |encoded| then None
      else
        var second := FindDollar(encoded, first + 1);
        if second == |encoded| || FindDollar(encoded, second + 1) != |encoded| then None
        else Some(Record(encoded[|PREFIX|..first], encoded[first + 1..second], encoded[second + 1..]))
  }

  /** A record that can be verified against: a salt and a 32-byte hash that decode. */
  predicate Readable(r: Record) {
    && Iterations(r.iterations).Some?
    && Decoded(r.salt).Some? && Decoded(r.salt).value != []
    && Decoded(r.hash).Some? && |Decoded(r.hash).value| == HASH_BYTES
  }

  /** Every failure is a plain false: not this format, nothing to derive with, or another password. */
  method VerifyPassword(derive: Derive, password: string, encoded: string) returns (ok: bool)
    ensures ok <==>
      && Split(encoded).Some? && Readable(Split(encoded).value)
      && var r := Split(encoded).value;
         derive(password, Decoded(r.salt).value, Iterations(r.iterations).value) == Some(Decoded(r.hash).value)
  {
    hide Iterations, Decoded;
    if |encoded| < |PREFIX| + 1 { return false; }
    if encoded[..|PREFIX|] != PREFIX { return false; }
    var saltSep := FindDollar(encoded, |PREFIX|);
    if saltSep == |encoded| { return false; }
    var hashSep := FindDollar(encoded, saltSep + 1);
    if hashSep == |encoded| { return false; }
    if FindDollar(encoded, hashSep + 1) != |encoded| { return false; }

    var iterations := ParseIterations(encoded[|PREFIX|..saltSep]);
    if iterations.None? { return false; }
    var saltText, hashText := encoded[saltSep + 1..hashSep], encoded[hashSep + 1..];
    NothingDecodes();
    if saltText == "" || hashText == "" { return false; }
    var salt := Decode(saltText);
    if salt.None? || salt.value == [] { return false; }
    var expected := Decode(hashText);
    if expected.None? || |expected.value| != HASH_BYTES { return false; }
    var derived := derive(password, salt.value, iterations.value);
    if derived.None? { return false; }
    ok := ConstantTimeEquals(derived.value, expected.value);
  }

  lemma NothingDecodes()
    ensures Decoded("") == Some([])
  {
  }

  function RecordOf(iterations: nat, salt: seq<Byte>, hash: seq<Byte>): string {
    PREFIX + Decimal(iterations) + "$" + Encoded(salt) + "$" + Encoded(hash)
  }

  /** None is the exception when the derivation fails; `salt` is what the entropy source gave. */
  method HashPassword(derive: Derive, password: string, salt: seq<Byte>) returns (encoded: Option<string>)
    ensures encoded == match derive(password, salt, 600000)
                       case Some(hash) => Some(RecordOf(600000, salt, hash))
                       case None => None
  {
    var hash := derive(password, salt, DEFAULT_ITERATIONS);
    if hash.None? { return None; }
    var saltText := Encode(salt);
    var hashText := Encode(hash.value);
    return Some(PREFIX + Decimal(DEFAULT_ITERATIONS) + "$" + saltText + "$" + hashText);
  }

  // ── What is stored is what is checked ──

  predicate Dollarless(s: string) { '$' !in s }

  /** Three parts without dollars, put together, come apart again. */
  lemma SplitJoins(a: string, b: string, c: string)
    requires Dollarless(a) && Dollarless(b) && Dollarless(c)
    ensures Split(PREFIX + a + "$" + b + "$" + c) == Some(Record(a, b, c))
  {
    hide FindFrom;
    var s := PREFIX + a + "$" + b + "$" + c;
    var first, second := |PREFIX| + |a|, |PREFIX| + |a| + 1 + |b|;
    assert s[..|PREFIX|] == PREFIX && s[|PREFIX|..first] == a && s[first] == '$';
    assert s[first + 1..second] == b && s[second] == '$' && s[second + 1..] == c;
    forall i | |PREFIX| <= i < first ensures s[i] != '$' {
      assert s[i] == a[i - |PREFIX|];
    }
    forall i | first < i < second ensures s[i] != '$' {
      assert s[i] == b[i - first - 1];
    }
    forall i | second < i < |s| ensures s[i] != '$' {
      assert s[i] == c[i - second - 1];
    }
    FoundAt(s, '$', |PREFIX|, first);
    FoundAt(s, '$', first + 1, second);
    FoundAt(s, '$', second + 1, |s|);
  }

  lemma PrintedIterations(iterations: nat)
    requires 0 < iterations <= MAX_ITERATIONS
    ensures Iterations(Decimal(iterations)) == Some(iterations) && Dollarless(Decimal(iterations))
  {
    DecimalRoundTrip(iterations);
    assert Pow10(8) == 100_000_000 by {
      assert Pow10(4) == 10_000;
    }
    DecimalDigits(iterations, 8);
  }

  lemma EncodedIsDollarless(data: seq<Byte>)
    ensures Dollarless(Encoded(data))
  {
    EncodedShape(data);
    assert Value64('$').None?;
  }

  /**
   A stored record accepts a password exactly when the password derives its
   hash: for every accepted iteration count, salt and hash.
   */
  lemma RecordReadsBack(iterations: nat, salt: seq<Byte>, hash: seq<Byte>)
    requires 0 < iterations <= MAX_ITERATIONS && salt != [] && |hash| == HASH_BYTES
    ensures var r := Split(RecordOf(iterations, salt, hash));
      && r.Some? && Readable(r.value)
      && Iterations(r.value.iterations) == Some(iterations)
      && Decoded(r.value.salt) == Some(salt) && Decoded(r.value.hash) == Some(hash)
  {
    hide Decoded, Encoded, Iterations, Split;
    PrintedIterations(iterations);
    EncodedIsDollarless(salt);
    EncodedIsDollarless(hash);
    SplitJoins(Decimal(iterations), Encoded(salt), Encoded(hash));
    RoundTrip(salt);
    RoundTrip(hash);
  }

  method VerifyRecord(derive: Derive, password: string, iterations: nat, salt: seq<Byte>, hash: seq<Byte>)
    returns (ok: bool)
    requires 0 < iterations <= MAX_ITERATIONS && salt != [] && |hash| == HASH_BYTES
    ensures ok <==> derive(password, salt, iterations) == Some(hash)
  {
    RecordReadsBack(iterations, salt, hash);
    ok := VerifyPassword(derive, password, RecordOf(iterations, salt, hash));
  }
}
