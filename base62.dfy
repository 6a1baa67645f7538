/** internal/helper/base62.go: the base62 alphabet, random id generation, the id
    format check, and the oldest revision of the collision-avoiding id search, which
    looks ids up in a plain map.

    The secure random source is an input: `entropy` holds the bytes `crypto/rand`
    would deliver. A read of `length` bytes fails when fewer are available, which
    stands for every way the source can fail. */
module Base62 {
  import opened Errors
  import opened Coordinator

  /** Go's `byte`: one value the random source delivers. */
  newtype byte = x: int | 0 <= x < 256

  /** `base62Charset`: the ten digits, then the lower-case, then the upper-case letters
      (the same 62-character literal, written in three pieces). */
  const Digits: string := "0123456789"
  const Lower: string := "abcdefghijklmnopqrstuvwxyz"
  const Upper: string := "ABCDEFGHIJKLMNOPQRSTUVWXYZ"
  const Charset: string := Digits + Lower + Upper

  /** One character of the regular-expression class `[0-9a-zA-Z]`. */
  predicate IsAlphanumeric(c: char)
  {
    ('0' <= c <= '9') || ('a' <= c <= 'z') || ('A' <= c <= 'Z')
  }

  predicate AllAlphanumeric(s: string)
  {
    forall i :: 0 <= i < |s| ==> IsAlphanumeric(s[i])
  }

  /** The charset has 62 symbols and each of them is in `[0-9a-zA-Z]`. */
  lemma CharsetIsAlphanumeric()
    ensures |Charset| == 62
    ensures forall i :: 0 <= i < |Charset| ==> IsAlphanumeric(Charset[i])
  {
    assert forall i :: 0 <= i < |Digits| ==> '0' <= Digits[i] <= '9';
    assert forall i :: 0 <= i < |Lower| ==> 'a' <= Lower[i] <= 'z';
    assert forall i :: 0 <= i < |Upper| ==> 'A' <= Upper[i] <= 'Z';
  }

  /** Conversely every character of `[0-9a-zA-Z]` is in the charset: the charset is
      exactly that class. */
  lemma AlphanumericInCharset(c: char)
    requires IsAlphanumeric(c)
    ensures c in Charset
  {
    if '0' <= c <= '9' {
      assert Charset[c as int - '0' as int] == c;
    } else if 'a' <= c <= 'z' {
      assert Charset[10 + c as int - 'a' as int] == c;
    } else {
      assert Charset[36 + c as int - 'A' as int] == c;
    }
  }

  /** The symbol a random byte maps to, `base62Charset[b % 62]`, computed from the
      three ranges of the charset (`SymbolIsCharsetLookup` shows the two agree), so that
      proofs about ids need not unfold the 62-character literal. */
  function SymbolOf(b: byte): (c: char)
    ensures IsAlphanumeric(c)
  {
    SymbolAt((b as int) % 62)
  }

  /** The charset symbol at position `r`. */
  function SymbolAt(r: int): (c: char)
    requires 0 <= r < 62
    ensures IsAlphanumeric(c)
  {
    if r < 10 then ('0' as int + r) as char
    else if r < 36 then ('a' as int + (r - 10)) as char
    else ('A' as int + (r - 36)) as char
  }

  /** The symbol is the source's table lookup: `base62Charset[b % 62]`. */
  lemma SymbolIsCharsetLookup(b: byte)
    ensures SymbolOf(b) == Charset[(b as int) % 62]
  {
    assert forall i :: 0 <= i < |Digits| ==> Digits[i] == ('0' as int + i) as char;
    assert forall i :: 0 <= i < |Lower| ==> Lower[i] == ('a' as int + i) as char;
    assert forall i :: 0 <= i < |Upper| ==> Upper[i] == ('A' as int + i) as char;
  }

  /** The id the random bytes `bytes` turn into, byte for byte. */
  function Encode(bytes: seq<byte>): (s: string)
    ensures |s| == |bytes|
    ensures forall i :: 0 <= i < |s| ==> s[i] == SymbolOf(bytes[i])
    ensures AllAlphanumeric(s)
  {
    if bytes == [] then [] else [SymbolOf(bytes[0])] + Encode(bytes[1..])
  }

  /** `Encode` is determined by its elementwise description. */
  lemma EncodeElementwise(bytes: seq<byte>, s: string)
    requires |s| == |bytes|
    requires forall i :: 0 <= i < |s| ==> s[i] == SymbolOf(bytes[i])
    ensures s == Encode(bytes)
  {
    var e := Encode(bytes);
    assert forall i :: 0 <= i < |s| ==> s[i] == e[i];
  }

  /** What `GenerateRandomBase62(length)` yields when the source supplies `entropy`:
      nothing when the read fails, otherwise the encoding of the first `length` bytes. */
  function RandomBase62(length: nat, entropy: seq<byte>): (r: Option<string>)
    ensures r.None? <==> |entropy| < length
    ensures r.Some? ==> |r.value| == length && AllAlphanumeric(r.value)
  {
    if |entropy| < length then None else Some(Encode(entropy[..length]))
  }

  /** `GenerateRandomBase62`: reads `length` random bytes and maps each to its
      charset symbol, filling the result buffer in place. On a failed read it returns
      an empty result and the error. */
  method GenerateRandomBase62(length: nat, entropy: seq<byte>) returns (result: seq<char>, err: Option<Error>)
    ensures |entropy| < length ==> result == [] && err == Some(RandomnessUnavailable)
    ensures length <= |entropy| ==>
      err == None && |result| == length &&
      forall i :: 0 <= i < length ==> result[i] == SymbolOf(entropy[i])
    ensures err == None ==> RandomBase62(length, entropy) == Some(result)
    ensures err.Some? ==> RandomBase62(length, entropy) == None
  {
    if |entropy| < length {
      return [], Some(RandomnessUnavailable);
    }
    var bytes := entropy[..length];
    var buffer := new char[length];
    for i := 0 to length
      invariant forall j :: 0 <= j < i ==> buffer[j] == SymbolOf(bytes[j])
    {
      buffer[i] := SymbolOf(bytes[i]);
    }
    result, err := buffer[..], None;
    EncodeElementwise(bytes, result);
  }

  /** A call of `GenerateRandomBase62` seen as an optional id, as the retry loops use it:
      `None` when the randomness source failed. */
  method TryGenerate(length: nat, entropy: seq<byte>) returns (candidate: Option<string>)
    ensures candidate == RandomBase62(length, entropy)
  {
    var randomIDBytes, err := GenerateRandomBase62(length, entropy);
    if err.Some? {
      return None;
    }
    return Some(randomIDBytes);
  }

  /** `IsValidBase62String`: exactly eight characters, all in `[0-9a-zA-Z]`, which are
      exactly the symbols of the generator's charset. */
  predicate IsValidBase62String(s: string): (ok: bool)
    ensures ok <==> |s| == 8 && forall i :: 0 <= i < |s| ==> s[i] in Charset
  {
    CharsetIsAlphanumeric();
    AlphanumericIsCharset();
    |s| == 8 && AllAlphanumeric(s)
  }

  /** The class `[0-9a-zA-Z]` and the charset have the same members. */
  lemma AlphanumericIsCharset()
    ensures forall c :: IsAlphanumeric(c) <==> c in Charset
  {
    CharsetIsAlphanumeric();
    forall c | IsAlphanumeric(c)
      ensures c in Charset
    {
      AlphanumericInCharset(c);
    }
  }

  /** The position of `c` in the charset. */
  function PositionOf(c: char): (r: int)
    requires IsAlphanumeric(c)
    ensures 0 <= r < 62 && SymbolAt(r) == c
  {
    if '0' <= c <= '9' then c as int - '0' as int
    else if 'a' <= c <= 'z' then 10 + c as int - 'a' as int
    else 36 + c as int - 'A' as int
  }

  /** Random bytes that encode to `s`: the charset position of each character. */
  function Positions(s: string): (bytes: seq<byte>)
    requires AllAlphanumeric(s)
    ensures |bytes| == |s| && forall i :: 0 <= i < |s| ==> SymbolOf(bytes[i]) == s[i]
  {
    seq(|s|, i requires 0 <= i < |s| => PositionOf(s[i]) as byte)
  }

  /** Conversely, every string that passes the format check is an id the generator can
      produce: some eight random bytes encode to it. */
  lemma ValidIdsAreGenerable(s: string)
    requires IsValidBase62String(s)
    ensures exists bytes: seq<byte> :: RandomBase62(8, bytes) == Some(s)
  {
    var bytes := Positions(s);
    EncodeElementwise(bytes, s);
    assert bytes[..8] == bytes;
    assert RandomBase62(8, bytes) == Some(s);
  }

  /** Every id `GenerateRandomBase62(8)` produces passes the format check. */
  lemma GeneratedIdsAreValid(entropy: seq<byte>)
    requires 8 <= |entropy|
    ensures RandomBase62(8, entropy).Some?
    ensures IsValidBase62String(RandomBase62(8, entropy).value)
  {
  }

  /** The cases of the format check that the handler tests list. */
  lemma FormatCheckExamples()
    ensures IsValidBase62String("Abc123Xy")
    ensures !IsValidBase62String("Abc12")
    ensures !IsValidBase62String("Abc123Xyz")
    ensures !IsValidBase62String("Abc123X!")
    ensures !IsValidBase62String("")
    ensures IsValidBase62String("12345678")
    ensures IsValidBase62String("aBcDeFgH")
  {
    assert !IsAlphanumeric("Abc123X!"[7]);
  }

  /** The generator outcomes of a run whose k-th attempt reads `entropy(k)`. */
  function Stream(idLength: nat, entropy: nat -> seq<byte>): (gen: nat -> Option<string>)
    ensures forall k: nat :: gen(k).None? <==> |entropy(k)| < idLength
    ensures forall k: nat :: gen(k).Some? ==> |gen(k).value| == idLength && AllAlphanumeric(gen(k).value)
  {
    (k: nat) => RandomBase62(idLength, entropy(k))
  }

  /** Existence checks against a plain map never fail. */
  function NeverFails(): nat -> bool
  {
    (k: nat) => false
  }

  /** `GenUnicID`: up to `attempts` times, generate an id and return it unless it is
      a key of `storage`; a failed generation uses up its attempt. The map is only
      read. `calls` records the attempts made. */
  method GenUnicID(attempts: int, idLength: nat, storage: map<string, string>, entropy: nat -> seq<byte>)
    returns (id: string, err: Option<Error>, ghost calls: seq<Probe>)
    ensures calls == Trace(Stream(idLength, entropy), NeverFails(), storage.Keys, 0, attempts)
    ensures (id, err) == Outcome(Verdict(calls))
    ensures err == None ==> id !in storage && |id| == idLength && AllAlphanumeric(id)
    ensures err.Some? ==> id == "" && err == Some(Exhausted)
  {
    ghost var gen, fails, taken := Stream(idLength, entropy), NeverFails(), storage.Keys;
    calls := [];
    var k: nat := 0;
    while k < attempts
      invariant k == 0 || k <= attempts
      invariant |calls| == k
      invariant forall i :: 0 <= i < k ==> calls[i] == ProbeAt(gen, fails, taken, i) && Continues(calls[i])
    {
      var candidate := TryGenerate(idLength, entropy(k));
      if candidate.None? {
        calls := calls + [GenFailed];
        k := k + 1;
        continue;
      }
      var randomID := candidate.value;
      if randomID !in storage {
        StopHere(gen, fails, taken, attempts, calls, Checked(randomID, Free));
        calls := calls + [Checked(randomID, Free)];
        return randomID, None, calls;
      }
      calls := calls + [Checked(randomID, Taken)];
      k := k + 1;
    }
    RanOut(gen, fails, taken, attempts, calls);
    return "", Some(Exhausted), calls;
  }
}
