/** Bounded multi-round percent decoding (section 2.1 of RFC 3986). */
module Percent {
  import opened Base
  import opened Protocol
  import opened Framing

  const MAX_CLASSIFICATION_BYTES := 4096
  const MAX_PERCENT_DECODE_ROUNDS := 8
  const PERCENT: Byte := 37

  /** Whether bytes are well-formed UTF-8; the encoding itself is not part of this model. */
  type Utf8Check = Bytes -> bool

  function HexValue(byte: Byte): (r: Option<Byte>)
    ensures r.Some? ==> r.value < 16
  {
    if 48 <= byte <= 57 then Some(byte - 48)
    else if 97 <= byte <= 102 then Some(byte - 97 + 10)
    else if 65 <= byte <= 70 then Some(byte - 65 + 10)
    else None
  }

  /** A percent sign and two hexadecimal digits at the front. */
  predicate StartsTriple(s: Bytes) {
    |s| >= 3 && s[0] == PERCENT && HexValue(s[1]).Some? && HexValue(s[2]).Some?
  }

  function TripleValue(s: Bytes): Byte
    requires StartsTriple(s)
  {
    HexValue(s[1]).value * 16 + HexValue(s[2]).value
  }

  function Prepend(front: Bytes, rest: Option<Bytes>): Option<Bytes> {
    if rest.None? then None else Some(front + rest.value)
  }

  /** One round: every triple becomes its byte, and a stray percent sign is an error. */
  function DecodeOnce(s: Bytes): Option<Bytes> {
    if s == [] then Some([])
    else if s[0] != PERCENT then Prepend([s[0]], DecodeOnce(s[1..]))
    else if StartsTriple(s) then Prepend([TripleValue(s)], DecodeOnce(s[3..]))
    else None
  }

  function DecodeTimes(s: Bytes, rounds: nat): Option<Bytes> {
    if rounds == 0 then Some(s)
    else
      match DecodeTimes(s, rounds - 1)
      case None => None
      case Some(current) => DecodeOnce(current)
  }

  predicate ContainsPercentEncoding(s: Bytes) {
    exists i :: 0 <= i <= |s| && StartsTriple(s[i..])
  }

  /** w is well-formed text that eight rounds lead to, and no triple is left in it. */
  ghost predicate DecodesTo(value: Bytes, utf8: Utf8Check, w: Bytes) {
    && |value| <= 4_096 && utf8(w)
    && DecodeTimes(value, 8) == Some(w) && !ContainsPercentEncoding(w)
  }

  method BoundedPercentDecode(value: Bytes, utf8: Utf8Check) returns (result: Option<Bytes>)
    ensures forall w :: result == Some(w) <==> DecodesTo(value, utf8, w)
  {
    hide ContainsPercentEncoding;
    if |value| > MAX_CLASSIFICATION_BYTES { return None; }
    var current := value;
    for round := 0 to MAX_PERCENT_DECODE_ROUNDS
      invariant DecodeTimes(value, round) == Some(current)
    {
      var decoded, changed := DecodeRound(current);
      assert DecodeTimes(value, round + 1) == DecodeOnce(current);
      if decoded.None? {
        FailsForGood(value, round + 1, MAX_PERCENT_DECODE_ROUNDS);
        return None;
      }
      current := decoded.value;
      if !changed {
        StaysForGood(value, round + 1, MAX_PERCENT_DECODE_ROUNDS, current);
        NoPercentNoTriple(current);
        return if utf8(current) then Some(current) else None;
      }
    }
    if !utf8(current) { return None; }
    var found := FindTriple(current);
    return if found then None else Some(current);
  }

  /** The inner loop: one pass over the bytes. */
  method DecodeRound(current: Bytes) returns (decoded: Option<Bytes>, changed: bool)
    ensures decoded == DecodeOnce(current)
    ensures decoded.Some? ==> (changed <==> PERCENT in current) && (!changed ==> decoded.value == current)
  {
    hide DecodeOnce;
    var out: Bytes := [];
    var index := 0;
    changed := false;
    assert current[0..] == current;
    PrependNothing(DecodeOnce(current));
    while index < |current|
      invariant 0 <= index <= |current|
      invariant DecodeOnce(current) == Prepend(out, DecodeOnce(current[index..]))
      invariant changed <==> PERCENT in current[..index]
      invariant !changed ==> out == current[..index]
    {
      var rest := current[index..];
      DecodeFront(rest);
      if current[index] == PERCENT {
        if index + 2 >= |current| || HexValue(current[index + 1]).None? || HexValue(current[index + 2]).None? {
          return None, changed;
        }
        PrependTwice(out, [TripleValue(rest)], DecodeOnce(rest[3..]));
        assert rest[3..] == current[index + 3..];
        out := out + [TripleValue(rest)];
        index := index + 3;
        changed := true;
      } else {
        PrependTwice(out, [rest[0]], DecodeOnce(rest[1..]));
        assert rest[1..] == current[index + 1..];
        out := out + [current[index]];
        index := index + 1;
      }
    }
    NothingDecodes();
    assert current[index..] == [] && current[..index] == current && out + [] == out;
    return Some(out), changed;
  }

  method FindTriple(s: Bytes) returns (found: bool)
    ensures found <==> ContainsPercentEncoding(s)
  {
    for i := 0 to |s|
      invariant forall j :: 0 <= j < i ==> !StartsTriple(s[j..])
    {
      if StartsTriple(s[i..]) { return true; }
    }
    return false;
  }

  lemma PrependNothing(rest: Option<Bytes>)
    ensures Prepend([], rest) == rest
  {
    if rest.Some? { assert [] + rest.value == rest.value; }
  }

  lemma PrependTwice(a: Bytes, b: Bytes, rest: Option<Bytes>)
    ensures Prepend(a, Prepend(b, rest)) == Prepend(a + b, rest)
  {
    if rest.Some? { assert a + (b + rest.value) == (a + b) + rest.value; }
  }

  lemma NothingDecodes()
    ensures DecodeOnce([]) == Some([])
  {
  }

  lemma DecodeFront(s: Bytes)
    requires s != []
    ensures s[0] != PERCENT ==> DecodeOnce(s) == Prepend([s[0]], DecodeOnce(s[1..]))
    ensures s[0] == PERCENT && StartsTriple(s) ==> DecodeOnce(s) == Prepend([TripleValue(s)], DecodeOnce(s[3..]))
    ensures s[0] == PERCENT && !StartsTriple(s) ==> DecodeOnce(s) == None
  {
  }

  lemma {:induction false} FailsForGood(s: Bytes, n: nat, m: nat)
    requires n <= m && DecodeTimes(s, n) == None
    ensures DecodeTimes(s, m) == None
  {
    hide DecodeOnce;
    if n < m { FailsForGood(s, n, m - 1); }
  }

  /** Without a percent sign there is nothing left to decode. */
  lemma {:induction false} NoPercentDecodesToItself(s: Bytes)
    requires PERCENT !in s
    ensures DecodeOnce(s) == Some(s)
  {
    if s != [] {
      assert s[0] in s && forall b :: b in s[1..] ==> b in s;
      NoPercentDecodesToItself(s[1..]);
      assert [s[0]] + s[1..] == s;
    }
  }

  lemma {:induction false} StaysForGood(s: Bytes, n: nat, m: nat, w: Bytes)
    requires n <= m && DecodeTimes(s, n) == Some(w) && PERCENT !in w
    ensures DecodeTimes(s, m) == Some(w)
  {
    hide DecodeOnce;
    if n < m {
      StaysForGood(s, n, m - 1, w);
      NoPercentDecodesToItself(w);
    }
  }

  lemma NoPercentNoTriple(s: Bytes)
    requires PERCENT !in s
    ensures !ContainsPercentEncoding(s)
  {
  }

  // ---- Encodings ----

  /** The byte of this hexadecimal digit, in either case. */
  ghost predicate HexDigit(byte: Byte, value: nat) {
    value < 16 && (byte as int == "0123456789ABCDEF"[value] as int || byte as int == "0123456789abcdef"[value] as int)
  }

  lemma HexDigitIff(byte: Byte, value: nat)
    ensures HexDigit(byte, value) <==> value < 16 && HexValue(byte) == Some(value as Byte)
  {
  }

  /** A triple is a percent sign and two hexadecimal digits, and stands for the byte they spell. */
  lemma TripleIff(s: Bytes)
    ensures StartsTriple(s) <==> |s| >= 3 && s[0] as int == '%' as int && exists hi: nat, lo: nat :: HexDigit(s[1], hi) && HexDigit(s[2], lo)
    ensures StartsTriple(s) ==> forall hi: nat, lo: nat :: HexDigit(s[1], hi) && HexDigit(s[2], lo) ==> TripleValue(s) as int == 16 * hi + lo
  {
    hide HexDigit, HexValue;
    if |s| >= 3 {
      forall v: nat ensures HexDigit(s[1], v) <==> v < 16 && HexValue(s[1]) == Some(v as Byte) {
        HexDigitIff(s[1], v);
      }
      forall v: nat ensures HexDigit(s[2], v) <==> v < 16 && HexValue(s[2]) == Some(v as Byte) {
        HexDigitIff(s[2], v);
      }
      if StartsTriple(s) {
        var hi, lo := HexValue(s[1]).value as nat, HexValue(s[2]).value as nat;
        assert HexDigit(s[1], hi) && HexDigit(s[2], lo);
      }
    }
  }

  /** encoded writes plain with any bytes as triples; a percent sign must be one of them. */
  ghost predicate Encodes(encoded: Bytes, plain: Bytes)
    decreases |encoded|
  {
    if plain == [] then encoded == []
    else if StartsTriple(encoded) then TripleValue(encoded) == plain[0] && Encodes(encoded[3..], plain[1..])
    else encoded != [] && encoded[0] == plain[0] && plain[0] != PERCENT && Encodes(encoded[1..], plain[1..])
  }

  /** A round of decoding undoes a round of encoding, and nothing else. */
  lemma {:induction false} DecodingUndoesEncoding(encoded: Bytes, plain: Bytes)
    ensures DecodeOnce(encoded) == Some(plain) <==> Encodes(encoded, plain)
    decreases |encoded|
  {
    if encoded != [] {
      var skip := if StartsTriple(encoded) then 3 else 1;
      var byte := if StartsTriple(encoded) then TripleValue(encoded) else encoded[0];
      if plain != [] {
        DecodingUndoesEncoding(encoded[skip..], plain[1..]);
      }
      if DecodeOnce(encoded) == Some(plain) {
        assert plain == [byte] + DecodeOnce(encoded[skip..]).value;
        assert plain[1..] == DecodeOnce(encoded[skip..]).value;
      }
      if plain != [] && Encodes(encoded, plain) {
        assert [byte] + plain[1..] == plain;
      }
    }
  }

  /** Layers of encoding, innermost first. */
  ghost predicate Layers(chain: seq<Bytes>) {
    chain != [] && forall i :: 0 <= i < |chain| - 1 ==> Encodes(chain[i + 1], chain[i])
  }

  lemma {:induction false} PeelingLayers(chain: seq<Bytes>, n: nat)
    requires Layers(chain) && n < |chain|
    ensures DecodeTimes(chain[|chain| - 1], n) == Some(chain[|chain| - 1 - n])
  {
    hide DecodeOnce, Encodes;
    if n > 0 {
      PeelingLayers(chain, n - 1);
      var i := |chain| - 1 - n;
      assert Encodes(chain[i + 1], chain[i]);
      DecodingUndoesEncoding(chain[i + 1], chain[i]);
    }
  }

  /** Text without a percent sign, encoded wholly or in part up to eight times, comes back. */
  lemma EncodedTextComesBack(chain: seq<Bytes>, utf8: Utf8Check)
    requires Layers(chain) && |chain| <= 9
    requires PERCENT !in chain[0] && utf8(chain[0]) && |chain[|chain| - 1]| <= 4_096
    ensures DecodesTo(chain[|chain| - 1], utf8, chain[0])
  {
    hide DecodeTimes, ContainsPercentEncoding;
    PeelingLayers(chain, |chain| - 1);
    StaysForGood(chain[|chain| - 1], |chain| - 1, MAX_PERCENT_DECODE_ROUNDS, chain[0]);
    NoPercentNoTriple(chain[0]);
  }

  lemma {:induction false} DecodingShrinks(s: Bytes)
    ensures DecodeOnce(s).Some? ==> |DecodeOnce(s).value| <= |s|
    ensures DecodeOnce(s).Some? && PERCENT in s ==> |DecodeOnce(s).value| < |s|
    decreases |s|
  {
    if s != [] {
      if s[0] != PERCENT {
        DecodingShrinks(s[1..]);
        assert s == [s[0]] + s[1..];
      } else if StartsTriple(s) {
        DecodingShrinks(s[3..]);
      }
    }
  }

  lemma {:induction false} RoundsShrink(s: Bytes, rounds: nat)
    ensures DecodeTimes(s, rounds).Some? ==> |DecodeTimes(s, rounds).value| <= |s|
  {
    hide DecodeOnce;
    if rounds > 0 && DecodeTimes(s, rounds - 1).Some? {
      RoundsShrink(s, rounds - 1);
      DecodingShrinks(DecodeTimes(s, rounds - 1).value);
    }
  }

  /** Every result is at most as long as the input and holds no triple; a percent sign in it took eight changing rounds. */
  lemma ResultsAreSettled(value: Bytes, utf8: Utf8Check, w: Bytes)
    requires DecodesTo(value, utf8, w)
    ensures |w| <= |value| && !ContainsPercentEncoding(w)
    ensures PERCENT in w ==> forall n :: 0 <= n < 8 ==>
              DecodeTimes(value, n).Some? && DecodeOnce(DecodeTimes(value, n).value) != DecodeTimes(value, n)
  {
    hide DecodeTimes, DecodeOnce, ContainsPercentEncoding;
    RoundsShrink(value, MAX_PERCENT_DECODE_ROUNDS);
    if PERCENT in w {
      forall n | 0 <= n < MAX_PERCENT_DECODE_ROUNDS
        ensures DecodeTimes(value, n).Some? && DecodeOnce(DecodeTimes(value, n).value) != DecodeTimes(value, n)
      {
        if DecodeTimes(value, n).None? {
          FailsForGood(value, n, MAX_PERCENT_DECODE_ROUNDS);
          assert false;
        } else {
          var current := DecodeTimes(value, n).value;
          DecodingShrinks(current);
          if PERCENT !in current {
            StaysForGood(value, n, MAX_PERCENT_DECODE_ROUNDS, current);
          }
        }
      }
    }
  }

  /** A percent sign encoded n times over. */
  function NestedPercent(n: nat): Bytes {
    if n == 0 then [PERCENT] else [PERCENT, 50, 53] + NestedPercent(n - 1)[1..]
  }

  lemma {:induction false} NestedPercentUnwraps(n: nat)
    ensures NestedPercent(n) != [] && NestedPercent(n)[0] == PERCENT && PERCENT !in NestedPercent(n)[1..]
    ensures |NestedPercent(n)| == 2 * n + 1
    ensures n > 0 ==> DecodeOnce(NestedPercent(n)) == Some(NestedPercent(n - 1))
  {
    if n > 0 {
      NestedPercentUnwraps(n - 1);
      var tail := NestedPercent(n - 1)[1..];
      assert NestedPercent(n)[1..] == [50, 53] + tail;
      assert NestedPercent(n)[3..] == tail;
      NoPercentDecodesToItself(tail);
      assert [PERCENT] + tail == NestedPercent(n - 1);
    }
  }

  lemma {:induction false} NestedPercentAfter(n: nat, rounds: nat)
    requires rounds <= n
    ensures DecodeTimes(NestedPercent(n), rounds) == Some(NestedPercent(n - rounds))
  {
    hide DecodeOnce, NestedPercent;
    if rounds > 0 {
      NestedPercentAfter(n, rounds - 1);
      NestedPercentUnwraps(n - rounds + 1);
    }
  }

  /** A literal percent sign survives behind exactly eight layers; behind fewer or more the value is refused altogether. */
  lemma PercentNeedsEightLayers(n: nat, utf8: Utf8Check, w: Bytes)
    requires utf8([PERCENT])
    ensures DecodesTo(NestedPercent(n), utf8, w) <==> n == 8 && w == [PERCENT]
  {
    hide DecodeOnce;
    if n < MAX_PERCENT_DECODE_ROUNDS {
      NestedPercentAfter(n, n);
      assert DecodeOnce([PERCENT]) == None by { DecodeFront([PERCENT]); }
      assert DecodeTimes(NestedPercent(n), n + 1) == None;
      FailsForGood(NestedPercent(n), n + 1, MAX_PERCENT_DECODE_ROUNDS);
    } else {
      NestedPercentAfter(n, MAX_PERCENT_DECODE_ROUNDS);
      NestedPercentUnwraps(n);
      if n > MAX_PERCENT_DECODE_ROUNDS {
        var left := NestedPercent(n - MAX_PERCENT_DECODE_ROUNDS);
        assert left[0..] == left && StartsTriple(left[0..]);
      }
    }
  }
}
