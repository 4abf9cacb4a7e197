/** Conversions between text, bytes and trytes, with 9-padding and the stopper tryte. */
module Trytes {
  import opened Core

  type Byte = b: int | 0 <= b < 256
  /** What two trytes can hold. */
  type Code = c: int | 0 <= c < 729
  /** What two arbitrary characters decode to, a character outside the alphabet counting as -1. */
  type PairedValue = v: int | -28 <= v < 729

  const ALPHABET: string := "9ABCDEFGHIJKLMNOPQRSTUVWXYZ"
  const STOPPER: char := 'A'
  const REPLACEMENT: char := 0xFFFD as char
  const ADDRESS_LENGTH: nat := 81

  predicate IsTryte(c: char) {
    c == '9' || 'A' <= c <= 'Z'
  }

  /** The v-th character of the alphabet. */
  function Tryte(v: nat): (c: char)
    requires v < 27
    ensures IsTryte(c) && IndexOf(c) == v
  {
    if v == 0 then '9' else ('A' as int + v - 1) as char
  }

  /** strings.Index on the alphabet: -1 when the character is not a tryte. */
  function IndexOf(c: char): (v: int)
    ensures if IsTryte(c) then 0 <= v < 27 else v == -1
  {
    if c == '9' then 0 else if 'A' <= c <= 'Z' then c as int - 'A' as int + 1 else -1
  }

  lemma TryteIsAlphabet(v: nat)
    requires v < 27
    ensures |ALPHABET| == 27 && ALPHABET[v] == Tryte(v)
  {
  }

  /** The pair of trytes for a code, low digit first. */
  function Pair(code: Code): string {
    [Tryte(code % 27), Tryte(code / 27)]
  }

  function PairValue(low: char, high: char): PairedValue {
    IndexOf(low) + IndexOf(high) * 27
  }

  function Encode(codes: seq<Code>): (t: string)
    ensures |t| == 2 * |codes|
  {
    if codes == [] then "" else Encode(codes[..|codes| - 1]) + Pair(codes[|codes| - 1])
  }

  function Decode(t: string): (values: seq<PairedValue>)
    requires |t| % 2 == 0
    ensures |values| == |t| / 2
  {
    if t == "" then [] else Decode(t[..|t| - 2]) + [PairValue(t[|t| - 2], t[|t| - 1])]
  }

  function Nines(k: nat): string {
    seq(k, _ => '9')
  }

  function TrimNines(t: string): string {
    if t != "" && t[|t| - 1] == '9' then TrimNines(t[..|t| - 1]) else t
  }

  function StripZeros(codes: seq<Code>): seq<Code> {
    if codes != [] && codes[|codes| - 1] == 0 then StripZeros(codes[..|codes| - 1]) else codes
  }

  predicate AllBelow(s: string, bound: nat) {
    forall k :: 0 <= k < |s| ==> s[k] as int < bound
  }

  function CodesOf(s: string): (codes: seq<Code>)
    requires AllBelow(s, 729)
    ensures |codes| == |s| && forall k :: 0 <= k < |s| ==> codes[k] == s[k] as int
  {
    seq(|s|, k requires 0 <= k < |s| => s[k] as int)
  }

  lemma PairRoundTrip(code: Code)
    ensures PairValue(Pair(code)[0], Pair(code)[1]) == code
    ensures Pair(code)[1] == '9' <==> code < 27
    ensures Pair(code) == "99" <==> code == 0
  {
  }

  lemma EncodeNext(s: string, i: nat)
    requires i < |s| && AllBelow(s[..i + 1], 729)
    ensures Encode(CodesOf(s[..i + 1])) == Encode(CodesOf(s[..i])) + Pair(s[i] as int)
  {
    assert CodesOf(s[..i + 1])[..i] == CodesOf(s[..i]);
  }

  /** The two digits as the loops compute them. */
  lemma DigitsPair(code: nat)
    ensures (code - code % 27) / 27 == code / 27
    ensures code < 729 <==> code / 27 < 27
    ensures code < 729 ==> Pair(code) == [Tryte(code % 27)] + [Tryte((code - code % 27) / 27)]
  {
  }

  /** The encoding of one more character, if its code is small enough. */
  lemma EncodeOneMore(s: string, i: nat, bound: nat)
    requires i < |s| && AllBelow(s[..i], bound) && bound <= 729
    ensures AllBelow(s[..i + 1], bound) <==> s[i] as int < bound
    ensures s[i] as int < bound ==>
              var c := s[i] as int;
              Encode(CodesOf(s[..i + 1])) == Encode(CodesOf(s[..i])) + ([Tryte(c % 27)] + [Tryte((c - c % 27) / 27)])
  {
    assert s[..i + 1] == s[..i] + [s[i]];
    assert s[..i + 1][i] == s[i];
    if s[i] as int < bound {
      EncodeNext(s, i);
      DigitsPair(s[i] as int);
    }
  }

  /** Decoding undoes encoding. */
  lemma {:induction false} DecodeEncode(codes: seq<Code>)
    ensures Decode(Encode(codes)) == codes
  {
    if codes != [] {
      var init, last := codes[..|codes| - 1], codes[|codes| - 1];
      DecodeEncode(init);
      PairRoundTrip(last);
      var t := Encode(codes);
      assert t[..|t| - 2] == Encode(init) && t[|t| - 2] == Pair(last)[0] && t[|t| - 1] == Pair(last)[1];
      assert codes == init + [last];
    }
  }

  lemma {:induction false} TrimNinesPadded(t: string, k: nat)
    ensures TrimNines(t + Nines(k)) == TrimNines(t)
  {
    if k > 0 {
      assert (t + Nines(k))[..|t| + k - 1] == t + Nines(k - 1);
      TrimNinesPadded(t, k - 1);
    } else {
      assert t + Nines(0) == t;
    }
  }

  function PadToEven(t: string): string {
    if |t| % 2 != 0 then t + "9" else t
  }

  lemma TrimNinesOnce(t: string)
    ensures TrimNines(t + "9") == TrimNines(t)
  {
    assert (t + "9")[..|t|] == t;
  }

  lemma TrimNinesStops(t: string)
    requires t != "" && t[|t| - 1] != '9'
    ensures TrimNines(t) == t
  {
  }

  lemma EncodeSnoc(codes: seq<Code>, last: Code)
    ensures Encode(codes + [last]) == Encode(codes) + Pair(last)
  {
    assert (codes + [last])[..|codes|] == codes;
  }

  lemma TrimNinesZero(codes: seq<Code>)
    ensures TrimNines(Encode(codes + [0])) == TrimNines(Encode(codes))
  {
    EncodeSnoc(codes, 0);
    assert Encode(codes + [0]) == (Encode(codes) + "9") + "9";
    TrimNinesOnce(Encode(codes) + "9");
    TrimNinesOnce(Encode(codes));
  }

  lemma TrimNinesNonZero(codes: seq<Code>, last: Code)
    requires last != 0
    ensures PadToEven(TrimNines(Encode(codes + [last]))) == Encode(codes + [last])
  {
    EncodeSnoc(codes, last);
    TrimLastPair(Encode(codes + [last]));
  }

  lemma TrimLastPair(t: string)
    requires |t| % 2 == 0 && t != ""
    requires t[|t| - 2] != '9' || t[|t| - 1] != '9'
    ensures PadToEven(TrimNines(t)) == t
  {
    if t[|t| - 1] == '9' {
      TrimNinesStops(t[..|t| - 1]);
    } else {
      TrimNinesStops(t);
    }
  }

  /** Trimming an encoding removes the trailing NULs, and at most the high tryte of the last code. */
  lemma {:induction false} TrimNinesEncode(codes: seq<Code>)
    ensures PadToEven(TrimNines(Encode(codes))) == Encode(StripZeros(codes))
  {
    if codes != [] {
      var init, last := codes[..|codes| - 1], codes[|codes| - 1];
      assert codes == init + [last];
      if last == 0 {
        TrimNinesEncode(init);
        TrimNinesZero(init);
      } else {
        TrimNinesNonZero(init, last);
      }
    }
  }

  /** Every code becomes two characters of the alphabet, its low digit first. */
  lemma {:induction false} EncodeAt(codes: seq<Code>, k: nat)
    requires k < |codes|
    ensures Encode(codes)[2 * k] == ALPHABET[codes[k] % 27]
    ensures Encode(codes)[2 * k + 1] == ALPHABET[codes[k] / 27]
  {
    var init, last := codes[..|codes| - 1], codes[|codes| - 1];
    if k < |init| {
      EncodeAt(init, k);
    } else {
      TryteIsAlphabet(last % 27);
      TryteIsAlphabet(last / 27);
    }
  }

  /** A character counts as its place in the alphabet, and any other character as -1. */
  lemma IndexIsPlace(c: char)
    ensures c in ALPHABET ==> 0 <= IndexOf(c) < 27 && ALPHABET[IndexOf(c)] == c
    ensures c !in ALPHABET ==> IndexOf(c) == -1
  {
    if IsTryte(c) {
      TryteIsAlphabet(IndexOf(c));
    } else {
      forall k | 0 <= k < |ALPHABET| ensures ALPHABET[k] != c { TryteIsAlphabet(k); }
    }
  }

  /** Every two characters become the value of their digits, whatever the characters are. */
  lemma {:induction false} DecodeAt(t: string, k: nat)
    requires |t| % 2 == 0 && 2 * k + 1 < |t|
    ensures Decode(t)[k] == IndexOf(t[2 * k]) + 27 * IndexOf(t[2 * k + 1])
  {
    if 2 * k + 2 < |t| { DecodeAt(t[..|t| - 2], k); }
  }

  /** AsciiToTrytes; None stands for the error on a character above 255. */
  function AsciiTrytes(s: string): Option<string> {
    if AllBelow(s, 256) then Some(Encode(CodesOf(s))) else None
  }

  method AsciiToTrytes(ascii: string) returns (r: Option<string>)
    ensures r == AsciiTrytes(ascii)
    ensures r.Some? <==> forall k :: 0 <= k < |ascii| ==> ascii[k] as int <= 255
  {
    var b := "";
    for i := 0 to |ascii|
      invariant AllBelow(ascii[..i], 256) && b == Encode(CodesOf(ascii[..i]))
    {
      var charCode := ascii[i] as int;
      if charCode > 255 { return None; }
      EncodeOneMore(ascii, i, 256);
      var first := charCode % 27;
      var second := (charCode - first) / 27;
      b := b + ([Tryte(first)] + [Tryte(second)]);
    }
    assert ascii[..|ascii|] == ascii;
    return Some(b);
  }

  /** string(rune) for the values TrytesToAscii can compute. */
  function RuneOf(value: PairedValue): char {
    if value < 0 then REPLACEMENT else value as char
  }

  function TextOf(values: seq<PairedValue>): (s: string)
    ensures |s| == |values| && forall k :: 0 <= k < |values| ==> s[k] == RuneOf(values[k])
  {
    seq(|values|, k requires 0 <= k < |values| => RuneOf(values[k]))
  }

  /** TrytesToAscii; None stands for the error on an odd number of characters. */
  function TrytesAscii(t: string): Option<string> {
    if |t| % 2 != 0 then None else Some(TextOf(Decode(t)))
  }

  method TrytesToAscii(t: string) returns (r: Option<string>)
    ensures r == TrytesAscii(t)
    ensures r.Some? <==> |t| % 2 == 0
  {
    if |t| % 2 != 0 { return None; }
    var b := "";
    var i := 0;
    while i < |t|
      invariant 0 <= i <= |t| && i % 2 == 0
      invariant b == TextOf(Decode(t[..i]))
    {
      assert t[..i + 2][..i] == t[..i];
      b := b + [RuneOf(IndexOf(t[i]) + IndexOf(t[i + 1]) * 27)];
      i := i + 2;
    }
    assert t[..i] == t;
    return Some(b);
  }

  lemma CodesText(s: string)
    requires AllBelow(s, 729)
    ensures TextOf(CodesOf(s)) == s
  {
  }

  /** TrytesToAscii undoes AsciiToTrytes wherever the latter succeeds. */
  lemma AsciiRoundTrip(s: string)
    requires AsciiTrytes(s).Some?
    ensures TrytesAscii(AsciiTrytes(s).value) == Some(s)
  {
    DecodeEncode(CodesOf(s));
    CodesText(s);
  }

  function StripNuls(s: string): string {
    if s != "" && s[|s| - 1] as int == 0 then StripNuls(s[..|s| - 1]) else s
  }

  lemma {:induction false} StripNulsCodes(s: string)
    requires AllBelow(s, 729)
    ensures TextOf(StripZeros(CodesOf(s))) == StripNuls(s)
    ensures |StripNuls(s)| <= |s|
  {
    CodesText(s);
    if s != "" && s[|s| - 1] as int == 0 {
      assert CodesOf(s)[..|s| - 1] == CodesOf(s[..|s| - 1]);
      StripNulsCodes(s[..|s| - 1]);
    }
  }

  lemma StripNulsWhole(s: string)
    requires AllBelow(s, 729)
    ensures StripNuls(s) == s <==> s == "" || s[|s| - 1] as int != 0
  {
    if s != "" && s[|s| - 1] as int == 0 { StripNulsCodes(s[..|s| - 1]); }
  }

  lemma PaddedCodes(codes: seq<Code>, k: nat)
    ensures TrytesAscii(PadToEven(TrimNines(Encode(codes) + Nines(k)))) == Some(TextOf(StripZeros(codes)))
  {
    TrimNinesPadded(Encode(codes), k);
    TrimNinesEncode(codes);
    DecodeEncode(StripZeros(codes));
  }

  /** After any 9-padding the text comes back without its trailing NULs: whole iff it has none. */
  lemma {:induction false} PaddedAsciiRoundTrip(s: string, k: nat)
    requires AsciiTrytes(s).Some?
    ensures TrytesAscii(PadToEven(TrimNines(AsciiTrytes(s).value + Nines(k)))) == Some(StripNuls(s))
    ensures StripNuls(s) == s <==> s == "" || s[|s| - 1] as int != 0
  {
    PaddedCodes(CodesOf(s), k);
    StripNulsCodes(s);
    StripNulsWhole(s);
  }

  /** Text without trailing NULs comes back whole from its own encoding, whatever padding was added. */
  method TrytesToAsciiTrimmed(t: string) returns (r: Option<string>)
    ensures r == TrytesAscii(PadToEven(TrimNines(t)))
    ensures forall s: string, k: nat :: AsciiTrytes(s).Some? && t == AsciiTrytes(s).value + Nines(k) ==>
              r == Some(StripNuls(s))
  {
    var trimmed := TrimNines(t);
    if |trimmed| % 2 != 0 { trimmed := trimmed + "9"; }
    r := TrytesToAscii(trimmed);
    forall s: string, k: nat | AsciiTrytes(s).Some? && t == AsciiTrytes(s).value + Nines(k)
      ensures r == Some(StripNuls(s))
    {
      PaddedAsciiRoundTrip(s, k);
    }
  }

  method BytesToTrytes(bytes: seq<Byte>) returns (t: string)
    ensures t == Encode(bytes)
  {
    t := "";
    for i := 0 to |bytes|
      invariant t == Encode(bytes[..i])
    {
      var v1 := bytes[i] % 27;
      var v2 := (bytes[i] - v1) / 27;
      assert bytes[..i + 1][..i] == bytes[..i];
      t := t + ([Tryte(v1)] + [Tryte(v2)]);
    }
    assert bytes[..|bytes|] == bytes;
  }

  /** The conversion to a byte keeps the low eight bits. */
  function Bytes(values: seq<PairedValue>): (bytes: seq<Byte>)
    ensures |bytes| == |values| && forall k :: 0 <= k < |values| ==> bytes[k] == values[k] % 256
  {
    seq(|values|, k requires 0 <= k < |values| => values[k] % 256)
  }

  /** TrytesToBytes; None is the panic on an odd number of trytes. */
  function TrytesBytes(t: string): Option<seq<Byte>> {
    if |t| % 2 != 0 then None else Some(Bytes(Decode(t)))
  }

  method TrytesToBytes(t: string) returns (r: Option<seq<Byte>>)
    ensures r == TrytesBytes(t)
  {
    var output: seq<Byte> := [];
    var i := 0;
    while i < |t|
      invariant 0 <= i <= |t| && i % 2 == 0
      invariant output == Bytes(Decode(t[..i]))
    {
      if i + 1 >= |t| { return None; }
      assert t[..i + 2][..i] == t[..i];
      output := output + [(IndexOf(t[i]) + IndexOf(t[i + 1]) * 27) % 256];
      i := i + 2;
    }
    assert t[..i] == t;
    return Some(output);
  }

  lemma LowBytes(bytes: seq<Byte>)
    ensures Bytes(bytes) == bytes
  {
    var kept := Bytes(bytes);
    forall k | 0 <= k < |bytes|
      ensures kept[k] == bytes[k]
    {
      SmallMod(bytes[k]);
    }
  }

  lemma SmallMod(b: Byte)
    ensures b % 256 == b
  {
  }

  /** TrytesToBytes undoes BytesToTrytes. */
  lemma {:induction false} BytesRoundTrip(bytes: seq<Byte>)
    ensures TrytesBytes(Encode(bytes)) == Some(bytes)
  {
    DecodeEncode(bytes);
    LowBytes(bytes);
  }

  /** trinary.NewTrytes accepts exactly the non-empty strings over the alphabet. */
  predicate IsTrytes(s: string) {
    s != "" && forall c :: c in s ==> IsTryte(c)
  }

  /** ChunkMessageToTrytesWithStopper; None is the panic on a code point two trytes cannot hold. */
  function MessageTrytes(message: string): Option<string> {
    if IsTrytes(message) then Some(message)
    else if AllBelow(message, 729) then Some(Encode(CodesOf(message)) + [STOPPER])
    else None
  }

  method ChunkMessageToTrytesWithStopper(message: string) returns (r: Option<string>)
    ensures r == MessageTrytes(message)
    ensures r.None? <==> !IsTrytes(message) && exists k :: 0 <= k < |message| && message[k] as int >= 27 * 27
  {
    if IsTrytes(message) { return Some(message); }
    var output := "";
    for i := 0 to |message|
      invariant AllBelow(message[..i], 729) && output == Encode(CodesOf(message[..i]))
    {
      var c := message[i] as int;
      DigitsPair(c);
      var v1 := c % 27;
      var v2 := (c - v1) / 27;
      if v2 >= 27 { return None; }
      EncodeOneMore(message, i, 729);
      output := output + ([Tryte(v1)] + [Tryte(v2)]);
    }
    assert message[..|message|] == message;
    return Some(output + [STOPPER]);
  }

  /** What a reader does with a padded encoding: drop the padding, drop the stopper, decode. */
  function Recovered(t: string): seq<PairedValue> {
    var trimmed := TrimNines(t);
    if |trimmed| % 2 == 1 then Decode(trimmed[..|trimmed| - 1]) else []
  }

  lemma TrimToStopper(t: string, k: nat)
    ensures TrimNines(t + [STOPPER] + Nines(k)) == t + [STOPPER]
  {
    TrimNinesPadded(t + [STOPPER], k);
    TrimNinesStops(t + [STOPPER]);
  }

  lemma RecoveredTrimmed(padded: string, t: string)
    requires |t| % 2 == 0 && TrimNines(padded) == t + [STOPPER]
    ensures Recovered(padded) == Decode(t)
  {
    assert (t + [STOPPER])[..|t|] == t;
  }

  lemma RecoveredCodes(codes: seq<Code>, k: nat)
    ensures Recovered(Encode(codes) + [STOPPER] + Nines(k)) == codes
  {
    TrimToStopper(Encode(codes), k);
    RecoveredTrimmed(Encode(codes) + [STOPPER] + Nines(k), Encode(codes));
    DecodeEncode(codes);
  }

  /** The stopper makes every encodable message recoverable after any 9-padding. */
  lemma StopperRoundTrip(message: string, k: nat)
    requires !IsTrytes(message) && MessageTrytes(message).Some?
    ensures TextOf(Recovered(MessageTrytes(message).value + Nines(k))) == message
  {
    RecoveredCodes(CodesOf(message), k);
    CodesText(message);
  }

  /** Without the stopper a trailing NUL could not be told from padding, after any text. */
  lemma NoStopperNotInjective(codes: seq<Code>)
    ensures Encode(codes + [0]) == Encode(codes) + Nines(2)
  {
    EncodeSnoc(codes, 0);
    assert Pair(0) == Nines(2);
  }

  lemma {:induction false} TrimNinesShortens(t: string)
    ensures |TrimNines(t)| <= |t|
  {
    if t != "" && t[|t| - 1] == '9' { TrimNinesShortens(t[..|t| - 1]); }
  }

  /** Exactly the messages that are not trytes themselves are recovered; those that are come back too short. */
  lemma RecoverableIff(message: string, k: nat)
    requires MessageTrytes(message).Some?
    ensures TextOf(Recovered(MessageTrytes(message).value + Nines(k))) == message <==> !IsTrytes(message)
  {
    if IsTrytes(message) {
      TrimNinesPadded(message, k);
      TrimNinesShortens(message);
      assert |Recovered(message + Nines(k))| < |message|;
    } else {
      StopperRoundTrip(message, k);
    }
  }

  /** Two encodable messages share an encoding only if they are equal or one of them is passed on as the other's. */
  lemma SharedEncodingIff(a: string, b: string)
    requires MessageTrytes(a).Some? && MessageTrytes(b).Some? && a != b
    ensures MessageTrytes(a) == MessageTrytes(b) <==>
              || (IsTrytes(a) && !IsTrytes(b) && a == Encode(CodesOf(b)) + [STOPPER])
              || (IsTrytes(b) && !IsTrytes(a) && b == Encode(CodesOf(a)) + [STOPPER])
  {
    if !IsTrytes(a) && !IsTrytes(b) {
      StopperRoundTrip(a, 0);
      StopperRoundTrip(b, 0);
    }
  }

  /** A string of trytes is the encoding of the codes it decodes to. */
  lemma {:induction false} EncodeDecode(t: string) returns (codes: seq<Code>)
    requires |t| % 2 == 0 && forall c :: c in t ==> IsTryte(c)
    ensures codes == Decode(t) && Encode(codes) == t
  {
    codes := [];
    if t != "" {
      var init, low, high := t[..|t| - 2], t[|t| - 2], t[|t| - 1];
      PairOfTrytes(low, high);
      var rest := EncodeDecode(init);
      EncodeSnoc(rest, PairValue(low, high));
      assert t == init + [low, high];
      codes := rest + [PairValue(low, high)];
    }
  }

  lemma PairOfTrytes(low: char, high: char)
    requires IsTryte(low) && IsTryte(high)
    ensures 0 <= PairValue(low, high) && Pair(PairValue(low, high)) == [low, high]
  {
    assert Tryte(IndexOf(low)) == low && Tryte(IndexOf(high)) == high;
  }

  /** What a reader takes a message that ends in the stopper for. */
  function ReadAs(message: string): string
    requires |message| % 2 == 1
  {
    TextOf(Decode(message[..|message| - 1]))
  }

  /** The message ends in the stopper, and what is in front of it decodes to a message that is encoded. */
  predicate LooksEncoded(message: string) {
    |message| % 2 == 1 && message[|message| - 1] == STOPPER && !IsTrytes(ReadAs(message))
  }

  lemma ReadAsCodes(codes: seq<Code>, message: string)
    requires message == Encode(codes) + [STOPPER]
    ensures |message| % 2 == 1 && message[|message| - 1] == STOPPER && ReadAs(message) == TextOf(codes)
  {
    assert message[..|message| - 1] == Encode(codes);
    DecodeEncode(codes);
  }

  lemma LooksEncodedIsEncoded(message: string)
    requires IsTrytes(message) && LooksEncoded(message)
    ensures AllBelow(ReadAs(message), 729)
    ensures Encode(CodesOf(ReadAs(message))) + [STOPPER] == message
  {
    var init := message[..|message| - 1];
    assert message == init + [STOPPER];
    var codes := EncodeDecode(init);
    assert ReadAs(message) == TextOf(codes);
    TextCodes(codes);
  }

  lemma TextCodes(codes: seq<Code>)
    ensures AllBelow(TextOf(codes), 729) && CodesOf(TextOf(codes)) == codes
  {
  }

  /** Exactly when a message of trytes, which is passed on as it is, can be mistaken for another message. */
  lemma {:induction false} PassThroughCollidesIff(message: string)
    requires IsTrytes(message)
    ensures (exists other :: other != message && MessageTrytes(other) == Some(message)) <==> LooksEncoded(message)
  {
    if other :| other != message && MessageTrytes(other) == Some(message) {
      ReadAsCodes(CodesOf(other), message);
      CodesText(other);
    }
    if LooksEncoded(message) {
      LooksEncodedIsEncoded(message);
      assert MessageTrytes(ReadAs(message)) == Some(message);
    }
  }

  /** The shortest case: the empty message and the message "A". */
  lemma PassThroughCollides()
    ensures MessageTrytes("") == MessageTrytes("A") == Some("A")
  {
    assert CodesOf("") == [];
    assert "A"[0] == 'A';
    assert Encode([]) + [STOPPER] == "A";
  }

  /** MakeAddress on the decoded digest: 81 trytes, cut or filled up with 9s. */
  function MakeAddress(digest: seq<Byte>): (a: string)
    ensures |a| == ADDRESS_LENGTH
  {
    var result := Encode(digest);
    if |result| > ADDRESS_LENGTH then result[..ADDRESS_LENGTH] else result + Nines(ADDRESS_LENGTH - |result|)
  }

  lemma {:induction false} EncodePrefix(codes: seq<Code>, n: nat)
    requires n <= |codes|
    ensures Encode(codes)[..2 * n] == Encode(codes[..n])
    decreases |codes|
  {
    if n < |codes| {
      var init := codes[..|codes| - 1];
      EncodePrefix(init, n);
      assert init[..n] == codes[..n];
    } else {
      assert codes[..n] == codes;
    }
  }

  /** The address of a long digest, tryte by tryte: forty bytes, and the low digit of one more. */
  lemma AddressAt(digest: seq<Byte>, k: nat)
    requires |digest| > 40 && k < 81
    ensures MakeAddress(digest)[k] ==
              ALPHABET[if k % 2 == 0 then digest[k / 2] % 27 else digest[k / 2] / 27]
  {
    EncodeAt(digest, k / 2);
    assert k == 2 * (k / 2) + k % 2;
    assert MakeAddress(digest)[k] == Encode(digest)[k];
  }

  lemma AlphabetInjective(v: nat, w: nat)
    requires v < 27 && w < 27 && ALPHABET[v] == ALPHABET[w]
    ensures v == w
  {
    TryteIsAlphabet(v);
    TryteIsAlphabet(w);
  }

  /** Addresses cut from long digests agree exactly if the first forty bytes do, and the low digit of the next. */
  lemma AddressDeterminesDigest(a: seq<Byte>, b: seq<Byte>)
    requires |a| > 40 && |b| > 40
    ensures MakeAddress(a) == MakeAddress(b) <==> a[..40] == b[..40] && a[40] % 27 == b[40] % 27
  {
    if MakeAddress(a) == MakeAddress(b) {
      EncodePrefix(a, 40);
      EncodePrefix(b, 40);
      assert MakeAddress(a)[..80] == Encode(a)[..80];
      assert MakeAddress(b)[..80] == Encode(b)[..80];
      DecodeEncode(a[..40]);
      DecodeEncode(b[..40]);
      AddressAt(a, 80);
      AddressAt(b, 80);
      AlphabetInjective(a[40] % 27, b[40] % 27);
    }
    if a[..40] == b[..40] && a[40] % 27 == b[40] % 27 { SameAddress(a, b); }
  }

  lemma SameAddress(a: seq<Byte>, b: seq<Byte>)
    requires |a| > 40 && |b| > 40 && a[..40] == b[..40] && a[40] % 27 == b[40] % 27
    ensures MakeAddress(a) == MakeAddress(b)
  {
    forall k | 0 <= k < 81 ensures MakeAddress(a)[k] == MakeAddress(b)[k] {
      AddressAt(a, k);
      AddressAt(b, k);
      if k < 80 { assert a[k / 2] == a[..40][k / 2] && b[k / 2] == b[..40][k / 2]; }
    }
  }
}
