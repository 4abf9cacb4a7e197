/** Keys of the chunk stores: the genesis hash and the decimal chunk index, joined by two underscores. */
module BadgerKeys {
  import opened Core

  const DELIMITER: char := '_'

  function DigitChar(d: nat): char
    requires d < 10
  {
    ('0' as int + d) as char
  }

  function Digits(n: nat): string {
    if n < 10 then [DigitChar(n)] else Digits(n / 10) + [DigitChar(n % 10)]
  }

  /** strconv.FormatInt in base ten. */
  function FormatInt(i: int): string {
    if i < 0 then "-" + Digits(-i) else Digits(i)
  }

  predicate IsDigit(c: char) {
    '0' <= c <= '9'
  }

  function ParseDigits(s: string): int {
    if s == [] then 0 else ParseDigits(s[..|s| - 1]) * 10 + (s[|s| - 1] as int - '0' as int)
  }

  /** strconv.ParseInt in base ten; the caller logs a syntax error and goes on with 0. */
  function ParseInt(s: string): int {
    var signed := s != [] && (s[0] == '-' || s[0] == '+');
    var body := if signed then s[1..] else s;
    if body == [] || exists c :: c in body && !IsDigit(c) then 0
    else if signed && s[0] == '-' then -ParseDigits(body)
    else ParseDigits(body)
  }

  function GetBadgerKey(genesisHash: string, idx: int): string {
    genesisHash + [DELIMITER, DELIMITER] + FormatInt(idx)
  }

  /** Position of the last delimiter, or -1. */
  function LastDelimiter(s: string): (p: int)
    ensures -1 <= p < |s|
  {
    if s == [] then -1
    else if s[|s| - 1] == DELIMITER then |s| - 1
    else LastDelimiter(s[..|s| - 1])
  }

  function GetChunkIdxFromKey(key: string): int {
    ParseInt(key[LastDelimiter(key) + 1..])
  }

  lemma {:induction false} DigitsParse(n: nat)
    ensures Digits(n) != []
    ensures forall c :: c in Digits(n) ==> IsDigit(c)
    ensures ParseDigits(Digits(n)) == n
  {
    if n >= 10 {
      DigitsParse(n / 10);
      var s := Digits(n);
      assert s[..|s| - 1] == Digits(n / 10);
    }
  }

  lemma FormatParse(i: int)
    ensures ParseInt(FormatInt(i)) == i
    ensures DELIMITER !in FormatInt(i)
  {
    DigitsParse(if i < 0 then -i else i);
    if i < 0 {
      assert FormatInt(i)[1..] == Digits(-i);
    } else {
      assert IsDigit(FormatInt(i)[0]);
    }
  }

  lemma {:induction false} LastDelimiterFound(s: string, tail: string)
    requires DELIMITER !in tail
    ensures LastDelimiter(s + [DELIMITER] + tail) == |s|
  {
    var all := s + [DELIMITER] + tail;
    if tail != [] {
      assert all[|all| - 1] == tail[|tail| - 1];
      LastDelimiterFound(s, tail[..|tail| - 1]);
      assert all[..|all| - 1] == s + [DELIMITER] + tail[..|tail| - 1];
    }
  }

  /** Whatever the genesis hash contains, the index comes back out of the key. */
  lemma KeyRoundTrip(genesisHash: string, idx: int)
    ensures GetChunkIdxFromKey(GetBadgerKey(genesisHash, idx)) == idx
  {
    FormatParse(idx);
    var key := GetBadgerKey(genesisHash, idx);
    var head := genesisHash + [DELIMITER];
    assert key == head + [DELIMITER] + FormatInt(idx);
    LastDelimiterFound(head, FormatInt(idx));
    assert key[|head| + 1..] == FormatInt(idx);
  }

  lemma KeyInjective(genesisHash: string, i: int, j: int)
    requires GetBadgerKey(genesisHash, i) == GetBadgerKey(genesisHash, j)
    ensures i == j
  {
    KeyRoundTrip(genesisHash, i);
    KeyRoundTrip(genesisHash, j);
  }

  /** The indexes from `start` to `end`, both included, in either direction. */
  function IdxRange(start: int, end: int): (r: seq<int>)
    ensures |r| == (if start <= end then end - start else start - end) + 1
    ensures forall k :: 0 <= k < |r| ==> r[k] == if start <= end then start + k else start - k
  {
    seq((if start <= end then end - start else start - end) + 1, k => if start <= end then start + k else start - k)
  }

  function KeysOf(genesisHash: string, idxs: seq<int>): (ks: seq<string>)
    ensures |ks| == |idxs| && forall k :: 0 <= k < |idxs| ==> ks[k] == GetBadgerKey(genesisHash, idxs[k])
  {
    seq(|idxs|, k requires 0 <= k < |idxs| => GetBadgerKey(genesisHash, idxs[k]))
  }

  method GenerateBulkKeys(genesisHash: string, startingIdx: int, endingIdx: int) returns (keys: seq<string>)
    ensures keys == KeysOf(genesisHash, IdxRange(startingIdx, endingIdx))
  {
    keys := [];
    if startingIdx == endingIdx {
      keys := [GetBadgerKey(genesisHash, startingIdx)];
      return;
    }
    var step := if startingIdx < endingIdx then 1 else -1;
    var stop := endingIdx + step;
    var i := startingIdx;
    while i != stop
      invariant if step == 1 then startingIdx <= i <= stop else stop <= i <= startingIdx
      invariant |keys| == if step == 1 then i - startingIdx else startingIdx - i
      invariant forall k :: 0 <= k < |keys| ==>
                  keys[k] == GetBadgerKey(genesisHash, if step == 1 then startingIdx + k else startingIdx - k)
      decreases if step == 1 then stop - i else i - stop
    {
      keys := keys + [GetBadgerKey(genesisHash, i)];
      i := i + step;
    }
  }
}
