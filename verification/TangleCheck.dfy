/** Comparing chunks with the tangle: which match, which differ and which are not attached. */
module TangleCheck {
  import opened Core
  import Trytes

  /** How many addresses one request to the tangle may carry. */
  const MAX_ADDRESSES: nat := 1000

  datatype Tx = Tx(address: string, fragment: string)

  /** A page of transactions may fail to load; the caller logs that and goes on. */
  datatype PageAnswer = PageFailed | Page(txs: seq<Tx>)

  /** What the tangle answers to a search by address. No pages means no transaction was found. */
  datatype TangleAnswer = FindFailed | Found(pages: seq<PageAnswer>)

  datatype Verdict = Matches | Mismatch | NotAttached | Skipped

  datatype Filtered = Filtered(matches: seq<ChunkData>, mismatches: seq<ChunkData>, notAttached: seq<ChunkData>)

  const NOTHING := Filtered([], [], [])

  predicate OccursAt(s: string, part: string, k: int) {
    0 <= k <= |s| - |part| && s[k..k + |part|] == part
  }

  /** strings.Contains. */
  predicate Contains(s: string, part: string) {
    exists k :: 0 <= k <= |s| - |part| && OccursAt(s, part, k)
  }

  /** The search for a part finds it exactly when the text is the part with something around it. */
  lemma ContainsIff(s: string, part: string)
    ensures Contains(s, part) <==> exists before, after :: s == before + part + after
  {
    if Contains(s, part) {
      var k :| 0 <= k <= |s| - |part| && OccursAt(s, part, k);
      assert s == s[..k] + part + s[k + |part|..];
    }
    if before, after :| s == before + part + after {
      assert s[|before|..|before| + |part|] == part;
      assert OccursAt(s, part, |before|);
    }
  }

  predicate TxMatches(tx: Tx, chunk: ChunkData) {
    Contains(tx.fragment, chunk.message)
  }

  predicate AnyTxMatches(txs: seq<Tx>, chunk: ChunkData) {
    exists k :: 0 <= k < |txs| && TxMatches(txs[k], chunk)
  }

  function At(m: map<string, seq<Tx>>, address: string): seq<Tx> {
    if address in m then m[address] else []
  }

  /** makeTransactionObjectsMap: the transactions of one page, by address. */
  function PageMap(txs: seq<Tx>): map<string, seq<Tx>> {
    if txs == [] then map[] else
      var m, tx := PageMap(txs[..|txs| - 1]), txs[|txs| - 1];
      m[tx.address := At(m, tx.address) + [tx]]
  }

  /** What filterChunks collects: a later page replaces all an earlier one had at an address. */
  function TxMap(pages: seq<PageAnswer>): map<string, seq<Tx>> {
    if pages == [] then map[] else
      var m := TxMap(pages[..|pages| - 1]);
      match pages[|pages| - 1]
      case PageFailed => m
      case Page(txs) => m + PageMap(txs)
  }

  function Judge(m: map<string, seq<Tx>>, chunk: ChunkData): Verdict {
    if !Trytes.IsTrytes(chunk.address) then Skipped
    else if chunk.address !in m then NotAttached
    else if AnyTxMatches(m[chunk.address], chunk) then Matches
    else Mismatch
  }

  function Judged(m: map<string, seq<Tx>>, verdict: Verdict): ChunkData -> bool {
    (chunk: ChunkData) => Judge(m, chunk) == verdict
  }

  function Split(m: map<string, seq<Tx>>, chunks: seq<ChunkData>): Filtered {
    Filtered(Filter(chunks, Judged(m, Matches)),
             Filter(chunks, Judged(m, Mismatch)),
             Filter(chunks, Judged(m, NotAttached)))
  }

  predicate AnyAddressable(chunks: seq<ChunkData>) {
    exists k :: 0 <= k < |chunks| && Trytes.IsTrytes(chunks[k].address)
  }

  /** verifyChunksMatchRecord. */
  function Compared(chunks: seq<ChunkData>, answer: TangleAnswer): Filtered {
    if !AnyAddressable(chunks) then NOTHING
    else match answer
    case FindFailed => NOTHING
    case Found(pages) => if pages == [] then Filtered([], [], chunks) else Split(TxMap(pages), chunks)
  }

  method MakeTransactionObjectsMap(txs: seq<Tx>) returns (m: map<string, seq<Tx>>)
    ensures m == PageMap(txs)
  {
    m := map[];
    for i := 0 to |txs|
      invariant m == PageMap(txs[..i])
    {
      assert txs[..i + 1][..i] == txs[..i];
      m := m[txs[i].address := At(m, txs[i].address) + [txs[i]]];
    }
    assert txs[..|txs|] == txs;
  }

  method CheckTxObjectsForMatch(txs: seq<Tx>, chunk: ChunkData) returns (found: bool)
    ensures found <==> exists k :: 0 <= k < |txs| && Contains(txs[k].fragment, chunk.message)
  {
    found := false;
    for i := 0 to |txs|
      invariant forall k :: 0 <= k < i ==> !Contains(txs[k].fragment, chunk.message)
    {
      if Contains(txs[i].fragment, chunk.message) { return true; }
    }
  }

  method FilterChunks(pages: seq<PageAnswer>, chunks: seq<ChunkData>) returns (r: Filtered)
    ensures r == Split(TxMap(pages), chunks)
  {
    var m: map<string, seq<Tx>> := map[];
    for i := 0 to |pages|
      invariant m == TxMap(pages[..i])
    {
      assert pages[..i + 1][..i] == pages[..i];
      if pages[i].PageFailed? { continue; }
      var page := MakeTransactionObjectsMap(pages[i].txs);
      m := m + page;
    }
    assert pages[..|pages|] == pages;
    var matches, mismatches, notAttached := [], [], [];
    for i := 0 to |chunks|
      invariant Filtered(matches, mismatches, notAttached) == Split(m, chunks[..i])
    {
      assert chunks[..i + 1][..i] == chunks[..i];
      if !Trytes.IsTrytes(chunks[i].address) { continue; }
      if chunks[i].address in m {
        var found := CheckTxObjectsForMatch(m[chunks[i].address], chunks[i]);
        if found { matches := matches + [chunks[i]]; } else { mismatches := mismatches + [chunks[i]]; }
      } else {
        notAttached := notAttached + [chunks[i]];
      }
    }
    assert chunks[..|chunks|] == chunks;
    r := Filtered(matches, mismatches, notAttached);
  }

  method VerifyChunksMatchRecord(chunks: seq<ChunkData>, answer: TangleAnswer) returns (r: Filtered, failed: bool)
    ensures r == Compared(chunks, answer)
    ensures forall c :: ListedRight(chunks, answer, r, c)
    ensures failed <==> AnyAddressable(chunks) && answer.FindFailed?
  {
    var addresses: seq<string> := [];
    for i := 0 to |chunks|
      invariant addresses != [] <==> AnyAddressable(chunks[..i])
    {
      if !Trytes.IsTrytes(chunks[i].address) { continue; }
      assert chunks[..i + 1][i] == chunks[i];
      addresses := addresses + [chunks[i].address];
    }
    assert chunks[..|chunks|] == chunks;
    forall c { ComparedMeans(chunks, answer, c); }
    if addresses == [] { return NOTHING, false; }
    if answer.FindFailed? { return NOTHING, true; }
    if answer.pages == [] { return Filtered([], [], chunks), false; }
    r := FilterChunks(answer.pages, chunks);
    failed := false;
  }

  /** The split gives every chunk to exactly one list; only chunks without a proper address are left out. */
  lemma SplitPartitions(m: map<string, seq<Tx>>, chunks: seq<ChunkData>)
    ensures var r := Split(m, chunks);
            multiset(r.matches) + multiset(r.mismatches) + multiset(r.notAttached)
            + multiset(Filter(chunks, Judged(m, Skipped))) == multiset(chunks)
  {
    FilterFour(chunks, Judged(m, Matches), Judged(m, Mismatch), Judged(m, NotAttached), Judged(m, Skipped));
  }

  ghost predicate AllAddressable(chunks: seq<ChunkData>) {
    forall c :: c in chunks ==> Trytes.IsTrytes(c.address)
  }

  /** Unless the search fails, nothing is lost when every address is proper. */
  lemma ComparedPartitions(chunks: seq<ChunkData>, answer: TangleAnswer)
    requires AllAddressable(chunks)
    ensures var r := Compared(chunks, answer);
            if answer.FindFailed? then r == NOTHING
            else multiset(r.matches) + multiset(r.mismatches) + multiset(r.notAttached) == multiset(chunks)
  {
    if chunks != [] { assert chunks[0] in chunks; }
    if answer.Found? && answer.pages != [] {
      var m := TxMap(answer.pages);
      SplitPartitions(m, chunks);
      FilterNone(chunks, Judged(m, Skipped));
    }
  }

  lemma ComparedMembers(chunks: seq<ChunkData>, answer: TangleAnswer, c: ChunkData)
    ensures var r := Compared(chunks, answer);
            c in r.matches || c in r.mismatches || c in r.notAttached ==> c in chunks
  {
    if answer.Found? {
      var m := TxMap(answer.pages);
      FilterMember(chunks, Judged(m, Matches), c);
      FilterMember(chunks, Judged(m, Mismatch), c);
      FilterMember(chunks, Judged(m, NotAttached), c);
    }
  }

  // ---- What a verdict means ----

  /** Some transaction of the list sits at the address. */
  predicate Mentions(txs: seq<Tx>, address: string) {
    exists k :: 0 <= k < |txs| && txs[k].address == address
  }

  /** Some transaction of the list sits at the chunk's address and carries its message. */
  predicate Carries(txs: seq<Tx>, chunk: ChunkData) {
    exists k :: 0 <= k < |txs| && txs[k].address == chunk.address && TxMatches(txs[k], chunk)
  }

  lemma {:induction false} PageMapAt(txs: seq<Tx>, chunk: ChunkData)
    ensures chunk.address in PageMap(txs) <==> Mentions(txs, chunk.address)
    ensures AnyTxMatches(At(PageMap(txs), chunk.address), chunk) <==> Carries(txs, chunk)
  {
    if txs != [] {
      var init, tx := txs[..|txs| - 1], txs[|txs| - 1];
      PageMapAt(init, chunk);
      MentionsSnoc(init, tx, chunk);
      assert txs == init + [tx];
      AnyTxMatchesSnoc(At(PageMap(init), chunk.address), tx, chunk);
    }
  }

  lemma AnyTxMatchesSnoc(txs: seq<Tx>, tx: Tx, chunk: ChunkData)
    ensures AnyTxMatches(txs + [tx], chunk) <==> AnyTxMatches(txs, chunk) || TxMatches(tx, chunk)
  {
    var all := txs + [tx];
    assert all[|txs|] == tx;
    forall k | 0 <= k < |txs| ensures all[k] == txs[k] {
    }
    if AnyTxMatches(txs, chunk) {
      var k :| 0 <= k < |txs| && TxMatches(txs[k], chunk);
      assert TxMatches(all[k], chunk);
    }
  }

  lemma MentionsSnoc(txs: seq<Tx>, tx: Tx, chunk: ChunkData)
    ensures Mentions(txs + [tx], chunk.address) <==> Mentions(txs, chunk.address) || tx.address == chunk.address
    ensures Carries(txs + [tx], chunk) <==>
              Carries(txs, chunk) || (tx.address == chunk.address && TxMatches(tx, chunk))
  {
    var all := txs + [tx];
    assert all[|txs|] == tx;
    if Mentions(txs, chunk.address) {
      var k :| 0 <= k < |txs| && txs[k].address == chunk.address;
      assert all[k].address == chunk.address;
    }
    if Carries(txs, chunk) {
      var k :| 0 <= k < |txs| && txs[k].address == chunk.address && TxMatches(txs[k], chunk);
      assert all[k] == txs[k];
    }
  }

  /** The verdict a list of transactions deserves, described without any map. */
  ghost function Deserved(txs: seq<Tx>, chunk: ChunkData): Verdict {
    if !Trytes.IsTrytes(chunk.address) then Skipped
    else if !Mentions(txs, chunk.address) then NotAttached
    else if Carries(txs, chunk) then Matches
    else Mismatch
  }

  /** With one page of transactions every chunk gets exactly the verdict it deserves. */
  lemma SinglePageExact(txs: seq<Tx>, chunk: ChunkData)
    ensures Judge(TxMap([Page(txs)]), chunk) == Deserved(txs, chunk)
  {
    PageMapAt(txs, chunk);
    assert [Page(txs)][..0] == [];
    assert TxMap([Page(txs)]) == PageMap(txs);
  }

  /** The transactions of all pages that loaded. */
  function AllTxs(pages: seq<PageAnswer>): seq<Tx> {
    if pages == [] then [] else
      var rest := AllTxs(pages[..|pages| - 1]);
      match pages[|pages| - 1]
      case PageFailed => rest
      case Page(txs) => rest + txs
  }

  /** The last page that loaded and mentions the address. */
  function LastPageWith(pages: seq<PageAnswer>, address: string): seq<Tx> {
    if pages == [] then []
    else match pages[|pages| - 1]
    case PageFailed => LastPageWith(pages[..|pages| - 1], address)
    case Page(txs) => if Mentions(txs, address) then txs else LastPageWith(pages[..|pages| - 1], address)
  }

  /** With several pages, only the last one that mentions the address is heard. */
  lemma {:induction false} LastPageWins(pages: seq<PageAnswer>, chunk: ChunkData)
    ensures Judge(TxMap(pages), chunk) == Deserved(LastPageWith(pages, chunk.address), chunk)
  {
    if pages != [] {
      LastPageWins(pages[..|pages| - 1], chunk);
      if pages[|pages| - 1].Page? { PageMapAt(pages[|pages| - 1].txs, chunk); }
    }
  }

  lemma MentionsJoin(a: seq<Tx>, b: seq<Tx>, chunk: ChunkData)
    ensures Mentions(a + b, chunk.address) <==> Mentions(a, chunk.address) || Mentions(b, chunk.address)
    ensures Carries(a + b, chunk) <==> Carries(a, chunk) || Carries(b, chunk)
  {
    var all := a + b;
    forall k | 0 <= k < |a| ensures all[k] == a[k] {
    }
    forall k | 0 <= k < |b| ensures all[|a| + k] == b[k] {
    }
  }

  lemma {:induction false} LastPageMentions(pages: seq<PageAnswer>, chunk: ChunkData)
    ensures Mentions(LastPageWith(pages, chunk.address), chunk.address) <==> Mentions(AllTxs(pages), chunk.address)
    ensures Carries(LastPageWith(pages, chunk.address), chunk) ==> Carries(AllTxs(pages), chunk)
  {
    if pages != [] {
      LastPageMentions(pages[..|pages| - 1], chunk);
      if pages[|pages| - 1].Page? {
        MentionsJoin(AllTxs(pages[..|pages| - 1]), pages[|pages| - 1].txs, chunk);
      }
    }
  }

  // ---- What the comparison means ----

  /** Some transaction found sits at the chunk's address. */
  ghost predicate Seen(answer: TangleAnswer, c: ChunkData) {
    answer.Found? && Mentions(AllTxs(answer.pages), c.address)
  }

  /** Some transaction found sits at the chunk's address and carries its message. */
  ghost predicate OnTangle(answer: TangleAnswer, c: ChunkData) {
    answer.Found? && Carries(AllTxs(answer.pages), c)
  }

  /** Even the last page that mentions the address has such a transaction. */
  ghost predicate Heard(answer: TangleAnswer, c: ChunkData) {
    answer.Found? && Carries(LastPageWith(answer.pages, c.address), c)
  }

  /** In which lists a chunk is, told by the answer of the tangle alone. */
  ghost predicate ListedRight(chunks: seq<ChunkData>, answer: TangleAnswer, r: Filtered, c: ChunkData) {
    && (c in r.matches <==> c in chunks && Trytes.IsTrytes(c.address) && Heard(answer, c))
    && (c in r.mismatches <==>
          c in chunks && Trytes.IsTrytes(c.address) && Seen(answer, c) && !Heard(answer, c))
    && (c in r.notAttached <==>
          && c in chunks && answer.Found? && !Seen(answer, c)
          && (Trytes.IsTrytes(c.address)
              || (answer.pages == [] && exists d :: d in chunks && Trytes.IsTrytes(d.address))))
  }

  lemma HeardIsOnTangle(answer: TangleAnswer, c: ChunkData)
    ensures Heard(answer, c) ==> OnTangle(answer, c)
    ensures OnTangle(answer, c) ==> Seen(answer, c)
    ensures answer.Found? && |answer.pages| == 1 ==> (Heard(answer, c) <==> OnTangle(answer, c))
  {
    if answer.Found? {
      LastPageMentions(answer.pages, c);
      if OnTangle(answer, c) {
        var txs := AllTxs(answer.pages);
        var k :| 0 <= k < |txs| && txs[k].address == c.address && TxMatches(txs[k], c);
        assert txs[k].address == c.address;
      }
      if |answer.pages| == 1 { OnePage(answer.pages, c); }
    }
  }

  lemma OnePage(pages: seq<PageAnswer>, c: ChunkData)
    requires |pages| == 1
    ensures Carries(LastPageWith(pages, c.address), c) <==> Carries(AllTxs(pages), c)
  {
    assert pages[..0] == [] && AllTxs([]) == [];
    if pages[0].Page? {
      assert AllTxs(pages) == AllTxs(pages[..0]) + pages[0].txs == pages[0].txs;
      var txs := pages[0].txs;
      if Carries(txs, c) {
        var k :| 0 <= k < |txs| && txs[k].address == c.address && TxMatches(txs[k], c);
        assert Mentions(txs, c.address);
      }
    }
  }

  lemma AnyAddressableIff(chunks: seq<ChunkData>)
    ensures AnyAddressable(chunks) <==> exists d :: d in chunks && Trytes.IsTrytes(d.address)
  {
    if d :| d in chunks && Trytes.IsTrytes(d.address) {
      var k :| 0 <= k < |chunks| && chunks[k] == d;
      assert Trytes.IsTrytes(chunks[k].address);
    }
    if AnyAddressable(chunks) {
      var k :| 0 <= k < |chunks| && Trytes.IsTrytes(chunks[k].address);
      assert chunks[k] in chunks;
    }
  }

  /** Each list of a comparison holds exactly the chunks it should. */
  lemma ComparedMeans(chunks: seq<ChunkData>, answer: TangleAnswer, c: ChunkData)
    ensures ListedRight(chunks, answer, Compared(chunks, answer), c)
  {
    AnyAddressableIff(chunks);
    HeardIsOnTangle(answer, c);
    if answer.Found? {
      if answer.pages == [] {
        assert AllTxs([]) == [];
      } else {
        var m := TxMap(answer.pages);
        LastPageWins(answer.pages, c);
        LastPageMentions(answer.pages, c);
        FilterMember(chunks, Judged(m, Matches), c);
        FilterMember(chunks, Judged(m, Mismatch), c);
        FilterMember(chunks, Judged(m, NotAttached), c);
      }
    }
  }

  /**
   * Paging changes the verdict exactly when a match on an earlier page is hidden by a later page
   * that mentions the address without it. It never turns anything into a match.
   */
  lemma PagingHidesMatchesIff(pages: seq<PageAnswer>, chunk: ChunkData)
    ensures Judge(TxMap(pages), chunk) != Deserved(AllTxs(pages), chunk)
            <==> Deserved(AllTxs(pages), chunk) == Matches && !Carries(LastPageWith(pages, chunk.address), chunk)
    ensures Judge(TxMap(pages), chunk) == Matches ==> Deserved(AllTxs(pages), chunk) == Matches
  {
    LastPageWins(pages, chunk);
    LastPageMentions(pages, chunk);
  }

  // ---- When a match can be hidden ----

  const FRAGMENT_LENGTH: nat := 2187

  /** What the tangle stores: an address of 81 trytes and a fragment of 2187. */
  predicate ProperTx(tx: Tx) {
    && Trytes.IsTrytes(tx.address) && |tx.address| == Trytes.ADDRESS_LENGTH
    && Trytes.IsTrytes(tx.fragment) && |tx.fragment| == FRAGMENT_LENGTH
  }

  /** Pages are cut from one list of transactions: all but the last have a thousand. */
  ghost predicate ProperPages(pages: seq<PageAnswer>) {
    forall k :: 0 <= k < |pages| && pages[k].Page? ==>
      && 0 < |pages[k].txs| <= MAX_ADDRESSES
      && (k < |pages| - 1 ==> |pages[k].txs| == MAX_ADDRESSES)
      && forall tx :: tx in pages[k].txs ==> ProperTx(tx)
  }

  ghost predicate HidesMatch(pages: seq<PageAnswer>, chunk: ChunkData) {
    Deserved(AllTxs(pages), chunk) == Matches && Judge(TxMap(pages), chunk) == Mismatch
  }

  function Repeated(c: char, n: nat): string {
    seq(n, _ => c)
  }

  lemma NotInRepeated(message: string, c: char, n: nat, i: nat)
    requires i < |message| && message[i] != c
    ensures !Contains(Repeated(c, n), message)
  {
    var s := Repeated(c, n);
    forall k | 0 <= k <= |s| - |message| ensures !OccursAt(s, message, k) {
      assert s[k..k + |message|][i] == s[k + i] == c;
    }
  }

  /** A fragment that carries the message. */
  function WithMessage(message: string): string
    requires |message| <= FRAGMENT_LENGTH
  {
    message + Repeated('9', FRAGMENT_LENGTH - |message|)
  }

  lemma WithMessageCarries(message: string)
    requires Trytes.IsTrytes(message) && |message| <= FRAGMENT_LENGTH
    ensures Contains(WithMessage(message), message)
    ensures Trytes.IsTrytes(WithMessage(message)) && |WithMessage(message)| == FRAGMENT_LENGTH
  {
    assert OccursAt(WithMessage(message), message, 0);
  }

  /** A fragment that does not. */
  lemma OtherFragment(message: string) returns (fragment: string)
    requires Trytes.IsTrytes(message)
    ensures !Contains(fragment, message) && Trytes.IsTrytes(fragment) && |fragment| == FRAGMENT_LENGTH
  {
    if message[0] == '9' {
      fragment := Repeated('A', FRAGMENT_LENGTH);
      NotInRepeated(message, 'A', FRAGMENT_LENGTH, 0);
    } else {
      fragment := Repeated('9', FRAGMENT_LENGTH);
      NotInRepeated(message, '9', FRAGMENT_LENGTH, 0);
    }
  }

  /** A match on a full first page, and on a second page another message at the same address. */
  function TwoPages(match0: Tx, other: Tx): seq<PageAnswer> {
    [Page([match0] + seq(MAX_ADDRESSES - 1, _ => other)), Page([other])]
  }

  lemma TwoPagesMean(first: seq<Tx>, second: seq<Tx>, address: string)
    ensures AllTxs([Page(first), Page(second)]) == first + second
    ensures Mentions(second, address) ==> LastPageWith([Page(first), Page(second)], address) == second
  {
    var one, two := [Page(first)], [Page(first), Page(second)];
    assert one[..0] == [] && two[..1] == one;
    assert AllTxs(one) == AllTxs(one[..0]) + first;
    assert AllTxs(two) == AllTxs(two[..1]) + second;
  }

  lemma TwoPagesHide(match0: Tx, other: Tx, chunk: ChunkData)
    requires ProperTx(match0) && ProperTx(other) && match0.address == other.address == chunk.address
    requires TxMatches(match0, chunk) && !TxMatches(other, chunk)
    ensures ProperPages(TwoPages(match0, other)) && HidesMatch(TwoPages(match0, other), chunk)
  {
    var first, second := [match0] + seq(MAX_ADDRESSES - 1, _ => other), [other];
    var pages := TwoPages(match0, other);
    assert (first + second)[0] == match0;
    assert second[0].address == chunk.address;
    TwoPagesMean(first, second, chunk.address);
    LastPageWins(pages, chunk);
  }

  /** A match on a proper transaction tells what the message is like. */
  lemma CarriedMessage(txs: seq<Tx>, chunk: ChunkData)
    requires Carries(txs, chunk) && forall tx :: tx in txs ==> ProperTx(tx)
    ensures |chunk.message| <= FRAGMENT_LENGTH && (chunk.message == "" || Trytes.IsTrytes(chunk.message))
  {
    var i :| 0 <= i < |txs| && txs[i].address == chunk.address && TxMatches(txs[i], chunk);
    var k :| 0 <= k <= |txs[i].fragment| - |chunk.message| && OccursAt(txs[i].fragment, chunk.message, k);
    assert ProperTx(txs[i]);
    forall c | c in chunk.message ensures Trytes.IsTryte(c) {
      var j :| 0 <= j < |chunk.message| && chunk.message[j] == c;
      assert txs[i].fragment[k + j] == c;
    }
  }

  lemma {:induction false} AllTxsProper(pages: seq<PageAnswer>)
    requires ProperPages(pages)
    ensures forall tx :: tx in AllTxs(pages) ==> ProperTx(tx)
  {
    if pages != [] {
      var init := pages[..|pages| - 1];
      assert forall k :: 0 <= k < |init| ==> init[k] == pages[k];
      AllTxsProper(init);
    }
  }

  lemma EmptyMessageNotHidden(pages: seq<PageAnswer>, chunk: ChunkData)
    requires chunk.message == "" && Mentions(LastPageWith(pages, chunk.address), chunk.address)
    ensures Carries(LastPageWith(pages, chunk.address), chunk)
  {
    var txs := LastPageWith(pages, chunk.address);
    var k :| 0 <= k < |txs| && txs[k].address == chunk.address;
    assert OccursAt(txs[k].fragment, "", 0);
    assert TxMatches(txs[k], chunk);
  }

  /**
   * For a chunk at a proper address, some pages the tangle can answer with hide a match of it exactly
   * when its message is made of trytes and fits into a transaction.
   */
  lemma MatchHiddenByLaterPageIff(chunk: ChunkData)
    requires Trytes.IsTrytes(chunk.address) && |chunk.address| == Trytes.ADDRESS_LENGTH
    ensures (exists pages :: ProperPages(pages) && HidesMatch(pages, chunk))
            <==> Trytes.IsTrytes(chunk.message) && |chunk.message| <= FRAGMENT_LENGTH
  {
    if Trytes.IsTrytes(chunk.message) && |chunk.message| <= FRAGMENT_LENGTH {
      var other := OtherFragment(chunk.message);
      WithMessageCarries(chunk.message);
      TwoPagesHide(Tx(chunk.address, WithMessage(chunk.message)), Tx(chunk.address, other), chunk);
    }
    if pages :| ProperPages(pages) && HidesMatch(pages, chunk) {
      AllTxsProper(pages);
      CarriedMessage(AllTxs(pages), chunk);
      LastPageWins(pages, chunk);
      LastPageMentions(pages, chunk);
      if chunk.message == "" { EmptyMessageNotHidden(pages, chunk); }
    }
  }
}
