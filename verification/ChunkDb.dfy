/**
 The chunk database of one upload, changed in place. Every committed transaction is appended to
 `history`, so a property of all of `history` is a property of every state another job could see.
 */
module ChunkDatabase {
  import opened Core
  import opened BadgerKeys
  import opened ChunkStores

  /** What badger may answer to one write inside a transaction. */
  datatype WriteAnswer = Accepted | TxnTooBig | Refused

  const MAX_BADGER_INSERTIONS: nat := 100

  /** How the move of one chunk ends: at most half copied, copied, or also dropped from in progress. */
  datatype MoveOutcome = Stayed | Copied | Moved

  /** The chunk a bulk read builds from one key of store `p`. */
  function ChunkUnder(s: Stores, p: Prefix, genesisHash: string, key: string,
                      addressOf: string -> string, messageOf: string -> string): ChunkData
    requires s.Holds(p, key)
  {
    var hash, raw := s.Get(p, Hash)[key], s.Get(p, Message)[key];
    ChunkData(addressOf(hash), hash, messageOf(raw), raw, GetChunkIdxFromKey(key), genesisHash)
  }

  class ChunkDb {
    const genesisHash: string
    const addressOf: string -> string
    const messageOf: string -> string
    /** Whether reads for a move, and writes, may fail. A transaction that is too big is not a failure. */
    const mayFail: bool
    var stores: Stores
    ghost var history: seq<Stores>

    constructor (genesisHash: string, addressOf: string -> string, messageOf: string -> string, mayFail: bool)
      ensures this.genesisHash == genesisHash && this.addressOf == addressOf && this.messageOf == messageOf
      ensures this.mayFail == mayFail
      ensures stores == Stores(map[], map[], map[], map[]) && history == []
    {
      this.genesisHash, this.addressOf, this.messageOf := genesisHash, addressOf, messageOf;
      this.mayFail := mayFail;
      stores, history := Stores(map[], map[], map[], map[]), [];
    }

    /** Everything committed since the history was `before` is `s` with some of the pairs written. */
    ghost predicate SetsSince(before: seq<Stores>, s: Stores, p: Prefix, kind: Kind, kvs: map<string, string>)
      reads this
    {
      && PartialSet(s, p, kind, kvs, stores)
      && before <= history
      && forall h :: |before| <= h < |history| ==> PartialSet(s, p, kind, kvs, history[h])
    }

    ghost predicate DeletesSince(before: seq<Stores>, s: Stores, p: Prefix, kind: Kind, keys: seq<string>)
      reads this
    {
      && PartialDelete(s, p, kind, keys, stores)
      && before <= history
      && forall h :: |before| <= h < |history| ==> PartialDelete(s, p, kind, keys, history[h])
    }

    method Opens() returns (ok: bool)
      ensures ok || mayFail
    {
      ok := *;
      if !mayFail { ok := true; }
    }

    /** The answer to a write; only a transaction with other writes in it is too big without a failure. */
    method Answer(freshTxn: bool) returns (answer: WriteAnswer)
      ensures mayFail || answer.Accepted? || (answer.TxnTooBig? && !freshTxn)
    {
      answer := *;
      if !mayFail && (freshTxn || !answer.TxnTooBig?) { answer := Accepted; }
    }

    /** Commits a transaction that turns one store into `m`; the commit may fail. */
    method Commit(p: Prefix, kind: Kind, m: map<string, string>) returns (ok: bool)
      modifies this
      ensures ok ==> stores == old(stores).Put(p, kind, m) && history == old(history) + [stores]
      ensures !ok ==> stores == old(stores) && history == old(history)
      ensures ok || mayFail
    {
      ok := *;
      if !mayFail { ok := true; }
      if ok {
        stores := stores.Put(p, kind, m);
        history := history + [stores];
      }
    }

    /** Commits some of the pairs of a bigger update. */
    method CommitSets(p: Prefix, kind: Kind, pending: map<string, string>,
                      ghost since: seq<Stores>, ghost s: Stores, ghost kvs: map<string, string>) returns (ok: bool)
      requires SetsSince(since, s, p, kind, kvs)
      requires forall k :: k in pending ==> k in kvs && pending[k] == kvs[k]
      modifies this
      ensures SetsSince(since, s, p, kind, kvs)
      ensures stores.Get(p, kind) == if ok then old(stores).Get(p, kind) + pending else old(stores).Get(p, kind)
      ensures ok || mayFail
    {
      CommitKeepsPartialSet(s, p, kind, kvs, stores, pending);
      ok := Commit(p, kind, stores.Get(p, kind) + pending);
    }

    /** One write in a transaction: when it is too big, commit what is pending and write into a new one. */
    method SetWithTTL(p: Prefix, kind: Kind, key: string, value: string, pending: map<string, string>,
                      ghost since: seq<Stores>, ghost s: Stores, ghost kvs: map<string, string>)
      returns (ok: bool, rest: map<string, string>)
      requires SetsSince(since, s, p, kind, kvs) && key in kvs && kvs[key] == value
      requires forall k :: k in pending ==> k in kvs && pending[k] == kvs[k]
      modifies this
      ensures SetsSince(since, s, p, kind, kvs)
      ensures ok ==> stores.Get(p, kind) + rest == (old(stores).Get(p, kind) + pending)[key := value]
      ensures forall k :: k in rest ==> k in kvs && rest[k] == kvs[k]
      ensures ok || mayFail
    {
      var answer := Answer(false);
      ok, rest := answer.Accepted?, pending;
      if answer.TxnTooBig? {
        ok := CommitSets(p, kind, pending, since, s, kvs);
        if ok {
          rest := map[];
          answer := Answer(true);
          ok := answer.Accepted?;
        }
      }
      if ok {
        AddThenUpdate(stores.Get(p, kind), rest, key, value);
        assert rest == map[] ==> stores.Get(p, kind) + rest == stores.Get(p, kind);
        rest := rest[key := value];
      }
    }

    method Delete(p: Prefix, kind: Kind, key: string, pending: set<string>,
                  ghost since: seq<Stores>, ghost s: Stores, ghost keys: seq<string>)
      returns (ok: bool, rest: set<string>)
      requires DeletesSince(since, s, p, kind, keys) && key in keys
      requires forall k :: k in pending ==> k in keys
      modifies this
      ensures DeletesSince(since, s, p, kind, keys)
      ensures ok ==> stores.Get(p, kind) - rest == old(stores).Get(p, kind) - pending - {key}
      ensures forall k :: k in rest ==> k in keys
      ensures ok || mayFail
    {
      var answer := Answer(false);
      ok, rest := answer.Accepted?, pending;
      if answer.TxnTooBig? {
        CommitKeepsPartialDelete(s, p, kind, keys, stores, pending);
        ok := Commit(p, kind, stores.Get(p, kind) - pending);
        if ok {
          rest := {};
          answer := Answer(true);
          ok := answer.Accepted?;
        }
      }
      if ok { rest := rest + {key}; }
    }

    /** Writes all pairs, or reports an error after writing some of them. */
    method BatchSetToUniqueDB(p: Prefix, kind: Kind, kvs: map<string, string>) returns (ok: bool)
      modifies this
      ensures ok ==> stores == old(stores).Put(p, kind, old(stores).Get(p, kind) + kvs)
      ensures SetsSince(old(history), old(stores), p, kind, kvs)
      ensures ok || mayFail || "" in kvs
    {
      ghost var before := stores;
      var dbOpens := Opens();
      if !dbOpens { return false; }
      var remaining := kvs.Keys;
      var pending: map<string, string> := map[];
      while remaining != {}
        invariant remaining <= kvs.Keys
        invariant forall key :: key in pending ==> key in kvs && pending[key] == kvs[key]
        invariant forall key :: key in kvs && key !in remaining ==>
                    key in stores.Get(p, kind) + pending && (stores.Get(p, kind) + pending)[key] == kvs[key]
        invariant SetsSince(old(history), before, p, kind, kvs)
        decreases remaining
      {
        var k :| k in remaining;
        if k == "" { return false; }
        ok, pending := SetWithTTL(p, kind, k, kvs[k], pending, old(history), before, kvs);
        if !ok { return; }
        remaining := remaining - {k};
      }
      ok := CommitSets(p, kind, pending, old(history), before, kvs);
      if ok { FullSet(before, p, kind, kvs, stores); }
    }

    /** Deletes all keys, or reports an error after deleting some of them. */
    method BatchDeleteFromUniqueDB(p: Prefix, kind: Kind, keys: seq<string>) returns (ok: bool)
      modifies this
      ensures ok ==> stores == old(stores).Put(p, kind, old(stores).Get(p, kind) - (set k | k in keys))
      ensures DeletesSince(old(history), old(stores), p, kind, keys)
      ensures ok || mayFail
    {
      ghost var before := stores;
      var dbOpens := Opens();
      if !dbOpens { return false; }
      var pending: set<string> := {};
      for i := 0 to |keys|
        invariant forall key :: key in pending ==> key in keys
        invariant forall j :: 0 <= j < i ==> keys[j] !in stores.Get(p, kind) - pending
        invariant DeletesSince(old(history), before, p, kind, keys)
      {
        ok, pending := Delete(p, kind, keys[i], pending, old(history), before, keys);
        if !ok { return; }
      }
      CommitKeepsPartialDelete(before, p, kind, keys, stores, pending);
      ok := Commit(p, kind, stores.Get(p, kind) - pending);
      if ok { FullDelete(before, p, kind, keys, stores); }
    }

    /** The pairs stored under the given keys; missing and empty keys are skipped. None is a failed read. */
    method BatchGetFromUniqueDB(p: Prefix, kind: Kind, keys: seq<string>, fails: bool)
      returns (kvs: Option<map<string, string>>)
      ensures kvs.None? <==> fails
      ensures kvs.Some? ==> forall key :: Lookup(kvs.value, key) ==
                              if key in keys && key != "" then Lookup(stores.Get(p, kind), key) else None
    {
      if fails { return None; }
      var found: map<string, string> := map[];
      for i := 0 to |keys|
        invariant forall key :: Lookup(found, key) ==
                    if key in keys[..i] && key != "" then Lookup(stores.Get(p, kind), key) else None
      {
        assert keys[..i + 1] == keys[..i] + [keys[i]];
        if keys[i] != "" && keys[i] in stores.Get(p, kind) {
          found := found[keys[i] := stores.Get(p, kind)[keys[i]]];
        }
      }
      assert keys[..|keys|] == keys;
      return Some(found);
    }

    function ChunkIn(s: Stores, p: Prefix, key: string): ChunkData
      requires s.Holds(p, key)
    {
      ChunkUnder(s, p, genesisHash, key, addressOf, messageOf)
    }

    /** The chunks one store holds completely, in key order. */
    function ChunksIn(s: Stores, p: Prefix, keys: seq<string>): seq<ChunkData> {
      if keys == [] then [] else
        var rest, key := ChunksIn(s, p, keys[..|keys| - 1]), keys[|keys| - 1];
        if key != "" && s.Holds(p, key) then rest + [ChunkIn(s, p, key)] else rest
    }

    /** The chunk a reader of both stores is entitled to under `key`. */
    function ViewedChunk(s: Stores, key: string): Option<ChunkData> {
      match View(s, key)
      case None => None
      case Some((hash, raw)) =>
        Some(ChunkData(addressOf(hash), hash, messageOf(raw), raw, GetChunkIdxFromKey(key), genesisHash))
    }

    /** All chunks a reader is entitled to, in key order. */
    function ViewedChunks(s: Stores, keys: seq<string>): seq<ChunkData> {
      if keys == [] then [] else
        var rest, chunk := ViewedChunks(s, keys[..|keys| - 1]), ViewedChunk(s, keys[|keys| - 1]);
        if chunk.Some? then rest + [chunk.value] else rest
    }

    method GetBulkChunkData(p: Prefix, keys: seq<string>, fails: bool) returns (chunks: seq<ChunkData>)
      ensures chunks == if fails then [] else ChunksIn(stores, p, keys)
    {
      var hashes := BatchGetFromUniqueDB(p, Hash, keys, fails);
      var messages := BatchGetFromUniqueDB(p, Message, keys, fails);
      chunks := [];
      if hashes.None? || messages.None? { return; }
      for i := 0 to |keys|
        invariant chunks == ChunksIn(stores, p, keys[..i])
      {
        var key := keys[i];
        assert keys[..i + 1][..i] == keys[..i];
        assert Lookup(hashes.value, key) == if key != "" then Lookup(stores.Get(p, Hash), key) else None;
        assert Lookup(messages.value, key) == if key != "" then Lookup(stores.Get(p, Message), key) else None;
        if key in hashes.value && key in messages.value {
          var hash, raw := hashes.value[key], messages.value[key];
          chunks := chunks + [ChunkData(addressOf(hash), hash, messageOf(raw), raw, GetChunkIdxFromKey(key),
              genesisHash)];
        }
      }
      assert keys[..|keys|] == keys;
    }

    /** The key is one this upload would build for the index it ends in. */
    predicate Canonical(key: string) {
      key == GetBadgerKey(genesisHash, GetChunkIdxFromKey(key))
    }

    lemma {:induction false} ChunksInLength(s: Stores, p: Prefix, keys: seq<string>)
      requires forall key :: key in keys ==> key != ""
      ensures |ChunksIn(s, p, keys)| <= |keys|
      ensures |ChunksIn(s, p, keys)| == |keys| ==> forall key :: key in keys ==> s.Holds(p, key)
      ensures ChunksIn(s, p, keys) == [] ==> forall key :: key in keys ==> !s.Holds(p, key)
    {
      if keys != [] {
        var init, last := keys[..|keys| - 1], keys[|keys| - 1];
        assert keys == init + [last];
        assert forall key :: key in keys <==> key in init || key == last;
        ChunksInLength(s, p, init);
      }
    }

    lemma {:induction false} ChunksInMember(s: Stores, p: Prefix, keys: seq<string>, c: ChunkData)
      requires forall key :: key in keys ==> Canonical(key)
      requires c in ChunksIn(s, p, keys)
      ensures var key := GetBadgerKey(c.genesisHash, c.idx); key in keys && s.Holds(p, key) && c == ChunkIn(s, p, key)
    {
      var init, last := keys[..|keys| - 1], keys[|keys| - 1];
      assert keys == init + [last];
      assert last in keys && forall key :: key in init ==> key in keys;
      if c in ChunksIn(s, p, init) {
        ChunksInMember(s, p, init, c);
      } else {
        assert c == ChunkIn(s, p, last);
      }
    }

    lemma {:induction false} ChunksInHas(s: Stores, p: Prefix, keys: seq<string>, key: string)
      requires key in keys && key != "" && s.Holds(p, key)
      ensures ChunkIn(s, p, key) in ChunksIn(s, p, keys)
    {
      var init, last := keys[..|keys| - 1], keys[|keys| - 1];
      assert keys == init + [last];
      if key != last {
        ChunksInHas(s, p, init, key);
      }
    }

    /** When one store alone already holds every visible chunk, reading it is reading both. */
    lemma {:induction false} OneStoreSuffices(s: Stores, p: Prefix, keys: seq<string>)
      requires Agree(s)
      requires forall key :: key in keys ==> Canonical(key) && (View(s, key).Some? ==> s.Holds(p, key))
      ensures ChunksIn(s, p, keys) == ViewedChunks(s, keys)
    {
      if keys != [] {
        var init := keys[..|keys| - 1];
        assert keys == init + [keys[|keys| - 1]];
        AgreeView(s, keys[|keys| - 1]);
        OneStoreSuffices(s, p, init);
      }
    }

    /** A map from rebuilt keys to chunks; later chunks replace earlier ones. */
    static function Keyed(m: map<string, ChunkData>, chunks: seq<ChunkData>): map<string, ChunkData> {
      if chunks == [] then m else
        var c := chunks[|chunks| - 1];
        Keyed(m, chunks[..|chunks| - 1])[GetBadgerKey(c.genesisHash, c.idx) := c]
    }

    static function Picked(m: map<string, ChunkData>, keys: seq<string>): seq<ChunkData> {
      if keys == [] then [] else
        var rest, key := Picked(m, keys[..|keys| - 1]), keys[|keys| - 1];
        if key in m then rest + [m[key]] else rest
    }

    static function Reassembled(inProgress: seq<ChunkData>, complete: seq<ChunkData>,
            keys: seq<string>): seq<ChunkData> {
      if inProgress == [] then complete
      else if complete == [] then inProgress
      else Picked(Keyed(Keyed(map[], inProgress), complete), keys)
    }

    static lemma {:induction false} KeyedHas(m: map<string, ChunkData>, chunks: seq<ChunkData>, key: string)
      ensures (key in m || exists c :: c in chunks && key == GetBadgerKey(c.genesisHash, c.idx)) ==>
          key in Keyed(m, chunks)
      ensures key in Keyed(m, chunks) ==>
                var c := Keyed(m, chunks)[key];
                (key in m && c == m[key]) || (c in chunks && key == GetBadgerKey(c.genesisHash, c.idx))
    {
      if chunks != [] {
        assert chunks == chunks[..|chunks| - 1] + [chunks[|chunks| - 1]];
        KeyedHas(m, chunks[..|chunks| - 1], key);
      }
    }

    static method KeyChunks(m: map<string, ChunkData>, chunks: seq<ChunkData>) returns (keyed: map<string, ChunkData>)
      ensures keyed == Keyed(m, chunks)
    {
      keyed := m;
      for i := 0 to |chunks|
        invariant keyed == Keyed(m, chunks[..i])
      {
        assert chunks[..i + 1][..i] == chunks[..i];
        keyed := keyed[GetBadgerKey(chunks[i].genesisHash, chunks[i].idx) := chunks[i]];
      }
      assert chunks[..|chunks|] == chunks;
    }

    method ReassembleChunks(inProgress: seq<ChunkData>, complete: seq<ChunkData>, keys: seq<string>)
      returns (chunks: seq<ChunkData>)
      ensures chunks == Reassembled(inProgress, complete, keys)
    {
      if |inProgress| == 0 { return complete; }
      if |complete| == 0 { return inProgress; }
      var keyed := KeyChunks(map[], inProgress);
      keyed := KeyChunks(keyed, complete);
      chunks := [];
      for i := 0 to |keys|
        invariant chunks == Picked(keyed, keys[..i])
      {
        assert keys[..i + 1][..i] == keys[..i];
        if keys[i] in keyed {
          chunks := chunks + [keyed[keys[i]]];
        }
      }
      assert keys[..|keys|] == keys;
    }

    lemma {:induction false} PickedIsView(s: Stores, m: map<string, ChunkData>, keys: seq<string>)
      requires forall key :: key in keys ==>
                 ViewedChunk(s, key) == if key in m then Some(m[key]) else None
      ensures Picked(m, keys) == ViewedChunks(s, keys)
    {
      if keys != [] {
        assert keys == keys[..|keys| - 1] + [keys[|keys| - 1]];
        PickedIsView(s, m, keys[..|keys| - 1]);
      }
    }

    lemma MergedKeyIsView(s: Stores, keys: seq<string>, key: string)
      requires Agree(s) && key in keys && forall k :: k in keys ==> Canonical(k)
      ensures var m := Keyed(Keyed(map[], ChunksIn(s, InProgress, keys)), ChunksIn(s, Completed, keys));
              ViewedChunk(s, key) == if key in m then Some(m[key]) else None
    {
      var a, b := ChunksIn(s, InProgress, keys), ChunksIn(s, Completed, keys);
      var m := Keyed(map[], a);
      AgreeView(s, key);
      KeyedHas(map[], a, key);
      KeyedHas(m, b, key);
      if s.Holds(InProgress, key) { ChunksInHas(s, InProgress, keys, key); }
      if s.Holds(Completed, key) { ChunksInHas(s, Completed, keys, key); }
      if key in Keyed(m, b) {
        var c := Keyed(m, b)[key];
        if c in b { ChunksInMember(s, Completed, keys, c); } else { ChunksInMember(s, InProgress, keys, c); }
      }
    }

    /** Merging what the two stores return is reading the view, even when the second read is skipped. */
    lemma CombinedRead(s: Stores, keys: seq<string>)
      requires Agree(s) && forall key :: key in keys ==> Canonical(key)
      ensures var a, b := ChunksIn(s, InProgress, keys), ChunksIn(s, Completed, keys);
              Reassembled(a, if |a| != |keys| then b else [], keys) == ViewedChunks(s, keys)
    {
      var a, b := ChunksIn(s, InProgress, keys), ChunksIn(s, Completed, keys);
      ChunksInLength(s, InProgress, keys);
      ChunksInLength(s, Completed, keys);
      forall key { AgreeView(s, key); }
      if |a| == |keys| || b == [] {
        OneStoreSuffices(s, InProgress, keys);
      } else if a == [] {
        OneStoreSuffices(s, Completed, keys);
      } else {
        forall key | key in keys { MergedKeyIsView(s, keys, key); }
        PickedIsView(s, Keyed(Keyed(map[], a), b), keys);
      }
    }

    /** What a bulk read of one store gives; a failed read is logged and counts as empty. */
    function ReadOf(s: Stores, p: Prefix, keys: seq<string>, fails: bool): seq<ChunkData> {
      if fails then [] else ChunksIn(s, p, keys)
    }

    /** The combined read. The completed store is asked only when the other did not give everything. */
    method GetMultiChunkDataFromAnyDB(keys: seq<string>, inFails: bool, doneFails: bool)
      returns (chunks: seq<ChunkData>)
      ensures var a := ReadOf(stores, InProgress, keys, inFails);
              var b := if |a| == |keys| then [] else ReadOf(stores, Completed, keys, doneFails);
              chunks == Reassembled(a, b, keys)
      ensures Agree(stores) && (forall key :: key in keys ==> Canonical(key)) && !inFails && !doneFails ==>
                chunks == ViewedChunks(stores, keys)
    {
      var inProgress := GetBulkChunkData(InProgress, keys, inFails);
      var complete := [];
      if |inProgress| != |keys| {
        complete := GetBulkChunkData(Completed, keys, doneFails);
      }
      chunks := ReassembleChunks(inProgress, complete, keys);
      if Agree(stores) && forall key :: key in keys ==> Canonical(key) { CombinedRead(stores, keys); }
    }

    /** Stores that look the same give the same combined read, in the same order. */
    lemma {:induction false} SameViewSameRead(s: Stores, t: Stores, keys: seq<string>)
      requires SameView(s, t)
      ensures ViewedChunks(s, keys) == ViewedChunks(t, keys)
    {
      if keys != [] {
        SameViewSameRead(s, t, keys[..|keys| - 1]);
        assert View(s, keys[|keys| - 1]) == View(t, keys[|keys| - 1]);
      }
    }

    /**
     * In every state committed since the history was `before` the stores agree; and if what is moved was
     * settled, no such state looks different from `s` to a reader.
     */
    ghost predicate UnseenSince(before: seq<Stores>, s: Stores, settled: bool)
      reads this
    {
      && Agree(stores) && (settled ==> SameView(s, stores))
      && before <= history
      && forall h :: |before| <= h < |history| ==> Agree(history[h]) && (settled ==> SameView(s, history[h]))
    }

    method CopyToCompleted(kind: Kind, kvs: map<string, string>,
                           ghost before: seq<Stores>, ghost s: Stores, ghost settled: bool)
      returns (ok: bool)
      requires UnseenSince(before, s, settled) && (settled ==> Settled(stores, kvs.Keys))
      requires forall key :: key in kvs ==> stores.Half(kind, key) == Some(kvs[key])
      modifies this
      ensures UnseenSince(before, s, settled) && Forward(old(stores), stores)
      ensures PartialSet(old(stores), Completed, kind, kvs, stores)
      ensures ok ==> stores == old(stores).Put(Completed, kind, old(stores).Get(Completed, kind) + kvs)
      ensures ok || mayFail || "" in kvs
    {
      ghost var t, ht := stores, history;
      ok := BatchSetToUniqueDB(Completed, kind, kvs);
      CopyUnseen(t, kind, kvs, stores);
      if settled { SameViewTrans(s, t, stores); }
      forall h | |ht| <= h < |history| ensures Agree(history[h]) && (settled ==> SameView(s, history[h])) {
        CopyUnseen(t, kind, kvs, history[h]);
        if settled { SameViewTrans(s, t, history[h]); }
      }
    }

    method DropFromInProgress(kind: Kind, keys: seq<string>,
                              ghost before: seq<Stores>, ghost s: Stores, ghost settled: bool)
      returns (ok: bool)
      requires UnseenSince(before, s, settled) && Covered(stores, keys)
      modifies this
      ensures UnseenSince(before, s, settled) && Covered(stores, keys) && Forward(old(stores), stores)
      ensures SameView(old(stores), stores)
      ensures PartialDelete(old(stores), InProgress, kind, keys, stores)
      ensures ok ==>
                stores == old(stores).Put(InProgress, kind, old(stores).Get(InProgress, kind) - (set k | k in keys))
      ensures ok || mayFail
    {
      ghost var t, ht := stores, history;
      ok := BatchDeleteFromUniqueDB(InProgress, kind, keys);
      DropUnseen(t, kind, keys, stores);
      if settled { SameViewTrans(s, t, stores); }
      forall h | |ht| <= h < |history| ensures Agree(history[h]) && (settled ==> SameView(s, history[h])) {
        DropUnseen(t, kind, keys, history[h]);
        if settled { SameViewTrans(s, t, history[h]); }
      }
    }

    function KeyOf(c: ChunkData): string {
      GetBadgerKey(genesisHash, c.idx)
    }

    function KeysOfChunks(chunks: seq<ChunkData>): set<string> {
      set c | c in chunks :: KeyOf(c)
    }

    /** The completed stores hold the chunk. */
    predicate Arrived(s: Stores, c: ChunkData) {
      && Lookup(s.Get(Completed, Hash), KeyOf(c)) == Some(c.hash)
      && Lookup(s.Get(Completed, Message), KeyOf(c)) == Some(c.rawMessage)
    }

    /** The in-progress stores hold nothing of the chunk. */
    predicate Departed(s: Stores, c: ChunkData) {
      KeyOf(c) !in s.Get(InProgress, Hash) && KeyOf(c) !in s.Get(InProgress, Message)
    }

    /** What the outcome of a move promises. */
    ghost predicate Delivered(s: Stores, c: ChunkData, outcome: MoveOutcome) {
      (outcome != Stayed ==> Arrived(s, c)) && (outcome == Moved ==> Departed(s, c))
    }

    lemma DeliveredStays(s: Stores, t: Stores, c: ChunkData, outcome: MoveOutcome)
      requires Forward(s, t) && Delivered(s, c, outcome)
      ensures Delivered(t, c, outcome)
    {
      var key := KeyOf(c);
      assert forall kind: Kind :: Keeps(s.Get(Completed, kind), t.Get(Completed, kind), key);
      assert forall kind: Kind :: Keeps(t.Get(InProgress, kind), s.Get(InProgress, kind), key);
    }

    /** Copies one half of a chunk. */
    method CopyHalf(kind: Kind, c: ChunkData, ghost before: seq<Stores>, ghost s: Stores, ghost moving: set<string>)
      returns (ok: bool)
      requires UnseenSince(before, s, true) && MovesOnly(s, stores, moving) && KeyOf(c) in moving
      requires View(s, KeyOf(c)) == Some((c.hash, c.rawMessage))
      modifies this
      ensures UnseenSince(before, s, true) && MovesOnly(s, stores, moving) && Forward(old(stores), stores)
      ensures ok ==>
        Lookup(stores.Get(Completed, kind), KeyOf(c)) == Some(if kind == Hash then c.hash else c.rawMessage)
      ensures ok || mayFail
    {
      var key := KeyOf(c);
      var kvs := map[key := if kind == Hash then c.hash else c.rawMessage];
      ghost var t := stores;
      assert View(stores, key) == View(s, key);
      SettledView(stores, key);
      ok := CopyToCompleted(kind, kvs, before, s, true);
      SetMovesOnly(s, t, kind, kvs, stores, moving);
    }

    method DropHalf(kind: Kind, c: ChunkData, ghost before: seq<Stores>, ghost s: Stores, ghost moving: set<string>)
      returns (ok: bool)
      requires UnseenSince(before, s, true) && MovesOnly(s, stores, moving) && KeyOf(c) in moving
      requires Arrived(stores, c)
      modifies this
      ensures UnseenSince(before, s, true) && MovesOnly(s, stores, moving) && Forward(old(stores), stores)
      ensures Arrived(stores, c)
      ensures ok ==> KeyOf(c) !in stores.Get(InProgress, kind)
      ensures ok || mayFail
    {
      ghost var t := stores;
      ok := DropFromInProgress(kind, [KeyOf(c)], before, s, true);
      DeleteMovesOnly(s, t, kind, [KeyOf(c)], stores, moving);
      DeliveredStays(t, stores, c, Copied);
    }

    /** Copies one chunk to the completed stores, message first, and drops it if both copies worked. */
    method MoveChunk(c: ChunkData, ghost before: seq<Stores>, ghost s: Stores, ghost moving: set<string>)
      returns (ghost outcome: MoveOutcome)
      requires UnseenSince(before, s, true) && MovesOnly(s, stores, moving) && KeyOf(c) in moving
      requires View(s, KeyOf(c)) == Some((c.hash, c.rawMessage))
      modifies this
      ensures UnseenSince(before, s, true) && MovesOnly(s, stores, moving) && Forward(old(stores), stores)
      ensures Delivered(stores, c, outcome) && (outcome == Moved || mayFail)
    {
      ghost var s0 := stores;
      outcome := Stayed;
      var okMessage := CopyHalf(Message, c, before, s, moving);
      ghost var s1 := stores;
      var okHash := CopyHalf(Hash, c, before, s, moving);
      ghost var s2 := stores;
      ForwardTrans(s0, s1, s2);
      assert Keeps(s1.Get(Completed, Message), s2.Get(Completed, Message), KeyOf(c));
      if okMessage && okHash {
        var droppedMessage := DropHalf(Message, c, before, s, moving);
        ghost var s3 := stores;
        var droppedHash := DropHalf(Hash, c, before, s, moving);
        ForwardTrans(s0, s2, s3);
        ForwardTrans(s0, s3, stores);
        assert Keeps(stores.Get(InProgress, Message), s3.Get(InProgress, Message), KeyOf(c));
        outcome := if droppedMessage && droppedHash then Moved else Copied;
      }
    }

    /** The outcome of every chunk, in order. Without failures every chunk has moved. */
    method MoveChunksToCompleted(chunks: seq<ChunkData>) returns (ghost outcomes: seq<MoveOutcome>)
      requires Agree(stores)
      requires forall c :: c in chunks ==> View(stores, KeyOf(c)) == Some((c.hash, c.rawMessage))
      modifies this
      ensures UnseenSince(old(history), old(stores), true)
      ensures MovesOnly(old(stores), stores, KeysOfChunks(chunks)) && Forward(old(stores), stores)
      ensures |outcomes| == |chunks|
      ensures forall k :: 0 <= k < |chunks| ==> Delivered(stores, chunks[k], outcomes[k])
      ensures !mayFail ==> forall k :: 0 <= k < |chunks| ==> outcomes[k] == Moved
    {
      ghost var s := stores;
      ghost var moving := KeysOfChunks(chunks);
      outcomes := [];
      for i := 0 to |chunks|
        invariant UnseenSince(old(history), s, true)
        invariant MovesOnly(s, stores, moving) && Forward(s, stores)
        invariant |outcomes| == i
        invariant forall k :: 0 <= k < i ==> Delivered(stores, chunks[k], outcomes[k])
        invariant !mayFail ==> forall k :: 0 <= k < i ==> outcomes[k] == Moved
      {
        assert chunks[i] in chunks;
        ghost var t := stores;
        ghost var outcome := MoveChunk(chunks[i], old(history), s, moving);
        ForwardTrans(s, t, stores);
        forall k | 0 <= k < i ensures Delivered(stores, chunks[k], outcomes[k]) {
          DeliveredStays(t, stores, chunks[k], outcomes[k]);
        }
        outcomes := outcomes + [outcome];
      }
    }

    lemma WindowCovered(s: Stores, t: Stores, keys: seq<string>, hashes: map<string, string>,
                        messages: map<string, string>, u: Stores)
      requires MoveOnTrack(s, t) && WindowRead(t, Hash, keys, hashes) && WindowRead(t, Message, keys, messages)
      requires u == t.Put(Completed, Message, t.Get(Completed, Message) + messages)
                     .Put(Completed, Hash, t.Get(Completed, Hash) + hashes)
      ensures Covered(u, keys) && MovedAll(s, u, keys)
      ensures forall ks :: MovedAll(s, t, ks) ==> MovedAll(s, u, ks)
      ensures forall ks :: DroppedAll(t, ks) ==> DroppedAll(u, ks)
    {
      forall kind: Kind, key
        ensures u.Get(InProgress, kind) == t.Get(InProgress, kind)
        ensures key in keys && key in u.Get(InProgress, kind) ==> key in u.Get(Completed, kind)
        ensures key in keys ==> Lookup(u.Get(Completed, kind), key) == MoveTarget(s, kind, key)
        ensures key !in keys ==> Lookup(u.Get(Completed, kind), key) == Lookup(t.Get(Completed, kind), key)
      {
        var kvs := if kind == Hash then hashes else messages;
        assert u.Get(Completed, kind) == t.Get(Completed, kind) + kvs;
        assert Lookup(kvs, key) == if key in keys then Lookup(t.Get(InProgress, kind), key) else None;
        if key in keys { CopyReachesTarget(s, t, kind, keys, kvs, key); }
      }
      forall ks | MovedAll(s, t, ks) ensures MovedAll(s, u, ks) {
        forall kind: Kind, key | key in ks
          ensures Lookup(u.Get(Completed, kind), key) == MoveTarget(s, kind, key)
        {
          assert Lookup(t.Get(Completed, kind), key) == MoveTarget(s, kind, key);
        }
      }
    }

    /** One window of the big move: copy what is in progress under `keys`, then drop it. */
    method MoveWindow(keys: seq<string>, ghost before: seq<Stores>, ghost s: Stores, ghost moving: set<string>,
                      ghost settled: bool) returns (ok: bool, dropped: bool)
      requires UnseenSince(before, s, settled) && MoveOnTrack(s, stores) && MovesOnly(s, stores, moving)
      requires Agree(s) && (settled ==> Settled(s, moving))
      requires forall key :: key in keys ==> key != "" && key in moving
      modifies this
      ensures UnseenSince(before, s, settled) && MoveOnTrack(s, stores) && MovesOnly(s, stores, moving)
      ensures ok ==> MovedAll(s, stores, keys) && (dropped ==> DroppedAll(stores, keys))
      ensures ok ==> forall ks :: MovedAll(s, old(stores), ks) ==> MovedAll(s, stores, ks)
      ensures ok ==> forall ks :: DroppedAll(old(stores), ks) ==> DroppedAll(stores, ks)
      ensures (ok && dropped) || mayFail
    {
      ok, dropped := false, false;
      var opens := Opens();
      var messages := BatchGetFromUniqueDB(InProgress, Message, keys, !opens);
      if messages.None? { return; }
      opens := Opens();
      var hashes := BatchGetFromUniqueDB(InProgress, Hash, keys, !opens);
      if hashes.None? { return; }
      ghost var t := stores;
      assert WindowRead(t, Message, keys, messages.value) && WindowRead(t, Hash, keys, hashes.value);
      var copied := CopyWindow(Message, keys, messages.value, before, s, moving, settled);
      if !copied { return; }
      copied := CopyWindow(Hash, keys, hashes.value, before, s, moving, settled);
      if !copied { return; }
      WindowCovered(s, t, keys, hashes.value, messages.value, stores);
      var droppedMessages := DropWindow(Message, keys, before, s, moving, settled);
      var droppedHashes := DropWindow(Hash, keys, before, s, moving, settled);
      ok, dropped := true, droppedMessages && droppedHashes;
    }

    method CopyWindow(kind: Kind, keys: seq<string>, kvs: map<string, string>,
                      ghost before: seq<Stores>, ghost s: Stores, ghost moving: set<string>, ghost settled: bool)
      returns (ok: bool)
      requires UnseenSince(before, s, settled) && MoveOnTrack(s, stores) && MovesOnly(s, stores, moving)
      requires Agree(s) && (settled ==> Settled(s, moving))
      requires WindowRead(stores, kind, keys, kvs) && forall key :: key in keys ==> key != "" && key in moving
      modifies this
      ensures UnseenSince(before, s, settled) && MoveOnTrack(s, stores) && MovesOnly(s, stores, moving)
      ensures ok || mayFail
      ensures ok ==> stores == old(stores).Put(Completed, kind, old(stores).Get(Completed, kind) + kvs)
    {
      ghost var t := stores;
      forall key | key in kvs ensures key in keys && stores.Half(kind, key) == Some(kvs[key]) {
        assert Lookup(kvs, key) == if key in keys then Lookup(stores.Get(InProgress, kind), key) else None;
      }
      if settled { StaysSettled(s, t, moving); }
      ok := CopyToCompleted(kind, kvs, before, s, settled);
      CopyOnTrack(s, t, kind, keys, kvs, stores);
      SetMovesOnly(s, t, kind, kvs, stores, moving);
    }

    method DropWindow(kind: Kind, keys: seq<string>, ghost before: seq<Stores>, ghost s: Stores,
                      ghost moving: set<string>, ghost settled: bool) returns (ok: bool)
      requires UnseenSince(before, s, settled) && MoveOnTrack(s, stores) && MovesOnly(s, stores, moving)
      requires Covered(stores, keys) && MovedAll(s, stores, keys) && forall key :: key in keys ==> key in moving
      modifies this
      ensures UnseenSince(before, s, settled) && MoveOnTrack(s, stores) && MovesOnly(s, stores, moving)
      ensures Covered(stores, keys)
      ensures ok || mayFail
      ensures PartialDelete(old(stores), InProgress, kind, keys, stores)
      ensures forall ks :: MovedAll(s, old(stores), ks) ==> MovedAll(s, stores, ks)
      ensures forall ks :: DroppedAll(old(stores), ks) ==> DroppedAll(stores, ks)
      ensures ok ==> forall key :: key in keys ==> key !in stores.Get(InProgress, kind)
    {
      ghost var t := stores;
      ok := DropFromInProgress(kind, keys, before, s, settled);
      DropOnTrack(s, t, kind, keys, stores);
      DeleteMovesOnly(s, t, kind, keys, stores, moving);
    }

    /** The keys of the chunks 0 .. n-1. */
    function FirstKeys(n: nat): (keys: seq<string>)
      ensures |keys| == n && forall j :: 0 <= j < n ==> keys[j] == GetBadgerKey(genesisHash, j)
    {
      KeysOf(genesisHash, seq(n, j => j))
    }

    function AllKeys(n: nat): (keys: set<string>)
      ensures forall key :: key in keys <==> key in FirstKeys(n)
    {
      set key | key in FirstKeys(n)
    }

    /** The chunks 0 .. upto-1 have been copied, and dropped if every delete worked so far. */
    ghost predicate MovedUpTo(s: Stores, t: Stores, upto: nat, dropped: bool) {
      MovedAll(s, t, FirstKeys(upto)) && (dropped ==> DroppedAll(t, FirstKeys(upto)))
    }

    /** The window from `i` to `stop`, after the chunks below `upto` were moved. */
    method MoveUpTo(n: nat, i: nat, stop: nat, ghost upto: nat, droppedSoFar: bool, ghost before: seq<Stores>,
                    ghost s: Stores, ghost settled: bool) returns (ok: bool, dropped: bool)
      requires i <= upto && i <= stop < n && Agree(s) && (settled ==> Settled(s, AllKeys(n)))
      requires UnseenSince(before, s, settled) && MoveOnTrack(s, stores) && MovesOnly(s, stores, AllKeys(n))
      requires MovedUpTo(s, stores, upto, droppedSoFar)
      modifies this
      ensures UnseenSince(before, s, settled) && MoveOnTrack(s, stores) && MovesOnly(s, stores, AllKeys(n))
      ensures ok ==> MovedUpTo(s, stores, if stop + 1 > upto then stop + 1 else upto, dropped)
      ensures mayFail || (ok && (droppedSoFar ==> dropped))
    {
      var keys := GenerateBulkKeys(genesisHash, i, stop);
      WindowJoins(n, upto, i, stop, keys);
      ok, dropped := MoveWindow(keys, before, s, AllKeys(n), settled);
      if ok {
        ghost var next := if stop + 1 > upto then stop + 1 else upto;
        MovedAllJoin(s, stores, FirstKeys(upto), keys, FirstKeys(next));
        dropped := droppedSoFar && dropped;
        if dropped { DroppedAllJoin(stores, FirstKeys(upto), keys, FirstKeys(next)); }
      }
    }

    /**
     Moves all chunks of a session in windows that share an end. `dropped` reports whether every
     delete worked; the job itself ignores that. Without failures everything is moved and dropped. A
     finished move changes no reader's answer exactly when no chunk it moves was split between the
     stores, and then no reader noticed on the way either.
     */
    method MoveAllChunksToCompleted(numChunks: nat) returns (ok: bool, dropped: bool)
      requires Agree(stores)
      modifies this
      ensures UnseenSince(old(history), old(stores), Settled(old(stores), AllKeys(numChunks)))
      ensures !mayFail ==> ok && dropped
      ensures ok ==> (SameView(old(stores), stores) <==> Settled(old(stores), AllKeys(numChunks)))
      ensures MoveOnTrack(old(stores), stores) && MovesOnly(old(stores), stores, AllKeys(numChunks))
      ensures ok ==> forall kind: Kind ::
                stores.Get(Completed, kind) ==
                old(stores).Get(Completed, kind) + EntriesUnder(old(stores), kind, FirstKeys(numChunks))
      ensures ok && dropped ==> forall kind: Kind ::
                stores.Get(InProgress, kind) == old(stores).Get(InProgress, kind) - AllKeys(numChunks)
    {
      ghost var s, settled := stores, Settled(stores, AllKeys(numChunks));
      ok, dropped := true, true;
      var i := 0;
      ghost var upto: nat := 0;
      while i <= numChunks - 1
        invariant 0 <= i <= upto <= numChunks && ok
        invariant UnseenSince(old(history), s, settled)
        invariant MoveOnTrack(s, stores) && MovesOnly(s, stores, AllKeys(numChunks))
        invariant MovedUpTo(s, stores, upto, dropped)
        invariant dropped || mayFail
        decreases numChunks - i
      {
        var stop := i + MAX_BADGER_INSERTIONS;
        if stop > numChunks - 1 { stop := numChunks - 1; }
        ok, dropped := MoveUpTo(numChunks, i, stop, upto, dropped, old(history), s, settled);
        if !ok { return; }
        upto := if stop + 1 > upto then stop + 1 else upto;
        if i == numChunks - 1 { break; }
        i := i + MAX_BADGER_INSERTIONS;
        if i > numChunks - 1 { i := numChunks - 1; }
      }
      assert upto == numChunks;
      FinishedAll(s, stores, upto, dropped);
    }

    lemma FinishedAll(s: Stores, t: Stores, n: nat, dropped: bool)
      requires Agree(s) && Agree(t) && MoveOnTrack(s, t) && MovesOnly(s, t, AllKeys(n)) && MovedUpTo(s, t, n, dropped)
      ensures SameView(s, t) <==> Settled(s, AllKeys(n))
      ensures forall kind: Kind ::
                t.Get(Completed, kind) == s.Get(Completed, kind) + EntriesUnder(s, kind, FirstKeys(n))
      ensures dropped ==> forall kind: Kind :: t.Get(InProgress, kind) == s.Get(InProgress, kind) - AllKeys(n)
    {
      forall kind: Kind
        ensures t.Get(Completed, kind) == s.Get(Completed, kind) + EntriesUnder(s, kind, FirstKeys(n))
        ensures dropped ==> t.Get(InProgress, kind) == s.Get(InProgress, kind) - AllKeys(n)
      {
        FinishedMove(s, t, FirstKeys(n), AllKeys(n), kind);
      }
      FinishedMoveUnseenIff(s, t, FirstKeys(n), AllKeys(n));
    }

    lemma WindowJoins(n: nat, upto: nat, i: nat, stop: nat, keys: seq<string>)
      requires i <= upto && i <= stop < n && keys == KeysOf(genesisHash, IdxRange(i, stop))
      ensures forall key :: key in FirstKeys(if stop + 1 > upto then stop + 1 else upto) ==>
                key in FirstKeys(upto) || key in keys
      ensures forall key :: key in keys ==> key != "" && key in FirstKeys(n)
    {
      var top := if stop + 1 > upto then stop + 1 else upto;
      forall key | key in FirstKeys(top) ensures key in FirstKeys(upto) || key in keys {
        var j :| 0 <= j < top && FirstKeys(top)[j] == key;
        if j < upto { assert FirstKeys(upto)[j] == key; } else { assert keys[j - i] == key; }
      }
      forall key | key in keys ensures key != "" && key in FirstKeys(n) {
        var k :| 0 <= k < |keys| && keys[k] == key;
        assert FirstKeys(n)[i + k] == key;
      }
    }
  }
}
