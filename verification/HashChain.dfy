/** The hash chain that addresses the chunks of a file, with the hash functions left abstract. */
module HashChain {
  import opened Core
  import opened BadgerKeys
  import opened ChunkStores
  import opened ChunkDatabase

  /** How a build ends: all links stored, no database, or a panic because the last write failed. */
  datatype BuildOutcome = Built | NoDatabase | Panicked

  /** The `n`-fold hash of the genesis hash. */
  function Chain(h: string -> string, genesis: string, n: nat): string {
    if n == 0 then genesis else h(Chain(h, genesis, n - 1))
  }

  /** The entries a complete hash store of `n` chunks has. */
  function ChainEntries(h: string -> string, genesis: string, n: nat): map<string, string> {
    if n == 0 then map[]
    else ChainEntries(h, genesis, n - 1)[GetBadgerKey(genesis, n - 1) := Chain(h, genesis, n - 1)]
  }

  lemma {:induction false} ChainEntryAt(h: string -> string, genesis: string, n: nat, i: nat)
    requires i < n
    ensures Lookup(ChainEntries(h, genesis, n), GetBadgerKey(genesis, i)) == Some(Chain(h, genesis, i))
  {
    if i < n - 1 {
      ChainEntryAt(h, genesis, n - 1, i);
      if GetBadgerKey(genesis, i) == GetBadgerKey(genesis, n - 1) { KeyInjective(genesis, i, n - 1); }
    }
  }

  lemma {:induction false} ChainEntryKey(h: string -> string, genesis: string, n: nat, key: string)
    requires key in ChainEntries(h, genesis, n)
    ensures exists i :: 0 <= i < n && key == GetBadgerKey(genesis, i)
  {
    if key != GetBadgerKey(genesis, n - 1) { ChainEntryKey(h, genesis, n - 1, key); }
  }

  /** Two partial writes of parts of the same update are one. */
  lemma PartialSetTrans(s: Stores, t: Stores, u: Stores, kind: Kind,
                        all: map<string, string>, some: map<string, string>)
    requires PartialSet(s, InProgress, kind, all, t) && PartialSet(t, InProgress, kind, some, u)
    requires forall key :: key in some ==> key in all && all[key] == some[key]
    ensures PartialSet(s, InProgress, kind, all, u)
  {
    forall key
      ensures Lookup(u.Get(InProgress, kind), key) == Lookup(s.Get(InProgress, kind), key)
              || (key in all && Lookup(u.Get(InProgress, kind), key) == Some(all[key]))
    {
      assert Lookup(u.Get(InProgress, kind), key) == Lookup(t.Get(InProgress, kind), key)
             || (key in some && Lookup(u.Get(InProgress, kind), key) == Some(some[key]));
      assert Lookup(t.Get(InProgress, kind), key) == Lookup(s.Get(InProgress, kind), key)
             || (key in all && Lookup(t.Get(InProgress, kind), key) == Some(all[key]));
    }
  }

  /** The first `n` links are all either stored or waiting to be written. */
  ghost predicate StoredOrPending(stored: map<string, string>, pending: map<string, string>, h: string -> string,
                                  genesis: string, n: nat)
  {
    forall j :: 0 <= j < n ==> Lookup(stored + pending, GetBadgerKey(genesis, j)) == Some(Chain(h, genesis, j))
  }

  lemma NextLinkPending(stored: map<string, string>, pending: map<string, string>, h: string -> string,
                        genesis: string, n: nat)
    requires StoredOrPending(stored, pending, h, genesis, n)
    ensures StoredOrPending(stored, pending[GetBadgerKey(genesis, n) := Chain(h, genesis, n)], h, genesis, n + 1)
  {
    var key := GetBadgerKey(genesis, n);
    forall j | 0 <= j < n + 1
      ensures Lookup(stored + pending[key := Chain(h, genesis, n)], GetBadgerKey(genesis, j))
           == Some(Chain(h, genesis, j))
    {
      if j < n {
        assert Lookup(stored + pending, GetBadgerKey(genesis, j)) == Some(Chain(h, genesis, j));
        if GetBadgerKey(genesis, j) == key { KeyInjective(genesis, j, n); }
      }
    }
  }

  /** Tries to write the pending links. A failed write loses nothing, because its pairs stay pending. */
  method Flush(db: ChunkDb, kvPairs: map<string, string>, ghost h: string -> string, ghost s: Stores,
               ghost all: map<string, string>, ghost n: nat) returns (ok: bool)
    requires PartialSet(s, InProgress, Hash, all, db.stores)
    requires forall key :: key in kvPairs ==> key in all && all[key] == kvPairs[key]
    requires StoredOrPending(db.stores.Get(InProgress, Hash), kvPairs, h, db.genesisHash, n)
    modifies db
    ensures PartialSet(s, InProgress, Hash, all, db.stores)
    ensures StoredOrPending(db.stores.Get(InProgress, Hash), if ok then map[] else kvPairs, h, db.genesisHash, n)
  {
    ghost var t := db.stores;
    ok := db.BatchSetToUniqueDB(InProgress, Hash, kvPairs);
    PartialSetTrans(s, t, db.stores, Hash, all, kvPairs);
    forall j | 0 <= j < n
      ensures var key := GetBadgerKey(db.genesisHash, j);
              Lookup(db.stores.Get(InProgress, Hash) + if ok then map[] else kvPairs, key) ==
              Some(Chain(h, db.genesisHash, j))
    {
      var key := GetBadgerKey(db.genesisHash, j);
      assert Lookup(t.Get(InProgress, Hash) + kvPairs, key) == Some(Chain(h, db.genesisHash, j));
      assert Lookup(db.stores.Get(InProgress, Hash), key) == Lookup(t.Get(InProgress, Hash), key)
             || (key in kvPairs && Lookup(db.stores.Get(InProgress, Hash), key) == Some(kvPairs[key]));
    }
  }

  /** All links are stored and nothing else changed. */
  lemma ChainStored(s: Stores, t: Stores, h: string -> string, genesis: string, n: nat)
    requires PartialSet(s, InProgress, Hash, ChainEntries(h, genesis, n), t)
    requires StoredOrPending(t.Get(InProgress, Hash), map[], h, genesis, n)
    ensures t == s.Put(InProgress, Hash, s.Get(InProgress, Hash) + ChainEntries(h, genesis, n))
  {
    var all := ChainEntries(h, genesis, n);
    forall key | key in all ensures Lookup(t.Get(InProgress, Hash), key) == Some(all[key]) {
      ChainEntryKey(h, genesis, n, key);
      var j :| 0 <= j < n && key == GetBadgerKey(genesis, j);
      ChainEntryAt(h, genesis, n, j);
      assert t.Get(InProgress, Hash) + map[] == t.Get(InProgress, Hash);
      assert Lookup(t.Get(InProgress, Hash) + map[], key) == Some(Chain(h, genesis, j));
    }
    FullSet(s, InProgress, Hash, all, t);
  }

  ghost predicate NothingCompleted(s: Stores, keys: set<string>) {
    forall kind: Kind, key :: key in keys ==> key !in s.Get(Completed, kind)
  }

  /** However much of the chain was stored, no chunk of a file that is not completed anywhere is split. */
  lemma ChainKeepsSettled(db: ChunkDb, h: string -> string, n: nat, s: Stores, t: Stores)
    requires Agree(s) && NothingCompleted(s, db.AllKeys(n))
    requires PartialSet(s, InProgress, Hash, ChainEntries(h, db.genesisHash, n), t)
    ensures Agree(t) && Settled(t, db.AllKeys(n))
  {
    var all := ChainEntries(h, db.genesisHash, n);
    forall key | key in all ensures key in db.AllKeys(n) {
      ChainEntryKey(h, db.genesisHash, n, key);
      var j :| 0 <= j < n && key == GetBadgerKey(db.genesisHash, j);
      assert db.FirstKeys(n)[j] == key;
    }
    FillingKeepsSettled(s, Hash, all, t, db.AllKeys(n));
  }

  /** GetHashData: a missing entry reads as the empty string. */
  function HashData(s: Stores, p: Prefix, genesis: string, idx: int): string {
    var key := GetBadgerKey(genesis, idx);
    if key in s.Get(p, Hash) then s.Get(p, Hash)[key] else ""
  }

  /** No hash can be read from the completed store but those of the chunks 0 .. n-1. */
  ghost predicate HashedInside(s: Stores, genesis: string, n: nat) {
    forall i :: HashData(s, Completed, genesis, i) != "" ==> 0 <= i < n
  }

  /** A new database has no hashes at all. */
  lemma NewIsInside(genesis: string, n: nat)
    ensures HashedInside(Stores(map[], map[], map[], map[]), genesis, n)
  {
    assert Stores(map[], map[], map[], map[]).Get(Completed, Hash) == map[];
  }

  /** Filling an in-progress store does not touch the completed hashes. */
  lemma FillingKeepsInside(s: Stores, kind: Kind, kvs: map<string, string>, t: Stores, genesis: string, n: nat)
    requires PartialSet(s, InProgress, kind, kvs, t) && HashedInside(s, genesis, n)
    ensures HashedInside(t, genesis, n)
  {
    assert t.Get(Completed, Hash) == s.Get(Completed, Hash);
    forall i | HashData(t, Completed, genesis, i) != "" ensures 0 <= i < n {
      assert HashData(s, Completed, genesis, i) != "";
    }
  }

  /** A move of chunks of the file, whole or broken off, completes no hash outside the file. */
  lemma MovingKeepsInside(s: Stores, t: Stores, keys: set<string>, genesis: string, n: nat)
    requires MovesOnly(s, t, keys) && HashedInside(s, genesis, n)
    requires forall i :: GetBadgerKey(genesis, i) in keys ==> 0 <= i < n
    ensures HashedInside(t, genesis, n)
  {
    forall i | HashData(t, Completed, genesis, i) != "" ensures 0 <= i < n {
      var key := GetBadgerKey(genesis, i);
      if key !in keys {
        assert Lookup(t.Get(Completed, Hash), key) == Lookup(s.Get(Completed, Hash), key);
        assert HashData(s, Completed, genesis, i) != "";
      }
    }
  }

  /** Stores the chain in batches; a batch that cannot be written stays pending and is tried again. */
  method BuildDataMapsForSession(db: ChunkDb, h: string -> string, numChunks: nat) returns (outcome: BuildOutcome)
    modifies db
    ensures outcome.Built? ==>
              db.stores == old(db.stores).Put(InProgress, Hash,
                old(db.stores).Get(InProgress, Hash) + ChainEntries(h, db.genesisHash, numChunks))
    ensures PartialSet(old(db.stores), InProgress, Hash, ChainEntries(h, db.genesisHash, numChunks), db.stores)
    ensures Agree(old(db.stores)) && NothingCompleted(old(db.stores), db.AllKeys(numChunks)) ==>
              Agree(db.stores) && Settled(db.stores, db.AllKeys(numChunks))
    ensures HashedInside(old(db.stores), db.genesisHash, numChunks) ==>
              HashedInside(db.stores, db.genesisHash, numChunks)
  {
    var g := db.genesisHash;
    ghost var s, all := db.stores, ChainEntries(h, g, numChunks);
    var dbOpens: bool := *;
    if !dbOpens {
      if Agree(s) && NothingCompleted(s, db.AllKeys(numChunks)) { ChainKeepsSettled(db, h, numChunks, s, s); }
      return NoDatabase;
    }
    var currHash, insertionCount := g, 0;
    var kvPairs: map<string, string> := map[];
    for i := 0 to numChunks
      invariant currHash == Chain(h, g, i)
      invariant forall key :: key in kvPairs ==> key in all && all[key] == kvPairs[key]
      invariant StoredOrPending(db.stores.Get(InProgress, Hash), kvPairs, h, g, i)
      invariant PartialSet(s, InProgress, Hash, all, db.stores)
    {
      ChainEntryAt(h, g, numChunks, i);
      NextLinkPending(db.stores.Get(InProgress, Hash), kvPairs, h, g, i);
      kvPairs := kvPairs[GetBadgerKey(g, i) := currHash];
      currHash := h(currHash);
      insertionCount := insertionCount + 1;
      if insertionCount >= MAX_BADGER_INSERTIONS {
        var ok := Flush(db, kvPairs, h, s, all, i + 1);
        if ok { insertionCount, kvPairs := 0, map[]; }
      }
    }
    outcome := Built;
    if |kvPairs| > 0 {
      var ok := Flush(db, kvPairs, h, s, all, numChunks);
      if !ok { outcome := Panicked; }
    } else {
      assert kvPairs == map[];
    }
    if outcome.Built? { ChainStored(s, db.stores, h, g, numChunks); }
    if HashedInside(s, g, numChunks) { FillingKeepsInside(s, Hash, all, db.stores, g, numChunks); }
    if Agree(s) && NothingCompleted(s, db.AllKeys(numChunks)) { ChainKeepsSettled(db, h, numChunks, s, db.stores); }
  }

  /** GetTreasureAddress: one hash beyond the chunk in front of the treasure. */
  function TreasureAddress(s: Stores, p: Prefix, h: string -> string, addressOf: string -> string,
                           genesis: string, idx: int): string {
    addressOf(if idx == 0 then genesis else h(HashData(s, p, genesis, idx - 1)))
  }

  /** The addresses of the chunks from the start of a sector on. */
  ghost predicate IsSectorMap(h: string -> string, addressOf: string -> string, genesis: string, sectorSize: nat,
                              sectorIdx: nat, addr: seq<string>)
  {
    forall j :: 0 <= j < |addr| ==> addr[j] == addressOf(Chain(h, genesis, sectorIdx * sectorSize + j))
  }

  method ComputeSectorDataMapAddress(h: string -> string, addressOf: string -> string, genesis: string,
                                     sectorSize: nat, sectorIdx: nat, maxNumOfHashes: nat) returns (addr: seq<string>)
    ensures |addr| == maxNumOfHashes && IsSectorMap(h, addressOf, genesis, sectorSize, sectorIdx, addr)
  {
    addr := [];
    var currHash := genesis;
    for i := 0 to sectorIdx * sectorSize
      invariant currHash == Chain(h, genesis, i)
    {
      currHash := h(currHash);
    }
    for i := 0 to maxNumOfHashes
      invariant |addr| == i && currHash == Chain(h, genesis, sectorIdx * sectorSize + i)
      invariant forall j :: 0 <= j < i ==> addr[j] == addressOf(Chain(h, genesis, sectorIdx * sectorSize + j))
    {
      addr := addr + [addressOf(currHash)];
      currHash := h(currHash);
    }
  }

  /** In a store with the whole chain, a treasure at `i` and the chunk read at `i` have the chain's address. */
  lemma StoredAddresses(s: Stores, p: Prefix, h: string -> string, addressOf: string -> string,
                        messageOf: string -> string, genesis: string, numChunks: nat, i: nat)
    requires i < numChunks
    requires forall j :: 0 <= j < numChunks ==>
               Lookup(s.Get(p, Hash), GetBadgerKey(genesis, j)) == Some(Chain(h, genesis, j))
    ensures TreasureAddress(s, p, h, addressOf, genesis, i) == addressOf(Chain(h, genesis, i))
    ensures s.Holds(p, GetBadgerKey(genesis, i)) ==>
              var c := ChunkUnder(s, p, genesis, GetBadgerKey(genesis, i), addressOf, messageOf);
              c.address == addressOf(Chain(h, genesis, i)) && c.idx == i
  {
    KeyRoundTrip(genesis, i);
    assert Lookup(s.Get(p, Hash), GetBadgerKey(genesis, i)) == Some(Chain(h, genesis, i));
    if i > 0 {
      assert Lookup(s.Get(p, Hash), GetBadgerKey(genesis, i - 1)) == Some(Chain(h, genesis, i - 1));
    }
  }

  /**
   * Once a build has succeeded, which is the first requirement, the sector map that webnodes are given, the
   * address a treasure is buried at and the address of the chunk read back are the same at every index.
   */
  lemma {:induction false} AddressesAgree(s: Stores, t: Stores, h: string -> string, addressOf: string -> string,
                                          messageOf: string -> string, genesis: string, numChunks: nat,
                                          sectorSize: nat, sectorIdx: nat, addr: seq<string>, j: nat, i: nat)
    requires t == s.Put(InProgress, Hash, s.Get(InProgress, Hash) + ChainEntries(h, genesis, numChunks))
    requires IsSectorMap(h, addressOf, genesis, sectorSize, sectorIdx, addr) && j < |addr|
    requires i == sectorIdx * sectorSize + j < numChunks
    ensures var key := GetBadgerKey(genesis, i);
            && TreasureAddress(t, InProgress, h, addressOf, genesis, i) == addr[j]
            && (key in t.Get(InProgress, Message) ==>
                  t.Holds(InProgress, key)
                  && ChunkUnder(t, InProgress, genesis, key, addressOf, messageOf).address == addr[j])
  {
    forall k | 0 <= k < numChunks
      ensures Lookup(t.Get(InProgress, Hash), GetBadgerKey(genesis, k)) == Some(Chain(h, genesis, k))
    {
      ChainEntryAt(h, genesis, numChunks, k);
    }
    StoredAddresses(t, InProgress, h, addressOf, messageOf, genesis, numChunks, i);
  }
}
