/** The four key-value stores of one upload: hashes and messages, in progress and completed. */
module ChunkStores {
  import opened Core
  import opened BadgerKeys

  datatype Prefix = InProgress | Completed

  datatype Kind = Hash | Message

  datatype Stores = Stores(
    inHash: map<string, string>, inMessage: map<string, string>,
    doneHash: map<string, string>, doneMessage: map<string, string>)
  {
    function Get(p: Prefix, kind: Kind): map<string, string> {
      match (p, kind)
      case (InProgress, Hash) => inHash
      case (InProgress, Message) => inMessage
      case (Completed, Hash) => doneHash
      case (Completed, Message) => doneMessage
    }

    function Put(p: Prefix, kind: Kind, m: map<string, string>): (t: Stores)
      ensures t.Get(p, kind) == m
      ensures forall q: Prefix, k: Kind :: (q, k) != (p, kind) ==> t.Get(q, k) == Get(q, k)
    {
      match (p, kind)
      case (InProgress, Hash) => this.(inHash := m)
      case (InProgress, Message) => this.(inMessage := m)
      case (Completed, Hash) => this.(doneHash := m)
      case (Completed, Message) => this.(doneMessage := m)
    }

    predicate Holds(p: Prefix, key: string) {
      key in Get(p, Hash) && key in Get(p, Message)
    }

    /** The hash or message of a chunk, wherever it is kept. */
    function Half(kind: Kind, key: string): Option<string> {
      if key in Get(InProgress, kind) then Some(Get(InProgress, kind)[key])
      else Lookup(Get(Completed, kind), key)
    }
  }

  function Lookup(m: map<string, string>, key: string): Option<string> {
    if key in m then Some(m[key]) else None
  }

  /** The two stores agree wherever both hold a key. */
  ghost predicate Agree(s: Stores) {
    forall kind: Kind, key :: key in s.Get(InProgress, kind) && key in s.Get(Completed, kind) ==>
      s.Get(InProgress, kind)[key] == s.Get(Completed, kind)[key]
  }

  /** The chunk does not have its hash in one store and its message only in the other. */
  predicate SettledAt(s: Stores, key: string) {
    s.Half(Hash, key).Some? && s.Half(Message, key).Some? ==> s.Holds(InProgress, key) || s.Holds(Completed, key)
  }

  ghost predicate Settled(s: Stores, keys: set<string>) {
    forall key :: key in keys ==> SettledAt(s, key)
  }

  /** What a reader of both stores finds under `key`: a chunk counts only where one store holds all of it. */
  function View(s: Stores, key: string): Option<(string, string)> {
    if s.Holds(Completed, key) then Some((s.doneHash[key], s.doneMessage[key]))
    else if s.Holds(InProgress, key) then Some((s.inHash[key], s.inMessage[key]))
    else None
  }

  /** At a settled key, the two halves together are what a reader finds. */
  lemma SettledView(s: Stores, key: string)
    requires Agree(s)
    ensures View(s, key).Some? ==>
              View(s, key) == Some((s.Half(Hash, key).value, s.Half(Message, key).value))
    ensures SettledAt(s, key) <==>
              (View(s, key).Some? <==> s.Half(Hash, key).Some? && s.Half(Message, key).Some?)
  {
    assert s.Get(InProgress, Hash) == s.inHash && s.Get(InProgress, Message) == s.inMessage;
    assert s.Get(Completed, Hash) == s.doneHash && s.Get(Completed, Message) == s.doneMessage;
  }

  ghost predicate SameView(s: Stores, t: Stores) {
    forall key :: View(s, key) == View(t, key)
  }

  /** `t` is `s` with some of the pairs written. */
  ghost predicate PartialSet(s: Stores, p: Prefix, kind: Kind, kvs: map<string, string>, t: Stores) {
    && t == s.Put(p, kind, t.Get(p, kind))
    && forall key :: Lookup(t.Get(p, kind), key) == Lookup(s.Get(p, kind), key)
                     || (key in kvs && Lookup(t.Get(p, kind), key) == Some(kvs[key]))
  }

  /** `t` is `s` with some of the keys deleted. */
  ghost predicate PartialDelete(s: Stores, p: Prefix, kind: Kind, keys: seq<string>, t: Stores) {
    && t == s.Put(p, kind, t.Get(p, kind))
    && forall key :: Lookup(t.Get(p, kind), key) == Lookup(s.Get(p, kind), key)
                     || (key in keys && key !in t.Get(p, kind))
  }

  lemma AddThenUpdate(m: map<string, string>, n: map<string, string>, key: string, value: string)
    ensures m + n[key := value] == (m + n)[key := value]
  {
  }

  lemma CommitKeepsPartialSet(s: Stores, p: Prefix, kind: Kind, kvs: map<string, string>, t: Stores,
                              pending: map<string, string>)
    requires PartialSet(s, p, kind, kvs, t)
    requires forall key :: key in pending ==> key in kvs && pending[key] == kvs[key]
    ensures PartialSet(s, p, kind, kvs, t.Put(p, kind, t.Get(p, kind) + pending))
  {
    var u := t.Put(p, kind, t.Get(p, kind) + pending);
    assert u == s.Put(p, kind, u.Get(p, kind)) by {
      assert t == s.Put(p, kind, t.Get(p, kind));
    }
    forall key
      ensures Lookup(u.Get(p, kind), key) == Lookup(s.Get(p, kind), key)
              || (key in kvs && Lookup(u.Get(p, kind), key) == Some(kvs[key]))
    {
      assert Lookup(t.Get(p, kind), key) == Lookup(s.Get(p, kind), key)
             || (key in kvs && Lookup(t.Get(p, kind), key) == Some(kvs[key]));
    }
  }

  lemma CommitKeepsPartialDelete(s: Stores, p: Prefix, kind: Kind, keys: seq<string>, t: Stores,
                                 pending: set<string>)
    requires PartialDelete(s, p, kind, keys, t)
    requires forall key :: key in pending ==> key in keys
    ensures PartialDelete(s, p, kind, keys, t.Put(p, kind, t.Get(p, kind) - pending))
  {
    var u := t.Put(p, kind, t.Get(p, kind) - pending);
    assert u == s.Put(p, kind, u.Get(p, kind)) by {
      assert t == s.Put(p, kind, t.Get(p, kind));
    }
    forall key
      ensures Lookup(u.Get(p, kind), key) == Lookup(s.Get(p, kind), key)
              || (key in keys && key !in u.Get(p, kind))
    {
      assert Lookup(t.Get(p, kind), key) == Lookup(s.Get(p, kind), key)
             || (key in keys && key !in t.Get(p, kind));
    }
  }

  /** Some of the pairs were written, and all of them are there: the whole update happened. */
  lemma FullSet(s: Stores, p: Prefix, kind: Kind, kvs: map<string, string>, t: Stores)
    requires PartialSet(s, p, kind, kvs, t)
    requires forall key :: key in kvs ==> Lookup(t.Get(p, kind), key) == Some(kvs[key])
    ensures t == s.Put(p, kind, s.Get(p, kind) + kvs)
  {
    var m, n := t.Get(p, kind), s.Get(p, kind) + kvs;
    forall key ensures Lookup(m, key) == Lookup(n, key) {
      assert Lookup(m, key) == Lookup(s.Get(p, kind), key) || (key in kvs && Lookup(m, key) == Some(kvs[key]));
    }
    LookupExtensional(m, n);
  }

  lemma FullDelete(s: Stores, p: Prefix, kind: Kind, keys: seq<string>, t: Stores)
    requires PartialDelete(s, p, kind, keys, t)
    requires forall key :: key in keys ==> key !in t.Get(p, kind)
    ensures t == s.Put(p, kind, s.Get(p, kind) - (set k | k in keys))
  {
    var m, n := t.Get(p, kind), s.Get(p, kind) - (set k | k in keys);
    forall key ensures Lookup(m, key) == Lookup(n, key) {
      assert Lookup(m, key) == Lookup(s.Get(p, kind), key) || (key in keys && key !in m);
    }
    LookupExtensional(m, n);
  }

  lemma LookupExtensional(m: map<string, string>, n: map<string, string>)
    requires forall key :: Lookup(m, key) == Lookup(n, key)
    ensures m == n
  {
    forall key ensures key in m <==> key in n {
      assert Lookup(m, key) == Lookup(n, key);
    }
    forall key | key in m ensures m[key] == n[key] {
      assert Lookup(m, key) == Lookup(n, key);
    }
  }

  /** Everything the in-progress stores hold under these keys is also in the completed stores. */
  ghost predicate Covered(s: Stores, keys: seq<string>) {
    forall kind: Kind, key :: key in keys && key in s.Get(InProgress, kind) ==> key in s.Get(Completed, kind)
  }

  lemma AgreeView(s: Stores, key: string)
    requires Agree(s)
    ensures View(s, key).Some? <==> s.Holds(InProgress, key) || s.Holds(Completed, key)
    ensures s.Holds(InProgress, key) ==> View(s, key) == Some((s.inHash[key], s.inMessage[key]))
    ensures s.Holds(Completed, key) ==> View(s, key) == Some((s.doneHash[key], s.doneMessage[key]))
  {
    SettledView(s, key);
    assert s.Get(InProgress, Hash) == s.inHash && s.Get(InProgress, Message) == s.inMessage;
    assert s.Get(Completed, Hash) == s.doneHash && s.Get(Completed, Message) == s.doneMessage;
  }

  /** What a copy of values that are already there leaves as it was. */
  lemma CopyKeepsHalves(s: Stores, kind: Kind, kvs: map<string, string>, t: Stores, k: Kind, key: string)
    requires Agree(s) && PartialSet(s, Completed, kind, kvs, t)
    requires forall key :: key in kvs ==> s.Half(kind, key) == Some(kvs[key])
    ensures t.Half(k, key) == s.Half(k, key) && t.Get(InProgress, k) == s.Get(InProgress, k)
    ensures key in s.Get(Completed, k) ==> Lookup(t.Get(Completed, k), key) == Lookup(s.Get(Completed, k), key)
    ensures key !in kvs ==> Lookup(t.Get(Completed, k), key) == Lookup(s.Get(Completed, k), key)
    ensures key in t.Get(InProgress, k) && key in t.Get(Completed, k) ==>
              t.Get(InProgress, k)[key] == t.Get(Completed, k)[key]
  {
    if k == kind {
      assert Lookup(t.Get(Completed, k), key) == Lookup(s.Get(Completed, k), key)
             || (key in kvs && Lookup(t.Get(Completed, k), key) == Some(kvs[key]));
    } else {
      assert t.Get(Completed, k) == s.Get(Completed, k);
    }
  }

  /** Copying values that are there keeps the stores agreeing; at settled keys a reader sees no difference. */
  lemma CopyUnseen(s: Stores, kind: Kind, kvs: map<string, string>, t: Stores)
    requires Agree(s) && PartialSet(s, Completed, kind, kvs, t)
    requires forall key :: key in kvs ==> s.Half(kind, key) == Some(kvs[key])
    ensures Agree(t) && Forward(s, t)
    ensures Settled(s, kvs.Keys) ==> SameView(s, t)
  {
    forall k: Kind, key
      ensures t.Half(k, key) == s.Half(k, key) && t.Get(InProgress, k) == s.Get(InProgress, k)
      ensures key in s.Get(Completed, k) ==> Lookup(t.Get(Completed, k), key) == Lookup(s.Get(Completed, k), key)
      ensures key in t.Get(InProgress, k) && key in t.Get(Completed, k) ==>
                t.Get(InProgress, k)[key] == t.Get(Completed, k)[key]
    {
      CopyKeepsHalves(s, kind, kvs, t, k, key);
    }
    if Settled(s, kvs.Keys) {
      forall key ensures View(s, key) == View(t, key) { CopyUnseenAt(s, kind, kvs, t, key); }
    }
  }

  lemma CopyUnseenAt(s: Stores, kind: Kind, kvs: map<string, string>, t: Stores, key: string)
    requires Agree(s) && Agree(t) && PartialSet(s, Completed, kind, kvs, t)
    requires forall key :: key in kvs ==> s.Half(kind, key) == Some(kvs[key])
    requires key in kvs ==> SettledAt(s, key)
    ensures View(s, key) == View(t, key)
  {
    CopyKeepsHalves(s, kind, kvs, t, Hash, key);
    CopyKeepsHalves(s, kind, kvs, t, Message, key);
    SettledView(s, key);
    SettledView(t, key);
    AgreeView(s, key);
    AgreeView(t, key);
  }

  /** Deleting in-progress keys the completed stores cover changes nothing a reader sees, settled or not. */
  lemma DropUnseen(s: Stores, kind: Kind, keys: seq<string>, t: Stores)
    requires Agree(s) && PartialDelete(s, InProgress, kind, keys, t) && Covered(s, keys)
    ensures Agree(t) && SameView(s, t) && Covered(t, keys) && Forward(s, t)
  {
    forall k: Kind, key
      ensures t.Get(Completed, k) == s.Get(Completed, k)
      ensures key in t.Get(InProgress, k) ==> Lookup(t.Get(InProgress, k), key) == Lookup(s.Get(InProgress, k), key)
      ensures key !in keys ==> Lookup(t.Get(InProgress, k), key) == Lookup(s.Get(InProgress, k), key)
    {
      if k == kind {
        assert Lookup(t.Get(InProgress, k), key) == Lookup(s.Get(InProgress, k), key)
               || (key in keys && key !in t.Get(InProgress, k));
      } else {
        assert t.Get(InProgress, k) == s.Get(InProgress, k);
      }
    }
    assert Agree(t);
    forall key ensures View(s, key) == View(t, key) {
      AgreeView(s, key);
      AgreeView(t, key);
      if key in keys && s.Holds(InProgress, key) {
        assert key in s.Get(Completed, Hash) && key in s.Get(Completed, Message);
      }
    }
  }

  /** Entries only enter the completed stores and only leave the in-progress stores, and none is changed. */
  ghost predicate Forward(s: Stores, t: Stores) {
    forall kind: Kind, key ::
      && Keeps(s.Get(Completed, kind), t.Get(Completed, kind), key)
      && Keeps(t.Get(InProgress, kind), s.Get(InProgress, kind), key)
  }

  /** What `m` holds under `key`, `n` holds too. */
  predicate Keeps(m: map<string, string>, n: map<string, string>, key: string) {
    key in m ==> Lookup(n, key) == Lookup(m, key)
  }

  lemma ForwardTrans(s: Stores, t: Stores, u: Stores)
    requires Forward(s, t) && Forward(t, u)
    ensures Forward(s, u)
  {
    forall kind: Kind, key
      ensures Keeps(s.Get(Completed, kind), u.Get(Completed, kind), key)
      ensures Keeps(u.Get(InProgress, kind), s.Get(InProgress, kind), key)
    {
      assert Keeps(s.Get(Completed, kind), t.Get(Completed, kind), key);
      assert Keeps(t.Get(Completed, kind), u.Get(Completed, kind), key);
      assert Keeps(u.Get(InProgress, kind), t.Get(InProgress, kind), key);
      assert Keeps(t.Get(InProgress, kind), s.Get(InProgress, kind), key);
    }
  }

  lemma SameViewTrans(s: Stores, t: Stores, u: Stores)
    requires SameView(s, t) && SameView(t, u)
    ensures SameView(s, u)
  {
    forall key ensures View(s, key) == View(u, key) {
      assert View(s, key) == View(t, key) && View(t, key) == View(u, key);
    }
  }

  /** `t` differs from `s` only in that some of `keys` moved towards the completed stores. */
  ghost predicate MovesOnly(s: Stores, t: Stores, keys: set<string>) {
    forall kind: Kind, key :: key !in keys ==>
      && Lookup(t.Get(InProgress, kind), key) == Lookup(s.Get(InProgress, kind), key)
      && Lookup(t.Get(Completed, kind), key) == Lookup(s.Get(Completed, kind), key)
  }

  lemma MovesOnlyTrans(s: Stores, t: Stores, u: Stores, a: set<string>, b: set<string>, keys: set<string>)
    requires MovesOnly(s, t, a) && MovesOnly(t, u, b) && a <= keys && b <= keys
    ensures MovesOnly(s, u, keys)
  {
    forall kind: Kind, key | key !in keys
      ensures Lookup(u.Get(InProgress, kind), key) == Lookup(s.Get(InProgress, kind), key)
      ensures Lookup(u.Get(Completed, kind), key) == Lookup(s.Get(Completed, kind), key)
    {
      assert Lookup(u.Get(InProgress, kind), key) == Lookup(t.Get(InProgress, kind), key);
    }
  }

  lemma SetMovesOnly(s: Stores, t: Stores, kind: Kind, kvs: map<string, string>, u: Stores, keys: set<string>)
    requires MovesOnly(s, t, keys) && PartialSet(t, Completed, kind, kvs, u) && kvs.Keys <= keys
    ensures MovesOnly(s, u, keys)
  {
    forall k: Kind, key | key !in keys
      ensures u.Get(InProgress, k) == t.Get(InProgress, k)
      ensures Lookup(u.Get(Completed, k), key) == Lookup(t.Get(Completed, k), key)
    {
      if k == kind { assert Lookup(u.Get(Completed, k), key) == Lookup(t.Get(Completed, k), key) || key in kvs; }
    }
  }

  lemma DeleteMovesOnly(s: Stores, t: Stores, kind: Kind, gone: seq<string>, u: Stores, keys: set<string>)
    requires MovesOnly(s, t, keys) && PartialDelete(t, InProgress, kind, gone, u)
    requires forall key :: key in gone ==> key in keys
    ensures MovesOnly(s, u, keys)
  {
    forall k: Kind, key | key !in keys
      ensures u.Get(Completed, k) == t.Get(Completed, k)
      ensures Lookup(u.Get(InProgress, k), key) == Lookup(t.Get(InProgress, k), key)
    {
      if k == kind { assert Lookup(u.Get(InProgress, k), key) == Lookup(t.Get(InProgress, k), key) || key in gone; }
    }
  }

  /** What the completed store must hold under `key` once the move that began at `s` has passed it. */
  function MoveTarget(s: Stores, kind: Kind, key: string): Option<string> {
    s.Half(kind, key)
  }

  /** A move that began at `s` either has not copied `key` yet, or has copied it and may have dropped it. */
  ghost predicate MoveInStep(s: Stores, t: Stores, kind: Kind, key: string) {
    var inS, inT := Lookup(s.Get(InProgress, kind), key), Lookup(t.Get(InProgress, kind), key);
    var doneS, doneT := Lookup(s.Get(Completed, kind), key), Lookup(t.Get(Completed, kind), key);
    || (doneT == doneS && inT == inS)
    || (doneT == MoveTarget(s, kind, key) && (inT == inS || inT == None))
  }

  ghost predicate MoveOnTrack(s: Stores, t: Stores) {
    forall kind: Kind, key :: MoveInStep(s, t, kind, key)
  }

  ghost predicate MovedAll(s: Stores, t: Stores, keys: seq<string>) {
    forall kind: Kind, key :: key in keys ==> Lookup(t.Get(Completed, kind), key) == MoveTarget(s, kind, key)
  }

  ghost predicate DroppedAll(t: Stores, keys: seq<string>) {
    forall kind: Kind, key :: key in keys ==> key !in t.Get(InProgress, kind)
  }

  /** The pairs a window read returned are exactly what the in-progress store holds there. */
  ghost predicate WindowRead(t: Stores, kind: Kind, keys: seq<string>, kvs: map<string, string>) {
    forall key :: Lookup(kvs, key) == if key in keys then Lookup(t.Get(InProgress, kind), key) else None
  }

  lemma CopyOnTrack(s: Stores, t: Stores, kind: Kind, keys: seq<string>, kvs: map<string, string>, u: Stores)
    requires MoveOnTrack(s, t) && WindowRead(t, kind, keys, kvs) && PartialSet(t, Completed, kind, kvs, u)
    ensures MoveOnTrack(s, u)
  {
    forall k: Kind, key ensures MoveInStep(s, u, k, key) {
      assert MoveInStep(s, t, k, key);
      assert u.Get(InProgress, k) == t.Get(InProgress, k);
      if k == kind {
        assert Lookup(u.Get(Completed, k), key) == Lookup(t.Get(Completed, k), key)
               || (key in kvs && Lookup(u.Get(Completed, k), key) == Some(kvs[key]));
        assert Lookup(kvs, key) == if key in keys then Lookup(t.Get(InProgress, k), key) else None;
      } else {
        assert u.Get(Completed, k) == t.Get(Completed, k);
      }
    }
  }

  /** After the whole window was written, its keys have reached their targets. */
  lemma CopyReachesTarget(s: Stores, t: Stores, kind: Kind, keys: seq<string>, kvs: map<string, string>, key: string)
    requires MoveOnTrack(s, t) && WindowRead(t, kind, keys, kvs) && key in keys
    ensures Lookup(t.Get(Completed, kind) + kvs, key) == MoveTarget(s, kind, key)
    ensures key in t.Get(InProgress, kind) ==> key in t.Get(Completed, kind) + kvs
  {
    assert MoveInStep(s, t, kind, key);
    assert Lookup(kvs, key) == Lookup(t.Get(InProgress, kind), key);
  }

  lemma DropOnTrack(s: Stores, t: Stores, kind: Kind, keys: seq<string>, u: Stores)
    requires MoveOnTrack(s, t) && MovedAll(s, t, keys) && PartialDelete(t, InProgress, kind, keys, u)
    ensures MoveOnTrack(s, u)
    ensures forall ks :: MovedAll(s, t, ks) ==> MovedAll(s, u, ks)
    ensures forall ks :: DroppedAll(t, ks) ==> DroppedAll(u, ks)
  {
    assert forall k: Kind :: u.Get(Completed, k) == t.Get(Completed, k);
    forall k: Kind, key
      ensures MoveInStep(s, u, k, key)
      ensures key !in t.Get(InProgress, k) ==> key !in u.Get(InProgress, k)
    {
      assert MoveInStep(s, t, k, key);
      if k == kind {
        assert Lookup(u.Get(InProgress, k), key) == Lookup(t.Get(InProgress, k), key)
               || (key in keys && key !in u.Get(InProgress, k));
        if key in keys { assert Lookup(t.Get(Completed, k), key) == MoveTarget(s, k, key); }
      } else {
        assert u.Get(InProgress, k) == t.Get(InProgress, k);
      }
    }
  }

  lemma MovedAllJoin(s: Stores, t: Stores, ks: seq<string>, window: seq<string>, all: seq<string>)
    requires MovedAll(s, t, ks) && MovedAll(s, t, window)
    requires forall key :: key in all ==> key in ks || key in window
    ensures MovedAll(s, t, all)
  {
  }

  lemma DroppedAllJoin(t: Stores, ks: seq<string>, window: seq<string>, all: seq<string>)
    requires DroppedAll(t, ks) && DroppedAll(t, window)
    requires forall key :: key in all ==> key in ks || key in window
    ensures DroppedAll(t, all)
  {
  }

  /** The in-progress entries of one kind under the given keys. */
  function EntriesUnder(s: Stores, kind: Kind, keys: seq<string>): map<string, string> {
    map key | key in s.Get(InProgress, kind) && key in keys :: s.Get(InProgress, kind)[key]
  }

  /** A move on track keeps both halves of every chunk, and the agreement. */
  lemma OnTrackHalves(s: Stores, t: Stores, key: string)
    requires Agree(s) && MoveOnTrack(s, t)
    ensures t.Half(Hash, key) == s.Half(Hash, key) && t.Half(Message, key) == s.Half(Message, key)
  {
    assert MoveInStep(s, t, Hash, key) && MoveInStep(s, t, Message, key);
  }

  lemma StaysSettled(s: Stores, t: Stores, keys: set<string>)
    requires Agree(s) && Agree(t) && MoveOnTrack(s, t) && SameView(s, t) && Settled(s, keys)
    ensures Settled(t, keys)
  {
    forall key | key in keys ensures SettledAt(t, key) {
      OnTrackHalves(s, t, key);
      SettledView(s, key);
      SettledView(t, key);
      assert View(s, key) == View(t, key);
    }
  }

  /** When all keys were copied, both halves of a chunk have come together in the completed store. */
  lemma MovedAllView(s: Stores, t: Stores, keys: seq<string>, key: string)
    requires Agree(s) && Agree(t) && MovedAll(s, t, keys) && MoveOnTrack(s, t) && key in keys
    ensures View(t, key).Some? <==> s.Half(Hash, key).Some? && s.Half(Message, key).Some?
    ensures SettledAt(t, key)
  {
    OnTrackHalves(s, t, key);
    assert Lookup(t.Get(Completed, Hash), key) == s.Half(Hash, key);
    assert Lookup(t.Get(Completed, Message), key) == s.Half(Message, key);
    AgreeView(t, key);
  }

  /** A finished copy of `keys` changes no reader's answer if and only if all the keys were settled. */
  lemma FinishedMoveUnseenIff(s: Stores, t: Stores, keys: seq<string>, moving: set<string>)
    requires Agree(s) && Agree(t) && MovedAll(s, t, keys) && MoveOnTrack(s, t) && MovesOnly(s, t, moving)
    requires forall key :: key in moving <==> key in keys
    ensures SameView(s, t) <==> Settled(s, moving)
  {
    forall key ensures View(s, key) == View(t, key) <==> (key in moving ==> SettledAt(s, key)) {
      if key in keys {
        MovedAllView(s, t, keys, key);
        OnTrackHalves(s, t, key);
        SettledView(s, key);
        SettledView(t, key);
      } else {
        MovesOnlyView(s, t, moving, key);
      }
    }
    if SameView(s, t) {
      forall key | key in moving ensures SettledAt(s, key) { assert View(s, key) == View(t, key); }
    }
  }

  lemma MovesOnlyView(s: Stores, t: Stores, moving: set<string>, key: string)
    requires Agree(s) && Agree(t) && MovesOnly(s, t, moving) && key !in moving
    ensures View(s, key) == View(t, key)
  {
    forall kind: Kind
      ensures Lookup(t.Get(InProgress, kind), key) == Lookup(s.Get(InProgress, kind), key)
      ensures Lookup(t.Get(Completed, kind), key) == Lookup(s.Get(Completed, kind), key)
    {
    }
    AgreeView(s, key);
    AgreeView(t, key);
  }

  /** Under agreement alone a move can be seen: the halves of a split chunk come together. */
  lemma SplitChunkAppears()
    ensures var s, t := Stores(map[], map["k" := "m"], map["k" := "h"], map[]),
                        Stores(map[], map[], map["k" := "h"], map["k" := "m"]);
            Agree(s) && MoveOnTrack(s, t) && MovedAll(s, t, ["k"]) && DroppedAll(t, ["k"])
            && View(s, "k") == None && View(t, "k") == Some(("h", "m"))
  {
    var s := Stores(map[], map["k" := "m"], map["k" := "h"], map[]);
    var t := Stores(map[], map[], map["k" := "h"], map["k" := "m"]);
    forall kind: Kind, key ensures MoveInStep(s, t, kind, key) {
      match kind
      case Hash =>
      case Message => assert key == "k" || key !in map["k" := "m"];
    }
    assert t.Get(Completed, Hash) == map["k" := "h"] && t.Get(Completed, Message) == map["k" := "m"];
  }

  /** Writing to an in-progress store what the completed store holds, if anything, keeps the agreement. */
  lemma FillingKeepsAgree(s: Stores, kind: Kind, kvs: map<string, string>, t: Stores)
    requires Agree(s) && PartialSet(s, InProgress, kind, kvs, t)
    requires forall key :: key in kvs ==> Keeps(s.Get(Completed, kind), kvs, key)
    ensures Agree(t)
  {
    forall k: Kind, key | key in t.Get(InProgress, k) && key in t.Get(Completed, k)
      ensures t.Get(InProgress, k)[key] == t.Get(Completed, k)[key]
    {
      assert t.Get(Completed, k) == s.Get(Completed, k);
      if k == kind {
        assert Lookup(t.Get(InProgress, k), key) == Lookup(s.Get(InProgress, k), key)
               || (key in kvs && Lookup(t.Get(InProgress, k), key) == Some(kvs[key]));
        assert key in kvs ==> Keeps(s.Get(Completed, k), kvs, key);
      } else {
        assert t.Get(InProgress, k) == s.Get(InProgress, k);
      }
    }
  }

  /** Chunks of which the completed stores hold nothing yet are not split, however much of them was filled in. */
  lemma FillingKeepsSettled(s: Stores, kind: Kind, kvs: map<string, string>, t: Stores, keys: set<string>)
    requires Agree(s) && PartialSet(s, InProgress, kind, kvs, t) && kvs.Keys <= keys
    requires forall k: Kind, key :: key in keys ==> key !in s.Get(Completed, k)
    ensures Agree(t) && Settled(t, keys)
    ensures forall k: Kind, key :: key in keys ==> key !in t.Get(Completed, k)
  {
    forall key | key in kvs ensures Keeps(s.Get(Completed, kind), kvs, key) {
      assert key in keys;
    }
    FillingKeepsAgree(s, kind, kvs, t);
    assert forall k: Kind :: t.Get(Completed, k) == s.Get(Completed, k);
  }

  /** A finished move adds exactly the in-progress entries under its keys to the completed store. */
  lemma FinishedMove(s: Stores, t: Stores, keys: seq<string>, moving: set<string>, kind: Kind)
    requires MovedAll(s, t, keys) && MovesOnly(s, t, moving) && MoveOnTrack(s, t)
    requires forall key :: key in moving <==> key in keys
    ensures t.Get(Completed, kind) == s.Get(Completed, kind) + EntriesUnder(s, kind, keys)
    ensures DroppedAll(t, keys) ==> t.Get(InProgress, kind) == s.Get(InProgress, kind) - moving
  {
    var m, n := t.Get(Completed, kind), s.Get(Completed, kind) + EntriesUnder(s, kind, keys);
    var a, b := t.Get(InProgress, kind), s.Get(InProgress, kind) - moving;
    forall key ensures Lookup(m, key) == Lookup(n, key) {
      if key in keys {
        assert Lookup(m, key) == MoveTarget(s, kind, key);
        assert Lookup(EntriesUnder(s, kind, keys), key) == Lookup(s.Get(InProgress, kind), key);
      } else {
        assert key !in moving && key !in EntriesUnder(s, kind, keys);
        assert Lookup(m, key) == Lookup(s.Get(Completed, kind), key);
      }
    }
    LookupExtensional(m, n);
    if DroppedAll(t, keys) {
      forall key ensures Lookup(a, key) == Lookup(b, key) {
        if key in keys {
          assert key !in t.Get(InProgress, kind);
        } else {
          assert key !in moving;
          assert Lookup(a, key) == Lookup(s.Get(InProgress, kind), key);
        }
      }
      LookupExtensional(a, b);
    }
  }
}
