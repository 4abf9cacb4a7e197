/** Values shared by the models of the broker's jobs: sessions, chunks and list filtering. */
module Core {

  datatype Option<+T> = None | Some(value: T)

  /** An alpha session scans its chunks from 0 upwards, a beta session from N-1 downwards. */
  datatype SessionType = Alpha | Beta

  /** What a caller gets back about one chunk. */
  datatype ChunkData = ChunkData(
    address: string, hash: string, message: string, rawMessage: string, idx: int, genesisHash: string)

  /** The elements of `s` that satisfy `keep`, in order. */
  function Filter<T>(s: seq<T>, keep: T -> bool): seq<T> {
    if s == [] then [] else
      var rest := Filter(s[..|s| - 1], keep);
      if keep(s[|s| - 1]) then rest + [s[|s| - 1]] else rest
  }

  lemma {:induction false} FilterMember<T>(s: seq<T>, keep: T -> bool, x: T)
    ensures x in Filter(s, keep) <==> x in s && keep(x)
  {
    if s != [] {
      FilterMember(s[..|s| - 1], keep, x);
      assert s == s[..|s| - 1] + [s[|s| - 1]];
    }
  }

  lemma FilterSnoc<T>(init: seq<T>, last: T, keep: T -> bool)
    ensures multiset(Filter(init + [last], keep))
         == multiset(Filter(init, keep)) + (if keep(last) then multiset{last} else multiset{})
  {
    assert (init + [last])[..|init|] == init;
  }

  lemma {:induction false} FilterLength<T>(s: seq<T>, keep: T -> bool)
    ensures |Filter(s, keep)| <= |s|
  {
    if s != [] { FilterLength(s[..|s| - 1], keep); }
  }

  lemma {:induction false} FilterAll<T>(s: seq<T>, keep: T -> bool)
    requires forall x :: x in s ==> keep(x)
    ensures Filter(s, keep) == s
  {
    if s != [] {
      assert s == s[..|s| - 1] + [s[|s| - 1]];
      FilterAll(s[..|s| - 1], keep);
    }
  }

  lemma {:induction false} FilterNone<T>(s: seq<T>, keep: T -> bool)
    requires forall x :: x in s ==> !keep(x)
    ensures Filter(s, keep) == []
  {
    if s != [] {
      assert s == s[..|s| - 1] + [s[|s| - 1]];
      FilterNone(s[..|s| - 1], keep);
    }
  }

  lemma AddToOne<T>(a: multiset<T>, b: multiset<T>, c: multiset<T>, d: multiset<T>, x: multiset<T>)
    ensures (a + x) + b + c + d == (a + b + c + d) + x
    ensures a + (b + x) + c + d == (a + b + c + d) + x
    ensures a + b + (c + x) + d == (a + b + c + d) + x
    ensures a + b + c + (d + x) == (a + b + c + d) + x
  {
  }

  ghost predicate ExactlyOne(a: bool, b: bool, c: bool, d: bool) {
    || (a && !b && !c && !d)
    || (!a && b && !c && !d)
    || (!a && !b && c && !d)
    || (!a && !b && !c && d)
  }

  /** Four filters of which each element passes exactly one lose and duplicate nothing. */
  lemma {:induction false} FilterFour<T>(s: seq<T>, p: T -> bool, q: T -> bool, r: T -> bool, t: T -> bool)
    requires forall x :: x in s ==> ExactlyOne(p(x), q(x), r(x), t(x))
    ensures multiset(Filter(s, p)) + multiset(Filter(s, q)) + multiset(Filter(s, r)) + multiset(Filter(s, t))
         == multiset(s)
  {
    if s != [] {
      var init, last := s[..|s| - 1], s[|s| - 1];
      assert s == init + [last];
      FilterFour(init, p, q, r, t);
      FilterSnoc(init, last, p);
      FilterSnoc(init, last, q);
      FilterSnoc(init, last, r);
      FilterSnoc(init, last, t);
      AddToOne(multiset(Filter(init, p)), multiset(Filter(init, q)), multiset(Filter(init, r)),
               multiset(Filter(init, t)), multiset{last});
    }
  }

  /** Filtering by a predicate and by its opposite loses and duplicates nothing. */
  lemma {:induction false} FilterTwo<T>(s: seq<T>, p: T -> bool, q: T -> bool)
    requires forall x :: x in s ==> p(x) != q(x)
    ensures multiset(Filter(s, p)) + multiset(Filter(s, q)) == multiset(s)
  {
    if s != [] {
      var init, last := s[..|s| - 1], s[|s| - 1];
      assert s == init + [last];
      FilterTwo(init, p, q);
      FilterSnoc(init, last, p);
      FilterSnoc(init, last, q);
      AddToOne(multiset(Filter(init, p)), multiset(Filter(init, q)), multiset{}, multiset{}, multiset{last});
    }
  }

  /** The chunk indexes of a list, in list order. */
  function IdxsOf(chunks: seq<ChunkData>): (idxs: seq<int>)
    ensures |idxs| == |chunks| && forall k :: 0 <= k < |chunks| ==> idxs[k] == chunks[k].idx
  {
    seq(|chunks|, k requires 0 <= k < |chunks| => chunks[k].idx)
  }

  function ToSet(idxs: seq<int>): (s: set<int>)
    ensures forall i :: i in s <==> i in idxs
  {
    set i | i in idxs
  }

  // ---- Pages ----

  function Clip(i: nat, n: nat): (c: nat)
    ensures c <= n
  {
    if i <= n then i else n
  }

  /** `size` added up `k` times. */
  function Times(size: nat, k: nat): (p: nat)
    ensures k == 0 ==> p == 0
    ensures k > 0 ==> p >= size
  {
    if k == 0 then 0 else Times(size, k - 1) + size
  }

  lemma {:induction false} TimesIsProduct(size: nat, k: nat)
    ensures Times(size, k) == size * k
  {
    if k > 0 {
      TimesIsProduct(size, k - 1);
      assert size * k == size * (k - 1) + size;
    }
  }

  lemma TimesMono(size: nat, j: nat, k: nat)
    requires j <= k
    ensures Times(size, j) <= Times(size, k)
  {
    TimesIsProduct(size, j);
    TimesIsProduct(size, k);
    assert size * k == size * j + size * (k - j);
  }

  /** The k-th page of `size` elements; the last one may be short, and later ones are empty. */
  function PageOf<T>(s: seq<T>, size: nat, k: nat): seq<T> {
    s[Clip(Times(size, k), |s|)..Clip(Times(size, k + 1), |s|)]
  }

  function Pages<T>(s: seq<T>, size: nat, n: nat): (ps: seq<seq<T>>)
    ensures |ps| == n && forall k :: 0 <= k < n ==> ps[k] == PageOf(s, size, k)
  {
    seq(n, k requires 0 <= k < n => PageOf(s, size, k))
  }

  function Join<T>(ps: seq<seq<T>>): seq<T> {
    if ps == [] then [] else Join(ps[..|ps| - 1]) + ps[|ps| - 1]
  }

  lemma PagesNext<T>(s: seq<T>, size: nat, n: nat)
    ensures Pages(s, size, n + 1) == Pages(s, size, n) + [PageOf(s, size, n)]
  {
  }

  lemma JoinSnoc<T>(ps: seq<seq<T>>, last: seq<T>)
    ensures Join(ps + [last]) == Join(ps) + last
  {
    assert (ps + [last])[..|ps|] == ps;
  }

  lemma TakeMore<T>(s: seq<T>, a: nat, b: nat)
    requires a <= b <= |s|
    ensures s[..a] + s[a..b] == s[..b]
  {
  }

  lemma ClipMono(a: nat, b: nat, n: nat)
    requires a <= b
    ensures Clip(a, n) <= Clip(b, n)
  {
  }

  /** One more page takes the list one page further. */
  lemma PageExtends<T>(s: seq<T>, size: nat, n: nat)
    ensures s[..Clip(Times(size, n), |s|)] + PageOf(s, size, n) == s[..Clip(Times(size, n + 1), |s|)]
  {
    var a, b := Times(size, n), Times(size, n + 1);
    assert b == a + size;
    ClipMono(a, b, |s|);
    TakeMore(s, Clip(a, |s|), Clip(b, |s|));
  }

  /** Pages in order give the list back, as far as they go. */
  lemma {:induction false} JoinPages<T>(s: seq<T>, size: nat, n: nat)
    ensures Join(Pages(s, size, n)) == s[..Clip(Times(size, n), |s|)]
  {
    if n == 0 {
      assert Pages(s, size, 0) == [];
    } else {
      var k := n - 1;
      calc {
        Join(Pages(s, size, n));
      ==  { PagesNext(s, size, k); }
        Join(Pages(s, size, k) + [PageOf(s, size, k)]);
      ==  { JoinSnoc(Pages(s, size, k), PageOf(s, size, k)); }
        Join(Pages(s, size, k)) + PageOf(s, size, k);
      ==  { JoinPages(s, size, k); }
        s[..Clip(Times(size, k), |s|)] + PageOf(s, size, k);
      ==  { PageExtends(s, size, k); }
        s[..Clip(Times(size, n), |s|)];
      }
    }
  }

  lemma JoinAllPages<T>(s: seq<T>, size: nat, n: nat)
    requires |s| <= Times(size, n)
    ensures Join(Pages(s, size, n)) == s
  {
    JoinPages(s, size, n);
    assert s[..|s|] == s;
  }
}
