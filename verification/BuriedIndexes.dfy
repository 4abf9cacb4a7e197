/**
 * Where the treasures of a file are buried: data chunk indexes are stretched so that every sector
 * of `size` chunks keeps one hole. The sector size is a parameter, at least 2.
 */
module BuriedIndexes {
  import opened Core

  // ---- Counting chunks ----

  /** math.Ceil of a quotient. */
  function CeilDiv(a: nat, b: nat): (q: nat)
    requires b > 0
    ensures a <= q * b && (q - 1) * b < a + (if a == 0 then 1 else 0)
  {
    var q := (a + b - 1) / b;
    Division(a + b - 1, b);
    q
  }

  lemma Division(a: nat, b: nat)
    requires b > 0
    ensures a / b >= 0
    ensures a / b * b <= a < a / b * b + b
  {
  }

  lemma MulMono(a: int, b: int, m: nat)
    requires a <= b
    ensures a * m <= b * m
  {
  }

  lemma MulGap(a: int, b: int, m: nat)
    requires a < b
    ensures a * m + m <= b * m
  {
    MulMono(a + 1, b, m);
    assert (a + 1) * m == a * m + m;
  }

  /** A whole number of sectors, counted with and without the holes. */
  lemma WithHoles(q: int, size: nat)
    ensures q * size == q * (size - 1) + q
  {
  }

  lemma CeilUnique(a: nat, b: nat, q: int)
    requires b > 0 && a > 0 && (q - 1) * b < a <= q * b
    ensures CeilDiv(a, b) == q
  {
    var c := CeilDiv(a, b);
    if c < q {
      MulMono(c, q - 1, b);
    } else if q < c {
      MulMono(q, c - 1, b);
    }
  }

  function NumSectors(fileSize: nat, chunkBytes: nat, size: nat): nat
    requires chunkBytes > 0 && size >= 2
  {
    CeilDiv(fileSize, chunkBytes * (size - 1))
  }

  /** GetTotalFileChunkIncludingBuriedPearlsUsingFileSize. */
  function TotalFromFileSize(fileSize: nat, chunkBytes: nat, size: nat): nat
    requires chunkBytes > 0 && size >= 2
  {
    NumSectors(fileSize, chunkBytes, size) + CeilDiv(fileSize, chunkBytes)
  }

  /** GetTotalFileChunkIncludingBuriedPearlsUsingNumChunks. */
  function TotalFromNumChunks(numChunks: nat, size: nat): nat
    requires size > 0
  {
    numChunks + CeilDiv(numChunks, size)
  }

  /** Counting sectors by bytes and by chunks agree: nested ceilings collapse. */
  lemma {:induction false} NestedCeil(fileSize: nat, chunkBytes: nat, m: nat)
    requires chunkBytes > 0 && m > 0
    ensures CeilDiv(fileSize, chunkBytes * m) == CeilDiv(CeilDiv(fileSize, chunkBytes), m)
  {
    if fileSize > 0 {
      var n := CeilDiv(fileSize, chunkBytes);
      var q := CeilDiv(n, m);
      NestedBounds(fileSize, chunkBytes, m, n, q);
      CeilUnique(fileSize, chunkBytes * m, q);
    }
  }

  lemma NestedBounds(a: nat, c: nat, m: nat, n: int, q: int)
    requires (n - 1) * c < a <= n * c && (q - 1) * m < n <= q * m
    ensures (q - 1) * (c * m) < a <= q * (c * m)
  {
    MulMono(n, q * m, c);
    MulMono((q - 1) * m, n - 1, c);
    Reassociate(q, m, c);
    Reassociate(q - 1, m, c);
  }

  lemma Reassociate(q: int, m: int, c: int)
    ensures q * m * c == q * (c * m)
  {
  }

  /** The two totals agree exactly when the last sector's hole does not spill over. */
  lemma {:induction false} TotalsAgreeIff(fileSize: nat, chunkBytes: nat, size: nat)
    requires chunkBytes > 0 && size >= 2
    ensures var n := CeilDiv(fileSize, chunkBytes);
            TotalFromNumChunks(n, size) == TotalFromFileSize(fileSize, chunkBytes, size)
            <==> n == 0 || n > (CeilDiv(n, size - 1) - 1) * size
  {
    NestedCeil(fileSize, chunkBytes, size - 1);
    SameCeilIff(CeilDiv(fileSize, chunkBytes), size);
  }

  lemma SameCeilIff(n: nat, size: nat)
    requires size >= 2
    ensures CeilDiv(n, size) == CeilDiv(n, size - 1)
            <==> n == 0 || n > (CeilDiv(n, size - 1) - 1) * size
  {
    var k := CeilDiv(n, size - 1);
    if n > 0 && n > (k - 1) * size {
      WithHoles(k, size);
      CeilUnique(n, size, k);
    }
  }

  // ---- The file and its sectors ----

  /** n data chunks in k sectors of `size` chunks, one hole per sector. */
  datatype File = File(n: nat, size: nat) {
    function Sectors(): nat
      requires size >= 2
    {
      CeilDiv(n, size - 1)
    }

    function Total(): nat
      requires size >= 2
    {
      n + Sectors()
    }

    /** How many chunks, hole included, sector i has: the last one may be short. */
    function Window(i: nat): int
      requires size >= 2
    {
      if Total() - i * size < size then Total() - i * size else size
    }
  }

  lemma WindowHolds(f: File, i: nat)
    requires f.size >= 2 && i < f.Sectors()
    ensures f.Window(i) >= 2
    ensures i * f.size + f.Window(i) <= f.Total()
    ensures i < f.Sectors() - 1 ==> f.Window(i) == f.size
  {
    var m, k := f.size - 1, f.Sectors();
    WithHoles(i, f.size);
    if i < k - 1 {
      MulGap(i, k - 1, m);
    }
  }

  /** One offset per sector, inside the sector's own window. */
  ghost predicate ValidOffsets(f: File, offsets: seq<int>)
    requires f.size >= 2
  {
    |offsets| == f.Sectors() && forall i :: 0 <= i < |offsets| ==> 0 <= offsets[i] < f.Window(i)
  }

  /** rand.Intn, for a given random number. */
  function Intn(draw: nat, range: nat): (d: nat)
    requires range > 0
    ensures d < range
  {
    draw % range
  }

  /** The first `n` draws, each reduced to its sector's window. */
  function Drawn(f: File, draws: seq<nat>, n: nat): (offsets: seq<int>)
    requires f.size >= 2 && n <= f.Sectors() && n <= |draws|
    ensures |offsets| == n
  {
    if n == 0 then [] else
      WindowHolds(f, n - 1);
      Drawn(f, draws, n - 1) + [Intn(draws[n - 1], f.Window(n - 1))]
  }

  lemma {:induction false} DrawnInWindow(f: File, draws: seq<nat>, n: nat)
    requires f.size >= 2 && n <= f.Sectors() && n <= |draws|
    ensures forall i :: 0 <= i < n ==>
              f.Window(i) > 0 && Drawn(f, draws, n)[i] == Intn(draws[i], f.Window(i))
  {
    if n > 0 {
      WindowHolds(f, n - 1);
      DrawnInWindow(f, draws, n - 1);
    }
  }

  lemma NextWindow(f: File, i: nat, remainder: int)
    requires f.size >= 2 && i < f.Sectors() && remainder == f.Total() - i * f.size
    ensures f.Window(i) == if remainder < f.size then remainder else f.size
    ensures f.Window(i) >= 2
    ensures remainder - f.size == f.Total() - (i + 1) * f.size
  {
    WindowHolds(f, i);
    assert (i + 1) * f.size == i * f.size + f.size;
  }

  /**
   * GenerateInsertedIndexesForPearl, with the random numbers as a parameter, one for each sector. The
   * result is a valid offset vector, and by the choice of the numbers any of them.
   */
  method GenerateInsertedIndexesForPearl(fileSize: nat, chunkBytes: nat, size: nat, draws: seq<nat>)
      returns (indexes: seq<int>)
    requires chunkBytes > 0 && size >= 2 && |draws| >= File(CeilDiv(fileSize, chunkBytes), size).Sectors()
    ensures var f := File(CeilDiv(fileSize, chunkBytes), size);
            ValidOffsets(f, indexes)
            && forall i :: 0 <= i < f.Sectors() ==> f.Window(i) > 0 && indexes[i] == Intn(draws[i], f.Window(i))
  {
    var numSectors := NumSectors(fileSize, chunkBytes, size);
    var remainder: int := CeilDiv(fileSize, chunkBytes) + numSectors;
    ghost var f := File(CeilDiv(fileSize, chunkBytes), size);
    NestedCeil(fileSize, chunkBytes, size - 1);
    if fileSize == 0 { return []; }
    indexes := DrawAll(f, numSectors, remainder, size, draws);
    DrawnInWindow(f, draws, numSectors);
  }

  method DrawAll(ghost f: File, numSectors: nat, total: int, size: nat, draws: seq<nat>) returns (indexes: seq<int>)
    requires f.size == size >= 2 && numSectors == f.Sectors() && total == f.Total() && numSectors <= |draws|
    ensures indexes == Drawn(f, draws, numSectors)
  {
    indexes := [];
    var remainder := total;
    for i := 0 to numSectors
      invariant remainder == f.Total() - i * f.size
      invariant indexes == Drawn(f, draws, i)
    {
      NextWindow(f, i, remainder);
      var range := if remainder < size then remainder else size;
      indexes := indexes + [Intn(draws[i], range)];
      remainder := remainder - size;
    }
  }

  /** Every valid vector can be drawn. */
  lemma EveryOffsetVectorCanBeDrawn(f: File, offsets: seq<int>, i: nat)
    requires f.size >= 2 && ValidOffsets(f, offsets) && i < |offsets|
    ensures f.Window(i) > 0 && Intn(offsets[i], f.Window(i)) == offsets[i]
  {
    WindowHolds(f, i);
    DivUnique(offsets[i], f.Window(i), 0, offsets[i]);
  }

  // ---- Stretching ----

  /** TransformIndexWithBuriedIndexes; None is the panic on a sector the offsets do not cover. */
  function Transform(index: nat, offsets: seq<int>, size: nat): Option<nat>
    requires size >= 2
  {
    if offsets == [] then
      Some(index)
    else
      var sector := index / (size - 1);
      if sector >= |offsets| then None
      else if index - sector * (size - 1) >= offsets[sector] then Some(index + sector + 1)
      else Some(index + sector)
  }

  /** Without treasures an index stays as it is. */
  lemma NothingBuriedNothingMoved(index: nat, size: nat)
    requires size >= 2
    ensures Transform(index, [], size) == Some(index)
  {
  }

  /** An index is stretched unless its sector has no offset, which is a panic. */
  lemma TransformFailsIff(index: nat, offsets: seq<int>, size: nat)
    requires size >= 2
    ensures Transform(index, offsets, size).None? <==> offsets != [] && index >= |offsets| * (size - 1)
  {
    if index >= |offsets| * (size - 1) {
      if index / (size - 1) < |offsets| { MulGap(index / (size - 1), |offsets|, size - 1); }
    } else if index / (size - 1) >= |offsets| {
      MulMono(|offsets|, index / (size - 1), size - 1);
    }
    Division(index, size - 1);
  }

  /** The data index stored at a position that is not a treasure. */
  function Untransform(p: nat, offsets: seq<int>, size: nat): int
    requires size >= 2 && p / size < |offsets|
  {
    var sector := p / size;
    p - sector - (if p % size > offsets[sector] then 1 else 0)
  }

  ghost predicate DataInside(f: File, offsets: seq<int>)
    requires f.size >= 2
  {
    forall j :: 0 <= j < f.n ==>
      Transform(j, offsets, f.size).Some? && Transform(j, offsets, f.size).value < f.Total()
  }

  ghost predicate DataIncreasing(f: File, offsets: seq<int>)
    requires f.size >= 2 && DataInside(f, offsets)
  {
    forall j, j' :: 0 <= j < j' < f.n ==>
      Transform(j, offsets, f.size).value < Transform(j', offsets, f.size).value
  }

  ghost predicate TreasuresInside(f: File, treasures: seq<int>)
    requires f.size >= 2
  {
    && (forall i :: 0 <= i < |treasures| ==> 0 <= treasures[i] < f.Total())
    && (forall i, i' :: 0 <= i < i' < |treasures| ==> treasures[i] < treasures[i'])
  }

  ghost predicate NoOverlap(f: File, offsets: seq<int>, treasures: seq<int>)
    requires f.size >= 2 && DataInside(f, offsets)
  {
    forall i, j :: 0 <= i < |treasures| && 0 <= j < f.n ==>
      Transform(j, offsets, f.size).value != treasures[i]
  }

  ghost predicate NoGap(f: File, offsets: seq<int>, treasures: seq<int>)
    requires f.size >= 2
  {
    forall p :: 0 <= p < f.Total() && p !in treasures ==>
      exists j :: 0 <= j < f.n && Transform(j, offsets, f.size) == Some(p)
  }

  /** The treasures tile [0, total) together with the stretched data indexes: no gap, no overlap. */
  ghost predicate ExactCover(f: File, offsets: seq<int>, treasures: seq<int>)
    requires f.size >= 2
  {
    && DataInside(f, offsets)
    && DataIncreasing(f, offsets)
    && TreasuresInside(f, treasures)
    && NoOverlap(f, offsets, treasures)
    && NoGap(f, offsets, treasures)
  }

  /** Where the treasures of an offset vector are. */
  function Positions(offsets: seq<int>, size: nat): (ps: seq<int>)
    ensures |ps| == |offsets|
    ensures forall i :: 0 <= i < |offsets| ==> ps[i] == i * size + offsets[i]
  {
    seq(|offsets|, i requires 0 <= i < |offsets| => i * size + offsets[i])
  }

  lemma DivUnique(a: int, m: nat, q: int, r: int)
    requires m > 0 && a == q * m + r && 0 <= r < m
    ensures a / m == q && a % m == r
  {
    var d := a / m;
    assert a == d * m + a % m;
    if d < q {
      MulGap(d, q, m);
    } else if q < d {
      MulGap(q, d, m);
    }
  }

  /** The sector and the slot of a data index. */
  lemma SectorOf(f: File, j: nat)
    requires f.size >= 2 && j < f.n
    ensures var q := j / (f.size - 1);
            0 <= q < f.Sectors() && q * (f.size - 1) <= j < q * (f.size - 1) + f.size - 1
            && q * f.size == q * (f.size - 1) + q
  {
    var m := f.size - 1;
    Division(j, m);
    WithHoles(j / m, f.size);
    if j / m >= f.Sectors() { MulMono(f.Sectors(), j / m, m); }
  }

  /** A data index lands inside its sector's window and beside its hole. */
  lemma TransformLands(f: File, offsets: seq<int>, j: nat)
    requires f.size >= 2 && ValidOffsets(f, offsets) && j < f.n
    ensures var t := Transform(j, offsets, f.size);
            t.Some? && t.value < f.Total()
            && t.value / f.size == j / (f.size - 1)
            && t.value % f.size != offsets[j / (f.size - 1)]
  {
    SectorOf(f, j);
    var m := f.size - 1;
    var q := j / m;
    var r := j - q * m;
    DivUnique(Transform(j, offsets, f.size).value, f.size, q, r + (if r >= offsets[q] then 1 else 0));
  }

  lemma TransformIncreasing(f: File, offsets: seq<int>, j: nat, j': nat)
    requires f.size >= 2 && ValidOffsets(f, offsets) && j < j' < f.n
    ensures Transform(j, offsets, f.size).Some? && Transform(j', offsets, f.size).Some?
    ensures Transform(j, offsets, f.size).value < Transform(j', offsets, f.size).value
  {
    SectorOf(f, j);
    SectorOf(f, j');
    var m := f.size - 1;
    if j' / m < j / m { MulGap(j' / m, j / m, m); }
  }

  lemma SectorOfPosition(f: File, p: nat)
    requires f.size >= 2 && p < f.Total()
    ensures p / f.size < f.Sectors()
    ensures p / f.size * f.size + p % f.size == p && 0 <= p % f.size < f.size
  {
    var k := f.Sectors();
    Division(p, f.size);
    WithHoles(k, f.size);
    if p / f.size >= k { MulMono(k, p / f.size, f.size); }
  }

  /** What Untransform gives for the o-th position of sector q. */
  lemma UntransformAt(p: nat, offsets: seq<int>, size: nat, q: nat, o: nat)
    requires size >= 2 && q == p / size < |offsets| && o == p % size && p == q * size + o
    ensures Untransform(p, offsets, size) == q * size + o - q - (if o > offsets[q] then 1 else 0)
  {
  }

  lemma InvertsAt(f: File, offsets: seq<int>, p: nat, q: nat, o: nat)
    requires f.size >= 2 && ValidOffsets(f, offsets) && p < f.Total() && p == q * f.size + o
    requires q == p / f.size < |offsets| && o == p % f.size < f.size && o != offsets[q]
    ensures var j := Untransform(p, offsets, f.size);
            0 <= j < f.n && Transform(j, offsets, f.size) == Some(p)
  {
    SlotInverts(f, offsets, q, o);
    UntransformAt(p, offsets, f.size, q, o);
  }

  /** Every position that is not a treasure holds exactly the chunk Untransform names. */
  lemma {:induction false} UntransformInverts(f: File, offsets: seq<int>, p: nat)
    requires f.size >= 2 && ValidOffsets(f, offsets) && p < f.Total()
    ensures p / f.size < |offsets|
    ensures p % f.size != offsets[p / f.size] ==>
              var j := Untransform(p, offsets, f.size);
              0 <= j < f.n && Transform(j, offsets, f.size) == Some(p)
  {
    SectorOfPosition(f, p);
    if p % f.size != offsets[p / f.size] { InvertsAt(f, offsets, p, p / f.size, p % f.size); }
  }

  lemma SlotInverts(f: File, offsets: seq<int>, q: nat, o: nat)
    requires f.size >= 2 && ValidOffsets(f, offsets)
    requires q < |offsets| && o < f.size && q * f.size + o < f.Total() && o != offsets[q]
    ensures var j := q * f.size + o - q - (if o > offsets[q] then 1 else 0);
            0 <= j < f.n && Transform(j, offsets, f.size) == Some(q * f.size + o)
  {
    var m, k := f.size - 1, f.Sectors();
    var r := if o > offsets[q] then o - 1 else o;
    WithHoles(q, f.size);
    WindowHolds(f, q);
    DivUnique(q * m + r, m, q, r);
    if q < k - 1 { MulGap(q, k - 1, m); }
  }

  lemma PositionSector(f: File, offsets: seq<int>, i: nat)
    requires f.size >= 2 && ValidOffsets(f, offsets) && i < |offsets|
    ensures var p := Positions(offsets, f.size)[i];
            0 <= p < f.Total() && p / f.size == i && p % f.size == offsets[i]
  {
    WindowHolds(f, i);
    DivUnique(Positions(offsets, f.size)[i], f.size, i, offsets[i]);
  }

  lemma PositionsInside(f: File, offsets: seq<int>)
    requires f.size >= 2 && ValidOffsets(f, offsets)
    ensures TreasuresInside(f, Positions(offsets, f.size))
  {
    var ps := Positions(offsets, f.size);
    forall i | 0 <= i < |ps| ensures 0 <= ps[i] < f.Total() {
      PositionSector(f, offsets, i);
    }
    forall i, i' | 0 <= i < i' < |ps| ensures ps[i] < ps[i'] {
      MulGap(i, i', f.size);
      WindowHolds(f, i);
    }
  }

  lemma DataStaysInside(f: File, offsets: seq<int>)
    requires f.size >= 2 && ValidOffsets(f, offsets)
    ensures DataInside(f, offsets) && DataIncreasing(f, offsets)
  {
    forall j | 0 <= j < f.n
      ensures Transform(j, offsets, f.size).Some? && Transform(j, offsets, f.size).value < f.Total()
    {
      TransformLands(f, offsets, j);
    }
    forall j, j' | 0 <= j < j' < f.n
      ensures Transform(j, offsets, f.size).value < Transform(j', offsets, f.size).value
    {
      TransformIncreasing(f, offsets, j, j');
    }
  }

  lemma DataAvoidsTreasures(f: File, offsets: seq<int>)
    requires f.size >= 2 && ValidOffsets(f, offsets) && DataInside(f, offsets)
    ensures NoOverlap(f, offsets, Positions(offsets, f.size))
  {
    var ps := Positions(offsets, f.size);
    forall i, j | 0 <= i < |ps| && 0 <= j < f.n ensures Transform(j, offsets, f.size).value != ps[i] {
      PositionSector(f, offsets, i);
      TransformLands(f, offsets, j);
    }
  }

  lemma TreasurePosition(offsets: seq<int>, size: nat, p: nat)
    requires size > 0 && p / size < |offsets| && p % size == offsets[p / size]
    ensures p in Positions(offsets, size)
  {
    Division(p, size);
    assert Positions(offsets, size)[p / size] == p;
  }

  lemma PositionFilled(f: File, offsets: seq<int>, p: nat)
    requires f.size >= 2 && ValidOffsets(f, offsets) && p < f.Total() && p !in Positions(offsets, f.size)
    ensures exists j :: 0 <= j < f.n && Transform(j, offsets, f.size) == Some(p)
  {
    UntransformInverts(f, offsets, p);
    if p % f.size == offsets[p / f.size] {
      TreasurePosition(offsets, f.size, p);
    } else {
      assert Transform(Untransform(p, offsets, f.size), offsets, f.size) == Some(p);
    }
  }

  /** Exact cover, for every number of chunks and every valid offset vector. */
  lemma {:induction false} StretchedIndexesCover(f: File, offsets: seq<int>)
    requires f.size >= 2 && ValidOffsets(f, offsets)
    ensures ExactCover(f, offsets, Positions(offsets, f.size))
  {
    DataStaysInside(f, offsets);
    PositionsInside(f, offsets);
    DataAvoidsTreasures(f, offsets);
    forall p | 0 <= p < f.Total() && p !in Positions(offsets, f.size)
      ensures exists j :: 0 <= j < f.n && Transform(j, offsets, f.size) == Some(p)
    {
      PositionFilled(f, offsets, p);
    }
  }

  /** The cover fills the file as its size in bytes counts it, whatever offsets were drawn for it. */
  lemma {:induction false} DrawnOffsetsCover(fileSize: nat, chunkBytes: nat, size: nat, offsets: seq<int>)
    requires chunkBytes > 0 && size >= 2
    requires ValidOffsets(File(CeilDiv(fileSize, chunkBytes), size), offsets)
    ensures var f := File(CeilDiv(fileSize, chunkBytes), size);
            ExactCover(f, offsets, Positions(offsets, size))
            && f.Total() == TotalFromFileSize(fileSize, chunkBytes, size)
  {
    StretchedIndexesCover(File(CeilDiv(fileSize, chunkBytes), size), offsets);
    NestedCeil(fileSize, chunkBytes, size - 1);
  }

  // ---- Merging the two brokers' offsets ----

  datatype Merged = Merged(indexes: seq<int>) | SizeMismatch

  /** The width MergeIndexes reduces sector i to: the last sector has what remains of numChunks. */
  function Width(i: nat, len: nat, size: nat, numChunks: int): int
    requires i < len
  {
    if i == len - 1 then numChunks - size * (len - 1) else size
  }

  /** math.Mod of a non-negative value; dividing by zero gives NaN, whose conversion is a parameter. */
  function Reduced(value: nat, width: int, intOfNaN: int): int {
    if width == 0 then intOfNaN else value % (if width < 0 then -width else width)
  }

  function MergedAt(value: nat, i: nat, len: nat, size: nat, numChunks: int, intOfNaN: int): int
    requires i < len
  {
    var idx := size * i + Reduced(value, Width(i, len, size, numChunks), intOfNaN);
    if idx == 0 then 1 else idx
  }

  /** What is left of a value after taking the width away as often as possible. */
  ghost predicate RemainderOf(rest: int, value: nat, width: nat) {
    0 <= rest < width && exists q: nat :: value == q * width + rest
  }

  /**
   * The index lies in its sector as far behind the start as the digest's remainder says, for the width of a
   * whole sector or, in the last one, the distance between its start and the file's end; only 0 is moved to 1.
   */
  lemma MergedIsRemainder(value: nat, i: nat, len: nat, size: nat, numChunks: int, nan: int)
    requires i < len && size > 0 && (i == len - 1 ==> numChunks != size * (len - 1))
    ensures var idx := MergedAt(value, i, len, size, numChunks, nan);
            var width: nat := if i < len - 1 then size
                              else if numChunks > size * (len - 1) then numChunks - size * (len - 1)
                              else size * (len - 1) - numChunks;
            RemainderOf(idx - size * i, value, width) || (idx == 1 && size * i == 0 && RemainderOf(0, value, width))
  {
    var width: nat := if i < len - 1 then size
                      else if numChunks > size * (len - 1) then numChunks - size * (len - 1)
                      else size * (len - 1) - numChunks;
    Quotient(value, width);
    assert Reduced(value, Width(i, len, size, numChunks), nan) == value % width;
  }

  lemma Quotient(value: nat, width: nat)
    requires width > 0
    ensures RemainderOf(value % width, value, width)
  {
    var q: nat := value / width;
    assert value == q * width + value % width;
  }

  /** The i-th index comes from some digest. */
  ghost predicate FromDigest(r: seq<int>, i: nat, size: nat, numChunks: int)
    requires i < |r|
  {
    exists value: nat, nan: int :: r[i] == MergedAt(value, i, |r|, size, numChunks, nan)
  }

  /** What MergeIndexes can return. */
  ghost predicate IsMerge(r: seq<int>, size: nat, numChunks: int) {
    |r| > 0 && forall i :: 0 <= i < |r| ==> FromDigest(r, i, size, numChunks)
  }

  /** MergeIndexes; `hash` is the digest of the sum read as a number. */
  method MergeIndexes(a: seq<int>, b: seq<int>, size: nat, numChunks: int, hash: int -> nat, intOfNaN: int)
      returns (r: Merged)
    ensures r.SizeMismatch? <==> |a| == 0 || |a| != |b|
    ensures r.Merged? ==>
      && |r.indexes| == |a|
      && forall i :: 0 <= i < |a| ==>
           r.indexes[i] == MergedAt(hash(a[i] + b[i]), i, |a|, size, numChunks, intOfNaN)
    ensures r.Merged? ==> IsMerge(r.indexes, size, numChunks)
  {
    if (|a| == 0 && |b| == 0) || |a| != |b| { return SizeMismatch; }
    var merged: seq<int> := [];
    for i := 0 to |a|
      invariant |merged| == i
      invariant forall j :: 0 <= j < i ==>
        merged[j] == MergedAt(hash(a[j] + b[j]), j, |a|, size, numChunks, intOfNaN)
    {
      var value := hash(a[i] + b[i]);
      var chunkIdxOffset := size * i;
      var maxIdx: int := size;
      if i == |a| - 1 { maxIdx := numChunks - size * (|a| - 1); }
      var idx := Reduced(value, maxIdx, intOfNaN) + chunkIdxOffset;
      if idx == 0 { idx := 1; }
      merged := merged + [idx];
    }
    forall i | 0 <= i < |merged| ensures FromDigest(merged, i, size, numChunks) {
      var value: nat := hash(a[i] + b[i]);
      assert merged[i] == MergedAt(value, i, |merged|, size, numChunks, intOfNaN);
    }
    return Merged(merged);
  }

  lemma MergedBounds(r: seq<int>, size: nat, numChunks: int, i: nat)
    requires size >= 2 && IsMerge(r, size, numChunks) && numChunks > size * (|r| - 1) && i < |r|
    ensures 0 < r[i] && size * i <= r[i]
    ensures i < |r| - 1 ==> r[i] < size * i + size
    ensures r[i] < size * i + Width(i, |r|, size, numChunks) || (numChunks == r[i] && r[i] == 1)
  {
    assert FromDigest(r, i, size, numChunks);
    var value: nat, nan: int :| r[i] == MergedAt(value, i, |r|, size, numChunks, nan);
    MulMono(0, i, size);
  }

  /** r[i] is non-zero and in the i-th sector; the last one is only bounded by the file. */
  ghost predicate InOwnSector(r: seq<int>, i: nat, size: nat)
    requires i < |r|
  {
    0 < r[i] && size * i <= r[i] && (i < |r| - 1 ==> r[i] < size * (i + 1))
  }

  lemma MergedInSector(r: seq<int>, size: nat, numChunks: int, i: nat)
    requires size >= 2 && IsMerge(r, size, numChunks) && numChunks > size * (|r| - 1) && i < |r|
    ensures InOwnSector(r, i, size)
  {
    MergedBounds(r, size, numChunks, i);
    MulGap(i, i + 1, size);
  }

  lemma SectorsOrder(r: seq<int>, size: nat, i: nat, i': nat)
    requires i < i' < |r| && InOwnSector(r, i, size) && InOwnSector(r, i', size)
    ensures r[i] < r[i']
  {
    MulMono(i + 1, i', size);
  }

  /** One non-zero index per sector window, strictly increasing, for any hash. */
  lemma MergedOnePerSector(r: seq<int>, size: nat, numChunks: int)
    requires size >= 2 && IsMerge(r, size, numChunks) && numChunks > size * (|r| - 1)
    ensures forall i :: 0 <= i < |r| ==> InOwnSector(r, i, size)
    ensures forall i, i' :: 0 <= i < i' < |r| ==> r[i] < r[i']
    ensures r[|r| - 1] < numChunks || numChunks == 1
  {
    forall i | 0 <= i < |r| ensures InOwnSector(r, i, size) {
      MergedInSector(r, size, numChunks, i);
    }
    forall i, i' | 0 <= i < i' < |r| ensures r[i] < r[i'] {
      SectorsOrder(r, size, i, i');
    }
    MergedBelow(r, size, numChunks);
  }

  lemma MergedBelow(r: seq<int>, size: nat, numChunks: int)
    requires size >= 2 && IsMerge(r, size, numChunks) && numChunks > size * (|r| - 1)
    ensures r[|r| - 1] < numChunks || numChunks == 1
  {
    MergedBounds(r, size, numChunks, |r| - 1);
  }

  /**
   * With several sectors the last merged index lies inside the file exactly when the file reaches
   * into the last sector. Equality divides by zero and is left out.
   */
  lemma MergedInsideFileIff(r: seq<int>, size: nat, numChunks: int)
    requires size >= 2 && |r| >= 2 && IsMerge(r, size, numChunks) && numChunks != size * (|r| - 1)
    ensures r[|r| - 1] < numChunks <==> numChunks > size * (|r| - 1)
  {
    var k := |r|;
    MulMono(1, k - 1, size);
    assert FromDigest(r, k - 1, size, numChunks);
    var value: nat, nan: int :| r[k - 1] == MergedAt(value, k - 1, k, size, numChunks, nan);
  }

  /** All treasure indexes are chunks of the session, whose file has `total` chunks. */
  ghost predicate AllInside(r: seq<int>, total: nat) {
    forall i :: 0 <= i < |r| ==> 0 <= r[i] < total
  }

  /** The client's numbers of sectors and of chunks keep every merged index inside the session's file. */
  predicate NumbersFit(size: nat, numChunks: nat, k: nat)
    requires size > 0 && k > 0
  {
    var start := size * (k - 1);
    numChunks > start || (numChunks < start && 2 * start - numChunks <= TotalFromNumChunks(numChunks, size))
  }

  lemma ReducedBelow(value: nat, width: int, nan: int)
    requires width != 0
    ensures 0 <= Reduced(value, width, nan) < if width < 0 then -width else width
  {
  }

  /** An index of a sector that is not the last one. */
  lemma InnerInside(value: nat, i: nat, k: nat, size: nat, numChunks: nat, nan: int)
    requires size >= 2 && i < k - 1 && NumbersFit(size, numChunks, k)
    ensures 0 <= MergedAt(value, i, k, size, numChunks, nan) < TotalFromNumChunks(numChunks, size)
  {
    var start, here := size * (k - 1), size * i;
    MulMono(0, i, size);
    MulGap(i, k - 1, size);
    assert here + size <= start;
    ReducedBelow(value, size, nan);
    assert Width(i, k, size, numChunks) == size;
    assert 0 <= MergedAt(value, i, k, size, numChunks, nan) < start;
  }

  /** The index of the last sector. */
  lemma LastInside(value: nat, k: nat, size: nat, numChunks: nat, nan: int)
    requires size >= 2 && k > 0 && NumbersFit(size, numChunks, k)
    ensures 0 <= MergedAt(value, k - 1, k, size, numChunks, nan) < TotalFromNumChunks(numChunks, size)
  {
    var start := size * (k - 1);
    MulMono(0, k - 1, size);
    assert Width(k - 1, k, size, numChunks) == numChunks - start;
    ReducedBelow(value, numChunks - start, nan);
    assert numChunks > 0 ==> TotalFromNumChunks(numChunks, size) > numChunks by { SomeSector(numChunks, size); }
  }

  lemma SomeSector(numChunks: nat, size: nat)
    requires size > 0
    ensures numChunks > 0 ==> CeilDiv(numChunks, size) > 0
  {
    assert numChunks <= CeilDiv(numChunks, size) * size;
  }

  /** A merge whose last index is as large as it can be. */
  function LargestMerge(size: nat, numChunks: nat, k: nat): (r: seq<int>)
    requires size > 0
    ensures |r| == k
    ensures forall i :: 0 <= i < k ==>
              r[i] == MergedAt(if numChunks < size * (k - 1) then size * (k - 1) - numChunks - 1 else 0, i, k, size,
                               numChunks, TotalFromNumChunks(numChunks, size))
  {
    var value: nat := if numChunks < size * (k - 1) then size * (k - 1) - numChunks - 1 else 0;
    seq(k, i requires 0 <= i < k => MergedAt(value, i, k, size, numChunks, TotalFromNumChunks(numChunks, size)))
  }

  lemma LargestMergeOutside(size: nat, numChunks: nat, k: nat)
    requires size >= 2 && k > 0 && !NumbersFit(size, numChunks, k)
    ensures IsMerge(LargestMerge(size, numChunks, k), size, numChunks)
    ensures LargestMerge(size, numChunks, k)[k - 1] >= TotalFromNumChunks(numChunks, size)
  {
    var r, start, nan := LargestMerge(size, numChunks, k), size * (k - 1), TotalFromNumChunks(numChunks, size);
    MulMono(0, k - 1, size);
    var value: nat := if numChunks < start then start - numChunks - 1 else 0;
    forall i | 0 <= i < k ensures FromDigest(r, i, size, numChunks) {
      assert r[i] == MergedAt(value, i, |r|, size, numChunks, nan);
    }
    LargestReduced(start - numChunks, nan);
    assert r[k - 1] == MergedAt(value, k - 1, k, size, numChunks, nan);
  }

  /** A value below the width is its own remainder. */
  lemma LargestReduced(width: int, nan: int)
    ensures width > 0 ==> Reduced(width - 1, -width, nan) == width - 1
    ensures width == 0 ==> Reduced(0, -width, nan) == nan
  {
  }

  /** Exactly which numbers keep the treasures inside the file, whatever the digests are. */
  lemma TreasuresInsideIff(size: nat, numChunks: nat, k: nat)
    requires size >= 2 && k > 0
    ensures (forall r: seq<int> :: |r| == k && IsMerge(r, size, numChunks) ==>
               AllInside(r, TotalFromNumChunks(numChunks, size)))
            <==> NumbersFit(size, numChunks, k)
  {
    if NumbersFit(size, numChunks, k) {
      forall r: seq<int> | |r| == k && IsMerge(r, size, numChunks)
        ensures AllInside(r, TotalFromNumChunks(numChunks, size))
      {
        forall i | 0 <= i < k ensures 0 <= r[i] < TotalFromNumChunks(numChunks, size) {
          assert FromDigest(r, i, size, numChunks);
          var value: nat, nan: int :| r[i] == MergedAt(value, i, |r|, size, numChunks, nan);
          if i < k - 1 {
            InnerInside(value, i, k, size, numChunks, nan);
          } else {
            LastInside(value, k, size, numChunks, nan);
          }
        }
      }
    } else {
      var r := LargestMerge(size, numChunks, k);
      LargestMergeOutside(size, numChunks, k);
      assert |r| == k && IsMerge(r, size, numChunks) && !AllInside(r, TotalFromNumChunks(numChunks, size));
    }
  }

  /** Consistent numbers can fail, too: 46 chunks in six sectors of 10 make a session of 51 chunks, 0 to 50. */
  lemma TreasureBehindTheEnd()
    ensures var f, r := File(46, 10), [1, 10, 20, 30, 40, 51];
            IsMerge(r, 10, 46) && |r| == f.Sectors() && TotalFromNumChunks(46, 10) == r[5]
  {
    var r := [1, 10, 20, 30, 40, 51];
    CeilUnique(46, 9, 6);
    CeilUnique(46, 10, 5);
    var digests: seq<nat> := [1, 0, 0, 0, 0, 1];
    forall i | 0 <= i < 6 ensures FromDigest(r, i, 10, 46) {
      assert r[i] == MergedAt(digests[i], i, 6, 10, 46, 0);
    }
  }

  // ---- Stretching around merged indexes ----

  /** The merged index of a sector that is not the last one lies in that sector. */
  lemma InnerMerged(f: File, r: seq<int>, i: nat)
    requires f.size >= 2 && IsMerge(r, f.size, f.n) && i < |r| - 1
    ensures 0 < r[i] && i * f.size <= r[i] <= i * f.size + f.size - 1
    ensures 0 < i ==> r[i] >= f.size
  {
    assert FromDigest(r, i, f.size, f.n);
    var value: nat, nan: int :| r[i] == MergedAt(value, i, |r|, f.size, f.n, nan);
    MulMono(0, i, f.size);
    if 0 < i { MulMono(1, i, f.size); }
  }

  /** Where data chunk j lands, the o-th of sector i. */
  lemma LandsAt(offsets: seq<int>, size: nat, i: nat, o: nat, j: nat)
    requires size >= 2 && i < |offsets| && o < size - 1 && j == i * (size - 1) + o
    ensures Transform(j, offsets, size) == Some(j + i + if o >= offsets[i] then 1 else 0)
  {
    DivUnique(j, size - 1, i, o);
  }

  /** The last sector, and how many data chunks it has, which decides where the file ends. */
  lemma LastSector(f: File) returns (k: nat, c: nat)
    requires f.size >= 2 && f.n > 0
    ensures f.Sectors() == k + 1 && 0 < c < f.size
    ensures f.n == k * (f.size - 1) + c && f.Total() == k * f.size + c + 1
    ensures k * f.size == k * (f.size - 1) + k
  {
    k := f.Sectors() - 1;
    c := f.n - k * (f.size - 1);
    WithHoles(k, f.size);
    assert (k + 1) * (f.size - 1) == k * (f.size - 1) + (f.size - 1);
  }

  /** Every treasure but the first sits at the very end of its sector. */
  ghost predicate LastInSectors(f: File, r: seq<int>)
    requires f.size >= 2
  {
    && |r| > 0 && r[|r| - 1] == f.Total() - 1
    && forall i :: 0 < i < |r| - 1 ==> r[i] == i * f.size + f.size - 1
  }

  /** Position x, the o-th of sector i, holds a data chunk when the treasure compares as lying beyond it. */
  lemma HitAt(r: seq<int>, size: nat, i: nat, o: nat, x: nat)
    requires size >= 2 && i < |r| && o < size - 1 && o < r[i] && i <= x && x - i == i * (size - 1) + o
    ensures Transform(x - i, r, size) == Some(x)
  {
    LandsAt(r, size, i, o, x - i);
  }

  /** The slot of a treasure in the middle of its sector. */
  lemma InnerOffset(f: File, r: seq<int>, i: nat) returns (o: nat)
    requires f.size >= 2 && IsMerge(r, f.size, f.n) && |r| == f.Sectors()
    requires 0 < i < |r| - 1 && r[i] < i * f.size + f.size - 1
    ensures o < f.size - 1 && o < r[i] && i <= r[i] && r[i] - i == i * (f.size - 1) + o && r[i] - i < f.n
  {
    InnerMerged(f, r, i);
    WithHoles(i, f.size);
    MulGap(i, |r| - 1, f.size - 1);
    o := r[i] - i * f.size;
  }

  /** Behind the hole of the first sector come data chunks only. */
  lemma FirstSectorHit(f: File, r: seq<int>, x: nat) returns (j: nat)
    requires f.size >= 2 && |r| == f.Sectors() >= 2 && 0 <= r[0] < x < f.size
    ensures j < f.n && Transform(j, r, f.size) == Some(x)
  {
    j := x - 1;
    MulGap(0, |r| - 1, f.size - 1);
    LandsAt(r, f.size, 0, x - 1, j);
  }

  lemma InnerTreasureLast(f: File, r: seq<int>, i: nat)
    requires f.size >= 2 && IsMerge(r, f.size, f.n) && |r| == f.Sectors() && ExactCover(f, r, r)
    requires 0 < i < |r| - 1
    ensures r[i] == i * f.size + f.size - 1
  {
    InnerMerged(f, r, i);
    if r[i] < i * f.size + f.size - 1 {
      var o := InnerOffset(f, r, i);
      HitAt(r, f.size, i, o, r[i]);
    }
  }

  lemma LastTreasureNotInFirst(f: File, r: seq<int>)
    requires f.size >= 2 && IsMerge(r, f.size, f.n) && |r| == f.Sectors() >= 2 && ExactCover(f, r, r)
    ensures f.size <= r[|r| - 1] < f.Total()
  {
    InnerMerged(f, r, 0);
    assert r[0] < r[|r| - 1];
    if r[|r| - 1] < f.size { var j := FirstSectorHit(f, r, r[|r| - 1]); }
  }

  lemma LastTreasureInLastSector(f: File, r: seq<int>, k: nat)
    requires f.size >= 2 && IsMerge(r, f.size, f.n) && |r| == f.Sectors() == k + 1 >= 2 && ExactCover(f, r, r)
    ensures k * f.size <= r[k]
  {
    LastTreasureNotInFirst(f, r);
    SectorOfPosition(f, r[k]);
    var q := r[k] / f.size;
    if q < k {
      if q > 0 { InnerTreasureLast(f, r, q); }
    } else {
      MulMono(k, q, f.size);
    }
  }

  /** The slot of a position in the last sector. */
  lemma LastSlot(size: nat, n: nat, total: nat, k: nat, c: nat, x: nat) returns (o: nat)
    requires size >= 2 && n == k * (size - 1) + c && total == n + k + 1 && k * size <= x < total
    ensures o <= c && k <= x && x - k == k * (size - 1) + o && total - 1 - x == c - o
  {
    WithHoles(k, size);
    o := x - k * size;
  }

  lemma NotHit(f: File, r: seq<int>, i: nat, j: nat)
    requires f.size >= 2 && ExactCover(f, r, r) && i < |r| && j < f.n
    ensures Transform(j, r, f.size) != Some(r[i])
  {
  }

  /** No data chunk is stored where a treasure goes. */
  ghost predicate Missed(f: File, r: seq<int>)
    requires f.size >= 2
  {
    forall i, j :: 0 <= i < |r| && 0 <= j < f.n ==> Transform(j, r, f.size) != Some(r[i])
  }

  lemma CoverMisses(f: File, r: seq<int>)
    requires f.size >= 2 && ExactCover(f, r, r)
    ensures Missed(f, r)
  {
    forall i, j | 0 <= i < |r| && 0 <= j < f.n ensures Transform(j, r, f.size) != Some(r[i]) { NotHit(f, r, i, j); }
  }

  /** So the slot a treasure sits in lies behind the data. */
  lemma SlotBehindData(f: File, r: seq<int>, i: nat, o: nat)
    requires f.size >= 2 && Missed(f, r) && i < |r| && o < f.size - 1 && o < r[i] && i <= r[i]
    requires r[i] - i == i * (f.size - 1) + o
    ensures r[i] - i >= f.n
  {
    HitAt(r, f.size, i, o, r[i]);
  }

  /** The slot of a position in the last sector; only the last position has one behind the data. */
  lemma LastSlotOf(f: File, k: nat, x: nat) returns (o: nat)
    requires f.size >= 2 && f.Sectors() == k + 1 && k * f.size <= x < f.Total()
    ensures k <= x && x - k == k * (f.size - 1) + o
    ensures o < f.size - 1 || x == f.Total() - 1
    ensures x - k >= f.n ==> x == f.Total() - 1
  {
    var k', c := LastSector(f);
    o := LastSlot(f.size, f.n, f.n + k + 1, k, c, x);
  }

  lemma LastMissed(f: File, r: seq<int>, k: nat)
    requires f.size >= 2 && Missed(f, r) && f.Sectors() == |r| == k + 1
    requires f.size <= r[k] < f.Total() && k * f.size <= r[k]
    ensures r[k] == f.Total() - 1
  {
    var o := LastSlotOf(f, k, r[k]);
    if o < f.size - 1 { SlotBehindData(f, r, k, o); }
  }

  lemma LastTreasureLast(f: File, r: seq<int>)
    requires f.size >= 2 && IsMerge(r, f.size, f.n) && |r| == f.Sectors() >= 2 && ExactCover(f, r, r)
    ensures r[|r| - 1] == f.Total() - 1
  {
    LastTreasureNotInFirst(f, r);
    LastTreasureInLastSector(f, r, |r| - 1);
    CoverMisses(f, r);
    LastMissed(f, r, |r| - 1);
  }

  /** The offsets in their sectors of treasures that all but the first sit at the end. */
  function LocalOffsets(r: seq<int>, size: nat): (offsets: seq<int>)
    ensures |offsets| == |r| && forall i :: 0 <= i < |r| ==> offsets[i] == r[i] - i * size
  {
    seq(|r|, i requires 0 <= i < |r| => r[i] - i * size)
  }

  lemma LocalPositions(r: seq<int>, size: nat)
    ensures Positions(LocalOffsets(r, size), size) == r
  {
  }

  lemma LocalOffsetInWindow(f: File, r: seq<int>, i: nat)
    requires f.size >= 2 && IsMerge(r, f.size, f.n) && |r| == f.Sectors() >= 2 && LastInSectors(f, r) && i < |r|
    ensures 0 <= r[i] - i * f.size < f.Window(i)
  {
    if i < |r| - 1 {
      WindowHolds(f, i);
      InnerMerged(f, r, i);
    } else {
      var k, c := LastSector(f);
      LastWindow(f, k, c);
    }
  }

  lemma LastWindow(f: File, k: nat, c: nat)
    requires f.size >= 2 && f.Total() == k * f.size + c + 1 && c < f.size
    ensures f.Window(k) == c + 1
  {
  }

  lemma LocalOffsetsValid(f: File, r: seq<int>)
    requires f.size >= 2 && IsMerge(r, f.size, f.n) && |r| == f.Sectors() >= 2 && LastInSectors(f, r)
    ensures ValidOffsets(f, LocalOffsets(r, f.size))
  {
    forall i | 0 <= i < |r| ensures 0 <= LocalOffsets(r, f.size)[i] < f.Window(i) {
      LocalOffsetInWindow(f, r, i);
    }
  }

  /** Comparing with the absolute index does what comparing with the offset would do. */
  lemma SameComparisonInner(f: File, r: seq<int>, q: nat, o: nat)
    requires f.size >= 2 && 0 < q && q < |r| - 1 && r[q] == q * f.size + f.size - 1 && o < f.size - 1
    ensures o < r[q] && o < r[q] - q * f.size
  {
    MulMono(1, q, f.size);
  }

  lemma SameComparisonLast(f: File, r: seq<int>, k: nat, c: nat, o: nat)
    requires 0 < k == |r| - 1 && r[k] == k * f.size + c && o < c < f.size
    ensures o < r[k] && o < r[k] - k * f.size
  {
    MulMono(1, k, f.size);
  }

  lemma SameComparison(f: File, r: seq<int>, q: nat, o: nat)
    requires f.size >= 2 && IsMerge(r, f.size, f.n) && |r| == f.Sectors() >= 2 && LastInSectors(f, r)
    requires q < |r| && o < f.size - 1 && o < f.n - q * (f.size - 1)
    ensures o >= r[q] <==> o >= r[q] - q * f.size
  {
    if q == 0 {
      assert q * f.size == 0;
    } else if q < |r| - 1 {
      SameComparisonInner(f, r, q, o);
    } else {
      var k, c := LastSector(f);
      SameComparisonLast(f, r, k, c, o);
    }
  }

  lemma SameLanding(f: File, r: seq<int>, j: nat)
    requires f.size >= 2 && IsMerge(r, f.size, f.n) && |r| == f.Sectors() >= 2 && LastInSectors(f, r) && j < f.n
    ensures Transform(j, r, f.size) == Transform(j, LocalOffsets(r, f.size), f.size)
  {
    SectorOf(f, j);
    SameLandingAt(f, r, j / (f.size - 1), j - j / (f.size - 1) * (f.size - 1), j);
  }

  lemma SameLandingAt(f: File, r: seq<int>, q: nat, o: nat, j: nat)
    requires f.size >= 2 && IsMerge(r, f.size, f.n) && |r| == f.Sectors() >= 2 && LastInSectors(f, r) && j < f.n
    requires q < |r| && o < f.size - 1 && j == q * (f.size - 1) + o
    ensures Transform(j, r, f.size) == Transform(j, LocalOffsets(r, f.size), f.size)
  {
    SameComparison(f, r, q, o);
    LandsAt(r, f.size, q, o, j);
    LandsAt(LocalOffsets(r, f.size), f.size, q, o, j);
  }

  lemma SameLandingCover(f: File, a: seq<int>, b: seq<int>, treasures: seq<int>)
    requires f.size >= 2 && ExactCover(f, a, treasures)
    requires forall j :: 0 <= j < f.n ==> Transform(j, b, f.size) == Transform(j, a, f.size)
    ensures ExactCover(f, b, treasures)
  {
    forall p | 0 <= p < f.Total() && p !in treasures
      ensures exists j :: 0 <= j < f.n && Transform(j, b, f.size) == Some(p)
    {
      var j :| 0 <= j < f.n && Transform(j, a, f.size) == Some(p);
      assert Transform(j, b, f.size) == Some(p);
    }
  }

  lemma LastInSectorsCovers(f: File, r: seq<int>)
    requires f.size >= 2 && IsMerge(r, f.size, f.n) && |r| == f.Sectors() >= 2 && LastInSectors(f, r)
    ensures ExactCover(f, r, r)
  {
    LocalOffsetsValid(f, r);
    LocalPositions(r, f.size);
    StretchedIndexesCover(f, LocalOffsets(r, f.size));
    forall j | 0 <= j < f.n ensures Transform(j, r, f.size) == Transform(j, LocalOffsets(r, f.size), f.size) {
      SameLanding(f, r, j);
    }
    SameLandingCover(f, LocalOffsets(r, f.size), r, r);
  }

  lemma SingleSectorCovers(f: File, r: seq<int>)
    requires f.size >= 2 && IsMerge(r, f.size, f.n) && |r| == f.Sectors() == 1
    ensures ExactCover(f, r, r)
  {
    MergedBounds(r, f.size, f.n, 0);
    assert 0 * f.size == 0;
    WindowHolds(f, 0);
    assert r[0] < f.Window(0);
    assert ValidOffsets(f, r);
    StretchedIndexesCover(f, r);
    assert Positions(r, f.size) == r;
  }

  /**
   * Burying at the merged indexes, which are absolute, while stretching compares them as offsets in their
   * sector: for every file and every digest, the file is covered exactly if and only if it has a single
   * sector, or every treasure but the first happens to come last in its sector.
   */
  lemma {:induction false} MergedCoverIff(f: File, r: seq<int>)
    requires f.size >= 2 && IsMerge(r, f.size, f.n) && |r| == f.Sectors()
    ensures ExactCover(f, r, r) <==> |r| == 1 || LastInSectors(f, r)
  {
    if |r| == 1 {
      SingleSectorCovers(f, r);
    } else {
      if ExactCover(f, r, r) {
        forall i | 0 < i < |r| - 1 ensures r[i] == i * f.size + f.size - 1 { InnerTreasureLast(f, r, i); }
        LastTreasureLast(f, r);
      }
      if LastInSectors(f, r) { LastInSectorsCovers(f, r); }
    }
  }

  /** In a file that reaches beyond its last sector's start the last index never comes last: one sector it is. */
  lemma {:induction false} MergedIndexesCoverIff(f: File, r: seq<int>)
    requires f.size >= 2 && IsMerge(r, f.size, f.n) && |r| == f.Sectors() && f.n > f.size * (|r| - 1)
    ensures ExactCover(f, r, r) <==> |r| == 1
  {
    MergedCoverIff(f, r);
    if |r| > 1 {
      MulMono(1, |r| - 1, f.size);
      MergedBelow(r, f.size, f.n);
    }
  }

  /** Several sectors can be covered: 37 chunks in five sectors of 10. */
  lemma FiveSectorsCovered()
    ensures var f, r := File(37, 10), [1, 19, 29, 39, 41];
            IsMerge(r, 10, 37) && |r| == f.Sectors() && ExactCover(f, r, r)
  {
    var f, r := File(37, 10), [1, 19, 29, 39, 41];
    CeilUnique(37, 9, 5);
    var digests: seq<nat> := [1, 9, 9, 9, 1];
    forall i | 0 <= i < 5 ensures FromDigest(r, i, 10, 37) {
      assert r[i] == MergedAt(digests[i], i, 5, 10, 37, 0);
    }
    MergedCoverIff(f, r);
  }

  /** Where in the last sector its merged index lies. */
  lemma LastMerged(f: File, r: seq<int>, k: nat, c: nat) returns (o: nat)
    requires f.size >= 2 && IsMerge(r, f.size, f.n) && f.n > f.size * (|r| - 1) && |r| == k + 1 && k > 0
    requires f.n == k * (f.size - 1) + c && c < f.size && k * f.size == k * (f.size - 1) + k
    ensures k <= r[k] && r[k] - k == k * (f.size - 1) + o && o + k < c && r[k] >= f.size && r[k] - k < f.n
  {
    MergedBounds(r, f.size, f.n, k);
    MulMono(1, k, f.size);
    o := r[k] - k * f.size;
  }

  lemma LastOverwritten(f: File, r: seq<int>, k: nat, c: nat)
    requires f.size >= 2 && IsMerge(r, f.size, f.n) && f.n > f.size * (|r| - 1) && |r| == k + 1 && k > 0
    requires f.n == k * (f.size - 1) + c && c < f.size && k * f.size == k * (f.size - 1) + k
    ensures var j := r[|r| - 1] - (|r| - 1); 0 <= j < f.n && Transform(j, r, f.size) == Some(r[|r| - 1])
  {
    var o := LastMerged(f, r, k, c);
    HitAt(r, f.size, k, o, r[k]);
  }

  /** With two sectors or more, a data chunk of the last sector is stored where the treasure goes. */
  lemma {:induction false} LastTreasureOverwritten(f: File, r: seq<int>)
    requires f.size >= 2 && IsMerge(r, f.size, f.n) && |r| == f.Sectors() && f.n > f.size * (|r| - 1)
    requires |r| >= 2
    ensures var j := r[|r| - 1] - (|r| - 1);
            0 <= j < f.n && Transform(j, r, f.size) == Some(r[|r| - 1])
  {
    var k, c := LastSector(f);
    LastOverwritten(f, r, k, c);
  }
}
