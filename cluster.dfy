/** A cluster on the flowcell (beers/cluster.py): the molecule it was grown
    from, how many copies it holds, and per position the G, A, T and C
    counts from which base calls and quality characters are read. */
module Clusters {
  import opened Wrappers
  import opened Text
  import opened ClusterText
  import opened FlowcellLanes
  import opened Molecules

  /** `Cluster.MIN_ASCII` and `Cluster.MAX_QUALITY`. */
  const MinAscii: int := 33
  const MaxQuality: int := 41

  /** The channel letters in the order of the counts. */
  const Channels: string := "GATC"

  // ---- counts ----

  /** `(encoded == ord(nt)).astype('int32')`: 1 where the sequence has `nt`. */
  function OneHot(s: string, nt: char): seq<int>
  {
    seq(|s|, i requires 0 <= i < |s| => if s[i] == nt then 1 else 0)
  }

  /** The counts a new cluster starts from when none are given. */
  function OneHotCounts(s: string): BaseCounts
  {
    BaseCounts(OneHot(s, 'G'), OneHot(s, 'A'), OneHot(s, 'T'), OneHot(s, 'C'))
  }

  predicate IsBase(c: char) { c == 'G' || c == 'A' || c == 'T' || c == 'C' }

  /** `get_base_counts_by_position`: the G, A, T and C counts at `index`,
      which counts from the end when negative; an index outside a channel
      raises `IndexError`. */
  function PositionCounts(counts: BaseCounts, index: int): (r: Result<seq<int>>)
    ensures r.Ok? <==> -|counts.g| <= index < |counts.g| && -|counts.a| <= index < |counts.a|
                       && -|counts.t| <= index < |counts.t| && -|counts.c| <= index < |counts.c|
    ensures r.Err? ==> r.error == IndexError
    ensures r.Ok? ==> |r.value| == 4
    ensures r.Ok? && 0 <= index ==> r.value == [counts.g[index], counts.a[index], counts.t[index], counts.c[index]]
    ensures r.Ok? && index < 0 ==> r.value == [counts.g[|counts.g| + index], counts.a[|counts.a| + index],
                                                counts.t[|counts.t| + index], counts.c[|counts.c| + index]]
  {
    var g, a, t, c := PyIndex(counts.g, index), PyIndex(counts.a, index), PyIndex(counts.t, index), PyIndex(counts.c, index);
    if g.None? || a.None? || t.None? || c.None? then Err(IndexError)
    else Ok([g.value, a.value, t.value, c.value])
  }

  /** A new cluster's counts: each channel as long as the sequence, and at
      each position 1 in the channel of the base there and 0 elsewhere, so
      nothing at all where the character is not one of G, A, T, C. */
  lemma OneHotAt(s: string, i: int)
    requires 0 <= i < |s|
    ensures PositionCounts(OneHotCounts(s), i).Ok?
    ensures forall k :: 0 <= k < 4 ==>
              PositionCounts(OneHotCounts(s), i).value[k] == (if s[i] == Channels[k] then 1 else 0)
  {
  }

  // ---- one position ----

  /** The largest of the four counts. */
  function Top(c: seq<int>): (top: int)
    requires |c| == 4
    ensures forall j :: 0 <= j < 4 ==> c[j] <= top
    ensures c[0] == top || c[1] == top || c[2] == top || c[3] == top
  {
    Max(Max(c[0], c[1]), Max(c[2], c[3]))
  }

  /** The channel `max` picks: the first that holds the largest count. */
  function Leader(c: seq<int>): (k: nat)
    requires |c| == 4
    ensures k < 4 && c[k] == Top(c)
    ensures forall j :: 0 <= j < k ==> c[j] < Top(c)
  {
    var top := Top(c);
    if c[0] == top then 0 else if c[1] == top then 1 else if c[2] == top then 2 else 3
  }

  function Indicator(b: bool): nat { if b then 1 else 0 }

  /** How many channels hold the largest count: one exactly when the leader
      is strictly above every other channel. */
  function Ties(c: seq<int>): (n: nat)
    requires |c| == 4
    ensures 1 <= n <= 4
    ensures n == 1 <==> forall j :: 0 <= j < 4 && j != Leader(c) ==> c[j] < c[Leader(c)]
  {
    var top := Top(c);
    Indicator(c[0] == top) + Indicator(c[1] == top) + Indicator(c[2] == top) + Indicator(c[3] == top)
  }

  /** The total of the channels other than the leader. */
  function Others(c: seq<int>): int
    requires |c| == 4
  {
    c[0] + c[1] + c[2] + c[3] - c[Leader(c)]
  }

  function Pow(b: nat, k: nat): nat
  {
    if k == 0 then 1 else b * Pow(b, k - 1)
  }

  /** `q <= -10 * log10(o / m)` for positive `o` and `m`, in integers:
      `(o / m)^10 <= 10^-q`. */
  predicate PhredAtLeast(o: nat, m: nat, q: int)
  {
    if q >= 0 then Pow(o, 10) * Pow(10, q) <= Pow(m, 10)
    else Pow(o, 10) <= Pow(m, 10) * Pow(10, -q)
  }

  /** The largest `k` in `[-33, q]` with `PhredAtLeast(o, m, k)`, if any. */
  function PhredSearch(o: nat, m: nat, q: int): (r: Option<int>)
    requires -MinAscii <= q
    ensures r.Some? ==> -MinAscii <= r.value <= q && PhredAtLeast(o, m, r.value)
    ensures r.Some? ==> forall k :: r.value < k <= q ==> !PhredAtLeast(o, m, k)
    ensures r.None? ==> forall k :: -MinAscii <= k <= q ==> !PhredAtLeast(o, m, k)
    decreases q + MinAscii
  {
    if PhredAtLeast(o, m, q) then Some(q)
    else if q == -MinAscii then None
    else PhredSearch(o, m, q - 1)
  }

  lemma {:induction false} PowTenPositive(k: nat)
    ensures Pow(10, k) >= 1
  {
    if k > 0 {
      PowTenPositive(k - 1);
    }
  }

  lemma {:induction false} PowTenMonotone(i: nat, j: nat)
    requires i <= j
    ensures Pow(10, i) <= Pow(10, j)
  {
    if i < j {
      PowTenMonotone(i, j - 1);
      PowTenPositive(j - 1);
    }
  }

  lemma MulMonotone(a: nat, x: nat, y: nat)
    requires x <= y
    ensures a * x <= a * y
  {
  }

  /** A smaller quality value is allowed whenever a larger one is: the
      quality is a floor. */
  lemma PhredAtLeastDown(o: nat, m: nat, q: int, k: int)
    requires PhredAtLeast(o, m, q) && k <= q
    ensures PhredAtLeast(o, m, k)
  {
    var a, b := Pow(o, 10), Pow(m, 10);
    if k >= 0 {
      PowTenMonotone(k, q);
      MulMonotone(a, Pow(10, k), Pow(10, q));
    } else if q >= 0 {
      PowTenPositive(q);
      PowTenPositive(-k);
      MulMonotone(a, 1, Pow(10, q));
      MulMonotone(b, 1, Pow(10, -k));
    } else {
      PowTenMonotone(-q, -k);
      MulMonotone(b, Pow(10, -q), Pow(10, -k));
    }
  }

  /** The quality value found is `min(41, floor(-10 * log10(o / m)))`: every
      value up to it is allowed and none above it up to 41. */
  lemma PhredSearchIsFloor(o: nat, m: nat, v: int)
    requires PhredSearch(o, m, MaxQuality) == Some(v)
    ensures forall k :: k <= v ==> PhredAtLeast(o, m, k)
    ensures forall k :: v < k <= MaxQuality ==> !PhredAtLeast(o, m, k)
  {
    forall k | k <= v
      ensures PhredAtLeast(o, m, k)
    {
      PhredAtLeastDown(o, m, v, k);
    }
  }

  /** `min(41, floor(-10 * log10(others / molecule_count)))` for non-zero
      counts, when `chr` of it plus 33 is a character: a negative ratio has
      no logarithm and a value below -33 has no character, and both raise
      `ValueError`. */
  function QualityValue(others: int, moleculeCount: int): (r: Result<int>)
    requires others != 0 && moleculeCount != 0
    ensures r.Err? <==> (others < 0) != (moleculeCount < 0) || !PhredAtLeast(Abs(others), Abs(moleculeCount), -MinAscii)
    ensures r.Err? ==> r.error == ValueError
    ensures r.Ok? ==> -MinAscii <= r.value <= MaxQuality && PhredAtLeast(Abs(others), Abs(moleculeCount), r.value)
    ensures r.Ok? && r.value < MaxQuality ==> !PhredAtLeast(Abs(others), Abs(moleculeCount), r.value + 1)
  {
    if (others < 0) != (moleculeCount < 0) then Err(ValueError)
    else
      match PhredSearch(Abs(others), Abs(moleculeCount), MaxQuality)
      case None => Err(ValueError)
      case Some(q) =>
        PhredAtLeastDown(Abs(others), Abs(moleculeCount), q, -MinAscii);
        Ok(q)
  }

  /** How a count total divides by the molecule count. The counts a new
      cluster builds are numpy `int32` arrays, whose division by zero yields
      `nan` or `inf` instead of raising; counts read back from text are
      Python integers, whose division by zero raises. */
  datatype Arithmetic = PythonInts | NumpyInts

  /** The call at one position: `N` with quality `!` for a tie at the top,
      otherwise the leading channel's letter and the quality character
      `chr(q + 33)`, with `q` 41 when the other channels hold nothing and
      `QualityValue` of their total otherwise. A zero molecule count raises
      `ZeroDivisionError` on Python integers. On numpy counts `0 / 0` is
      `nan`, which is not 0, so `math.floor(nan)` raises `ValueError`; a
      positive total gives `inf` and `math.floor(-inf)` raises
      `OverflowError`; a negative total gives `-inf`, whose logarithm raises
      `ValueError`. */
  function CallOne(c: seq<int>, moleculeCount: int, arithmetic: Arithmetic): (r: Result<(char, char)>)
    requires |c| == 4
    ensures Ties(c) > 1 ==> r == Ok(('N', '!'))
    ensures Ties(c) == 1 && r.Ok? ==> r.value.0 == Channels[Leader(c)]
    ensures r.Ok? ==> r.value.1 <= 'J'
    ensures Ties(c) == 1 && moleculeCount == 0 && arithmetic == PythonInts ==> r == Err(ZeroDivisionError)
    ensures Ties(c) == 1 && moleculeCount == 0 && arithmetic == NumpyInts && Others(c) > 0 ==> r == Err(OverflowError)
    ensures Ties(c) == 1 && moleculeCount == 0 && arithmetic == NumpyInts && Others(c) <= 0 ==> r == Err(ValueError)
    ensures Ties(c) == 1 && moleculeCount != 0 && Others(c) == 0 ==> r == Ok((Channels[Leader(c)], 'J'))
    ensures Ties(c) == 1 && moleculeCount != 0 && Others(c) != 0 ==>
              (r.Ok? <==> QualityValue(Others(c), moleculeCount).Ok?)
              && (r.Ok? ==> r.value.1 as int == QualityValue(Others(c), moleculeCount).value + MinAscii)
    ensures r.Err? ==> r.error in {ZeroDivisionError, OverflowError, ValueError}
  {
    if Ties(c) > 1 then Ok(('N', MinAscii as char))
    else
      var k := Leader(c);
      var others := Others(c);
      if moleculeCount == 0 then
        if arithmetic == PythonInts then Err(ZeroDivisionError)
        else if others > 0 then Err(OverflowError)
        else Err(ValueError)
      else if others == 0 then Ok((Channels[k], (MaxQuality + MinAscii) as char))
      else
        var q :- QualityValue(others, moleculeCount);
        Ok((Channels[k], (q + MinAscii) as char))
  }

  function Abs(x: int): nat { if x < 0 then -x else x }

  /** The call at one position of the cluster. */
  function CallAt(counts: BaseCounts, moleculeCount: int, arithmetic: Arithmetic, position: int): Result<(char, char)>
  {
    var c :- PositionCounts(counts, position);
    CallOne(c, moleculeCount, arithmetic)
  }

  // ---- a range of positions ----

  /** `read_over_range`: the called bases and quality characters for
      positions `rangeStart .. rangeEnd - 1`; the first position that fails
      ends the read with its error. */
  function ReadRange(counts: BaseCounts, moleculeCount: int, arithmetic: Arithmetic, rangeStart: int, rangeEnd: int): Result<(string, string)>
    decreases rangeEnd - rangeStart
  {
    if rangeEnd <= rangeStart then Ok(("", ""))
    else
      var prefix :- ReadRange(counts, moleculeCount, arithmetic, rangeStart, rangeEnd - 1);
      var call :- CallAt(counts, moleculeCount, arithmetic, rangeEnd - 1);
      Ok((prefix.0 + [call.0], prefix.1 + [call.1]))
  }

  function RangeLength(rangeStart: int, rangeEnd: int): nat
  {
    if rangeStart <= rangeEnd then rangeEnd - rangeStart else 0
  }

  /** A read over a range holds one base and one quality character per
      position, each the call at that position. */
  lemma {:induction false} ReadRangeShape(counts: BaseCounts, moleculeCount: int, arithmetic: Arithmetic, rangeStart: int, rangeEnd: int)
    requires ReadRange(counts, moleculeCount, arithmetic, rangeStart, rangeEnd).Ok?
    ensures var r := ReadRange(counts, moleculeCount, arithmetic, rangeStart, rangeEnd).value;
            |r.0| == RangeLength(rangeStart, rangeEnd) && |r.1| == RangeLength(rangeStart, rangeEnd)
            && forall i :: 0 <= i < |r.0| ==> CallAt(counts, moleculeCount, arithmetic, rangeStart + i) == Ok((r.0[i], r.1[i]))
    decreases rangeEnd - rangeStart
  {
    if rangeStart < rangeEnd {
      ReadRangeShape(counts, moleculeCount, arithmetic, rangeStart, rangeEnd - 1);
    }
  }

  /** A read over a range succeeds exactly when the call at every position
      of the range does. */
  lemma {:induction false} ReadRangeOk(counts: BaseCounts, moleculeCount: int, arithmetic: Arithmetic, rangeStart: int, rangeEnd: int)
    ensures ReadRange(counts, moleculeCount, arithmetic, rangeStart, rangeEnd).Ok?
            <==> forall p :: rangeStart <= p < rangeEnd ==> CallAt(counts, moleculeCount, arithmetic, p).Ok?
    decreases rangeEnd - rangeStart
  {
    if rangeStart < rangeEnd {
      ReadRangeOk(counts, moleculeCount, arithmetic, rangeStart, rangeEnd - 1);
    }
  }

  /** One more position after a prefix that was read without error. */
  lemma ReadRangeStep(counts: BaseCounts, moleculeCount: int, arithmetic: Arithmetic, rangeStart: int, p: int)
    requires rangeStart <= p && ReadRange(counts, moleculeCount, arithmetic, rangeStart, p).Ok?
    ensures var prefix := ReadRange(counts, moleculeCount, arithmetic, rangeStart, p).value;
            var call := CallAt(counts, moleculeCount, arithmetic, p);
            ReadRange(counts, moleculeCount, arithmetic, rangeStart, p + 1)
            == if call.Err? then Err(call.error) else Ok((prefix.0 + [call.value.0], prefix.1 + [call.value.1]))
  {
  }

  /** A read that fails at some position fails the same way over any
      longer range. */
  lemma {:induction false} ReadRangeStops(counts: BaseCounts, moleculeCount: int, arithmetic: Arithmetic, rangeStart: int, p: int, rangeEnd: int)
    requires ReadRange(counts, moleculeCount, arithmetic, rangeStart, p).Err? && p <= rangeEnd
    ensures ReadRange(counts, moleculeCount, arithmetic, rangeStart, rangeEnd) == ReadRange(counts, moleculeCount, arithmetic, rangeStart, p)
    decreases rangeEnd - p
  {
    if p < rangeEnd {
      ReadRangeStops(counts, moleculeCount, arithmetic, rangeStart, p, rangeEnd - 1);
    }
  }

  /** What a new cluster calls for one character of its molecule. */
  function FreshBase(c: char): char { if IsBase(c) then c else 'N' }

  function FreshQuality(c: char): char { if IsBase(c) then 'J' else '!' }

  function FreshBases(s: string): string
  {
    seq(|s|, i requires 0 <= i < |s| => FreshBase(s[i]))
  }

  function FreshQualities(s: string): string
  {
    seq(|s|, i requires 0 <= i < |s| => FreshQuality(s[i]))
  }

  /** With counts built from the molecule and a non-zero molecule count,
      each position calls its own base with the top quality `J`, and a
      character that is not a base is called `N` with quality `!`. */
  lemma FreshCall(s: string, moleculeCount: int, arithmetic: Arithmetic, i: int)
    requires 0 <= i < |s| && moleculeCount != 0
    ensures CallAt(OneHotCounts(s), moleculeCount, arithmetic, i) == Ok((FreshBase(s[i]), FreshQuality(s[i])))
  {
    OneHotAt(s, i);
    var c := PositionCounts(OneHotCounts(s), i).value;
    if IsBase(s[i]) {
      assert Ties(c) == 1;
    } else {
      assert c == [0, 0, 0, 0];
    }
  }

  /** A new cluster whose molecule count is 0 calls a non-base `N` with
      quality `!`, and raises `ValueError` at a base: its numpy counts give
      `0 / 0`, which is `nan`. */
  lemma FreshCallZeroCount(s: string, i: int)
    requires 0 <= i < |s|
    ensures CallAt(OneHotCounts(s), 0, NumpyInts, i) == (if IsBase(s[i]) then Err(ValueError) else Ok(('N', '!')))
  {
    OneHotAt(s, i);
    var c := PositionCounts(OneHotCounts(s), i).value;
    if IsBase(s[i]) {
      assert Ties(c) == 1;
    } else {
      assert c == [0, 0, 0, 0];
    }
  }

  /** A new cluster with a non-zero molecule count reads back its molecule
      over any range inside it, with `N` for characters that are not bases. */
  lemma {:induction false} FreshRead(s: string, moleculeCount: int, arithmetic: Arithmetic, rangeStart: int, rangeEnd: int)
    requires 0 <= rangeStart <= rangeEnd <= |s| && moleculeCount != 0
    ensures ReadRange(OneHotCounts(s), moleculeCount, arithmetic, rangeStart, rangeEnd)
            == Ok((FreshBases(s[rangeStart..rangeEnd]), FreshQualities(s[rangeStart..rangeEnd])))
    decreases rangeEnd - rangeStart
  {
    if rangeStart < rangeEnd {
      FreshRead(s, moleculeCount, arithmetic, rangeStart, rangeEnd - 1);
      FreshCall(s, moleculeCount, arithmetic, rangeEnd - 1);
      var x, y := s[rangeStart..rangeEnd - 1], s[rangeStart..rangeEnd];
      assert y == x + [s[rangeEnd - 1]];
      assert FreshBases(y) == FreshBases(x) + [FreshBase(s[rangeEnd - 1])];
      assert FreshQualities(y) == FreshQualities(x) + [FreshQuality(s[rangeEnd - 1])];
    } else {
      assert FreshBases(s[rangeStart..rangeEnd]) == "";
      assert FreshQualities(s[rangeStart..rangeEnd]) == "";
    }
  }

  // ---- the reads of a cluster ----

  /** `read_in_5_prime_direction` before it appends: the index read over
      `[b[0], b[0] + b[1])` and the template read over the `read_length`
      positions after the adapter. A barcode with fewer than two numbers
      raises `IndexError`. */
  function FivePrimeRead(counts: BaseCounts, moleculeCount: int, arithmetic: Arithmetic, readLength: int, barcodeData: seq<int>,
                         adapterLength: nat): Result<(string, string, string)>
  {
    if |barcodeData| < 2 then Err(IndexError)
    else
      var index :- ReadRange(counts, moleculeCount, arithmetic, barcodeData[0], barcodeData[0] + barcodeData[1]);
      var template :- ReadRange(counts, moleculeCount, arithmetic, adapterLength, adapterLength + readLength);
      Ok((index.0, template.0, template.1))
  }

  /** The 5' read holds a called index as long as the barcode, read over
      the barcode's range, and a called template and quality string
      `read_length` long, read over the positions after the adapter. */
  lemma FivePrimeReadShape(counts: BaseCounts, moleculeCount: int, arithmetic: Arithmetic, readLength: int, barcodeData: seq<int>,
                           adapterLength: nat)
    requires FivePrimeRead(counts, moleculeCount, arithmetic, readLength, barcodeData, adapterLength).Ok?
    ensures var r := FivePrimeRead(counts, moleculeCount, arithmetic, readLength, barcodeData, adapterLength).value;
            var index := ReadRange(counts, moleculeCount, arithmetic, barcodeData[0], barcodeData[0] + barcodeData[1]);
            && index.Ok? && index.value.0 == r.0
            && ReadRange(counts, moleculeCount, arithmetic, adapterLength, adapterLength + readLength) == Ok((r.1, r.2))
            && |r.0| == RangeLength(0, barcodeData[1]) && |r.1| == RangeLength(0, readLength) && |r.2| == |r.1|
  {
    var index := ReadRange(counts, moleculeCount, arithmetic, barcodeData[0], barcodeData[0] + barcodeData[1]).value;
    var template := ReadRange(counts, moleculeCount, arithmetic, adapterLength, adapterLength + readLength).value;
    assert FivePrimeRead(counts, moleculeCount, arithmetic, readLength, barcodeData, adapterLength).value
           == (index.0, template.0, template.1);
    ReadRangeShape(counts, moleculeCount, arithmetic, barcodeData[0], barcodeData[0] + barcodeData[1]);
    ReadRangeShape(counts, moleculeCount, arithmetic, adapterLength, adapterLength + readLength);
  }

  /** `read_in_3_prime_direction` as written: it reads the index over the
      `b[3]` positions that end `b[2]` before the end of the molecule and the
      template over the `read_length` positions that end before the
      adapter, then calls `reverse()` on a `str` and raises
      `AttributeError`, before anything is appended. */
  function ThreePrimeRead(counts: BaseCounts, moleculeCount: int, arithmetic: Arithmetic, moleculeLength: int, readLength: int,
                          barcodeData: seq<int>, adapterLength: nat): (r: Result<()>)
    ensures r.Err?
  {
    if |barcodeData| < 4 then Err(IndexError)
    else
      var indexEnd := moleculeLength - barcodeData[2];
      var index :- ReadRange(counts, moleculeCount, arithmetic, indexEnd - barcodeData[3], indexEnd);
      var templateEnd := moleculeLength - adapterLength;
      var template :- ReadRange(counts, moleculeCount, arithmetic, templateEnd - readLength, templateEnd);
      Err(AttributeError)
  }

  /** The 3' read fails on the `reverse()` call exactly when both of its
      ranges were read. */
  lemma ThreePrimeReadFails(counts: BaseCounts, moleculeCount: int, arithmetic: Arithmetic, moleculeLength: int, readLength: int,
                            barcodeData: seq<int>, adapterLength: nat)
    ensures ThreePrimeRead(counts, moleculeCount, arithmetic, moleculeLength, readLength, barcodeData, adapterLength)
            == Err(AttributeError)
            <==> |barcodeData| >= 4
                 && ReadRange(counts, moleculeCount, arithmetic, moleculeLength - barcodeData[2] - barcodeData[3],
                              moleculeLength - barcodeData[2]).Ok?
                 && ReadRange(counts, moleculeCount, arithmetic, moleculeLength - adapterLength - readLength,
                              moleculeLength - adapterLength).Ok?
  {
    if |barcodeData| >= 4 {
      var indexEnd := moleculeLength - barcodeData[2];
      var index := ReadRange(counts, moleculeCount, arithmetic, indexEnd - barcodeData[3], indexEnd);
      if index.Err? {
        ReadRangeErr(counts, moleculeCount, arithmetic, indexEnd - barcodeData[3], indexEnd);
      } else {
        var templateEnd := moleculeLength - adapterLength;
        ReadRangeErr(counts, moleculeCount, arithmetic, templateEnd - readLength, templateEnd);
      }
    }
  }

  /** A read over a range fails only with the error of a position call. */
  lemma {:induction false} ReadRangeErr(counts: BaseCounts, moleculeCount: int, arithmetic: Arithmetic, rangeStart: int, rangeEnd: int)
    ensures ReadRange(counts, moleculeCount, arithmetic, rangeStart, rangeEnd).Err? ==>
              var e := ReadRange(counts, moleculeCount, arithmetic, rangeStart, rangeEnd).error;
              e == IndexError || e == ZeroDivisionError || e == OverflowError || e == ValueError
    decreases rangeEnd - rangeStart
  {
    if rangeStart < rangeEnd {
      ReadRangeErr(counts, moleculeCount, arithmetic, rangeStart, rangeEnd - 1);
    }
  }

  predicate AllAscii(s: string) { forall i :: 0 <= i < |s| ==> s[i] as int < 128 }

  /** What `Molecule.deserialize` yields: the arguments of the molecule's
      constructor. */
  type MoleculeFields = (MoleculeId, string, Option<int>, Option<string>)

  class Cluster {
    const runId: int
    const clusterId: PyValue
    const molecule: Molecule
    const lane: int
    const coordinates: LaneCoordinates
    const moleculeCount: int
    const diameter: int
    const forward: PyValue
    const baseCounts: BaseCounts
    const arithmetic: Arithmetic
    var calledSequences: seq<string>
    var calledIndices: seq<string>
    var qualityScores: seq<string>

    constructor (runId: int, clusterId: PyValue, molecule: Molecule, lane: int, coordinates: LaneCoordinates,
                 moleculeCount: int, diameter: int, calledSequences: seq<string>, calledIndices: seq<string>,
                 qualityScores: seq<string>, baseCounts: BaseCounts, arithmetic: Arithmetic, forward: PyValue)
      ensures this.arithmetic == arithmetic
      ensures this.runId == runId && this.clusterId == clusterId && this.molecule == molecule
      ensures this.lane == lane && this.coordinates == coordinates && this.moleculeCount == moleculeCount
      ensures this.diameter == diameter && this.forward == forward && this.baseCounts == baseCounts
      ensures this.calledSequences == calledSequences && this.calledIndices == calledIndices
      ensures this.qualityScores == qualityScores
    {
      this.runId := runId;
      this.clusterId := clusterId;
      this.molecule := molecule;
      this.lane := lane;
      this.coordinates := coordinates;
      this.moleculeCount := moleculeCount;
      this.diameter := diameter;
      this.forward := forward;
      this.baseCounts := baseCounts;
      this.arithmetic := arithmetic;
      this.calledSequences := calledSequences;
      this.calledIndices := calledIndices;
      this.qualityScores := qualityScores;
    }

    /** `Cluster(...)`: the molecule's sequence must encode as ASCII
        (`UnicodeEncodeError` otherwise); the given counts are kept, and
        without them each channel is the one-hot vector of its base. */
    static method New(runId: int, clusterId: PyValue, molecule: Molecule, lane: int, coordinates: LaneCoordinates,
                      moleculeCount: int, diameter: int, calledSequences: seq<string>, calledIndices: seq<string>,
                      qualityScores: seq<string>, baseCounts: Option<BaseCounts>, forward: PyValue)
      returns (r: Result<Cluster>)
      ensures r.Ok? <==> AllAscii(molecule.sequence)
      ensures r.Err? ==> r.error == UnicodeEncodeError
      ensures r.Ok? ==> fresh(r.value)
      ensures r.Ok? ==> r.value.baseCounts == (if baseCounts.Some? then baseCounts.value else OneHotCounts(molecule.sequence))
      ensures r.Ok? ==> r.value.arithmetic == (if baseCounts.Some? then PythonInts else NumpyInts)
      ensures r.Ok? ==> r.value.runId == runId && r.value.clusterId == clusterId && r.value.molecule == molecule
      ensures r.Ok? ==> r.value.lane == lane && r.value.coordinates == coordinates
      ensures r.Ok? ==> r.value.moleculeCount == moleculeCount && r.value.diameter == diameter && r.value.forward == forward
      ensures r.Ok? ==> r.value.calledSequences == calledSequences && r.value.calledIndices == calledIndices
      ensures r.Ok? ==> r.value.qualityScores == qualityScores
    {
      if !AllAscii(molecule.sequence) {
        return Err(UnicodeEncodeError);
      }
      var counts, arithmetic := OneHotCounts(molecule.sequence), NumpyInts;
      if baseCounts.Some? {
        counts, arithmetic := baseCounts.value, PythonInts;
      }
      var c := new Cluster(runId, clusterId, molecule, lane, coordinates, moleculeCount, diameter,
                           calledSequences, calledIndices, qualityScores, counts, arithmetic, forward);
      r := Ok(c);
    }

    /** `read_over_range`, position by position. */
    method ReadOverRange(rangeStart: int, rangeEnd: int) returns (r: Result<(string, string)>)
      ensures r == ReadRange(baseCounts, moleculeCount, arithmetic, rangeStart, rangeEnd)
    {
      var calledBases, qualities := "", "";
      var position := rangeStart;
      while position < rangeEnd
        invariant position == rangeStart || rangeStart < position <= rangeEnd
        invariant ReadRange(baseCounts, moleculeCount, arithmetic, rangeStart, position) == Ok((calledBases, qualities))
        decreases rangeEnd - position
      {
        var call := CallAt(baseCounts, moleculeCount, arithmetic, position);
        ReadRangeStep(baseCounts, moleculeCount, arithmetic, rangeStart, position);
        if call.Err? {
          ReadRangeStops(baseCounts, moleculeCount, arithmetic, rangeStart, position + 1, rangeEnd);
          return Err(call.error);
        }
        calledBases := calledBases + [call.value.0];
        qualities := qualities + [call.value.1];
        position := position + 1;
      }
      r := Ok((calledBases, qualities));
    }

    /** `read_in_5_prime_direction`: one more entry in each of the called
        sequences, indices and quality strings, or no change at all. */
    method ReadIn5PrimeDirection(readLength: int, barcodeData: seq<int>, adapterSequence: string) returns (r: Result<()>)
      modifies this
      ensures var read := FivePrimeRead(baseCounts, moleculeCount, arithmetic, readLength, barcodeData, |adapterSequence|);
              if read.Ok? then
                r == Ok(()) && calledSequences == old(calledSequences) + [read.value.1]
                && calledIndices == old(calledIndices) + [read.value.0]
                && qualityScores == old(qualityScores) + [read.value.2]
              else
                r == Err(read.error) && calledSequences == old(calledSequences)
                && calledIndices == old(calledIndices) && qualityScores == old(qualityScores)
    {
      if |barcodeData| < 2 {
        return Err(IndexError);
      }
      var rangeStart := barcodeData[0];
      var rangeEnd := barcodeData[0] + barcodeData[1];
      var index := ReadOverRange(rangeStart, rangeEnd);
      if index.Err? {
        return Err(index.error);
      }
      rangeStart := |adapterSequence|;
      rangeEnd := rangeStart + readLength;
      var template := ReadOverRange(rangeStart, rangeEnd);
      if template.Err? {
        return Err(template.error);
      }
      qualityScores := qualityScores + [template.value.1];
      calledSequences := calledSequences + [template.value.0];
      calledIndices := calledIndices + [index.value.0];
      r := Ok(());
    }

    /** `read_in_3_prime_direction` as written; see `ThreePrimeRead`. */
    method ReadIn3PrimeDirection(readLength: int, barcodeData: seq<int>, adapterSequence: string) returns (r: Result<()>)
      ensures r == ThreePrimeRead(baseCounts, moleculeCount, arithmetic, |molecule.sequence|, readLength, barcodeData, |adapterSequence|)
    {
      if |barcodeData| < 4 {
        return Err(IndexError);
      }
      var rangeEnd := |molecule.sequence| - barcodeData[2];
      var rangeStart := rangeEnd - barcodeData[3];
      var index := ReadOverRange(rangeStart, rangeEnd);
      if index.Err? {
        return Err(index.error);
      }
      rangeEnd := |molecule.sequence| - |adapterSequence|;
      rangeStart := rangeEnd - readLength;
      var template := ReadOverRange(rangeStart, rangeEnd);
      if template.Err? {
        return Err(template.error);
      }
      // `quality_scores.reverse()` on the string just read
      r := Err(AttributeError);
    }

    /** `read`: the 5' read first when the forward direction is the 5' end,
        otherwise the 3' read first; the other read only for paired ends.
        A list of adapters too short for the read raises `IndexError`. */
    method Read(readLength: int, pairedEnds: bool, barcodeData: seq<int>, adapterSequences: seq<string>)
      returns (r: Result<()>)
      modifies this
      ensures Truthy(forward) && |adapterSequences| >= 1
              && FivePrimeRead(baseCounts, moleculeCount, arithmetic, readLength, barcodeData, |adapterSequences[0]|).Ok? ==>
                var read := FivePrimeRead(baseCounts, moleculeCount, arithmetic, readLength, barcodeData, |adapterSequences[0]|).value;
                calledSequences == old(calledSequences) + [read.1] && calledIndices == old(calledIndices) + [read.0]
                && qualityScores == old(qualityScores) + [read.2]
                && r == (if !pairedEnds then Ok(())
                         else if |adapterSequences| < 2 then Err(IndexError)
                         else ThreePrimeRead(baseCounts, moleculeCount, arithmetic, |molecule.sequence|, readLength, barcodeData,
                                             |adapterSequences[1]|))
      ensures Truthy(forward) && |adapterSequences| >= 1
              && FivePrimeRead(baseCounts, moleculeCount, arithmetic, readLength, barcodeData, |adapterSequences[0]|).Err? ==>
                r == Err(FivePrimeRead(baseCounts, moleculeCount, arithmetic, readLength, barcodeData, |adapterSequences[0]|).error)
                && calledSequences == old(calledSequences) && calledIndices == old(calledIndices)
                && qualityScores == old(qualityScores)
      ensures !Truthy(forward) || |adapterSequences| == 0 ==>
                calledSequences == old(calledSequences) && calledIndices == old(calledIndices)
                && qualityScores == old(qualityScores)
      ensures Truthy(forward) && |adapterSequences| == 0 ==> r == Err(IndexError)
      ensures !Truthy(forward) ==>
                r == (if |adapterSequences| < 2 then Err(IndexError)
                      else ThreePrimeRead(baseCounts, moleculeCount, arithmetic, |molecule.sequence|, readLength, barcodeData,
                                          |adapterSequences[1]|))
    {
      if Truthy(forward) {
        if |adapterSequences| < 1 {
          return Err(IndexError);
        }
        r := ReadIn5PrimeDirection(readLength, barcodeData, adapterSequences[0]);
        if r.Err? || !pairedEnds {
          return;
        }
        if |adapterSequences| < 2 {
          return Err(IndexError);
        }
        r := ReadIn3PrimeDirection(readLength, barcodeData, adapterSequences[1]);
      } else {
        if |adapterSequences| < 2 {
          return Err(IndexError);
        }
        // The 3' read always raises (see `ThreePrimeRead`), so the 5' read
        // that would follow it for paired ends is never reached.
        r := ReadIn3PrimeDirection(readLength, barcodeData, adapterSequences[1]);
      }
    }

    /** The record `serialize` writes, given the lines the coordinates and
        the molecule serialise to. */
    function Record(coordinatesText: string, moleculeText: string): ClusterRecord
      reads this
    {
      ClusterRecord(clusterId, runId, moleculeCount, diameter, lane, forward, coordinatesText, moleculeText,
                    calledSequences, calledIndices, qualityScores, baseCounts)
    }

    /** `serialize`, with the text of `coordinates.serialize()` and
        `molecule.serialize()`, whose classes are not part of this model, as
        parameters: the record, with one counts line per molecule position. */
    method Serialize(coordinatesText: string, moleculeText: string) returns (r: Result<string>)
      ensures r == RecordText(Record(coordinatesText, moleculeText), |molecule.sequence|)
    {
      var record := Record(coordinatesText, moleculeText);
      var head := [HeaderLine(record), "#" + coordinatesText, "#" + moleculeText];
      var output := HeaderLine(record) + "\n" + ("#" + coordinatesText) + "\n" + ("#" + moleculeText) + "\n";
      TerminatedHead(head);
      ghost var rows := |molecule.sequence|;
      ghost var calledLines := CalledLines(calledSequences, calledIndices, qualityScores);
      ghost var countLines := CountLines(baseCounts, rows);
      var called := WriteCalledLines();
      if called.Err? {
        assert RecordLines(record, rows) == Err(called.error);
        return Err(called.error);
      }
      output := output + called.value;
      var counts := WriteCountLines();
      if counts.Err? {
        assert RecordLines(record, rows) == Err(counts.error);
        return Err(counts.error);
      }
      output := output + counts.value;
      TerminatedAppend(head, calledLines.value);
      TerminatedAppend(head + calledLines.value, countLines.value);
      assert RecordLines(record, rows) == Ok(head + calledLines.value + countLines.value);
      r := Ok(output);
    }

    /** The `##` lines of `serialize`, one per called sequence. */
    method WriteCalledLines() returns (r: Result<string>)
      ensures var lines := CalledLines(calledSequences, calledIndices, qualityScores);
              if lines.Ok? then r == Ok(Terminated(lines.value)) else r == Err(lines.error)
    {
      var output := "";
      var index := 0;
      while index < |calledSequences|
        invariant 0 <= index <= |calledSequences| && index <= |calledIndices| && index <= |qualityScores|
        invariant CalledLines(calledSequences[..index], calledIndices, qualityScores).Ok?
        invariant output == Terminated(CalledLines(calledSequences[..index], calledIndices, qualityScores).value)
      {
        if index >= |calledIndices| || index >= |qualityScores| {
          return Err(IndexError);
        }
        ghost var done := CalledLines(calledSequences[..index], calledIndices, qualityScores).value;
        var line := CalledLine(calledSequences[index], calledIndices[index], qualityScores[index]);
        CalledLinesSnoc(calledSequences[..index], calledSequences[index], calledIndices, qualityScores);
        assert calledSequences[..index] + [calledSequences[index]] == calledSequences[..index + 1];
        TerminatedAppend(done, [line]);
        output := output + line + "\n";
        index := index + 1;
      }
      assert calledSequences[..index] == calledSequences;
      r := Ok(output);
    }

    /** The counts lines of `serialize`, one per molecule position. */
    method WriteCountLines() returns (r: Result<string>)
      ensures var lines := CountLines(baseCounts, |molecule.sequence|);
              if lines.Ok? then r == Ok(Terminated(lines.value)) else r == Err(lines.error)
    {
      var counts := "";
      var position := 0;
      while position < |molecule.sequence|
        invariant 0 <= position <= |molecule.sequence|
        invariant CountLines(baseCounts, position).Ok?
        invariant counts == Terminated(CountLines(baseCounts, position).value)
      {
        var positionCounts := PositionCounts(baseCounts, position);
        if positionCounts.Err? {
          CountLinesStop(baseCounts, position, |molecule.sequence|);
          return Err(IndexError);
        }
        ghost var done := CountLines(baseCounts, position).value;
        var c := positionCounts.value;
        var line := CountLine(c[0], c[1], c[2], c[3]);
        TerminatedAppend(done, [line]);
        counts := counts + line + "\n";
        position := position + 1;
      }
      r := Ok(counts);
    }

    /** The line-by-line loop of `deserialize`: each line's effect on the
        fields read so far, stopping at the first line that fails, then the
        record those fields make. */
    static method ReadRecord(data: string) returns (r: Result<ClusterRecord>)
      ensures r == ParseRecord(data)
    {
      var lines := Split(RStrip(data), '\n');
      assert lines == RecordTextLines(data);
      ghost var effects := LineEffects(lines);
      var state := EmptyState;
      var lineNumber := 0;
      while lineNumber < |lines|
        invariant 0 <= lineNumber <= |lines|
        invariant ApplyAll(EmptyState, effects[..lineNumber]) == Ok(state)
      {
        var effect := LineEffectOf(lineNumber, lines[lineNumber]);
        assert effect == effects[lineNumber];
        var next := Apply(state, effect);
        ReadStep(effects, lineNumber, state);
        if next.Err? {
          return Err(next.error);
        }
        state := next.value;
        lineNumber := lineNumber + 1;
      }
      assert effects[..lineNumber] == effects;
      r := Build(state);
    }

    /** `deserialize`, with what the coordinates' and the molecule's own
        `deserialize` make of their lines as parameters: the record the text
        holds read line by line, then the cluster built from it. */
    static method Deserialize(data: string, decodeCoordinates: string -> LaneCoordinates,
                              decodeMolecule: string -> MoleculeFields) returns (r: Result<Cluster>)
      ensures ParseRecord(data).Err? ==> r == Err(ParseRecord(data).error)
      ensures ParseRecord(data).Ok? ==>
                var record := ParseRecord(data).value;
                var fields := decodeMolecule(record.moleculeText);
                (r.Ok? <==> AllAscii(Strip(fields.1)))
                && (r.Err? ==> r.error == UnicodeEncodeError)
                && (r.Ok? ==>
                      (fresh(r.value) && fresh(r.value.molecule)
                       && r.value.Record(record.coordinatesText, record.moleculeText) == record
                       && r.value.coordinates == decodeCoordinates(record.coordinatesText)
                       && r.value.arithmetic == PythonInts
                       && r.value.molecule.moleculeId == fields.0 && r.value.molecule.sequence == Strip(fields.1)
                       && r.value.molecule.start == fields.2 && r.value.molecule.cigar == fields.3))
    {
      var record := ReadRecord(data);
      if record.Err? {
        return Err(record.error);
      }
      var rec := record.value;
      var fields := decodeMolecule(rec.moleculeText);
      var m := new Molecule(fields.0, fields.1, fields.2, fields.3);
      r := New(rec.runId, rec.clusterId, m, rec.lane, decodeCoordinates(rec.coordinatesText), rec.moleculeCount,
               rec.diameter, rec.calledSequences, rec.calledIndices, rec.qualityScores, Some(rec.counts), rec.forward);
    }
  }

  /** One more line's effect: the fields read so far change by it, or the
      whole text fails as that line does. */
  lemma ReadStep(effects: seq<LineEffect>, i: nat, state: ParseState)
    requires i < |effects| && ApplyAll(EmptyState, effects[..i]) == Ok(state)
    ensures ApplyAll(EmptyState, effects[..i + 1]) == Apply(state, effects[i])
    ensures Apply(state, effects[i]).Err? ==> ApplyAll(EmptyState, effects) == Apply(state, effects[i])
  {
    assert effects[..i + 1] == effects[..i] + [effects[i]];
    ApplyAllSnoc(EmptyState, effects[..i], effects[i], state);
    if Apply(state, effects[i]).Err? {
      ApplyAllStops(EmptyState, effects[..i + 1], effects[i + 1..]);
      assert effects[..i + 1] + effects[i + 1..] == effects;
    }
  }

  lemma CountLinesStop(counts: BaseCounts, position: nat, rows: nat)
    requires position < rows
    requires !(position < |counts.g| && position < |counts.a| && position < |counts.t| && position < |counts.c|)
    ensures CountLines(counts, rows) == Err(IndexError)
  {
  }

  lemma TerminatedHead(head: seq<string>)
    requires |head| == 3
    ensures Terminated(head) == head[0] + "\n" + head[1] + "\n" + head[2] + "\n"
  {
    var a, b, c := head[1..], head[1..][1..], head[1..][1..][1..];
    assert c == [];
    assert Terminated(b) == head[2] + "\n";
    assert Terminated(a) == head[1] + "\n" + Terminated(b);
  }
}
