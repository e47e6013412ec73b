/** The flowcell (beers/flowcell.py): its geometry, taken from the
    configuration or folded from the coordinates in FASTQ headers; the lanes
    it uses, each with the coordinates already handed out; the random choice
    of fresh coordinates for a lane; and the conversion of a packet of
    molecules into a packet of clusters apportioned over the lanes. */
module Flowcells {
  import opened Wrappers
  import opened Text
  import opened RunIds
  import opened FlowcellLanes
  import opened Molecules
  import opened ClusterText
  import opened Clusters
  import opened Packets

  /** One value per axis: the flowcell keeps a minimum and a maximum extent. */
  datatype Extent = Extent(lane: int, tile: int, x: int, y: int)

  /** The starting extents, which any real header coordinate replaces. */
  const InitialMin := Extent(10000, 10000, 10000, 10000)
  const InitialMax := Extent(0, 0, 0, 0)

  const MaxAttempts := 100
  const ExhaustedMessage := "Unable to find unused flowcell coordinates after 100 attempts."

  /** A lane in use and the coordinates handed out in it so far
      (`FlowcellLane`). */
  datatype LaneState = LaneState(lane: int, consumed: seq<LaneCoordinates>)

  predicate NoDuplicates<T(==)>(s: seq<T>)
  {
    forall i, j :: 0 <= i < j < |s| ==> s[i] != s[j]
  }

  /** The coordinates lie inside the inclusive tile, x and y ranges. */
  predicate Within(lo: Extent, hi: Extent, c: LaneCoordinates)
  {
    lo.tile <= c.tile <= hi.tile && lo.x <= c.x <= hi.x && lo.y <= c.y <= hi.y
  }

  // ---------------------------------------------------------------------
  // Geometry from FASTQ headers
  // ---------------------------------------------------------------------

  /** `\w` on ASCII text. */
  predicate IsWordChar(c: char)
  {
    'a' <= c <= 'z' || 'A' <= c <= 'Z' || IsDigit(c) || c == '_'
  }

  predicate IsWord(s: string)
  {
    |s| >= 1 && forall i :: 0 <= i < |s| ==> IsWordChar(s[i])
  }

  predicate IsNumber(s: string)
  {
    |s| >= 1 && AllDigits(s)
  }

  /** Where `$` may close a match: at the end, or before one final newline. */
  function BeforeFinalNewline(s: string): (t: string)
    ensures t == s || (s == t + "\n")
  {
    if s != [] && s[|s| - 1] == '\n' then s[..|s| - 1] else s
  }

  /** `coords_match_pattern`, `^.*:(\w+):(\d+):(\d+):(\d+):(\d+)$`, applied
      with `re.match`: the last five colon-separated fields are a flowcell
      name and four numbers (lane, tile, x, y), at least one field precedes
      them, and no newline occurs except one at the very end. */
  function MatchCoordinates(identifier: string): Option<Extent>
  {
    var t := BeforeFinalNewline(identifier);
    var parts := Split(t, ':');
    var n := |parts|;
    if '\n' !in t && n >= 6 && IsWord(parts[n - 5]) && IsNumber(parts[n - 4]) && IsNumber(parts[n - 3])
       && IsNumber(parts[n - 2]) && IsNumber(parts[n - 1])
    then Some(Extent(DigitsValue(parts[n - 4]), DigitsValue(parts[n - 3]), DigitsValue(parts[n - 2]),
                     DigitsValue(parts[n - 1])))
    else None
  }

  /** `header.split(" ")[0]`. */
  function SequenceIdentifier(header: string): string
  {
    Split(header, ' ')[0]
  }

  function HeaderCoordinates(header: string): Option<Extent>
  {
    MatchCoordinates(SequenceIdentifier(header))
  }

  lemma {:induction false} JoinAvoids(parts: seq<string>, sep: string, c: char)
    requires c !in sep
    requires forall k :: 0 <= k < |parts| ==> c !in parts[k]
    ensures c !in Join(parts, sep)
  {
    if |parts| > 1 {
      JoinAvoids(parts[1..], sep, c);
    }
  }

  /** The fields of a sequence identifier: whatever precedes, then a
      flowcell name and the decimal lane, tile, x and y. */
  function IdentifierFields(prefix: seq<string>, flowcell: string, c: Extent): seq<string>
    requires c.lane >= 0 && c.tile >= 0 && c.x >= 0 && c.y >= 0
  {
    prefix + [flowcell, NatToString(c.lane), NatToString(c.tile), NatToString(c.x), NatToString(c.y)]
  }

  lemma FieldsEnd(prefix: seq<string>, flowcell: string, c: Extent)
    requires c.lane >= 0 && c.tile >= 0 && c.x >= 0 && c.y >= 0
    ensures var parts := IdentifierFields(prefix, flowcell, c);
            var n := |parts|;
            n == |prefix| + 5 && parts[n - 5] == flowcell && parts[n - 4] == NatToString(c.lane)
            && parts[n - 3] == NatToString(c.tile) && parts[n - 2] == NatToString(c.x) && parts[n - 1] == NatToString(c.y)
  {
  }

  lemma FieldsAvoid(prefix: seq<string>, flowcell: string, c: Extent)
    requires forall k :: 0 <= k < |prefix| ==> ':' !in prefix[k] && '\n' !in prefix[k]
    requires IsWord(flowcell)
    requires c.lane >= 0 && c.tile >= 0 && c.x >= 0 && c.y >= 0
    ensures forall k :: 0 <= k < |IdentifierFields(prefix, flowcell, c)| ==>
              ':' !in IdentifierFields(prefix, flowcell, c)[k] && '\n' !in IdentifierFields(prefix, flowcell, c)[k]
  {
    var parts := IdentifierFields(prefix, flowcell, c);
    forall k | |prefix| <= k < |parts|
      ensures ':' !in parts[k] && '\n' !in parts[k]
    {
      var f := parts[k];
      if k > |prefix| {
        assert AllDigits(f);
      }
      assert forall i :: 0 <= i < |f| ==> IsWordChar(f[i]);
    }
    assert forall k :: 0 <= k < |prefix| ==> parts[k] == prefix[k];
  }

  /** The last character of a joined text is the last character of its
      last field. */
  lemma JoinLast(parts: seq<string>, sep: string)
    requires |parts| >= 2 && parts[|parts| - 1] != []
    ensures Join(parts, sep) != [] && Join(parts, sep)[|Join(parts, sep)| - 1] == parts[|parts| - 1][|parts[|parts| - 1]| - 1]
  {
    JoinSnoc(parts[..|parts| - 1], parts[|parts| - 1], sep);
    assert parts[..|parts| - 1] + [parts[|parts| - 1]] == parts;
  }

  /** The match on a text whose fields are known. */
  lemma MatchOfFields(identifier: string, t: string, parts: seq<string>)
    requires BeforeFinalNewline(identifier) == t && '\n' !in t && Split(t, ':') == parts
    requires |parts| >= 6 && IsWord(parts[|parts| - 5])
    requires IsNumber(parts[|parts| - 4]) && IsNumber(parts[|parts| - 3])
    requires IsNumber(parts[|parts| - 2]) && IsNumber(parts[|parts| - 1])
    ensures MatchCoordinates(identifier)
            == Some(Extent(DigitsValue(parts[|parts| - 4]), DigitsValue(parts[|parts| - 3]),
                           DigitsValue(parts[|parts| - 2]), DigitsValue(parts[|parts| - 1])))
  {
  }

  /** A sequence identifier written as colon-separated fields ending in a
      flowcell name and the decimal lane, tile, x and y is matched, with or
      without the line's newline, and yields exactly those numbers. */
  lemma MatchWrittenIdentifier(prefix: seq<string>, flowcell: string, c: Extent, ending: string)
    requires |prefix| >= 1
    requires forall k :: 0 <= k < |prefix| ==> ':' !in prefix[k] && '\n' !in prefix[k]
    requires IsWord(flowcell)
    requires c.lane >= 0 && c.tile >= 0 && c.x >= 0 && c.y >= 0
    requires ending == "" || ending == "\n"
    ensures MatchCoordinates(Join(IdentifierFields(prefix, flowcell, c), ":") + ending) == Some(c)
  {
    var parts := IdentifierFields(prefix, flowcell, c);
    var t := Join(parts, ":");
    var n := |parts|;
    FieldsAvoid(prefix, flowcell, c);
    JoinAvoids(parts, ":", '\n');
    SplitJoin(parts, ':');
    JoinLast(parts, ":");
    assert BeforeFinalNewline(t + ending) == t by {
      if ending == "\n" {
        assert (t + ending)[..|t + ending| - 1] == t;
      } else {
        assert t + ending == t;
      }
    }
    FieldsEnd(prefix, flowcell, c);
    MatchOfFields(t + ending, t, parts);
    DigitsValueOfNatToString(c.lane);
    DigitsValueOfNatToString(c.tile);
    DigitsValueOfNatToString(c.x);
    DigitsValueOfNatToString(c.y);
  }

  function MinExtent(a: Extent, c: Extent): Extent
  {
    Extent(Min(a.lane, c.lane), Min(a.tile, c.tile), Min(a.x, c.x), Min(a.y, c.y))
  }

  function MaxExtent(a: Extent, c: Extent): Extent
  {
    Extent(Max(a.lane, c.lane), Max(a.tile, c.tile), Max(a.x, c.x), Max(a.y, c.y))
  }

  /** Every axis of `a` is at most the same axis of `b`. */
  predicate Below(a: Extent, b: Extent)
  {
    a.lane <= b.lane && a.tile <= b.tile && a.x <= b.x && a.y <= b.y
  }

  /** What the pattern finds in each header. */
  function FoundCoordinates(headers: seq<string>): (found: seq<Option<Extent>>)
    ensures |found| == |headers|
    ensures forall i :: 0 <= i < |headers| ==> found[i] == HeaderCoordinates(headers[i])
  {
    seq(|headers|, i requires 0 <= i < |headers| => HeaderCoordinates(headers[i]))
  }

  /** The ranges after `get_coordinate_ranges` has seen headers yielding
      `found`, starting from `lo` and `hi`: each matching header widens every
      axis to include its value. */
  function FoldRanges(lo: Extent, hi: Extent, found: seq<Option<Extent>>): (Extent, Extent)
    decreases |found|
  {
    if found == [] then (lo, hi)
    else
      var ranges := FoldRanges(lo, hi, found[..|found| - 1]);
      match found[|found| - 1]
      case None => ranges
      case Some(c) => (MinExtent(ranges.0, c), MaxExtent(ranges.1, c))
  }

  lemma FoldRangesStep(lo: Extent, hi: Extent, found: seq<Option<Extent>>, n: nat)
    requires n < |found|
    ensures FoldRanges(lo, hi, found[..n + 1])
            == match found[n]
               case None => FoldRanges(lo, hi, found[..n])
               case Some(c) => (MinExtent(FoldRanges(lo, hi, found[..n]).0, c), MaxExtent(FoldRanges(lo, hi, found[..n]).1, c))
  {
    assert found[..n + 1][..n] == found[..n];
  }

  /** The folded ranges include the starting ranges and every coordinate
      of every matching header. */
  lemma {:induction false} FoldRangesCover(lo: Extent, hi: Extent, found: seq<Option<Extent>>)
    ensures Below(FoldRanges(lo, hi, found).0, lo) && Below(hi, FoldRanges(lo, hi, found).1)
    ensures forall i :: 0 <= i < |found| && found[i].Some? ==>
              Below(FoldRanges(lo, hi, found).0, found[i].value) && Below(found[i].value, FoldRanges(lo, hi, found).1)
    decreases |found|
  {
    if found != [] {
      var init := found[..|found| - 1];
      FoldRangesCover(lo, hi, init);
      assert forall i :: 0 <= i < |init| ==> init[i] == found[i];
    }
  }

  /** Headers that do not match leave the ranges as they were. */
  lemma {:induction false} FoldRangesIgnore(lo: Extent, hi: Extent, found: seq<Option<Extent>>)
    requires forall i :: 0 <= i < |found| ==> found[i].None?
    ensures FoldRanges(lo, hi, found) == (lo, hi)
    decreases |found|
  {
    if found != [] {
      var init := found[..|found| - 1];
      assert forall i :: 0 <= i < |init| ==> init[i] == found[i];
      FoldRangesIgnore(lo, hi, init);
    }
  }

  /** The value of one axis (0 lane, 1 tile, 2 x, 3 y). */
  function Axis(e: Extent, k: nat): int
    requires k < 4
  {
    if k == 0 then e.lane else if k == 1 then e.tile else if k == 2 then e.x else e.y
  }

  /** `v` is the starting value of axis `k` or the value some matching
      header has on it. */
  predicate Attained(v: int, start: Extent, found: seq<Option<Extent>>, k: nat)
    requires k < 4
  {
    v == Axis(start, k) || exists i :: 0 <= i < |found| && found[i].Some? && Axis(found[i].value, k) == v
  }

  /** The folded bounds are tight: each is a starting bound or a value read
      from a header. */
  lemma {:induction false} FoldRangesAttained(lo: Extent, hi: Extent, found: seq<Option<Extent>>, k: nat)
    requires k < 4
    ensures Attained(Axis(FoldRanges(lo, hi, found).0, k), lo, found, k)
    ensures Attained(Axis(FoldRanges(lo, hi, found).1, k), hi, found, k)
    decreases |found|
  {
    if found != [] {
      var init := found[..|found| - 1];
      var last := |found| - 1;
      FoldRangesAttained(lo, hi, init, k);
      AttainedGrows(Axis(FoldRanges(lo, hi, init).0, k), lo, init, found, k);
      AttainedGrows(Axis(FoldRanges(lo, hi, init).1, k), hi, init, found, k);
      if found[last].Some? {
        var c := found[last].value;
        assert Axis(MinExtent(FoldRanges(lo, hi, init).0, c), k) == Min(Axis(FoldRanges(lo, hi, init).0, k), Axis(c, k));
        assert Axis(MaxExtent(FoldRanges(lo, hi, init).1, c), k) == Max(Axis(FoldRanges(lo, hi, init).1, k), Axis(c, k));
      }
    }
  }

  lemma AttainedGrows(v: int, start: Extent, init: seq<Option<Extent>>, found: seq<Option<Extent>>, k: nat)
    requires k < 4 && |init| <= |found| && init == found[..|init|]
    requires Attained(v, start, init, k)
    ensures Attained(v, start, found, k)
  {
    if v != Axis(start, k) {
      var i :| 0 <= i < |init| && init[i].Some? && Axis(init[i].value, k) == v;
      assert init[i] == found[i];
    }
  }

  /** `list(range(lo, hi + 1))`. */
  function LaneRange(lo: int, hi: int): (r: seq<int>)
    ensures |r| == (if hi < lo then 0 else hi - lo + 1)
    ensures forall i :: 0 <= i < |r| ==> r[i] == lo + i
  {
    seq(if hi < lo then 0 else hi - lo + 1, i => lo + i)
  }

  /** The available lanes are exactly the lanes from the minimum to the
      maximum. */
  lemma LaneRangeMembers(lo: int, hi: int, l: int)
    ensures l in LaneRange(lo, hi) <==> lo <= l <= hi
  {
    if lo <= l <= hi {
      assert LaneRange(lo, hi)[l - lo] == l;
    }
  }

  /** `str(xs)` for a list of integers. */
  function ListText(xs: seq<int>): string
  {
    "[" + Join(seq(|xs|, i requires 0 <= i < |xs| => IntToString(xs[i])), ", ") + "]"
  }

  predicate LanesAvailable(lanesToUse: seq<int>, availableLanes: seq<int>)
  {
    forall l :: l in lanesToUse ==> l in availableLanes
  }

  /** The retention `validate` accepts: anything but 0 and values of 1 or
      more, so a negative retention passes. */
  predicate RetentionAccepted(retention: real)
  {
    retention != 0.0 && retention < 1.0
  }

  function LanesMessage(lanesToUse: seq<int>, availableLanes: seq<int>): (m: string)
    ensures m != ""
  {
    "The flowcell lanes to use " + ListText(lanesToUse) + " must be a subset of the available lanes"
    + " " + ListText(availableLanes) + ".\n"
  }

  function RetentionMessage(retentionText: string): (m: string)
    ensures m != ""
  {
    "The flowcell retention " + retentionText + " value must be less than 1" + " (1 signifies total retention)."
  }

  // ---------------------------------------------------------------------
  // Random coordinates
  // ---------------------------------------------------------------------

  /** `np.random.choice(range(lo, hi + 1))` given the random value `value`:
      an empty range raises `ValueError`; otherwise the value picks one
      element of the range. */
  function Draw(lo: int, hi: int, value: nat): (v: Result<int>)
    ensures v.Ok? <==> lo <= hi
    ensures v.Err? ==> v.error == ValueError
    ensures v.Ok? ==> lo <= v.value <= hi
  {
    if hi < lo then Err(ValueError) else Ok(lo + value % (hi - lo + 1))
  }

  /** Every value of a non-empty range can be drawn. */
  lemma DrawReaches(lo: int, hi: int, v: int)
    requires lo <= v <= hi
    ensures Draw(lo, hi, v - lo) == Ok(v)
  {
  }

  predicate RangesNonEmpty(lo: Extent, hi: Extent)
  {
    lo.x <= hi.x && lo.y <= hi.y && lo.tile <= hi.tile
  }

  /** One attempt: x, y and tile drawn in that order from the random values
      at positions `k`, `k + 1` and `k + 2`. */
  function Attempt(draws: nat -> nat, lo: Extent, hi: Extent, k: nat): (r: Result<LaneCoordinates>)
    ensures r.Ok? <==> RangesNonEmpty(lo, hi)
    ensures r.Err? ==> r.error == ValueError
    ensures r.Ok? ==> Within(lo, hi, r.value)
  {
    var x :- Draw(lo.x, hi.x, draws(k));
    var y :- Draw(lo.y, hi.y, draws(k + 1));
    var tile :- Draw(lo.tile, hi.tile, draws(k + 2));
    Ok(LaneCoordinates(tile, x, y))
  }

  /** One request to a lane's coordinate generator, from random position
      `k` after `ctr` duplicate draws: draw until the coordinates are not
      among those consumed, giving up when the 100th draw in a row is a
      duplicate. The result carries the next unused random position. */
  function Search(draws: nat -> nat, lo: Extent, hi: Extent, consumed: seq<LaneCoordinates>, k: nat, ctr: nat)
    : (r: Result<(LaneCoordinates, nat)>)
    requires ctr < MaxAttempts
    ensures r.Ok? ==> r.value.0 !in consumed && Within(lo, hi, r.value.0) && k + 3 <= r.value.1
    ensures r.Err? ==> r.error == ValueError || r.error == BeersException(ExhaustedMessage)
    decreases MaxAttempts - ctr
  {
    var c :- Attempt(draws, lo, hi, k);
    if c !in consumed then Ok((c, k + 3))
    else if ctr + 1 >= MaxAttempts then Err(BeersException(ExhaustedMessage))
    else Search(draws, lo, hi, consumed, k + 3, ctr + 1)
  }

  /** The request fails with `ValueError` exactly when a range is empty. */
  lemma {:induction false} SearchEmptyRange(draws: nat -> nat, lo: Extent, hi: Extent, consumed: seq<LaneCoordinates>,
                                            k: nat, ctr: nat)
    requires ctr < MaxAttempts
    ensures Search(draws, lo, hi, consumed, k, ctr) == Err(ValueError) <==> !RangesNonEmpty(lo, hi)
    decreases MaxAttempts - ctr
  {
    if RangesNonEmpty(lo, hi) {
      var c := Attempt(draws, lo, hi, k).value;
      if c in consumed && ctr + 1 < MaxAttempts {
        SearchEmptyRange(draws, lo, hi, consumed, k + 3, ctr + 1);
      }
    }
  }

  /** Each of `n` attempts from random position `k` on draws coordinates
      already consumed. */
  predicate AllConsumed(draws: nat -> nat, lo: Extent, hi: Extent, consumed: seq<LaneCoordinates>, k: nat, n: nat)
    requires RangesNonEmpty(lo, hi)
    decreases n
  {
    n == 0 || (Attempt(draws, lo, hi, k).value in consumed && AllConsumed(draws, lo, hi, consumed, k + 3, n - 1))
  }

  /** With non-empty ranges the generator gives up exactly when every
      remaining attempt up to the 100th draws consumed coordinates. */
  lemma {:induction false} SearchExhausted(draws: nat -> nat, lo: Extent, hi: Extent, consumed: seq<LaneCoordinates>,
                                           k: nat, ctr: nat)
    requires ctr < MaxAttempts && RangesNonEmpty(lo, hi)
    ensures Search(draws, lo, hi, consumed, k, ctr) == Err(BeersException(ExhaustedMessage))
            <==> AllConsumed(draws, lo, hi, consumed, k, MaxAttempts - ctr)
    decreases MaxAttempts - ctr
  {
    var c := Attempt(draws, lo, hi, k).value;
    if c in consumed && ctr + 1 < MaxAttempts {
      SearchExhausted(draws, lo, hi, consumed, k + 3, ctr + 1);
    }
  }

  /** The first lane state for `lane`, or `|lanes|` when there is none. */
  function FirstLane(lanes: seq<LaneState>, lane: int): (i: nat)
    ensures i <= |lanes|
    ensures i < |lanes| ==> lanes[i].lane == lane
  {
    if lanes == [] then 0 else if lanes[0].lane == lane then 0 else 1 + FirstLane(lanes[1..], lane)
  }

  /** A lane held by some state is found. */
  lemma {:induction false} FirstLaneFound(lanes: seq<LaneState>, lane: int, j: nat)
    requires j < |lanes| && lanes[j].lane == lane
    ensures FirstLane(lanes, lane) <= j
  {
    if lanes[0].lane != lane {
      FirstLaneFound(lanes[1..], lane, j - 1);
    }
  }

  // ---------------------------------------------------------------------
  // Apportioning molecules over lanes
  // ---------------------------------------------------------------------

  lemma MulLeft(a: int, b: int, m: int)
    requires a <= b && m > 0
    ensures a * m <= b * m
  {
    assert b * m - a * m == (b - a) * m;
  }

  lemma DivModUnique(n: int, m: int, q: int, r: int)
    requires m > 0 && n == q * m + r && 0 <= r < m
    ensures n / m == q && n % m == r
  {
    var q0, r0 := n / m, n % m;
    assert n == q0 * m + r0 && 0 <= r0 < m;
    if q0 > q {
      assert (q + 1) * m == q * m + m;
      MulLeft(q + 1, q0, m);
    } else if q0 < q {
      MulLeft(q0 + 1, q, m);
    }
  }

  lemma DivBounds(n: int, m: int, j: int)
    requires m > 0
    ensures n / m >= j <==> j * m <= n
  {
    var q, r := n / m, n % m;
    assert n == q * m + r;
    if q >= j {
      MulLeft(j, q, m);
    } else {
      MulLeft(q + 1, j, m);
      assert (q + 1) * m == q * m + m;
    }
  }

  /** Going from `c` to `c + 1` raises the quotient by one exactly when
      `c + 1` is a multiple of `m`. */
  lemma DivStep(c: int, m: int)
    requires m > 0
    ensures (c + 1) / m == c / m + (if (c + 1) % m == 0 then 1 else 0)
  {
    var q, r := c / m, c % m;
    assert c == q * m + r;
    if r + 1 == m {
      assert c + 1 == (q + 1) * m + 0;
      DivModUnique(c + 1, m, q + 1, 0);
    } else {
      DivModUnique(c + 1, m, q, r + 1);
    }
  }

  /** The position in `lanes_to_use` of the lane that molecule `k` (from 0)
      is attached to, with `m` molecules per lane and `lanes` lanes: the lane
      moves on before each molecule `k` with `k + 1` a multiple of `m`,
      until the last lane is reached. */
  function LaneIndex(k: nat, m: nat, lanes: nat): (i: nat)
    requires m > 0 && lanes > 0
    ensures i < lanes
    ensures lanes == 1 ==> i == 0
  {
    Min(lanes - 1, (k + 1) / m)
  }

  /** The lane index never decreases along the molecule list. */
  lemma LaneIndexMonotone(k: nat, k': nat, m: nat, lanes: nat)
    requires m > 0 && lanes > 0 && k <= k'
    ensures LaneIndex(k, m, lanes) <= LaneIndex(k', m, lanes)
  {
    var q := (k + 1) / m;
    assert q * m <= k + 1 by {
      DivBounds(k + 1, m, q);
    }
    DivBounds(k' + 1, m, q);
  }

  /** Which molecules each lane receives: lane `j` before the last takes the
      molecules `k` with `j*m <= k + 1 < (j+1)*m`, so the first lane gets
      `m - 1` of them and every other lane before the last `m`; the last
      lane takes every molecule from `k + 1 = (lanes-1)*m` on. */
  lemma LaneIndexRange(k: nat, m: nat, lanes: nat, j: nat)
    requires m > 0 && lanes > 0 && j < lanes
    ensures j < lanes - 1 ==> (LaneIndex(k, m, lanes) == j <==> j * m <= k + 1 < (j + 1) * m)
    ensures j == lanes - 1 ==> (LaneIndex(k, m, lanes) == j <==> j * m <= k + 1)
  {
    DivBounds(k + 1, m, j);
    DivBounds(k + 1, m, j + 1);
  }

  /** The coordinates already handed out in `lane`: those of its first
      lane state. */
  function ConsumedIn(lanes: seq<LaneState>, lane: int): seq<LaneCoordinates>
  {
    var i := FirstLane(lanes, lane);
    if i < |lanes| then lanes[i].consumed else []
  }

  lemma NoDuplicatesSnoc<T>(s: seq<T>, x: T)
    requires NoDuplicates(s) && x !in s
    ensures NoDuplicates(s + [x])
  {
    var t := s + [x];
    forall i, j | 0 <= i < j < |t|
      ensures t[i] != t[j]
    {
      if j == |s| {
        assert t[i] == s[i];
      } else {
        assert t[i] == s[i] && t[j] == s[j];
      }
    }
  }

  /** Two lane lists with the same lanes in the same order find the same
      first state for every lane. */
  lemma {:induction false} FirstLaneSameLanes(a: seq<LaneState>, b: seq<LaneState>, lane: int)
    requires |a| == |b| && forall i :: 0 <= i < |a| ==> a[i].lane == b[i].lane
    ensures FirstLane(a, lane) == FirstLane(b, lane)
  {
    if a != [] && a[0].lane != lane {
      assert forall i :: 0 <= i < |a[1..]| ==> a[1..][i] == a[i + 1] && b[1..][i] == b[i + 1];
      FirstLaneSameLanes(a[1..], b[1..], lane);
    }
  }

  /** Where each cluster sits: its lane and its coordinates. */
  type Placement = (int, LaneCoordinates)

  function Placements(cs: seq<Cluster>): (ps: seq<Placement>)
    ensures |ps| == |cs|
    ensures forall k :: 0 <= k < |cs| ==> ps[k] == (cs[k].lane, cs[k].coordinates)
  {
    seq(|cs|, k requires 0 <= k < |cs| => (cs[k].lane, cs[k].coordinates))
  }

  lemma PlacementsSnoc(cs: seq<Cluster>, c: Cluster)
    ensures Placements(cs + [c]) == Placements(cs) + [(c.lane, c.coordinates)]
  {
    assert forall k :: 0 <= k < |cs| ==> (cs + [c])[k] == cs[k];
  }

  /** No lane has two clusters at the same coordinates. */
  predicate DistinctPerLane(ps: seq<Placement>)
  {
    forall j, k :: 0 <= j < k < |ps| && ps[j].0 == ps[k].0 ==> ps[j].1 != ps[k].1
  }

  /** Every cluster's coordinates are recorded as consumed in its lane. */
  predicate Recorded(ps: seq<Placement>, lanes: seq<LaneState>)
  {
    forall k :: 0 <= k < |ps| ==> ps[k].1 in ConsumedIn(lanes, ps[k].0)
  }

  /** Recording fresh coordinates in a lane and placing a cluster there
      keeps every placement recorded and the lanes free of shared
      coordinates. */
  lemma PlaceKeeps(ps: seq<Placement>, p: Placement, lanes: seq<LaneState>, lanes': seq<LaneState>, i: nat)
    requires Recorded(ps, lanes) && DistinctPerLane(ps)
    requires i == FirstLane(lanes, p.0) && i < |lanes| && p.1 !in lanes[i].consumed
    requires lanes' == lanes[i := LaneState(p.0, lanes[i].consumed + [p.1])]
    ensures Recorded(ps + [p], lanes') && DistinctPerLane(ps + [p])
  {
    PlaceRecorded(ps, p, lanes, lanes', i);
    PlaceDistinct(ps, p, lanes, i);
  }

  /** Recording `c` in state `i` changes only what lanes finding state
      `i` have consumed. */
  lemma ConsumedAfterRecord(lanes: seq<LaneState>, i: nat, lane: int, c: LaneCoordinates, l: int)
    requires i == FirstLane(lanes, lane) && i < |lanes|
    ensures ConsumedIn(lanes[i := LaneState(lane, lanes[i].consumed + [c])], l)
            == if FirstLane(lanes, l) == i then lanes[i].consumed + [c] else ConsumedIn(lanes, l)
  {
    FirstLaneSameLanes(lanes, lanes[i := LaneState(lane, lanes[i].consumed + [c])], l);
  }

  lemma PlaceRecorded(ps: seq<Placement>, p: Placement, lanes: seq<LaneState>, lanes': seq<LaneState>, i: nat)
    requires Recorded(ps, lanes)
    requires i == FirstLane(lanes, p.0) && i < |lanes|
    requires lanes' == lanes[i := LaneState(p.0, lanes[i].consumed + [p.1])]
    ensures Recorded(ps + [p], lanes')
  {
    var t := ps + [p];
    forall k | 0 <= k < |t|
      ensures t[k].1 in ConsumedIn(lanes', t[k].0)
    {
      ConsumedAfterRecord(lanes, i, p.0, p.1, t[k].0);
      if k < |ps| {
        assert t[k] == ps[k];
        assert ps[k].1 in ConsumedIn(lanes, ps[k].0);
      }
    }
  }

  lemma PlaceDistinct(ps: seq<Placement>, p: Placement, lanes: seq<LaneState>, i: nat)
    requires Recorded(ps, lanes) && DistinctPerLane(ps)
    requires i == FirstLane(lanes, p.0) && i < |lanes| && p.1 !in lanes[i].consumed
    ensures DistinctPerLane(ps + [p])
  {
    PlacedApart(ps, p, lanes, i);
    DistinctSnoc(ps, p);
  }

  /** A placement at coordinates its lane has not consumed differs from
      every recorded placement in that lane. */
  lemma PlacedApart(ps: seq<Placement>, p: Placement, lanes: seq<LaneState>, i: nat)
    requires Recorded(ps, lanes)
    requires i == FirstLane(lanes, p.0) && i < |lanes| && p.1 !in lanes[i].consumed
    ensures forall j :: 0 <= j < |ps| && ps[j].0 == p.0 ==> ps[j].1 != p.1
  {
    assert ConsumedIn(lanes, p.0) == lanes[i].consumed;
    forall j | 0 <= j < |ps| && ps[j].0 == p.0
      ensures ps[j].1 != p.1
    {
      assert ps[j].1 in ConsumedIn(lanes, ps[j].0);
    }
  }

  lemma DistinctSnoc(ps: seq<Placement>, p: Placement)
    requires DistinctPerLane(ps)
    requires forall j :: 0 <= j < |ps| && ps[j].0 == p.0 ==> ps[j].1 != p.1
    ensures DistinctPerLane(ps + [p])
  {
    var t := ps + [p];
    forall j, k | 0 <= j < k < |t| && t[j].0 == t[k].0
      ensures t[j].1 != t[k].1
    {
      assert t[j] == ps[j];
      if k < |ps| {
        assert t[k] == ps[k];
      }
    }
  }

  /** The coordinates the placements `ps` put in `lane`, in order. */
  function PlacedIn(ps: seq<Placement>, lane: int): (cs: seq<LaneCoordinates>)
    ensures |cs| <= |ps|
  {
    if ps == [] then []
    else PlacedIn(ps[..|ps| - 1], lane) + (if ps[|ps| - 1].0 == lane then [ps[|ps| - 1].1] else [])
  }

  /** Coordinates are placed in a lane exactly when some placement puts
      them there. */
  lemma {:induction false} PlacedInMembers(ps: seq<Placement>, lane: int, c: LaneCoordinates)
    ensures c in PlacedIn(ps, lane) <==> exists k :: 0 <= k < |ps| && ps[k] == (lane, c)
  {
    if ps != [] {
      var init := ps[..|ps| - 1];
      PlacedInMembers(init, lane, c);
      if c in PlacedIn(init, lane) {
        var k :| 0 <= k < |init| && init[k] == (lane, c);
        assert ps[k] == (lane, c);
      }
      if exists k :: 0 <= k < |ps| && ps[k] == (lane, c) {
        var k :| 0 <= k < |ps| && ps[k] == (lane, c);
        if k < |init| {
          assert init[k] == (lane, c);
        }
      }
    }
  }

  /** `after` holds the same lanes as `before`, in the same order, each
      having handed out at least what it had. */
  predicate Extends(before: seq<LaneState>, after: seq<LaneState>)
  {
    |after| == |before|
    && forall i :: 0 <= i < |before| ==> after[i].lane == before[i].lane && before[i].consumed <= after[i].consumed
  }

  /** The lanes after coordinates `p.1` are handed out in lane `p.0`: the
      lane's first state gains them, and a lane without a state changes
      nothing. */
  function Record(lanes: seq<LaneState>, p: Placement): (r: seq<LaneState>)
    ensures |r| == |lanes|
  {
    if lanes == [] then []
    else if lanes[0].lane == p.0 then [LaneState(p.0, lanes[0].consumed + [p.1])] + lanes[1..]
    else [lanes[0]] + Record(lanes[1..], p)
  }

  /** Recording changes the lane's first state and no other. */
  lemma {:induction false} RecordFirst(lanes: seq<LaneState>, p: Placement)
    ensures var i := FirstLane(lanes, p.0);
            Record(lanes, p) == if i < |lanes| then lanes[i := LaneState(p.0, lanes[i].consumed + [p.1])] else lanes
  {
    if lanes == [] {
    } else if lanes[0].lane == p.0 {
      assert [LaneState(p.0, lanes[0].consumed + [p.1])] + lanes[1..] == lanes[0 := LaneState(p.0, lanes[0].consumed + [p.1])];
    } else {
      var rest := lanes[1..];
      RecordFirst(rest, p);
      var i := FirstLane(rest, p.0);
      if i < |rest| {
        assert [lanes[0]] + rest[i := LaneState(p.0, rest[i].consumed + [p.1])]
               == lanes[i + 1 := LaneState(p.0, lanes[i + 1].consumed + [p.1])];
      } else {
        assert [lanes[0]] + rest == lanes;
      }
    }
  }

  /** The lanes after the placements `ps` are recorded, in order. */
  function RecordAll(lanes: seq<LaneState>, ps: seq<Placement>): (r: seq<LaneState>)
    ensures |r| == |lanes|
  {
    if ps == [] then lanes else Record(RecordAll(lanes, ps[..|ps| - 1]), ps[|ps| - 1])
  }

  lemma RecordAllSnoc(lanes: seq<LaneState>, ps: seq<Placement>, p: Placement)
    ensures RecordAll(lanes, ps + [p]) == Record(RecordAll(lanes, ps), p)
  {
    assert (ps + [p])[..|ps|] == ps;
  }

  lemma RecordAllPlacementsSnoc(lanes: seq<LaneState>, cs: seq<Cluster>, c: Cluster)
    ensures RecordAll(lanes, Placements(cs + [c])) == Record(RecordAll(lanes, Placements(cs)), (c.lane, c.coordinates))
  {
    PlacementsSnoc(cs, c);
    RecordAllSnoc(lanes, Placements(cs), (c.lane, c.coordinates));
  }

  /** Lane states recorded one cluster at a time are the first states with
      all the clusters' placements recorded. */
  lemma {:induction false} HistoryReplays(history: seq<seq<LaneState>>, cs: seq<Cluster>)
    requires |history| == |cs| + 1
    requires forall k {:trigger Placements(cs)[k]} :: 0 <= k < |cs| ==>
               history[k + 1] == Record(history[k], Placements(cs)[k])
    ensures history[|cs|] == RecordAll(history[0], Placements(cs))
    ensures Extends(history[0], history[|cs|])
  {
    if cs != [] {
      var n := |cs| - 1;
      assert forall k {:trigger Placements(cs[..n])[k]} :: 0 <= k < n ==> Placements(cs[..n])[k] == Placements(cs)[k];
      HistoryReplays(history[..n + 1], cs[..n]);
      RecordAllPlacementsSnoc(history[0], cs[..n], cs[n]);
      assert cs[..n] + [cs[n]] == cs;
    }
    RecordAllExtends(history[0], Placements(cs));
  }

  /** A list whose extension by `x` has no repeats has none itself and
      lacks `x`. */
  lemma NoDuplicatesInit<T>(s: seq<T>, x: T)
    requires NoDuplicates(s + [x])
    ensures NoDuplicates(s) && x !in s
  {
    var t := s + [x];
    assert forall i :: 0 <= i < |s| ==> t[i] == s[i];
    assert t[|s|] == x;
  }

  /** Placements recorded in lanes that all have a state, ending with no
      lane holding the same coordinates twice, are each recorded and never
      share coordinates in a lane. */
  lemma {:induction false} RecordAllSound(lanes: seq<LaneState>, ps: seq<Placement>)
    requires forall k :: 0 <= k < |ps| ==> FirstLane(lanes, ps[k].0) < |lanes|
    requires forall i :: 0 <= i < |lanes| ==> NoDuplicates(RecordAll(lanes, ps)[i].consumed)
    ensures Recorded(ps, RecordAll(lanes, ps)) && DistinctPerLane(ps)
  {
    if ps != [] {
      var init, p := ps[..|ps| - 1], ps[|ps| - 1];
      var mid := RecordAll(lanes, init);
      RecordAllExtends(lanes, init);
      FirstLaneSameLanes(lanes, mid, p.0);
      assert FirstLane(lanes, ps[|ps| - 1].0) < |lanes|;
      assert RecordAll(lanes, ps) == Record(mid, p);
      RecordSoundStep(mid, p);
      forall k | 0 <= k < |init|
        ensures FirstLane(lanes, init[k].0) < |lanes|
      {
        assert init[k] == ps[k];
      }
      RecordAllSound(lanes, init);
      RecordFirst(mid, p);
      PlaceKeeps(init, p, mid, Record(mid, p), FirstLane(mid, p.0));
      assert init + [p] == ps;
    }
  }

  /** When recording `p` leaves no lane with repeated coordinates, no lane
      had any before and `p`'s lane had not handed out its coordinates. */
  lemma RecordSoundStep(lanes: seq<LaneState>, p: Placement)
    requires FirstLane(lanes, p.0) < |lanes|
    requires forall j :: 0 <= j < |lanes| ==> NoDuplicates(Record(lanes, p)[j].consumed)
    ensures forall j :: 0 <= j < |lanes| ==> NoDuplicates(lanes[j].consumed)
    ensures p.1 !in lanes[FirstLane(lanes, p.0)].consumed
  {
    var i := FirstLane(lanes, p.0);
    RecordFirst(lanes, p);
    var after := Record(lanes, p);
    assert NoDuplicates(after[i].consumed);
    NoDuplicatesInit(lanes[i].consumed, p.1);
    forall j | 0 <= j < |lanes|
      ensures NoDuplicates(lanes[j].consumed)
    {
      if j != i {
        assert lanes[j] == after[j];
      }
    }
  }

  /** The clusters sit in lanes in use, so each of their lanes has a state. */
  lemma LanesHaveStates(cs: seq<Cluster>, runId: int, molecules: seq<Molecule>, sequences: seq<string>, firstId: int,
                        lanesToUse: seq<int>, m: nat, lo: Extent, hi: Extent, lanes: seq<LaneState>)
    requires |cs| <= |molecules| && |cs| <= |sequences| && lanesToUse != [] && (cs != [] ==> m > 0)
    requires AllAttached(cs, runId, molecules, sequences, firstId, lanesToUse, m, lo, hi)
    requires |lanes| == |lanesToUse| && forall i :: 0 <= i < |lanes| ==> lanes[i].lane == lanesToUse[i]
    ensures forall k :: 0 <= k < |cs| ==> FirstLane(lanes, Placements(cs)[k].0) < |lanes|
  {
    forall k | 0 <= k < |cs|
      ensures FirstLane(lanes, Placements(cs)[k].0) < |lanes|
    {
      var j := LaneIndex(k, m, |lanesToUse|);
      assert Attached(cs[k], runId, molecules[k], sequences[k], firstId + k, lanesToUse[j], lo, hi);
      FirstLaneFound(lanes, cs[k].lane, j);
    }
  }

  /** The lane states after converting `cs` one at a time are the first
      states with the clusters' placements recorded; those placements are
      recorded there and never share coordinates in a lane. */
  lemma Converted(history: seq<seq<LaneState>>, cs: seq<Cluster>, runId: int, molecules: seq<Molecule>,
                  sequences: seq<string>, firstId: int, lanesToUse: seq<int>, m: nat, lo: Extent, hi: Extent)
    requires |cs| <= |molecules| && |cs| <= |sequences| && lanesToUse != [] && (cs != [] ==> m > 0)
    requires AllAttached(cs, runId, molecules, sequences, firstId, lanesToUse, m, lo, hi)
    requires |history| == |cs| + 1
    requires forall k {:trigger Placements(cs)[k]} :: 0 <= k < |cs| ==>
               history[k + 1] == Record(history[k], Placements(cs)[k])
    requires |history[0]| == |lanesToUse| && forall i :: 0 <= i < |lanesToUse| ==> history[0][i].lane == lanesToUse[i]
    requires forall i :: 0 <= i < |history[|cs|]| ==> NoDuplicates(history[|cs|][i].consumed)
    ensures history[|cs|] == RecordAll(history[0], Placements(cs)) && Extends(history[0], history[|cs|])
    ensures Recorded(Placements(cs), history[|cs|]) && DistinctPerLane(Placements(cs))
  {
    HistoryReplays(history, cs);
    LanesHaveStates(cs, runId, molecules, sequences, firstId, lanesToUse, m, lo, hi, history[0]);
    RecordAllSound(history[0], Placements(cs));
  }

  lemma HistoryExtends(history: seq<seq<LaneState>>, cs: seq<Cluster>)
    requires |history| == |cs| + 1
    requires forall k {:trigger Placements(cs)[k]} :: 0 <= k < |cs| ==>
               history[k + 1] == Record(history[k], Placements(cs)[k])
    ensures Extends(history[0], history[|cs|])
  {
    HistoryReplays(history, cs);
  }

  lemma RecordExtends(lanes: seq<LaneState>, p: Placement)
    ensures Extends(lanes, Record(lanes, p))
  {
    RecordFirst(lanes, p);
  }

  /** Recording placements changes each lane's first state by appending
      that lane's coordinates, in order, and leaves every other state as it
      was. */
  lemma {:induction false} RecordAllAt(lanes: seq<LaneState>, ps: seq<Placement>)
    ensures forall i :: 0 <= i < |lanes| ==>
              RecordAll(lanes, ps)[i]
              == LaneState(lanes[i].lane, lanes[i].consumed
                                          + if FirstLane(lanes, lanes[i].lane) == i then PlacedIn(ps, lanes[i].lane) else [])
  {
    if ps != [] {
      var init, p := ps[..|ps| - 1], ps[|ps| - 1];
      RecordAllAt(lanes, init);
      var mid := RecordAll(lanes, init);
      assert forall j :: 0 <= j < |lanes| ==> mid[j].lane == lanes[j].lane;
      FirstLaneSameLanes(lanes, mid, p.0);
      RecordFirst(mid, p);
      forall i | 0 <= i < |lanes|
        ensures RecordAll(lanes, ps)[i]
                == LaneState(lanes[i].lane, lanes[i].consumed
                                            + if FirstLane(lanes, lanes[i].lane) == i then PlacedIn(ps, lanes[i].lane) else [])
      {
        FirstLaneSameLanes(lanes, mid, lanes[i].lane);
        if FirstLane(mid, p.0) != i && FirstLane(lanes, lanes[i].lane) == i {
          assert p.0 != lanes[i].lane;
        }
      }
    }
  }

  lemma RecordAllExtends(lanes: seq<LaneState>, ps: seq<Placement>)
    ensures Extends(lanes, RecordAll(lanes, ps))
  {
    RecordAllAt(lanes, ps);
    forall i | 0 <= i < |lanes|
      ensures lanes[i].consumed <= RecordAll(lanes, ps)[i].consumed
    {
      var extra := if FirstLane(lanes, lanes[i].lane) == i then PlacedIn(ps, lanes[i].lane) else [];
      assert RecordAll(lanes, ps)[i].consumed == lanes[i].consumed + extra;
    }
  }

  lemma ExtendsTransitive(a: seq<LaneState>, b: seq<LaneState>, c: seq<LaneState>)
    requires Extends(a, b) && Extends(b, c)
    ensures Extends(a, c)
  {
  }

  /** Different positions of a list without repeats hold different values. */
  lemma NoDuplicatesApart<T>(xs: seq<T>, ys: seq<T>, x: T, y: T)
    requires NoDuplicates(xs + ys) && x in xs && y in ys
    ensures x != y
  {
    var i :| 0 <= i < |xs| && xs[i] == x;
    var j :| 0 <= j < |ys| && ys[j] == y;
    assert (xs + ys)[i] == x && (xs + ys)[|xs| + j] == y;
  }

  /** No two clusters share coordinates in a lane across conversions: the
      placements `ps` of earlier conversions, recorded in `before`, and the
      placements `qs` of a later one, recorded from `before` to `after`,
      stay recorded together and apart in every lane, as long as no lane's
      list repeats coordinates. */
  lemma DistinctAcrossPackets(ps: seq<Placement>, qs: seq<Placement>, before: seq<LaneState>, after: seq<LaneState>)
    requires Recorded(ps, before) && DistinctPerLane(ps)
    requires after == RecordAll(before, qs) && Recorded(qs, after) && DistinctPerLane(qs)
    requires forall i :: 0 <= i < |after| ==> NoDuplicates(after[i].consumed)
    ensures Recorded(ps + qs, after) && DistinctPerLane(ps + qs)
  {
    RecordAllAt(before, qs);
    var t := ps + qs;
    forall k | 0 <= k < |ps|
      ensures ps[k].1 in ConsumedIn(after, ps[k].0)
              && ConsumedIn(after, ps[k].0) == ConsumedIn(before, ps[k].0) + PlacedIn(qs, ps[k].0)
    {
      var l := ps[k].0;
      FirstLaneSameLanes(before, after, l);
      assert ps[k].1 in ConsumedIn(before, l);
    }
    forall k | 0 <= k < |t|
      ensures t[k].1 in ConsumedIn(after, t[k].0)
    {
      if k >= |ps| {
        assert t[k] == qs[k - |ps|];
      } else {
        assert t[k] == ps[k];
      }
    }
    forall j, k | 0 <= j < k < |t| && t[j].0 == t[k].0
      ensures t[j].1 != t[k].1
    {
      if k < |ps| {
        assert t[j] == ps[j] && t[k] == ps[k];
      } else if j >= |ps| {
        assert t[j] == qs[j - |ps|] && t[k] == qs[k - |ps|];
      } else {
        var l := ps[j].0;
        assert t[j] == ps[j] && t[k] == qs[k - |ps|];
        PlacedInMembers(qs, l, t[k].1);
        assert ps[j].1 in ConsumedIn(before, l);
        var f := FirstLane(before, l);
        FirstLaneSameLanes(before, after, l);
        NoDuplicatesApart(ConsumedIn(before, l), PlacedIn(qs, l), ps[j].1, t[k].1);
      }
    }
  }

  /** Cluster `c` was made by the conversion for `molecule` with the given
      identifier and lane, at coordinates inside the flowcell's ranges, with
      the constructor's defaults for everything else. */
  predicate Attached(c: Cluster, runId: int, molecule: Molecule, sequence: string, clusterId: int, lane: int,
                     lo: Extent, hi: Extent)
  {
    c.runId == runId && c.molecule == molecule && c.clusterId == PyInt(clusterId) && c.lane == lane
    && Within(lo, hi, c.coordinates) && c.moleculeCount == 1 && c.diameter == 0 && c.forward == PyBool(true)
    && c.baseCounts == OneHotCounts(sequence)
  }

  /** No read has been called on any of the clusters yet. */
  predicate Unsequenced(cs: seq<Cluster>)
    reads cs
  {
    forall k :: 0 <= k < |cs| ==> cs[k].calledSequences == [] && cs[k].calledIndices == [] && cs[k].qualityScores == []
  }

  lemma UnsequencedSnoc(cs: seq<Cluster>, c: Cluster)
    requires Unsequenced(cs) && c.calledSequences == [] && c.calledIndices == [] && c.qualityScores == []
    ensures Unsequenced(cs + [c])
  {
    assert forall k :: 0 <= k < |cs| ==> (cs + [c])[k] == cs[k];
  }

  /** The sequences of the molecules, in order. */
  function SequencesOf(molecules: seq<Molecule>): (r: seq<string>)
    reads molecules
    ensures |r| == |molecules| && forall k :: 0 <= k < |r| ==> r[k] == molecules[k].sequence
  {
    seq(|molecules|, k requires 0 <= k < |molecules| reads molecules => molecules[k].sequence)
  }

  /** One step of the conversion loop: from the lane index reached after
      `counter` molecules, the loop's test moves to the lane of molecule
      `counter`. */
  lemma LaneAdvance(counter: nat, m: nat, lanes: nat, laneIndex: nat)
    requires m > 0 && lanes > 0 && laneIndex == Min(lanes - 1, counter / m)
    ensures (if (counter + 1) % m == 0 && laneIndex + 1 < lanes then laneIndex + 1 else laneIndex)
            == LaneIndex(counter, m, lanes)
  {
    DivStep(counter, m);
  }

  /** Cluster `k` was made for molecule `k`, with identifier `firstId + k`,
      on the lane the apportioning gives it with `m` molecules per lane. */
  predicate AllAttached(cs: seq<Cluster>, runId: int, molecules: seq<Molecule>, sequences: seq<string>, firstId: int,
                        lanesToUse: seq<int>, m: nat, lo: Extent, hi: Extent)
    requires |cs| <= |molecules| && |cs| <= |sequences| && lanesToUse != [] && (cs != [] ==> m > 0)
  {
    forall k :: 0 <= k < |cs| ==>
      Attached(cs[k], runId, molecules[k], sequences[k], firstId + k, lanesToUse[LaneIndex(k, m, |lanesToUse|)], lo, hi)
  }

  lemma AllAttachedSnoc(cs: seq<Cluster>, c: Cluster, runId: int, molecules: seq<Molecule>, sequences: seq<string>,
                        firstId: int, lanesToUse: seq<int>, m: nat, lo: Extent, hi: Extent)
    requires |cs| < |molecules| && |cs| < |sequences| && lanesToUse != [] && m > 0
    requires AllAttached(cs, runId, molecules, sequences, firstId, lanesToUse, m, lo, hi)
    requires Attached(c, runId, molecules[|cs|], sequences[|cs|], firstId + |cs|,
                      lanesToUse[LaneIndex(|cs|, m, |lanesToUse|)], lo, hi)
    ensures AllAttached(cs + [c], runId, molecules, sequences, firstId, lanesToUse, m, lo, hi)
  {
    var t := cs + [c];
    forall k | 0 <= k < |t|
      ensures Attached(t[k], runId, molecules[k], sequences[k], firstId + k, lanesToUse[LaneIndex(k, m, |lanesToUse|)],
                       lo, hi)
    {
      if k < |cs| {
        assert t[k] == cs[k];
      }
    }
  }

  /** One lane state per lane, in the same order, none with coordinates
      handed out. */
  method FreshLaneStates(lanes: seq<int>) returns (states: seq<LaneState>)
    ensures |states| == |lanes|
    ensures forall j :: 0 <= j < |lanes| ==> states[j] == LaneState(lanes[j], [])
  {
    states := [];
    for i := 0 to |lanes|
      invariant |states| == i
      invariant forall j :: 0 <= j < i ==> states[j] == LaneState(lanes[j], [])
    {
      states := states + [LaneState(lanes[i], [])];
    }
  }

  /** The loop's lane test: after every `m` molecules the next lane in use
      is taken, until the last one. */
  method AdvanceLane(lanesToUse: seq<int>, counter: nat, m: nat, laneIndex: nat, lane: int)
    returns (nextIndex: nat, nextLane: int)
    requires m > 0 && laneIndex < |lanesToUse| && lane == lanesToUse[laneIndex]
    requires laneIndex == Min(|lanesToUse| - 1, counter / m)
    ensures nextIndex < |lanesToUse| && nextLane == lanesToUse[nextIndex]
    ensures nextIndex == Min(|lanesToUse| - 1, (counter + 1) / m)
  {
    LaneAdvance(counter, m, |lanesToUse|, laneIndex);
    nextIndex, nextLane := laneIndex, lane;
    if (counter + 1) % m == 0 && laneIndex + 1 < |lanesToUse| {
      nextIndex := laneIndex + 1;
      nextLane := lanesToUse[nextIndex];
    }
  }

  // ---------------------------------------------------------------------
  // The flowcell
  // ---------------------------------------------------------------------

  class Flowcell {
    const runId: int
    /** `flowcell_retention_percentage / 100`. */
    const flowcellRetention: real
    /** The random values behind `np.random.choice`, consumed in order. */
    const draws: nat -> nat
    var drawCount: nat
    var minCoords: Extent
    var maxCoords: Extent
    var availableLanes: seq<int>
    var lanesToUse: seq<int>
    var flowcellLanes: seq<LaneState>

    /** One lane state per lane in use, in the same order, and no lane has
        handed out the same coordinates twice. */
    predicate Valid()
      reads this
    {
      |flowcellLanes| == |lanesToUse|
      && (forall i :: 0 <= i < |lanesToUse| ==> flowcellLanes[i].lane == lanesToUse[i])
      && (forall i :: 0 <= i < |flowcellLanes| ==> NoDuplicates(flowcellLanes[i].consumed))
    }

    /** `__init__`: the geometry comes from the configuration when given,
        otherwise from the FASTQ headers; the available lanes run from the
        minimum to the maximum lane; the lanes to use default to all of
        them; each lane in use starts with no coordinates handed out. */
    constructor (runId: int, retentionPercentage: real, geometry: Option<(Extent, Extent)>, headers: seq<string>,
                 lanesToUse: seq<int>, draws: nat -> nat)
      ensures Valid()
      ensures this.runId == runId && flowcellRetention == retentionPercentage / 100.0 && this.draws == draws
      ensures drawCount == 0
      ensures geometry.Some? ==> (minCoords, maxCoords) == geometry.value
      ensures geometry.None? ==> (minCoords, maxCoords) == FoldRanges(InitialMin, InitialMax, FoundCoordinates(headers))
      ensures availableLanes == LaneRange(minCoords.lane, maxCoords.lane)
      ensures this.lanesToUse == (if lanesToUse == [] then availableLanes else lanesToUse)
      ensures forall i :: 0 <= i < |flowcellLanes| ==> flowcellLanes[i].consumed == []
    {
      this.runId := runId;
      flowcellRetention := retentionPercentage / 100.0;
      this.draws := draws;
      drawCount := 0;
      minCoords := InitialMin;
      maxCoords := InitialMax;
      availableLanes := [];
      this.lanesToUse := [];
      flowcellLanes := [];
      new;
      SetFlowcellCoordinateRanges(geometry, headers);
      availableLanes := LaneRange(minCoords.lane, maxCoords.lane);
      var lanes := if lanesToUse == [] then availableLanes else lanesToUse;
      var states := FreshLaneStates(lanes);
      this.lanesToUse, flowcellLanes := lanes, states;
    }

    /** `validate`: the lanes to use must all be available, and the
        retention must be neither 0 nor at least 1; each failed check adds
        its message. `retentionText` is what Python writes for the retention
        (its float representation). */
    method Validate(retentionText: string) returns (valid: bool, msg: string)
      ensures valid <==> LanesAvailable(lanesToUse, availableLanes) && RetentionAccepted(flowcellRetention)
      ensures valid <==> msg == ""
      ensures msg == (if LanesAvailable(lanesToUse, availableLanes) then "" else LanesMessage(lanesToUse, availableLanes))
                     + (if RetentionAccepted(flowcellRetention) then "" else RetentionMessage(retentionText))
    {
      ghost var first := if LanesAvailable(lanesToUse, availableLanes) then ""
                         else LanesMessage(lanesToUse, availableLanes);
      ghost var second := if RetentionAccepted(flowcellRetention) then "" else RetentionMessage(retentionText);
      valid := true;
      msg := "";
      if !LanesAvailable(lanesToUse, availableLanes) {
        valid := false;
        msg := msg + LanesMessage(lanesToUse, availableLanes);
      }
      assert msg == first && (valid <==> first == "");
      if flowcellRetention == 0.0 || flowcellRetention >= 1.0 {
        valid := false;
        msg := msg + RetentionMessage(retentionText);
      }
      assert msg == first + second && |msg| == |first| + |second|;
    }

    /** `set_flowcell_coordinate_ranges`: configured geometry replaces the
        ranges; without it the FASTQ headers are folded into them. */
    method SetFlowcellCoordinateRanges(geometry: Option<(Extent, Extent)>, headers: seq<string>)
      modifies this`minCoords, this`maxCoords
      ensures geometry.Some? ==> (minCoords, maxCoords) == geometry.value
      ensures geometry.None? ==> (minCoords, maxCoords) == FoldRanges(old(minCoords), old(maxCoords), FoundCoordinates(headers))
    {
      if geometry.None? {
        GetCoordinateRanges(headers);
      } else {
        minCoords, maxCoords := geometry.value.0, geometry.value.1;
      }
    }

    /** `get_coordinate_ranges` over the header line of every FASTQ record,
        all files in order. */
    method GetCoordinateRanges(headers: seq<string>)
      modifies this`minCoords, this`maxCoords
      ensures (minCoords, maxCoords) == FoldRanges(old(minCoords), old(maxCoords), FoundCoordinates(headers))
    {
      var lo, hi := minCoords, maxCoords;
      ghost var found := FoundCoordinates(headers);
      for n := 0 to |headers|
        invariant (lo, hi) == FoldRanges(old(minCoords), old(maxCoords), found[..n])
      {
        FoldRangesStep(old(minCoords), old(maxCoords), found, n);
        var identifier := SequenceIdentifier(headers[n]);
        var coordsMatch := MatchCoordinates(identifier);
        assert coordsMatch == found[n];
        if coordsMatch.Some? {
          var c := coordsMatch.value;
          ghost var lo0, hi0 := lo, hi;
          lo := lo.(x := Min(c.x, lo.x));
          hi := hi.(x := Max(c.x, hi.x));
          lo := lo.(y := Min(c.y, lo.y));
          hi := hi.(y := Max(c.y, hi.y));
          lo := lo.(tile := Min(c.tile, lo.tile));
          hi := hi.(tile := Max(c.tile, hi.tile));
          lo := lo.(lane := Min(c.lane, lo.lane));
          hi := hi.(lane := Max(c.lane, hi.lane));
          assert lo == MinExtent(lo0, c) && hi == MaxExtent(hi0, c);
        }
      }
      assert found[..|headers|] == found;
      minCoords, maxCoords := lo, hi;
    }

    /** `next(self.coordinate_generators[lane])`: only lanes in use have a
        generator (`KeyError` otherwise). The drawn coordinates are recorded
        as consumed in the lane's first state. */
    method NextCoordinates(lane: int) returns (r: Result<LaneCoordinates>)
      requires Valid()
      modifies this`flowcellLanes, this`drawCount
      ensures Valid()
      ensures r.Ok? ==> flowcellLanes == Record(old(flowcellLanes), (lane, r.value))
      ensures r.Err? ==> flowcellLanes == old(flowcellLanes)
      ensures lane !in lanesToUse ==> r == Err(KeyError) && flowcellLanes == old(flowcellLanes)
      ensures lane in lanesToUse ==> FirstLane(old(flowcellLanes), lane) < |old(flowcellLanes)|
      ensures lane in lanesToUse ==>
        var i := FirstLane(old(flowcellLanes), lane);
        var s := Search(draws, minCoords, maxCoords, old(flowcellLanes)[i].consumed, old(drawCount), 0);
        (s.Ok? ==> r == Ok(s.value.0) && drawCount == s.value.1
                      && flowcellLanes == old(flowcellLanes)[i := LaneState(lane, old(flowcellLanes)[i].consumed + [s.value.0])])
        && (s.Err? ==> r == Err(s.error) && flowcellLanes == old(flowcellLanes))
    {
      if lane !in lanesToUse {
        return Err(KeyError);
      }
      ghost var j :| 0 <= j < |lanesToUse| && lanesToUse[j] == lane;
      FirstLaneFound(flowcellLanes, lane, j);
      var i := FirstLane(flowcellLanes, lane);
      var consumed := flowcellLanes[i].consumed;
      r := DrawUnconsumed(consumed);
      if r.Ok? {
        NoDuplicatesSnoc(consumed, r.value);
        RecordFirst(flowcellLanes, (lane, r.value));
        flowcellLanes := flowcellLanes[i := LaneState(lane, consumed + [r.value])];
      }
    }

    /** The generator's loop for one request: each attempt draws x, y and
        tile; coordinates not among `consumed` are returned, and a fresh draw
        resets the attempt counter, so a request draws at most 100 times
        before raising `BeersException`. */
    method DrawUnconsumed(consumed: seq<LaneCoordinates>) returns (r: Result<LaneCoordinates>)
      modifies this`drawCount
      ensures var s := Search(draws, minCoords, maxCoords, consumed, old(drawCount), 0);
              (s.Ok? ==> r == Ok(s.value.0) && drawCount == s.value.1) && (s.Err? ==> r == Err(s.error))
    {
      ghost var start := drawCount;
      var ctr := 0;
      while true
        invariant 0 <= ctr < MaxAttempts
        invariant Search(draws, minCoords, maxCoords, consumed, start, 0)
                  == Search(draws, minCoords, maxCoords, consumed, drawCount, ctr)
        decreases MaxAttempts - ctr
      {
        ctr := ctr + 1;
        var x := Draw(minCoords.x, maxCoords.x, draws(drawCount));
        if x.Err? {
          return Err(x.error);
        }
        var y := Draw(minCoords.y, maxCoords.y, draws(drawCount + 1));
        if y.Err? {
          return Err(y.error);
        }
        var tile := Draw(minCoords.tile, maxCoords.tile, draws(drawCount + 2));
        if tile.Err? {
          return Err(tile.error);
        }
        drawCount := drawCount + 3;
        var coordinates := LaneCoordinates(tile.value, x.value, y.value);
        if coordinates !in consumed {
          return Ok(coordinates);
        }
        if ctr >= MaxAttempts {
          return Err(BeersException(ExhaustedMessage));
        }
      }
    }
    /** The body of the conversion loop for one molecule: the lane's
        generator gives coordinates, then `Cluster(...)` is built with its
        defaults. The lane's first state gains the coordinates, whether or
        not the cluster is then built. */
    method PlaceMolecule(molecule: Molecule, clusterId: int, lane: int) returns (r: Result<Cluster>)
      requires Valid() && lane in lanesToUse
      modifies this`flowcellLanes, this`drawCount
      ensures Valid() && Extends(old(flowcellLanes), flowcellLanes)
      ensures r.Ok? ==> flowcellLanes == Record(old(flowcellLanes), (lane, r.value.coordinates))
      ensures r.Err? ==> r.error in {ValueError, BeersException(ExhaustedMessage), UnicodeEncodeError}
      ensures r.Ok? ==> fresh(r.value) && Attached(r.value, runId, molecule, molecule.sequence, clusterId, lane,
                                                   minCoords, maxCoords)
      ensures r.Ok? ==> r.value.calledSequences == [] && r.value.calledIndices == [] && r.value.qualityScores == []
    {
      ghost var lanesBefore := flowcellLanes;
      var coordinates := NextCoordinates(lane);
      if coordinates.Err? {
        return Err(coordinates.error);
      }
      RecordExtends(lanesBefore, (lane, coordinates.value));
      r := Cluster.New(runId, PyInt(clusterId), molecule, lane, coordinates.value, 1, 0, [], [], [], None, PyBool(true));
    }

    /** One turn of the conversion loop: molecule `counter` moves the lane
        on when the loop's test says so and is placed on that lane. */
    method AttachNext(molecules: seq<Molecule>, ghost sequences: seq<string>, ids: IdAllocator, ghost firstId: int,
                      clusters: seq<Cluster>, counter: nat, m: nat, laneIndex: nat, lane: int,
                      ghost history: seq<seq<LaneState>>)
      returns (r: Result<Cluster>, nextIndex: nat, nextLane: int, ghost history': seq<seq<LaneState>>)
      requires Valid() && counter == |clusters| < |molecules| == |sequences| && m > 0
      requires sequences[counter] == molecules[counter].sequence && ids.nextClusterId == firstId + counter
      requires laneIndex < |lanesToUse| && lane == lanesToUse[laneIndex]
      requires laneIndex == Min(|lanesToUse| - 1, counter / m)
      requires AllAttached(clusters, runId, molecules, sequences, firstId, lanesToUse, m, minCoords, maxCoords)
      requires Unsequenced(clusters)
      requires |history| == counter + 1 && history[counter] == flowcellLanes
      requires forall k {:trigger Placements(clusters)[k]} :: 0 <= k < counter ==>
                 history[k + 1] == Record(history[k], Placements(clusters)[k])
      modifies this`flowcellLanes, this`drawCount, ids`nextClusterId
      ensures Valid() && (r.Ok? ==> ids.nextClusterId == old(ids.nextClusterId) + 1)
      ensures Extends(old(flowcellLanes), flowcellLanes)
      ensures r.Ok? ==> history' == history + [flowcellLanes]
      ensures r.Ok? ==> forall k {:trigger Placements(clusters + [r.value])[k]} :: 0 <= k < counter + 1 ==>
                          history'[k + 1] == Record(history'[k], Placements(clusters + [r.value])[k])
      ensures nextIndex < |lanesToUse| && nextLane == lanesToUse[nextIndex]
      ensures nextIndex == Min(|lanesToUse| - 1, (counter + 1) / m)
      ensures r.Err? ==> r.error in {ValueError, BeersException(ExhaustedMessage), UnicodeEncodeError}
      ensures r.Ok? ==> fresh(r.value)
      ensures r.Ok? ==> Unsequenced(clusters + [r.value])
      ensures r.Ok? ==> AllAttached(clusters + [r.value], runId, molecules, sequences, firstId, lanesToUse, m,
                                    minCoords, maxCoords)
    {
      var clusterId := ids.nextClusterId;
      nextIndex, nextLane := AdvanceLane(lanesToUse, counter, m, laneIndex, lane);
      var cluster := PlaceMolecule(molecules[counter], clusterId, nextLane);
      if cluster.Err? {
        return Err(cluster.error), nextIndex, nextLane, history;
      }
      r := cluster;
      ids.nextClusterId := ids.nextClusterId + 1;
      PlacementsSnoc(clusters, cluster.value);
      history' := history + [flowcellLanes];
      AllAttachedSnoc(clusters, cluster.value, runId, molecules, sequences, firstId, lanesToUse, m, minCoords, maxCoords);
      UnsequencedSnoc(clusters, cluster.value);
    }

    /** The loop of `convert_molecule_pkt_to_cluster_pkt`: molecule `k`
        becomes a cluster with the next cluster id on lane
        `LaneIndex(k, m, L)`; with molecules to place, `m == 0` divides by
        zero. `history` holds the lane states before the first cluster and
        after each one: each is the one before with that cluster's placement
        recorded. */
    method AttachAll(molecules: seq<Molecule>, ids: IdAllocator, m: nat)
      returns (r: Result<seq<Cluster>>, ghost history: seq<seq<LaneState>>)
      requires Valid() && lanesToUse != []
      modifies this`flowcellLanes, this`drawCount, ids`nextClusterId
      ensures Valid() && (r.Err? ==> Extends(old(flowcellLanes), flowcellLanes))
      ensures r.Ok? ==> |history| == |r.value| + 1 && history[0] == old(flowcellLanes)
                        && history[|r.value|] == flowcellLanes
      ensures r.Ok? ==> forall k {:trigger Placements(r.value)[k]} :: 0 <= k < |r.value| ==>
                          history[k + 1] == Record(history[k], Placements(r.value)[k])
      ensures molecules != [] && m == 0 ==> r == Err(ZeroDivisionError)
      ensures r.Err? ==> r.error in {ZeroDivisionError, ValueError, BeersException(ExhaustedMessage), UnicodeEncodeError}
      ensures r.Ok? ==> |r.value| == |molecules| && ids.nextClusterId == old(ids.nextClusterId) + |molecules|
                        && (molecules != [] ==> m > 0)
      ensures r.Ok? ==> forall k :: 0 <= k < |molecules| ==> fresh(r.value[k])
      ensures r.Ok? ==> Unsequenced(r.value)
      ensures r.Ok? ==> AllAttached(r.value, runId, molecules, SequencesOf(molecules), old(ids.nextClusterId), lanesToUse,
                                    m, minCoords, maxCoords)
    {
      ghost var sequences := SequencesOf(molecules);
      var clusters: seq<Cluster> := [];
      var laneIndex := 0;
      var lane := lanesToUse[laneIndex];
      // the lane states after each cluster so far
      history := [flowcellLanes];
      for counter := 0 to |molecules|
        invariant |clusters| == counter && ids.nextClusterId == old(ids.nextClusterId) + counter
        invariant Valid() && SequencesOf(molecules) == sequences
        invariant 0 <= laneIndex < |lanesToUse| && lane == lanesToUse[laneIndex]
        invariant counter > 0 ==> m > 0
        invariant m > 0 ==> laneIndex == Min(|lanesToUse| - 1, counter / m)
        invariant forall k :: 0 <= k < counter ==> fresh(clusters[k])
        invariant Unsequenced(clusters)
        invariant AllAttached(clusters, runId, molecules, sequences, old(ids.nextClusterId), lanesToUse, m,
                              minCoords, maxCoords)
        invariant |history| == counter + 1 && history[0] == old(flowcellLanes) && history[counter] == flowcellLanes
        invariant forall k {:trigger Placements(clusters)[k]} :: 0 <= k < counter ==>
                    history[k + 1] == Record(history[k], Placements(clusters)[k])
      {
        if m == 0 {
          return Err(ZeroDivisionError), history;
        }
        var next;
        ghost var history';
        next, laneIndex, lane, history' := AttachNext(molecules, sequences, ids, old(ids.nextClusterId), clusters,
                                                      counter, m, laneIndex, lane, history);
        if next.Err? {
          HistoryExtends(history, clusters);
          ExtendsTransitive(old(flowcellLanes), history[counter], flowcellLanes);
          return Err(next.error), history;
        }
        clusters := clusters + [next.value];
        history := history';
      }
      return Ok(clusters), history;
    }

    /** `convert_molecule_pkt_to_cluster_pkt`: the packet takes the next
        packet id; with `m = N // L` molecules per lane for `N` molecules and
        `L` lanes in use, molecule `k` becomes a cluster with the next cluster
        id on lane `LaneIndex(k, m, L)` at fresh coordinates of that lane.
        No lanes, or fewer molecules than lanes, divide by zero. */
    method ConvertMoleculePacket(packet: MoleculePacket, ids: IdAllocator) returns (r: Result<ClusterPacket>)
      requires Valid()
      modifies this`flowcellLanes, this`drawCount, ids
      ensures Valid() && Extends(old(flowcellLanes), flowcellLanes)
      ensures r.Ok? ==> flowcellLanes == RecordAll(old(flowcellLanes), Placements(r.value.clusters))
      ensures ids.nextClusterPacketId == old(ids.nextClusterPacketId) + 1
      ensures ids.nextMoleculeId == old(ids.nextMoleculeId)
      ensures lanesToUse == [] ==> r == Err(ZeroDivisionError)
      ensures lanesToUse != [] && 0 < |packet.molecules| < |lanesToUse| ==> r == Err(ZeroDivisionError)
      ensures r.Err? ==> r.error in {ZeroDivisionError, ValueError, BeersException(ExhaustedMessage), UnicodeEncodeError}
      ensures r.Ok? ==> fresh(r.value) && r.value.clusterPacketId == old(ids.nextClusterPacketId)
                        && r.value.sample == packet.sample && |r.value.clusters| == |packet.molecules|
                        && ids.nextClusterId == old(ids.nextClusterId) + |packet.molecules|
                        && lanesToUse != [] && (packet.molecules != [] ==> |packet.molecules| / |lanesToUse| > 0)
      ensures r.Ok? ==> forall k :: 0 <= k < |packet.molecules| ==> fresh(r.value.clusters[k])
      ensures r.Ok? ==> Unsequenced(r.value.clusters)
      ensures r.Ok? ==> AllAttached(r.value.clusters, runId, packet.molecules, SequencesOf(packet.molecules),
                                    old(ids.nextClusterId), lanesToUse, |packet.molecules| / |lanesToUse|,
                                    minCoords, maxCoords)
      ensures r.Ok? ==> DistinctPerLane(Placements(r.value.clusters))
                        && Recorded(Placements(r.value.clusters), flowcellLanes)
    {
      var clusterPacketId := ids.nextClusterPacketId;
      ids.nextClusterPacketId := ids.nextClusterPacketId + 1;
      if |lanesToUse| == 0 {
        return Err(ZeroDivisionError);
      }
      var moleculesPerLane := |packet.molecules| / |lanesToUse|;
      if |packet.molecules| < |lanesToUse| {
        DivModUnique(|packet.molecules|, |lanesToUse|, 0, |packet.molecules|);
      }
      var attached, history := AttachAll(packet.molecules, ids, moleculesPerLane);
      if attached.Err? {
        return Err(attached.error);
      }
      var clusters := attached.value;
      Converted(history, clusters, runId, packet.molecules, SequencesOf(packet.molecules), old(ids.nextClusterId),
                lanesToUse, moleculesPerLane, minCoords, maxCoords);
      var clusterPacket := new ClusterPacket(clusterPacketId, packet.sample, clusters);
      return Ok(clusterPacket);
    }
  }
}
