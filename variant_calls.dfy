/** `VariantsFinder.call_variants` and `PositionInfo`
    (beers/expression/variants_finder.py): the tallied keys are sorted by
    position and gathered into one record per position; a position is kept
    when it holds more than one description or its one description differs
    from the reference base there. */
module Variants {
  import opened Wrappers
  import opened Text
  import opened Sorting
  import opened VariantReads

  /** `attrgetter('position')`, as a one-element sort key. */
  function PositionKey(k: ReadKey): seq<int> { [k.position] }

  /** The value of a `PositionInfo`: its chromosome, its position and the
      `(description, count)` pairs added to it, in order. */
  datatype Summary = Summary(chromosome: string, position: int, entries: seq<(string, nat)>)

  /** Every listed key has a count, as every key of a dictionary does. */
  predicate Counted(ks: seq<ReadKey>, counts: map<ReadKey, nat>)
  {
    forall k | k in ks :: k in counts
  }

  /** `has_variant`: more than one description, or one that is not the
      reference base; with no description at all, `self.reads[0]` raises
      `IndexError`. */
  function HasVariantOf(entries: seq<(string, nat)>, referenceBase: string): (r: Result<bool>)
    ensures r.Err? <==> entries == []
    ensures r.Err? ==> r.error == IndexError
    ensures r == Ok(false) <==> |entries| == 1 && entries[0].0 == referenceBase
  {
    if |entries| > 1 then Ok(true)
    else if entries == [] then Err(IndexError)
    else Ok(entries[0].0 != referenceBase)
  }

  /** The `(description, count)` pair of one key. */
  function Entry(k: ReadKey, counts: map<ReadKey, nat>): (string, nat)
    requires k in counts
  {
    (k.description, counts[k])
  }

  /** The pairs of a run of keys, in order. */
  function Entries(ks: seq<ReadKey>, counts: map<ReadKey, nat>): seq<(string, nat)>
    requires Counted(ks, counts)
  {
    if ks == [] then [] else Entries(ks[..|ks| - 1], counts) + [Entry(ks[|ks| - 1], counts)]
  }

  /** One key taken by the loop of `call_variants`: a key at the position
      of the record being built joins it, any other key starts a new
      record. */
  function Absorb(g: seq<Summary>, k: ReadKey, counts: map<ReadKey, nat>): seq<Summary>
    requires k in counts
  {
    if g != [] && g[|g| - 1].position == k.position then
      g[..|g| - 1] + [g[|g| - 1].(entries := g[|g| - 1].entries + [Entry(k, counts)])]
    else
      g + [Summary(k.chromosome, k.position, [Entry(k, counts)])]
  }

  /** The records the loop builds from keys taken in order. */
  function Groups(ks: seq<ReadKey>, counts: map<ReadKey, nat>): (r: seq<Summary>)
    requires Counted(ks, counts)
    ensures |r| <= |ks| && (r == [] <==> ks == [])
    ensures ks != [] ==> r[|r| - 1].position == ks[|ks| - 1].position
    ensures forall j :: 0 <= j < |r| ==> r[j].entries != []
  {
    if ks == [] then [] else Absorb(Groups(ks[..|ks| - 1], counts), ks[|ks| - 1], counts)
  }

  /** The verdict on one finished record: the reference base at the
      one-based position (Python indexing, so `IndexError` beyond the
      reference), then `has_variant`. */
  function Verdict(position: int, entries: seq<(string, nat)>, reference: string): Result<bool>
  {
    match PyIndex(reference, position - 1)
    case None => Err(IndexError)
    case Some(base) => HasVariantOf(entries, [base])
  }

  /** The position of a record lies inside the reference, as Python
      indexing (negative indices included) reads it. */
  predicate InReference(position: int, reference: string)
  {
    -|reference| <= position - 1 < |reference|
  }

  /** The records kept, in order; the first failing verdict is the error. */
  function Called(groups: seq<Summary>, reference: string): Result<seq<Summary>>
  {
    if groups == [] then Ok([])
    else
      var before :- Called(groups[..|groups| - 1], reference);
      var g := groups[|groups| - 1];
      var v :- Verdict(g.position, g.entries, reference);
      Ok(if v then before + [g] else before)
  }

  /** What `call_variants` returns: with no key at all the loop never
      creates a `PositionInfo`, and reading the position of `None` raises
      `AttributeError`. */
  function CallVariantsOf(t: Tally, reference: string): Result<seq<Summary>>
    requires Counted(t.keys, t.counts)
  {
    if t.keys == [] then Err(AttributeError)
    else
      SortKeepsCounted(t.keys, t.counts);
      Called(Groups(Sort(t.keys, PositionKey), t.counts), reference)
  }

  lemma SortKeepsCounted(ks: seq<ReadKey>, counts: map<ReadKey, nat>)
    requires Counted(ks, counts)
    ensures Counted(Sort(ks, PositionKey), counts)
  {
    SortPermutes(ks, PositionKey);
    forall k | k in Sort(ks, PositionKey)
      ensures k in counts
    {
      assert k in multiset(Sort(ks, PositionKey));
    }
  }

  // ---------------------------------------------------------------------
  // Properties of the records
  // ---------------------------------------------------------------------

  /** Positions strictly increase along the records. */
  predicate Increasing(g: seq<Summary>)
  {
    forall i, j :: 0 <= i < j < |g| ==> g[i].position < g[j].position
  }

  lemma PositionLeq(a: ReadKey, b: ReadKey)
    requires LexLeq(PositionKey(a), PositionKey(b))
    ensures a.position <= b.position
  {
    assert PositionKey(b)[1..] == [] && PositionKey(a)[1..] == [];
  }

  lemma SortedPrefix(ks: seq<ReadKey>, n: nat)
    requires SortedBy(ks, PositionKey) && n <= |ks|
    ensures SortedBy(ks[..n], PositionKey)
  {
    forall i, j | 0 <= i < j < n
      ensures LexLeq(PositionKey(ks[..n][i]), PositionKey(ks[..n][j]))
    {
      assert ks[..n][i] == ks[i] && ks[..n][j] == ks[j];
    }
  }

  /** Over keys sorted by position, the records have strictly increasing
      positions: each position gets one record. */
  lemma {:induction false} GroupsIncreasing(ks: seq<ReadKey>, counts: map<ReadKey, nat>)
    requires Counted(ks, counts) && SortedBy(ks, PositionKey)
    ensures Increasing(Groups(ks, counts))
  {
    if ks != [] {
      var init, k := ks[..|ks| - 1], ks[|ks| - 1];
      SortedPrefix(ks, |ks| - 1);
      GroupsIncreasing(init, counts);
      var g := Groups(init, counts);
      if g != [] && g[|g| - 1].position != k.position {
        var last := g[|g| - 1].position;
        assert last == init[|init| - 1].position;
        assert init[|init| - 1] == ks[|ks| - 2];
        assert LexLeq(PositionKey(ks[|ks| - 2]), PositionKey(ks[|ks| - 1]));
        PositionLeq(ks[|ks| - 2], k);
        assert last < k.position;
        var r := Groups(ks, counts);
        assert r == g + [Summary(k.chromosome, k.position, [Entry(k, counts)])];
        forall i, j | 0 <= i < j < |r|
          ensures r[i].position < r[j].position
        {
          assert r[i] == g[i];
          if j < |g| {
            assert r[j] == g[j];
          } else if i < |g| - 1 {
            assert g[i].position < g[|g| - 1].position;
          }
        }
      }
    }
  }

  /** Every key's position has a record. */
  lemma {:induction false} GroupOfKey(ks: seq<ReadKey>, counts: map<ReadKey, nat>, i: nat)
    requires Counted(ks, counts) && i < |ks|
    ensures exists j :: 0 <= j < |Groups(ks, counts)| && Groups(ks, counts)[j].position == ks[i].position
  {
    var g := Groups(ks, counts);
    if i == |ks| - 1 {
      assert g[|g| - 1].position == ks[i].position;
    } else {
      var init := ks[..|ks| - 1];
      GroupOfKey(init, counts, i);
      var h := Groups(init, counts);
      var j :| 0 <= j < |h| && h[j].position == init[i].position;
      if j < |h| - 1 {
        assert g[j] == h[j];
      } else if h[|h| - 1].position == ks[|ks| - 1].position {
        assert g[j].position == h[j].position;
      } else {
        assert g[j] == h[j];
      }
    }
  }

  /** Every record's position is some key's. */
  lemma {:induction false} KeyOfGroup(ks: seq<ReadKey>, counts: map<ReadKey, nat>, j: nat)
    requires Counted(ks, counts) && j < |Groups(ks, counts)|
    ensures exists i :: 0 <= i < |ks| && ks[i].position == Groups(ks, counts)[j].position
  {
    var g := Groups(ks, counts);
    var init := ks[..|ks| - 1];
    var h := Groups(init, counts);
    if j == |g| - 1 {
      assert ks[|ks| - 1].position == g[j].position;
    } else {
      assert g[j] == h[j];
      KeyOfGroup(init, counts, j);
      var i :| 0 <= i < |init| && init[i].position == h[j].position;
      assert ks[i] == init[i];
    }
  }

  /** The keys of `ks` at position `p`, in order. */
  function At(ks: seq<ReadKey>, p: int): seq<ReadKey>
  {
    WithKey(ks, PositionKey, [p])
  }

  lemma {:induction false} AtCounted(ks: seq<ReadKey>, counts: map<ReadKey, nat>, p: int)
    requires Counted(ks, counts)
    ensures Counted(At(ks, p), counts)
  {
    if ks != [] {
      assert ks == [ks[0]] + ks[1..];
      AtCounted(ks[1..], counts, p);
    }
  }

  lemma AtSnoc(ks: seq<ReadKey>, k: ReadKey, p: int)
    ensures At(ks + [k], p) == At(ks, p) + (if k.position == p then [k] else [])
  {
    WithKeyAppend(ks, [k], PositionKey, [p]);
    WithKeySingleton(k, PositionKey, [p]);
  }

  lemma EntriesSnoc(ks: seq<ReadKey>, k: ReadKey, counts: map<ReadKey, nat>)
    requires Counted(ks + [k], counts)
    ensures Counted(ks, counts)
    ensures Entries(ks + [k], counts) == Entries(ks, counts) + [Entry(k, counts)]
  {
    assert (ks + [k])[..|ks|] == ks;
  }

  /** In sorted keys, no key lies above the last one. */
  lemma SortedBelowLast(ks: seq<ReadKey>, i: nat)
    requires SortedBy(ks, PositionKey) && i < |ks|
    ensures ks[i].position <= ks[|ks| - 1].position
  {
    if i < |ks| - 1 {
      PositionLeq(ks[i], ks[|ks| - 1]);
    }
  }

  /** A key at another position leaves the pairs at `q` as they were. */
  lemma EntriesElsewhere(init: seq<ReadKey>, k: ReadKey, counts: map<ReadKey, nat>, q: int)
    requires Counted(init + [k], counts) && k.position != q
    ensures Counted(At(init, q), counts) && Counted(At(init + [k], q), counts)
    ensures Entries(At(init + [k], q), counts) == Entries(At(init, q), counts)
  {
    EntriesSnoc(init, k, counts);
    AtCounted(init, counts, q);
    AtSnoc(init, k, q);
    assert At(init, q) + [] == At(init, q);
  }

  /** A key at `q` adds its pair at the end. */
  lemma EntriesHere(init: seq<ReadKey>, k: ReadKey, counts: map<ReadKey, nat>)
    requires Counted(init + [k], counts)
    ensures Counted(At(init, k.position), counts) && Counted(At(init + [k], k.position), counts)
    ensures Entries(At(init + [k], k.position), counts) == Entries(At(init, k.position), counts) + [Entry(k, counts)]
  {
    EntriesSnoc(init, k, counts);
    AtCounted(init, counts, k.position);
    AtSnoc(init, k, k.position);
    AtCounted(init + [k], counts, k.position);
    EntriesSnoc(At(init, k.position), k, counts);
  }

  /** A key above every earlier one is the only one at its position. */
  lemma EntriesFirst(init: seq<ReadKey>, k: ReadKey, counts: map<ReadKey, nat>)
    requires Counted(init + [k], counts)
    requires forall i :: 0 <= i < |init| ==> init[i].position < k.position
    ensures Counted(At(init + [k], k.position), counts)
    ensures Entries(At(init + [k], k.position), counts) == [Entry(k, counts)]
  {
    forall i | 0 <= i < |init|
      ensures PositionKey(init[i]) != [k.position]
    {
    }
    WithKeyNone(init, PositionKey, [k.position]);
    AtSnoc(init, k, k.position);
    assert At(init + [k], k.position) == [k];
    assert Entries([k], counts) == Entries([], counts) + [Entry(k, counts)];
  }

  /** The step of `GroupEntries`: absorbing a key that lies at or above
      every earlier one keeps each record equal to the pairs at its
      position. */
  lemma AbsorbEntries(init: seq<ReadKey>, k: ReadKey, counts: map<ReadKey, nat>, g: seq<Summary>, j: nat)
    requires Counted(init + [k], counts) && Increasing(g) && j < |Absorb(g, k, counts)|
    requires forall i :: 0 <= i < |init| ==> init[i].position <= k.position
    requires g != [] ==> g[|g| - 1].position <= k.position
    requires g != [] ==> forall i :: 0 <= i < |init| ==> init[i].position <= g[|g| - 1].position
    requires g == [] ==> init == []
    requires j < |g| ==> Counted(At(init, g[j].position), counts)
                         && g[j].entries == Entries(At(init, g[j].position), counts)
    ensures Counted(At(init + [k], Absorb(g, k, counts)[j].position), counts)
    ensures Absorb(g, k, counts)[j].entries == Entries(At(init + [k], Absorb(g, k, counts)[j].position), counts)
  {
    var r := Absorb(g, k, counts);
    var q := r[j].position;
    EntriesSnoc(init, k, counts);
    if g != [] && g[|g| - 1].position == k.position {
      if j < |g| - 1 {
        assert r[j] == g[j] && g[j].position < g[|g| - 1].position;
        EntriesElsewhere(init, k, counts, q);
      } else {
        EntriesHere(init, k, counts);
      }
    } else if j < |g| {
      assert r[j] == g[j];
      if j < |g| - 1 {
        assert g[j].position < g[|g| - 1].position;
      }
      EntriesElsewhere(init, k, counts, q);
    } else {
      assert forall i :: 0 <= i < |init| ==> init[i].position < k.position;
      EntriesFirst(init, k, counts);
    }
  }

  /** Over keys sorted by position, each record holds the pairs of exactly
      the keys at its position, in their order. */
  lemma {:induction false} GroupEntries(ks: seq<ReadKey>, counts: map<ReadKey, nat>, j: nat)
    requires Counted(ks, counts) && SortedBy(ks, PositionKey) && j < |Groups(ks, counts)|
    ensures Counted(At(ks, Groups(ks, counts)[j].position), counts)
    ensures Groups(ks, counts)[j].entries == Entries(At(ks, Groups(ks, counts)[j].position), counts)
  {
    var init, k := ks[..|ks| - 1], ks[|ks| - 1];
    assert ks == init + [k];
    SortedPrefix(ks, |ks| - 1);
    var g := Groups(init, counts);
    GroupsIncreasing(init, counts);
    if j < |g| {
      GroupEntries(init, counts, j);
    }
    AllBelowLast(init, k);
    AllBelowLastGroup(init, counts);
    AbsorbEntries(init, k, counts, g, j);
  }

  /** In keys sorted by position, no key lies beyond the last one. */
  lemma AllBelowLast(init: seq<ReadKey>, k: ReadKey)
    requires SortedBy(init + [k], PositionKey)
    ensures forall i :: 0 <= i < |init| ==> init[i].position <= k.position
  {
    var ks := init + [k];
    forall i | 0 <= i < |init|
      ensures init[i].position <= k.position
    {
      assert init[i] == ks[i];
      SortedBelowLast(ks, i);
    }
  }

  /** ... nor beyond the last record grouped from them. */
  lemma AllBelowLastGroup(ks: seq<ReadKey>, counts: map<ReadKey, nat>)
    requires SortedBy(ks, PositionKey) && Counted(ks, counts)
    ensures Groups(ks, counts) != [] ==>
              forall i :: 0 <= i < |ks| ==> ks[i].position <= Groups(ks, counts)[|Groups(ks, counts)| - 1].position
  {
    if ks != [] {
      forall i | 0 <= i < |ks|
        ensures ks[i].position <= ks[|ks| - 1].position
      {
        SortedBelowLast(ks, i);
      }
    }
  }

  // ---------------------------------------------------------------------
  // Properties of the verdicts
  // ---------------------------------------------------------------------

  lemma CalledSnoc(groups: seq<Summary>, g: Summary, reference: string)
    ensures Called(groups + [g], reference)
            == match Called(groups, reference)
               case Err(e) => Err(e)
               case Ok(before) =>
                 match Verdict(g.position, g.entries, reference)
                 case Err(e) => Err(e)
                 case Ok(v) => Ok(if v then before + [g] else before)
  {
    assert (groups + [g])[..|groups|] == groups;
  }

  /** The verdicts fail exactly when some record's position lies outside
      the reference, and then with `IndexError`. */
  lemma {:induction false} CalledFails(groups: seq<Summary>, reference: string)
    requires forall j :: 0 <= j < |groups| ==> groups[j].entries != []
    ensures Called(groups, reference).Ok?
            <==> forall j :: 0 <= j < |groups| ==> InReference(groups[j].position, reference)
    ensures Called(groups, reference).Err? ==> Called(groups, reference).error == IndexError
  {
    if groups != [] {
      var init, g := groups[..|groups| - 1], groups[|groups| - 1];
      assert groups == init + [g];
      CalledFails(init, reference);
      CalledSnoc(init, g, reference);
      if !InReference(g.position, reference) {
        assert !(forall j :: 0 <= j < |groups| ==> InReference(groups[j].position, reference));
      }
      if !(forall j :: 0 <= j < |init| ==> InReference(init[j].position, reference)) {
        var j :| 0 <= j < |init| && !InReference(init[j].position, reference);
        assert groups[j] == init[j];
      }
    }
  }

  /** The kept records are exactly the records whose verdict is `True`. */
  lemma {:induction false} CalledKeeps(groups: seq<Summary>, reference: string)
    requires Called(groups, reference).Ok?
    ensures forall g :: g in Called(groups, reference).value
                        <==> g in groups && Verdict(g.position, g.entries, reference) == Ok(true)
  {
    if groups != [] {
      var init, g := groups[..|groups| - 1], groups[|groups| - 1];
      assert groups == init + [g];
      CalledSnoc(init, g, reference);
      CalledKeeps(init, reference);
    }
  }

  /** The kept records keep the order of positions. */
  lemma {:induction false} CalledIncreasing(groups: seq<Summary>, reference: string)
    requires Called(groups, reference).Ok? && Increasing(groups)
    ensures Increasing(Called(groups, reference).value)
  {
    if groups != [] {
      var init, g := groups[..|groups| - 1], groups[|groups| - 1];
      assert groups == init + [g];
      CalledSnoc(init, g, reference);
      assert Increasing(init) by {
        forall i, j | 0 <= i < j < |init|
          ensures init[i].position < init[j].position
        {
          assert init[i] == groups[i] && init[j] == groups[j];
        }
      }
      CalledIncreasing(init, reference);
      CalledKeeps(init, reference);
      var before := Called(init, reference).value;
      var r := Called(groups, reference).value;
      if r != before {
        assert r == before + [g];
        forall i, j | 0 <= i < j < |r|
          ensures r[i].position < r[j].position
        {
          if j == |r| - 1 {
            assert r[i] in before;
            var m :| 0 <= m < |init| && init[m] == r[i];
            assert groups[m] == init[m];
          } else {
            assert r[i] == before[i] && r[j] == before[j];
          }
        }
      }
    }
  }

  // ---------------------------------------------------------------------
  // Properties of call_variants
  // ---------------------------------------------------------------------

  lemma {:induction false} SortedIndexOf(ks: seq<ReadKey>, i: nat) returns (m: nat)
    requires i < |ks|
    ensures m < |Sort(ks, PositionKey)| && Sort(ks, PositionKey)[m] == ks[i]
  {
    SortPermutes(ks, PositionKey);
    assert ks[i] in multiset(Sort(ks, PositionKey));
    m :| 0 <= m < |Sort(ks, PositionKey)| && Sort(ks, PositionKey)[m] == ks[i];
  }

  lemma {:induction false} OriginalIndexOf(ks: seq<ReadKey>, m: nat) returns (i: nat)
    requires m < |Sort(ks, PositionKey)|
    ensures i < |ks| && ks[i] == Sort(ks, PositionKey)[m]
  {
    SortPermutes(ks, PositionKey);
    assert Sort(ks, PositionKey)[m] in multiset(ks);
    i :| 0 <= i < |ks| && ks[i] == Sort(ks, PositionKey)[m];
  }

  /** `call_variants` fails with `AttributeError` on an empty dictionary and
      with `IndexError` exactly when some key's position lies outside the
      reference. */
  lemma CallVariantsFails(t: Tally, reference: string)
    requires Counted(t.keys, t.counts)
    ensures CallVariantsOf(t, reference).Err?
            <==> t.keys == [] || exists i :: 0 <= i < |t.keys| && !InReference(t.keys[i].position, reference)
    ensures t.keys == [] ==> CallVariantsOf(t, reference) == Err(AttributeError)
    ensures t.keys != [] && CallVariantsOf(t, reference).Err? ==> CallVariantsOf(t, reference) == Err(IndexError)
  {
    if t.keys != [] {
      var sorted := Sort(t.keys, PositionKey);
      SortKeepsCounted(t.keys, t.counts);
      var g := Groups(sorted, t.counts);
      CalledFails(g, reference);
      if i :| 0 <= i < |t.keys| && !InReference(t.keys[i].position, reference) {
        var m := SortedIndexOf(t.keys, i);
        GroupOfKey(sorted, t.counts, m);
      }
      if !(forall j :: 0 <= j < |g| ==> InReference(g[j].position, reference)) {
        var j :| 0 <= j < |g| && !InReference(g[j].position, reference);
        KeyOfGroup(sorted, t.counts, j);
        var m :| 0 <= m < |sorted| && sorted[m].position == g[j].position;
        var i := OriginalIndexOf(t.keys, m);
        assert !InReference(t.keys[i].position, reference);
      }
    }
  }

  /** What `call_variants` returns is one record per reported position, in
      increasing order of position; each record holds the pairs of the
      keys at its position in dictionary order, and its verdict is
      `True`. */
  lemma CallVariantsReports(t: Tally, reference: string)
    requires Counted(t.keys, t.counts) && CallVariantsOf(t, reference).Ok?
    ensures Increasing(CallVariantsOf(t, reference).value)
    ensures forall g | g in CallVariantsOf(t, reference).value ::
              Counted(At(t.keys, g.position), t.counts)
              && g.entries == Entries(At(t.keys, g.position), t.counts)
              && Verdict(g.position, g.entries, reference) == Ok(true)
  {
    var sorted := Sort(t.keys, PositionKey);
    SortKeepsCounted(t.keys, t.counts);
    SortSorted(t.keys, PositionKey);
    var groups := Groups(sorted, t.counts);
    GroupsIncreasing(sorted, t.counts);
    CalledIncreasing(groups, reference);
    CalledKeeps(groups, reference);
    forall g | g in Called(groups, reference).value
      ensures Counted(At(t.keys, g.position), t.counts)
      ensures g.entries == Entries(At(t.keys, g.position), t.counts)
    {
      var j :| 0 <= j < |groups| && groups[j] == g;
      GroupEntries(sorted, t.counts, j);
      SortStable(t.keys, PositionKey, [g.position]);
    }
  }

  /** A position holding a key is reported exactly when the verdict on the
      pairs of all keys there is `True`. */
  lemma CallVariantsComplete(t: Tally, reference: string, i: nat)
    requires Counted(t.keys, t.counts) && CallVariantsOf(t, reference).Ok? && i < |t.keys|
    ensures Counted(At(t.keys, t.keys[i].position), t.counts)
    ensures (exists g :: g in CallVariantsOf(t, reference).value && g.position == t.keys[i].position)
            <==> Verdict(t.keys[i].position, Entries(At(t.keys, t.keys[i].position), t.counts), reference) == Ok(true)
  {
    var p := t.keys[i].position;
    var sorted := Sort(t.keys, PositionKey);
    SortKeepsCounted(t.keys, t.counts);
    SortSorted(t.keys, PositionKey);
    var groups := Groups(sorted, t.counts);
    GroupsIncreasing(sorted, t.counts);
    CalledKeeps(groups, reference);
    var m := SortedIndexOf(t.keys, i);
    GroupOfKey(sorted, t.counts, m);
    var j :| 0 <= j < |groups| && groups[j].position == p;
    GroupEntries(sorted, t.counts, j);
    SortStable(t.keys, PositionKey, [p]);
    AtCounted(t.keys, t.counts, p);
    forall g | g in Called(groups, reference).value && g.position == p
      ensures g == groups[j]
    {
      IncreasingUnique(groups, j, g);
    }
  }

  /** With increasing positions, a position names one record. */
  lemma IncreasingUnique(groups: seq<Summary>, j: nat, g: Summary)
    requires Increasing(groups) && j < |groups| && g in groups && g.position == groups[j].position
    ensures g == groups[j]
  {
    var j' :| 0 <= j' < |groups| && groups[j'] == g;
    assert !(j' < j) && !(j < j');
  }

  // ---------------------------------------------------------------------
  // PositionInfo and the loop of call_variants
  // ---------------------------------------------------------------------

  /** The sum of the counts of a list of pairs. */
  function SumCounts(entries: seq<(string, nat)>): (r: nat)
    ensures forall i :: 0 <= i < |entries| ==> entries[i].1 <= r
  {
    if entries == [] then 0 else SumCounts(entries[..|entries| - 1]) + entries[|entries| - 1].1
  }

  lemma {:induction false} SumCountsAppend(a: seq<(string, nat)>, b: seq<(string, nat)>)
    ensures SumCounts(a + b) == SumCounts(a) + SumCounts(b)
  {
    if b != [] {
      assert (a + b)[..|a + b| - 1] == a + b[..|b| - 1];
      SumCountsAppend(a, b[..|b| - 1]);
    } else {
      assert a + b == a;
    }
  }

  /** The read data gathered at one chromosome position. */
  class PositionInfo {
    const chromosome: string
    const position: int
    var entries: seq<(string, nat)>

    constructor (chromosome: string, position: int)
      ensures this.chromosome == chromosome && this.position == position && entries == []
    {
      this.chromosome := chromosome;
      this.position := position;
      entries := [];
    }

    /** `add_read`: appends one `(description, count)` pair. */
    method AddRead(description: string, readCount: nat)
      modifies this
      ensures entries == old(entries) + [(description, readCount)]
    {
      entries := entries + [(description, readCount)];
    }

    /** `get_total_reads`: no count exceeds the total. */
    function TotalReads(): (r: nat)
      reads this
      ensures forall i :: 0 <= i < |entries| ==> entries[i].1 <= r
    {
      SumCounts(entries)
    }

    /** `has_variant` on the pairs gathered so far. */
    function HasVariant(referenceBase: string): (r: Result<bool>)
      reads this
      ensures r.Err? <==> entries == []
      ensures r == Ok(false) <==> |entries| == 1 && entries[0].0 == referenceBase
    {
      HasVariantOf(entries, referenceBase)
    }

    function Snapshot(): Summary
      reads this
    {
      Summary(chromosome, position, entries)
    }
  }

  /** The values of a list of records. */
  function Summaries(infos: seq<PositionInfo>): (r: seq<Summary>)
    reads infos
    ensures |r| == |infos| && forall i :: 0 <= i < |infos| ==> r[i] == infos[i].Snapshot()
  {
    seq(|infos|, i reads infos requires 0 <= i < |infos| => infos[i].Snapshot())
  }

  lemma GroupsStep(ks: seq<ReadKey>, counts: map<ReadKey, nat>, i: nat)
    requires Counted(ks, counts) && i < |ks|
    ensures Counted(ks[..i], counts) && Counted(ks[..i + 1], counts)
    ensures Groups(ks[..i + 1], counts) == Absorb(Groups(ks[..i], counts), ks[i], counts)
  {
    assert ks[..i + 1][..i] == ks[..i];
  }

  /** Absorbing a key leaves every closed record as it was. */
  lemma AbsorbKeeps(g: seq<Summary>, k: ReadKey, counts: map<ReadKey, nat>)
    requires k in counts && g != []
    ensures |g| <= |Absorb(g, k, counts)| && Absorb(g, k, counts)[..|g| - 1] == g[..|g| - 1]
  {
    var h := Absorb(g, k, counts);
    if g[|g| - 1].position == k.position {
      assert h[..|g| - 1] == g[..|g| - 1];
    } else {
      assert h[..|g| - 1] == g[..|g| - 1];
    }
  }

  /** Absorbing a key keeps any closed prefix. */
  lemma AbsorbKeepsPrefix(a: seq<Summary>, b: seq<Summary>, k: ReadKey, counts: map<ReadKey, nat>)
    requires k in counts && a != [] && |a| <= |b| && b[..|a| - 1] == a[..|a| - 1]
    ensures |a| <= |Absorb(b, k, counts)| && Absorb(b, k, counts)[..|a| - 1] == a[..|a| - 1]
  {
    var c := Absorb(b, k, counts);
    AbsorbKeeps(b, k, counts);
    assert c[..|a| - 1] == c[..|b| - 1][..|a| - 1];
    assert b[..|a| - 1] == b[..|b| - 1][..|a| - 1];
  }

  /** Records once closed stay as they are while later keys arrive. */
  lemma {:induction false} GroupsGrow(ks: seq<ReadKey>, counts: map<ReadKey, nat>, i: nat, j: nat)
    requires Counted(ks, counts) && i <= j <= |ks|
    ensures Counted(ks[..i], counts) && Counted(ks[..j], counts)
    ensures Groups(ks[..i], counts) != [] ==>
              |Groups(ks[..i], counts)| <= |Groups(ks[..j], counts)|
              && Groups(ks[..j], counts)[..|Groups(ks[..i], counts)| - 1]
                 == Groups(ks[..i], counts)[..|Groups(ks[..i], counts)| - 1]
    decreases j - i
  {
    if i < j {
      GroupsGrow(ks, counts, i, j - 1);
      GroupsStep(ks, counts, j - 1);
      if Groups(ks[..i], counts) != [] {
        AbsorbKeepsPrefix(Groups(ks[..i], counts), Groups(ks[..j - 1], counts), ks[j - 1], counts);
      }
    }
  }

  /** A failing verdict fails every longer list of records. */
  lemma {:induction false} CalledPrefixFails(a: seq<Summary>, b: seq<Summary>, reference: string)
    requires |a| <= |b| && b[..|a|] == a && Called(a, reference).Err?
    ensures Called(b, reference) == Err(Called(a, reference).error)
    decreases |b|
  {
    if |a| < |b| {
      var init := b[..|b| - 1];
      assert init[..|a|] == a;
      CalledPrefixFails(a, init, reference);
      assert b == init + [b[|b| - 1]];
      CalledSnoc(init, b[|b| - 1], reference);
    } else {
      assert b == a;
    }
  }

  /** The state of the loop of `call_variants` after the keys `ks`: the
      record being built is the last one, and the records before it have
      had their verdicts, keeping `kept`. */
  ghost predicate Open(ks: seq<ReadKey>, counts: map<ReadKey, nat>, current: Summary, kept: seq<Summary>,
                       reference: string)
  {
    Counted(ks, counts)
    && var g := Groups(ks, counts);
       g != [] && g[|g| - 1] == current && Called(g[..|g| - 1], reference) == Ok(kept)
  }

  lemma OpenStart(ks: seq<ReadKey>, counts: map<ReadKey, nat>, reference: string)
    requires Counted(ks, counts) && ks != []
    ensures Open(ks[..1], counts, Summary(ks[0].chromosome, ks[0].position, [Entry(ks[0], counts)]), [], reference)
  {
    GroupsStep(ks, counts, 0);
    assert ks[..0] == [];
  }

  lemma OpenSame(ks: seq<ReadKey>, counts: map<ReadKey, nat>, i: nat, current: Summary, kept: seq<Summary>,
                 reference: string)
    requires Counted(ks, counts) && i < |ks| && Open(ks[..i], counts, current, kept, reference)
    requires ks[i].position == current.position
    ensures Open(ks[..i + 1], counts, current.(entries := current.entries + [Entry(ks[i], counts)]), kept, reference)
  {
    GroupsStep(ks, counts, i);
    var g := Groups(ks[..i], counts);
    assert (g[..|g| - 1] + [current.(entries := current.entries + [Entry(ks[i], counts)])])[..|g| - 1] == g[..|g| - 1];
  }

  lemma OpenNew(ks: seq<ReadKey>, counts: map<ReadKey, nat>, i: nat, current: Summary, kept: seq<Summary>,
                reference: string)
    requires Counted(ks, counts) && i < |ks| && Open(ks[..i], counts, current, kept, reference)
    requires ks[i].position != current.position
    requires Verdict(current.position, current.entries, reference).Ok?
    ensures var v := Verdict(current.position, current.entries, reference).value;
            Open(ks[..i + 1], counts, Summary(ks[i].chromosome, ks[i].position, [Entry(ks[i], counts)]),
                 if v then kept + [current] else kept, reference)
  {
    GroupsStep(ks, counts, i);
    var g := Groups(ks[..i], counts);
    assert g == g[..|g| - 1] + [current];
    CalledSnoc(g[..|g| - 1], current, reference);
    assert (g + [Summary(ks[i].chromosome, ks[i].position, [Entry(ks[i], counts)])])[..|g|] == g;
  }

  /** A failing verdict on a record the next key closes is the error of
      the whole call. */
  lemma OpenFails(ks: seq<ReadKey>, counts: map<ReadKey, nat>, i: nat, current: Summary, kept: seq<Summary>,
                  reference: string)
    requires Counted(ks, counts) && i < |ks| && Open(ks[..i], counts, current, kept, reference)
    requires ks[i].position != current.position
    requires Verdict(current.position, current.entries, reference).Err?
    ensures Called(Groups(ks, counts), reference) == Err(Verdict(current.position, current.entries, reference).error)
  {
    var g := Groups(ks[..i], counts);
    GroupsStep(ks, counts, i);
    var h := Groups(ks[..i + 1], counts);
    assert h == g + [Summary(ks[i].chromosome, ks[i].position, [Entry(ks[i], counts)])];
    GroupsGrow(ks, counts, i + 1, |ks|);
    assert ks[..|ks|] == ks;
    ClosedFails(g, Groups(ks, counts), reference);
  }

  lemma ClosedFails(g: seq<Summary>, final: seq<Summary>, reference: string)
    requires g != [] && |g| <= |final| && final[..|g|] == g
    requires Verdict(g[|g| - 1].position, g[|g| - 1].entries, reference).Err?
    requires Called(g[..|g| - 1], reference).Ok?
    ensures Called(final, reference) == Err(Verdict(g[|g| - 1].position, g[|g| - 1].entries, reference).error)
  {
    assert g == g[..|g| - 1] + [g[|g| - 1]];
    CalledSnoc(g[..|g| - 1], g[|g| - 1], reference);
    CalledPrefixFails(g, final, reference);
  }

  /** A failing verdict on the last record is the error of the whole call. */
  lemma OpenFailsAtEnd(ks: seq<ReadKey>, counts: map<ReadKey, nat>, current: Summary, kept: seq<Summary>,
                       reference: string)
    requires Open(ks, counts, current, kept, reference)
    requires Verdict(current.position, current.entries, reference).Err?
    ensures Called(Groups(ks, counts), reference) == Err(Verdict(current.position, current.entries, reference).error)
  {
    var g := Groups(ks, counts);
    assert g == g[..|g| - 1] + [current];
    CalledSnoc(g[..|g| - 1], current, reference);
  }

  lemma OpenDone(ks: seq<ReadKey>, counts: map<ReadKey, nat>, current: Summary, kept: seq<Summary>,
                 reference: string)
    requires Open(ks, counts, current, kept, reference)
    requires Verdict(current.position, current.entries, reference).Ok?
    ensures var v := Verdict(current.position, current.entries, reference).value;
            Called(Groups(ks, counts), reference) == Ok(if v then kept + [current] else kept)
  {
    var g := Groups(ks, counts);
    assert g == g[..|g| - 1] + [current];
    CalledSnoc(g[..|g| - 1], current, reference);
  }

  lemma SummariesSnoc(infos: seq<PositionInfo>, info: PositionInfo)
    ensures Summaries(infos + [info]) == Summaries(infos) + [info.Snapshot()]
  {
    var a, b := Summaries(infos + [info]), Summaries(infos) + [info.Snapshot()];
    assert |a| == |b|;
    forall i | 0 <= i < |a|
      ensures a[i] == b[i]
    {
      if i < |infos| {
        assert (infos + [info])[i] == infos[i];
      }
    }
  }

  /** The verdict on a finished `PositionInfo`: the reference base at its
      one-based position, then `has_variant`; a `True` verdict appends it
      to the variants. */
  method Close(info: PositionInfo, variants: seq<PositionInfo>, reference: string)
    returns (r: Result<seq<PositionInfo>>)
    ensures Verdict(info.position, info.entries, reference).Err?
            ==> r == Err(Verdict(info.position, info.entries, reference).error)
    ensures Verdict(info.position, info.entries, reference).Ok?
            ==> r == Ok(if Verdict(info.position, info.entries, reference).value then variants + [info] else variants)
  {
    var base := PyIndex(reference, info.position - 1);
    if base.None? {
      return Err(IndexError);
    }
    var v :- info.HasVariant([base.value]);
    r := Ok(if v then variants + [info] else variants);
  }

  /** A new `PositionInfo` at a key's position holding the key's pair. */
  method Start(k: ReadKey, count: nat) returns (info: PositionInfo)
    ensures fresh(info) && info.Snapshot() == Summary(k.chromosome, k.position, [(k.description, count)])
  {
    info := new PositionInfo(k.chromosome, k.position);
    info.AddRead(k.description, count);
  }

  /** A key at a new position: the verdict on the finished `PositionInfo`,
      then a new `PositionInfo` for the key. */
  method NextPosition(ks: seq<ReadKey>, counts: map<ReadKey, nat>, i: nat, info: PositionInfo,
                      variants: seq<PositionInfo>, reference: string)
    returns (r: Result<seq<PositionInfo>>, next: PositionInfo)
    requires Counted(ks, counts) && i < |ks| && info !in variants && ks[i].position != info.position
    requires Open(ks[..i], counts, info.Snapshot(), Summaries(variants), reference)
    ensures r.Err? ==> Called(Groups(ks, counts), reference) == Err(r.error)
    ensures r.Ok? ==> fresh(next) && next !in r.value && Open(ks[..i + 1], counts, next.Snapshot(), Summaries(r.value), reference)
  {
    ghost var current, kept := info.Snapshot(), Summaries(variants);
    r := Close(info, variants, reference);
    if r.Err? {
      OpenFails(ks, counts, i, current, kept, reference);
      next := info;
      return;
    }
    OpenNew(ks, counts, i, current, kept, reference);
    SummariesSnoc(variants, info);
    var k := ks[i];
    next := Start(k, counts[k]);
  }

  /** A key at the open position: its pair joins the open `PositionInfo`. */
  method SamePosition(ks: seq<ReadKey>, counts: map<ReadKey, nat>, i: nat, info: PositionInfo,
                      variants: seq<PositionInfo>, ghost kept: seq<Summary>, reference: string)
    requires Counted(ks, counts) && i < |ks| && info !in variants && ks[i].position == info.position
    requires Open(ks[..i], counts, info.Snapshot(), kept, reference)
    modifies info
    ensures Summaries(variants) == old(Summaries(variants))
    ensures Open(ks[..i + 1], counts, info.Snapshot(), kept, reference)
  {
    OpenSame(ks, counts, i, info.Snapshot(), kept, reference);
    info.AddRead(ks[i].description, counts[ks[i]]);
  }

  /** One turn of the loop of `call_variants`: the first key opens a
      `PositionInfo`; a key at a new position closes the open one and opens
      another; a key at the open position joins it. */
  method Visit(ks: seq<ReadKey>, counts: map<ReadKey, nat>, i: nat, info: PositionInfo?,
               variants: seq<PositionInfo>, reference: string)
    returns (r: Result<seq<PositionInfo>>, next: PositionInfo)
    requires Counted(ks, counts) && i < |ks|
    requires info == null <==> i == 0
    requires info == null ==> variants == []
    requires info != null ==> info !in variants && Open(ks[..i], counts, info.Snapshot(), Summaries(variants), reference)
    modifies info
    ensures r.Err? ==> Called(Groups(ks, counts), reference) == Err(r.error)
    ensures r.Ok? ==> (fresh(next) || next == info) && next !in r.value
                      && Open(ks[..i + 1], counts, next.Snapshot(), Summaries(r.value), reference)
  {
    var k := ks[i];
    if info == null {
      next := Start(k, counts[k]);
      OpenStart(ks, counts, reference);
      r := Ok([]);
    } else if k.position != info.position {
      r, next := NextPosition(ks, counts, i, info, variants, reference);
    } else {
      SamePosition(ks, counts, i, info, variants, Summaries(variants), reference);
      r, next := Ok(variants), info;
    }
  }

  /** The loop of `call_variants` over keys already sorted by position:
      one `PositionInfo` per run of keys at one position, kept, when the
      next position begins and at the end, if its verdict is `True`. */
  method GatherVariants(ks: seq<ReadKey>, counts: map<ReadKey, nat>, reference: string)
    returns (r: Result<seq<PositionInfo>>)
    requires Counted(ks, counts)
    ensures ks == [] ==> r == Err(AttributeError)
    ensures ks != [] && Called(Groups(ks, counts), reference).Err?
            ==> r == Err(Called(Groups(ks, counts), reference).error)
    ensures ks != [] && Called(Groups(ks, counts), reference).Ok?
            ==> r.Ok? && Summaries(r.value) == Called(Groups(ks, counts), reference).value
  {
    var variants: seq<PositionInfo> := [];
    var info: PositionInfo? := null;
    for i := 0 to |ks|
      invariant info == null <==> i == 0
      invariant info == null ==> variants == []
      invariant info != null ==> fresh(info) && info !in variants
                                 && Open(ks[..i], counts, info.Snapshot(), Summaries(variants), reference)
    {
      var closed, next := Visit(ks, counts, i, info, variants, reference);
      if closed.Err? {
        return Err(closed.error);
      }
      variants, info := closed.value, next;
    }
    if info == null {
      return Err(AttributeError);
    }
    assert ks[..|ks|] == ks;
    ghost var current, kept := info.Snapshot(), Summaries(variants);
    r := Close(info, variants, reference);
    if r.Err? {
      OpenFailsAtEnd(ks, counts, current, kept, reference);
    } else {
      OpenDone(ks, counts, current, kept, reference);
      SummariesSnoc(variants, info);
    }
  }

  /** `call_variants`: the keys of the dictionary, in dictionary order,
      sorted by position, then gathered. */
  method CallVariants(t: Tally, reference: string) returns (r: Result<seq<PositionInfo>>)
    requires Counted(t.keys, t.counts)
    ensures CallVariantsOf(t, reference).Err? ==> r == Err(CallVariantsOf(t, reference).error)
    ensures CallVariantsOf(t, reference).Ok? ==> r.Ok? && Summaries(r.value) == CallVariantsOf(t, reference).value
  {
    var sorted := Sort(t.keys, PositionKey);
    SortKeepsCounted(t.keys, t.counts);
    r := GatherVariants(sorted, t.counts, reference);
  }

  /** A tally built by bumping holds a count for every key it lists. */
  lemma TallyCounted(ks: seq<ReadKey>)
    ensures Counted(TallyOf(ks).keys, TallyOf(ks).counts)
  {
    TallyCounts(ks);
  }

  /** `find_variants`: `call_variants` over what `collect_reads` gathers
      from the aligned reads of one chromosome. */
  method FindVariants(chromosome: string, aligned: seq<AlignedRead>, reference: string)
    returns (r: Result<seq<PositionInfo>>)
    ensures AllReadKeys(chromosome, aligned).Err? ==> r == Err(IndexError)
    ensures AllReadKeys(chromosome, aligned).Ok? ==>
              var t := TallyOf(AllReadKeys(chromosome, aligned).value);
              Counted(t.keys, t.counts)
              && (CallVariantsOf(t, reference).Err? ==> r == Err(CallVariantsOf(t, reference).error))
              && (CallVariantsOf(t, reference).Ok? ==> r.Ok? && Summaries(r.value) == CallVariantsOf(t, reference).value)
  {
    var t :- CollectReads(chromosome, aligned);
    TallyCounted(AllReadKeys(chromosome, aligned).value);
    r := CallVariants(t, reference);
  }
}

