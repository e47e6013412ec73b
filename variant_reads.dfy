/** The read walk of the variant finder (beers/expression/variants_finder.py):
    clip removal, and the tally of (type, chromosome, position, description)
    keys that `collect_reads` builds from the aligned reads of one
    chromosome. */
module VariantReads {
  import opened Wrappers
  import opened Text
  import opened Cigar

  /** The `Read` named tuple: the operation letter, the chromosome, the
      one-based genome position and the description (a read base, `D<n>` or
      `I<bases>`). */
  datatype ReadKey = ReadKey(kind: char, chromosome: string, position: int, description: string)

  /** An aligned read that passed the mapping filter: its zero-based
      reference start, its CIGAR string and its forward sequence. */
  datatype AlignedRead = AlignedRead(referenceStart: int, cigar: string, sequence: string)

  predicate IsClipKind(c: char) { c == 'S' || c == 'H' }

  // ---------------------------------------------------------------------
  // Clip removal
  // ---------------------------------------------------------------------

  /** `re.search("(^\d+)[SH]", cigar)`: the length of the leading digit run
      when a clip letter follows it. */
  function LeadingClip(cigar: string): (n: Option<nat>)
    ensures n.Some? ==> 0 < n.value < |cigar| && AllDigits(cigar[..n.value])
  {
    var d := DigitRun(cigar);
    if 0 < d < |cigar| && IsClipKind(cigar[d]) then Some(d) else None
  }

  /** The length of the run of ASCII digits at the end of `s`. */
  function TrailingDigitRun(s: string): (n: nat)
    ensures n <= |s|
    ensures n < |s| ==> !IsDigit(s[|s| - 1 - n])
  {
    if s != [] && IsDigit(s[|s| - 1]) then 1 + TrailingDigitRun(s[..|s| - 1]) else 0
  }

  /** `re.sub("\d+[SH]$", "", t)` on a text without a final newline: a
      final clip letter goes, with the whole digit run in front of it. */
  function DropFinalClip(t: string): string
  {
    if t != [] && IsClipKind(t[|t| - 1]) && TrailingDigitRun(t[..|t| - 1]) > 0
    then t[..|t| - 1 - TrailingDigitRun(t[..|t| - 1])]
    else t
  }

  /** `re.sub("\d+[SH]$", "", cigar)`: `$` also matches in front of a final
      newline, which stays. */
  function RemoveTrailingClip(cigar: string): string
  {
    if cigar != [] && cigar[|cigar| - 1] == '\n' then DropFinalClip(cigar[..|cigar| - 1]) + "\n"
    else DropFinalClip(cigar)
  }

  /** `remove_clips`: a leading clip leaves the CIGAR string and drops that
      many bases from the front of the sequence; a trailing clip leaves the
      CIGAR string only. */
  function RemoveClips(cigar: string, sequence: string): (string, string)
  {
    match LeadingClip(cigar)
    case Some(n) => (RemoveTrailingClip(cigar[n + 1..]), PySlice(sequence, DigitsValue(cigar[..n]), |sequence|))
    case None => (RemoveTrailingClip(cigar), sequence)
  }

  /** The text of an optional clip: its length and letter. */
  function Clip(c: Option<(nat, char)>): string
  {
    if c.None? then "" else NatToString(c.value.0) + [c.value.1]
  }

  lemma {:induction false} TrailingDigitRunOfDigits(p: string, d: string)
    requires AllDigits(d)
    requires p == [] || !IsDigit(p[|p| - 1])
    ensures TrailingDigitRun(p + d) == |d|
    decreases |d|
  {
    if d != [] {
      assert (p + d)[..|p + d| - 1] == p + d[..|d| - 1];
      TrailingDigitRunOfDigits(p, d[..|d| - 1]);
    } else {
      assert p + d == p;
    }
  }

  /** Rendered walk operations start with a digit run and end with an
      operation letter. */
  lemma {:induction false} RenderShape(ops: seq<Op>)
    requires ops != [] && forall i :: 0 <= i < |ops| ==> IsWalkKind(ops[i].kind)
    ensures Render(ops) == NatToString(ops[0].length) + [ops[0].kind] + Render(ops[1..])
    ensures |Render(ops)| > 0 && IsWalkKind(Render(ops)[|Render(ops)| - 1])
  {
    if |ops| > 1 {
      RenderShape(ops[1..]);
    } else {
      assert ops[1..] == [];
    }
  }

  /** A CIGAR string of walk operations between optional clips loses
      exactly its clips, and the sequence loses as many leading bases as
      the leading clip counts. */
  lemma RemoveClipsOfClipped(lead: Option<(nat, char)>, ops: seq<Op>, trail: Option<(nat, char)>, sequence: string)
    requires lead.Some? ==> IsClipKind(lead.value.1)
    requires trail.Some? ==> IsClipKind(trail.value.1)
    requires ops != [] && forall i :: 0 <= i < |ops| ==> IsWalkKind(ops[i].kind)
    ensures RemoveClips(Clip(lead) + (Render(ops) + Clip(trail)), sequence)
            == (Render(ops), if lead.Some? then PySlice(sequence, lead.value.0, |sequence|) else sequence)
  {
    RenderShape(ops);
    var p := Render(ops);
    var d0 := NatToString(ops[0].length);
    assert p[..|d0|] == d0 && p[|d0|] == ops[0].kind;
    RemoveClipsAround(lead, p, d0, ops[0].kind, trail, sequence);
  }

  /** The same for any text `p` that starts with a digit run and an
      operation letter and ends with an operation letter. */
  lemma RemoveClipsAround(lead: Option<(nat, char)>, p: string, d: string, k: char, trail: Option<(nat, char)>,
                          sequence: string)
    requires lead.Some? ==> IsClipKind(lead.value.1)
    requires trail.Some? ==> IsClipKind(trail.value.1)
    requires |d| > 0 && AllDigits(d) && IsWalkKind(k) && |d| < |p| && p[..|d|] == d && p[|d|] == k
    requires IsWalkKind(p[|p| - 1])
    ensures RemoveClips(Clip(lead) + (p + Clip(trail)), sequence)
            == (p, if lead.Some? then PySlice(sequence, lead.value.0, |sequence|) else sequence)
  {
    var body := p + Clip(trail);
    TrailingClipGoes(p, trail);
    if lead.Some? {
      LeadingClipOfClip(lead.value.0, lead.value.1, body);
    } else {
      assert Clip(lead) + body == body;
      assert body[..|d|] == d && body[|d|] == k;
      NoLeadingClip(body, d, k);
    }
  }

  lemma LeadingClipOfClip(n: nat, k: char, body: string)
    requires IsClipKind(k)
    ensures var d := NatToString(n);
            var c := d + [k] + body;
            LeadingClip(c) == Some(|d|) && DigitsValue(c[..|d|]) == n && c[|d| + 1..] == body
  {
    var d := NatToString(n);
    var c := d + [k] + body;
    assert c[..|d|] == d && c[|d|] == k;
    DigitRunAt(c, |d|);
    DigitsValueOfNatToString(n);
  }

  /** A text whose leading digit run is followed by an operation letter has
      no leading clip. */
  lemma NoLeadingClip(c: string, d: string, k: char)
    requires |d| > 0 && AllDigits(d) && IsWalkKind(k)
    requires |d| < |c| && c[..|d|] == d && c[|d|] == k
    ensures LeadingClip(c) == None
  {
    DigitRunAt(c, |d|);
  }

  lemma {:induction false} DigitRunAt(c: string, n: nat)
    requires n < |c| && AllDigits(c[..n]) && !IsDigit(c[n])
    ensures DigitRun(c) == n
  {
    if n > 0 {
      assert IsDigit(c[..n][0]);
      assert c[1..][..n - 1] == c[..n][1..];
      DigitRunAt(c[1..], n - 1);
    }
  }

  lemma TrailingClipGoes(p: string, trail: Option<(nat, char)>)
    requires trail.Some? ==> IsClipKind(trail.value.1)
    requires |p| > 0 && IsWalkKind(p[|p| - 1])
    ensures RemoveTrailingClip(p + Clip(trail)) == p
  {
    if trail.Some? {
      var d := NatToString(trail.value.0);
      var t := (p + d) + [trail.value.1];
      assert p + Clip(trail) == t;
      assert t[|t| - 1] == trail.value.1 && t[..|t| - 1] == p + d;
      assert RemoveTrailingClip(t) == DropFinalClip(t);
      TrailingDigitRunOfDigits(p, d);
      assert (p + d)[..|p|] == p;
    } else {
      assert p + Clip(trail) == p;
      assert RemoveTrailingClip(p) == DropFinalClip(p);
    }
  }

  /** A CIGAR string without clip letters and the sequence are returned
      unchanged. */
  lemma RemoveClipsUnclipped(cigar: string, sequence: string)
    requires forall i :: 0 <= i < |cigar| ==> !IsClipKind(cigar[i])
    ensures RemoveClips(cigar, sequence) == (cigar, sequence)
  {
    if cigar != [] && cigar[|cigar| - 1] == '\n' {
      var t := cigar[..|cigar| - 1];
      assert t != [] ==> t[|t| - 1] == cigar[|cigar| - 2];
      assert t + "\n" == cigar;
    }
  }

  // ---------------------------------------------------------------------
  // The walk over a read's operations
  // ---------------------------------------------------------------------

  /** The genome cursor (`current_pos_in_genome`) and the one-based read
      cursor (`loc_on_read`). */
  datatype Cursor = Cursor(genome: int, read: int)

  /** The keys the first `length` positions of an `M` run record from
      `cursor`: one per position, with the read base there. A read shorter
      than its CIGAR string raises `IndexError`. */
  function MatchKeys(chromosome: string, cursor: Cursor, length: nat, sequence: string): Result<seq<ReadKey>>
  {
    if length == 0 then Ok([])
    else
      var keys :- MatchKeys(chromosome, cursor, length - 1, sequence);
      var base := PyIndex(sequence, cursor.read - 1 + length - 1);
      if base.None? then Err(IndexError)
      else Ok(keys + [ReadKey('M', chromosome, cursor.genome + length - 1, [base.value])])
  }

  /** One operation of the walk: the keys it records and the cursors after
      it. */
  function OpKeys(chromosome: string, op: Op, cursor: Cursor, sequence: string): Result<(seq<ReadKey>, Cursor)>
  {
    if op.kind == 'N' then Ok(([], Cursor(cursor.genome + op.length, cursor.read)))
    else if op.kind == 'M' then
      var keys :- MatchKeys(chromosome, cursor, op.length, sequence);
      Ok((keys, Cursor(cursor.genome + op.length, cursor.read + op.length)))
    else if op.kind == 'D' then
      Ok(([ReadKey('D', chromosome, cursor.genome, "D" + NatToString(op.length))],
          Cursor(cursor.genome + op.length, cursor.read)))
    else if op.kind == 'I' then
      var inserted := PySlice(sequence, cursor.read - 1, cursor.read - 1 + op.length);
      Ok(([ReadKey('I', chromosome, cursor.genome, "I" + inserted)], Cursor(cursor.genome, cursor.read + op.length)))
    else Ok(([], cursor))
  }

  /** The walk over a list of operations from `start`. */
  function WalkKeys(chromosome: string, ops: seq<Op>, start: Cursor, sequence: string): Result<(seq<ReadKey>, Cursor)>
  {
    if ops == [] then Ok(([], start))
    else
      var walked :- WalkKeys(chromosome, ops[..|ops| - 1], start, sequence);
      var step :- OpKeys(chromosome, ops[|ops| - 1], walked.1, sequence);
      Ok((walked.0 + step.0, step.1))
  }

  /** The keys one read records: clips removed, then the walk over the
      operations `(\d+)([NMID])` finds, from the read's one-based start and
      the read's first base. */
  function ReadKeys(chromosome: string, read: AlignedRead): Result<seq<ReadKey>>
  {
    var clipped := RemoveClips(read.cigar, read.sequence);
    var walked :- WalkKeys(chromosome, Ops(clipped.0), Cursor(read.referenceStart + 1, 1), clipped.1);
    Ok(walked.0)
  }

  /** The keys all reads record, read after read. */
  function AllReadKeys(chromosome: string, aligned: seq<AlignedRead>): Result<seq<ReadKey>>
  {
    if aligned == [] then Ok([])
    else
      var before :- AllReadKeys(chromosome, aligned[..|aligned| - 1]);
      var last :- ReadKeys(chromosome, aligned[|aligned| - 1]);
      Ok(before + last)
  }

  // ---------------------------------------------------------------------
  // What each operation records
  // ---------------------------------------------------------------------

  /** An `M` run of `L` positions fails exactly when the read is too
      short for it. */
  lemma {:induction false} MatchFailsIffShort(chromosome: string, cursor: Cursor, length: nat, sequence: string)
    requires cursor.read >= 1
    ensures MatchKeys(chromosome, cursor, length, sequence).Ok? <==>
              length == 0 || cursor.read - 1 + length <= |sequence|
  {
    if length > 0 {
      MatchFailsIffShort(chromosome, cursor, length - 1, sequence);
      var i := cursor.read - 1 + length - 1;
      assert PyIndex(sequence, i).Some? <==> i < |sequence|;
    }
  }

  /** An `M` run of `L` positions records, for each position, the genome
      position and the read base there. */
  lemma {:induction false} MatchRecords(chromosome: string, cursor: Cursor, length: nat, sequence: string)
    requires cursor.read >= 1 && MatchKeys(chromosome, cursor, length, sequence).Ok?
    ensures var keys := MatchKeys(chromosome, cursor, length, sequence).value;
            |keys| == length
            && forall i :: 0 <= i < length ==>
                 keys[i] == ReadKey('M', chromosome, cursor.genome + i, [sequence[cursor.read - 1 + i]])
  {
    MatchFailsIffShort(chromosome, cursor, length, sequence);
    if length > 0 {
      MatchFailsIffShort(chromosome, cursor, length - 1, sequence);
      MatchRecords(chromosome, cursor, length - 1, sequence);
    }
  }

  /** One more position of an `M` run. */
  lemma MatchStep(chromosome: string, cursor: Cursor, n: nat, sequence: string, recorded: seq<ReadKey>)
    requires MatchKeys(chromosome, cursor, n, sequence) == Ok(recorded)
    ensures var base := PyIndex(sequence, cursor.read - 1 + n);
            MatchKeys(chromosome, cursor, n + 1, sequence)
            == if base.None? then Err(IndexError)
               else Ok(recorded + [ReadKey('M', chromosome, cursor.genome + n, [base.value])])
  {
  }

  /** `M` moves both cursors by its length; `D` and `N` move only the
      genome cursor and `I` only the read cursor. `D` records one `D<n>` key
      and `I` one `I<bases>` key at the genome cursor; `N` records nothing. */
  lemma OpMoves(chromosome: string, op: Op, cursor: Cursor, sequence: string)
    requires IsWalkKind(op.kind) && OpKeys(chromosome, op, cursor, sequence).Ok?
    ensures var r := OpKeys(chromosome, op, cursor, sequence).value;
            (op.kind == 'M' ==> r.1 == Cursor(cursor.genome + op.length, cursor.read + op.length)
                                && |r.0| == op.length)
            && (op.kind == 'D' ==> r.1 == Cursor(cursor.genome + op.length, cursor.read)
                                   && r.0 == [ReadKey('D', chromosome, cursor.genome, "D" + NatToString(op.length))])
            && (op.kind == 'I' ==> r.1 == Cursor(cursor.genome, cursor.read + op.length)
                                   && r.0 == [ReadKey('I', chromosome, cursor.genome,
                                                      "I" + PySlice(sequence, cursor.read - 1,
                                                                    cursor.read - 1 + op.length))])
            && (op.kind == 'N' ==> r.1 == Cursor(cursor.genome + op.length, cursor.read) && r.0 == [])
  {
    if op.kind == 'M' {
      MatchLength(chromosome, cursor, op.length, sequence);
    }
  }

  lemma {:induction false} MatchLength(chromosome: string, cursor: Cursor, length: nat, sequence: string)
    requires MatchKeys(chromosome, cursor, length, sequence).Ok?
    ensures |MatchKeys(chromosome, cursor, length, sequence).value| == length
  {
    if length > 0 {
      MatchLength(chromosome, cursor, length - 1, sequence);
    }
  }

  /** The only failure of the walk is a read shorter than its CIGAR string. */
  lemma {:induction false} WalkFailsByIndex(chromosome: string, ops: seq<Op>, start: Cursor, sequence: string)
    ensures WalkKeys(chromosome, ops, start, sequence).Err? ==> WalkKeys(chromosome, ops, start, sequence).error == IndexError
  {
    if ops != [] {
      WalkFailsByIndex(chromosome, ops[..|ops| - 1], start, sequence);
      var walked := WalkKeys(chromosome, ops[..|ops| - 1], start, sequence);
      if walked.Ok? {
        var op := ops[|ops| - 1];
        if op.kind == 'M' {
          MatchFailsByIndex(chromosome, walked.value.1, op.length, sequence);
        }
      }
    }
  }

  lemma {:induction false} MatchFailsByIndex(chromosome: string, cursor: Cursor, length: nat, sequence: string)
    ensures MatchKeys(chromosome, cursor, length, sequence).Err? ==>
              MatchKeys(chromosome, cursor, length, sequence).error == IndexError
  {
    if length > 0 {
      MatchFailsByIndex(chromosome, cursor, length - 1, sequence);
    }
  }

  lemma {:induction false} AllFailByIndex(chromosome: string, aligned: seq<AlignedRead>)
    ensures AllReadKeys(chromosome, aligned).Err? ==> AllReadKeys(chromosome, aligned).error == IndexError
  {
    if aligned != [] {
      AllFailByIndex(chromosome, aligned[..|aligned| - 1]);
      ReadFailsByIndex(chromosome, aligned[|aligned| - 1]);
    }
  }

  lemma ReadFailsByIndex(chromosome: string, read: AlignedRead)
    ensures ReadKeys(chromosome, read).Err? ==> ReadKeys(chromosome, read).error == IndexError
  {
    var clipped := RemoveClips(read.cigar, read.sequence);
    WalkFailsByIndex(chromosome, Ops(clipped.0), Cursor(read.referenceStart + 1, 1), clipped.1);
  }

  /** A failure part-way stays a failure: the read list with a failing
      prefix fails. */
  lemma {:induction false} AllFailFromPrefix(chromosome: string, aligned: seq<AlignedRead>, i: nat)
    requires i <= |aligned| && AllReadKeys(chromosome, aligned[..i]).Err?
    ensures AllReadKeys(chromosome, aligned).Err?
    decreases |aligned| - i
  {
    if i < |aligned| {
      assert aligned[..i + 1][..i] == aligned[..i];
      AllFailFromPrefix(chromosome, aligned, i + 1);
    } else {
      assert aligned[..i] == aligned;
    }
  }

  lemma {:induction false} WalkFailFromPrefix(chromosome: string, ops: seq<Op>, start: Cursor, sequence: string, j: nat)
    requires j <= |ops| && WalkKeys(chromosome, ops[..j], start, sequence).Err?
    ensures WalkKeys(chromosome, ops, start, sequence).Err?
    decreases |ops| - j
  {
    if j < |ops| {
      assert ops[..j + 1][..j] == ops[..j];
      WalkFailFromPrefix(chromosome, ops, start, sequence, j + 1);
    } else {
      assert ops[..j] == ops;
    }
  }

  lemma {:induction false} MatchFailFromPrefix(chromosome: string, cursor: Cursor, length: nat, sequence: string, n: nat)
    requires n <= length && MatchKeys(chromosome, cursor, n, sequence).Err?
    ensures MatchKeys(chromosome, cursor, length, sequence).Err?
    decreases length - n
  {
    if n < length {
      MatchFailFromPrefix(chromosome, cursor, length, sequence, n + 1);
    }
  }

  // ---------------------------------------------------------------------
  // The tally
  // ---------------------------------------------------------------------

  /** The `reads` dictionary: counts by key, with the keys in insertion
      order, which Python's dictionaries keep. */
  datatype Tally = Tally(keys: seq<ReadKey>, counts: map<ReadKey, nat>)

  /** `reads[k] = reads.get(k, 0) + 1`: a new key goes to the end. */
  function Bump(t: Tally, k: ReadKey): Tally
  {
    if k in t.counts then Tally(t.keys, t.counts[k := t.counts[k] + 1])
    else Tally(t.keys + [k], t.counts[k := 1])
  }

  /** The dictionary after bumping every key of `ks` in turn. */
  function TallyOf(ks: seq<ReadKey>): Tally
  {
    if ks == [] then Tally([], map[]) else Bump(TallyOf(ks[..|ks| - 1]), ks[|ks| - 1])
  }

  /** How often `k` occurs in `ks`. */
  function Occurrences(ks: seq<ReadKey>, k: ReadKey): nat
  {
    if ks == [] then 0 else Occurrences(ks[..|ks| - 1], k) + (if ks[|ks| - 1] == k then 1 else 0)
  }

  predicate NoDuplicateKeys(ks: seq<ReadKey>)
  {
    forall i, j :: 0 <= i < j < |ks| ==> ks[i] != ks[j]
  }

  /** A dictionary's keys are listed once each. */
  ghost predicate WellFormed(t: Tally)
  {
    NoDuplicateKeys(t.keys) && forall k :: k in t.counts <==> k in t.keys
  }

  /** The tally holds exactly the recorded keys, each listed once, and
      each key's count is the number of times it was recorded. */
  lemma {:induction false} TallyCounts(ks: seq<ReadKey>)
    ensures WellFormed(TallyOf(ks))
    ensures forall k :: k in TallyOf(ks).counts <==> k in ks
    ensures forall k :: k in TallyOf(ks).counts ==> TallyOf(ks).counts[k] == Occurrences(ks, k)
  {
    if ks != [] {
      var init, last := ks[..|ks| - 1], ks[|ks| - 1];
      TallyCounts(init);
      SnocMembers(init, last);
      assert ks == init + [last];
      BumpKeeps(TallyOf(init), last);
      forall k | k in TallyOf(ks).counts
        ensures TallyOf(ks).counts[k] == Occurrences(ks, k)
      {
        if k != last {
          assert k in TallyOf(init).counts;
        } else if k !in init {
          OccurrencesAbsent(init, k);
        }
      }
    }
  }

  lemma {:induction false} OccurrencesAbsent(ks: seq<ReadKey>, k: ReadKey)
    requires k !in ks
    ensures Occurrences(ks, k) == 0
  {
    if ks != [] {
      assert ks[..|ks| - 1] <= ks;
      OccurrencesAbsent(ks[..|ks| - 1], k);
    }
  }

  lemma SnocMembers(init: seq<ReadKey>, last: ReadKey)
    ensures forall k :: k in init + [last] <==> k in init || k == last
  {
    forall k | k in init + [last]
      ensures k in init || k == last
    {
      var i :| 0 <= i < |init + [last]| && (init + [last])[i] == k;
      if i < |init| {
        assert init[i] == k;
      }
    }
  }

  /** Bumping keeps the keys listed once each. */
  lemma BumpKeeps(t: Tally, k: ReadKey)
    requires WellFormed(t)
    ensures WellFormed(Bump(t, k))
    ensures forall j :: j in Bump(t, k).counts <==> j in t.counts || j == k
  {
    if k !in t.counts {
      var keys := t.keys + [k];
      forall i, j | 0 <= i < j < |keys|
        ensures keys[i] != keys[j]
      {
        if j == |keys| - 1 {
          assert keys[i] in t.keys;
        }
      }
      SnocMembers(t.keys, k);
    }
  }

  /** Counting `ks` then `k` is a bump of the count of `ks`. */
  lemma TallySnoc(ks: seq<ReadKey>, k: ReadKey)
    ensures TallyOf(ks + [k]) == Bump(TallyOf(ks), k)
  {
    assert (ks + [k])[..|ks|] == ks;
  }

  lemma TallyAppend(ks: seq<ReadKey>, more: seq<ReadKey>, k: ReadKey)
    ensures TallyOf(ks + (more + [k])) == Bump(TallyOf(ks + more), k)
  {
    assert ks + (more + [k]) == (ks + more) + [k];
    TallySnoc(ks + more, k);
  }

  // ---------------------------------------------------------------------
  // collect_reads
  // ---------------------------------------------------------------------

  /** The `M` branch: each of the `length` positions bumps the key of the
      genome position and the read base there, moving both cursors. */
  method RecordMatch(chromosome: string, tally: Tally, ghost seen: seq<ReadKey>, genome: int, loc: int, length: nat,
                     sequence: string)
    returns (r: Result<Tally>, nextGenome: int, nextLoc: int)
    requires tally == TallyOf(seen)
    ensures MatchKeys(chromosome, Cursor(genome, loc), length, sequence).Ok? ==>
              r == Ok(TallyOf(seen + MatchKeys(chromosome, Cursor(genome, loc), length, sequence).value))
              && nextGenome == genome + length && nextLoc == loc + length
    ensures MatchKeys(chromosome, Cursor(genome, loc), length, sequence).Err? ==> r == Err(IndexError)
  {
    var t := tally;
    ghost var recorded: seq<ReadKey> := [];
    nextGenome, nextLoc := genome, loc;
    var stop := genome + length;
    assert seen + recorded == seen;
    while nextGenome < stop
      invariant genome <= nextGenome <= stop && nextLoc - loc == nextGenome - genome
      invariant MatchKeys(chromosome, Cursor(genome, loc), nextGenome - genome, sequence) == Ok(recorded)
      invariant t == TallyOf(seen + recorded)
      decreases stop - nextGenome
    {
      var location := nextGenome;
      var base := PyIndex(sequence, nextLoc - 1);
      if base.None? {
        MatchStep(chromosome, Cursor(genome, loc), nextGenome - genome, sequence, recorded);
        MatchFailFromPrefix(chromosome, Cursor(genome, loc), length, sequence, nextGenome - genome + 1);
        MatchFailsByIndex(chromosome, Cursor(genome, loc), length, sequence);
        return Err(IndexError), nextGenome, nextLoc;
      }
      var key := ReadKey('M', chromosome, location, [base.value]);
      MatchStep(chromosome, Cursor(genome, loc), nextGenome - genome, sequence, recorded);
      TallyAppend(seen, recorded, key);
      t := Bump(t, key);
      recorded := recorded + [key];
      nextLoc := nextLoc + 1;
      nextGenome := nextGenome + 1;
    }
    r := Ok(t);
  }

  /** One more operation of a read's walk. */
  lemma WalkStep(chromosome: string, ops: seq<Op>, j: nat, start: Cursor, sequence: string, recorded: seq<ReadKey>,
                 cursor: Cursor)
    requires j < |ops| && WalkKeys(chromosome, ops[..j], start, sequence) == Ok((recorded, cursor))
    ensures var o := OpKeys(chromosome, ops[j], cursor, sequence);
            WalkKeys(chromosome, ops[..j + 1], start, sequence)
            == if o.Err? then Err(o.error) else Ok((recorded + o.value.0, o.value.1))
  {
    assert ops[..j + 1][..j] == ops[..j];
  }

  /** One more read. */
  lemma AllStep(chromosome: string, aligned: seq<AlignedRead>, i: nat, seen: seq<ReadKey>)
    requires i < |aligned| && AllReadKeys(chromosome, aligned[..i]) == Ok(seen)
    ensures var k := ReadKeys(chromosome, aligned[i]);
            AllReadKeys(chromosome, aligned[..i + 1]) == if k.Err? then Err(k.error) else Ok(seen + k.value)
  {
    assert aligned[..i + 1][..i] == aligned[..i];
  }

  /** One operation of a read's walk: `N` skips reference bases, `M` bumps
      a key per aligned base, `D` and `I` bump one key each. */
  method RecordOp(chromosome: string, tally: Tally, ghost seen: seq<ReadKey>, op: Op, genome: int, loc: int,
                  sequence: string)
    returns (r: Result<Tally>, nextGenome: int, nextLoc: int)
    requires tally == TallyOf(seen)
    ensures var o := OpKeys(chromosome, op, Cursor(genome, loc), sequence);
            o.Ok? ==> r == Ok(TallyOf(seen + o.value.0)) && Cursor(nextGenome, nextLoc) == o.value.1
    ensures OpKeys(chromosome, op, Cursor(genome, loc), sequence).Err? ==> r == Err(IndexError)
  {
    nextGenome, nextLoc := genome, loc;
    if op.kind == 'N' {
      assert seen + [] == seen;
      nextGenome := genome + op.length;
      r := Ok(tally);
    } else if op.kind == 'M' {
      r, nextGenome, nextLoc := RecordMatch(chromosome, tally, seen, genome, loc, op.length, sequence);
    } else if op.kind == 'D' {
      var key := ReadKey('D', chromosome, genome, "D" + NatToString(op.length));
      TallySnoc(seen, key);
      nextGenome := genome + op.length;
      r := Ok(Bump(tally, key));
    } else if op.kind == 'I' {
      var insertion := PySlice(sequence, loc - 1, loc - 1 + op.length);
      var key := ReadKey('I', chromosome, genome, "I" + insertion);
      TallySnoc(seen, key);
      nextLoc := loc + op.length;
      r := Ok(Bump(tally, key));
    } else {
      assert seen + [] == seen;
      r := Ok(tally);
    }
  }

  lemma AppendAssoc(a: seq<ReadKey>, b: seq<ReadKey>, c: seq<ReadKey>)
    ensures a + (b + c) == a + b + c
  {
  }

  /** The walk over a read's operations from `start` and the read's first
      base, bumping the tally for each key it records. */
  method WalkOps(chromosome: string, ops: seq<Op>, start: int, sequence: string, tally: Tally,
                 ghost seen: seq<ReadKey>)
    returns (r: Result<Tally>)
    requires tally == TallyOf(seen)
    ensures var w := WalkKeys(chromosome, ops, Cursor(start, 1), sequence);
            w.Ok? ==> r == Ok(TallyOf(seen + w.value.0))
    ensures WalkKeys(chromosome, ops, Cursor(start, 1), sequence).Err? ==> r == Err(IndexError)
  {
    var genome, loc := start, 1;
    var t := tally;
    ghost var recorded: seq<ReadKey> := [];
    assert seen + recorded == seen;
    for j := 0 to |ops|
      invariant WalkKeys(chromosome, ops[..j], Cursor(start, 1), sequence) == Ok((recorded, Cursor(genome, loc)))
      invariant t == TallyOf(seen + recorded)
    {
      WalkStep(chromosome, ops, j, Cursor(start, 1), sequence, recorded, Cursor(genome, loc));
      ghost var o := OpKeys(chromosome, ops[j], Cursor(genome, loc), sequence);
      var step;
      step, genome, loc := RecordOp(chromosome, t, seen + recorded, ops[j], genome, loc, sequence);
      if step.Err? {
        WalkFailFromPrefix(chromosome, ops, Cursor(start, 1), sequence, j + 1);
        WalkFailsByIndex(chromosome, ops, Cursor(start, 1), sequence);
        return Err(IndexError);
      }
      AppendAssoc(seen, recorded, o.value.0);
      t := step.value;
      recorded := recorded + o.value.0;
    }
    assert ops[..|ops|] == ops;
    r := Ok(t);
  }

  /** One read: clips removed, then the walk from the read's one-based
      reference start. */
  method WalkRead(chromosome: string, read: AlignedRead, tally: Tally, ghost seen: seq<ReadKey>)
    returns (r: Result<Tally>)
    requires tally == TallyOf(seen)
    ensures ReadKeys(chromosome, read).Ok? ==> r == Ok(TallyOf(seen + ReadKeys(chromosome, read).value))
    ensures ReadKeys(chromosome, read).Err? ==> r == Err(IndexError)
  {
    var clipped := RemoveClips(read.cigar, read.sequence);
    r := WalkOps(chromosome, Ops(clipped.0), read.referenceStart + 1, clipped.1, tally, seen);
  }

  /** `collect_reads`: the tally of every key the reads record, read after
      read; a read shorter than its CIGAR string raises `IndexError`. */
  method CollectReads(chromosome: string, aligned: seq<AlignedRead>) returns (r: Result<Tally>)
    ensures AllReadKeys(chromosome, aligned).Ok? ==> r == Ok(TallyOf(AllReadKeys(chromosome, aligned).value))
    ensures AllReadKeys(chromosome, aligned).Err? ==> r == Err(IndexError)
  {
    var t := Tally([], map[]);
    ghost var seen: seq<ReadKey> := [];
    for i := 0 to |aligned|
      invariant AllReadKeys(chromosome, aligned[..i]) == Ok(seen) && t == TallyOf(seen)
    {
      AllStep(chromosome, aligned, i, seen);
      var walked := WalkRead(chromosome, aligned[i], t, seen);
      if walked.Err? {
        AllFailFromPrefix(chromosome, aligned, i + 1);
        AllFailByIndex(chromosome, aligned);
        return Err(IndexError);
      }
      t := walked.value;
      seen := seen + ReadKeys(chromosome, aligned[i]).value;
    }
    assert aligned[..|aligned|] == aligned;
    r := Ok(t);
  }
}
