/** Molecules (lib/beers/molecule.py): a nucleotide sequence with a lineage
    identifier, an optional start and an optional CIGAR-like descriptor of
    how it was derived. The editing operations overwrite the sequence and
    the descriptor in place. */
module Molecules {
  import opened Wrappers
  import opened Text
  import opened Cigar
  import RunIds

  /** `molecule_id` holds an int after renumbering and text for a fragment. */
  datatype MoleculeId = NumId(n: int) | TextId(s: string)

  /** `str(molecule_id)`. */
  function IdText(id: MoleculeId): string
  {
    match id
    case NumId(n) => IntToString(n)
    case TextId(s) => s
  }

  predicate IsNucleotide(c: char) { c == 'A' || c == 'G' || c == 'T' || c == 'C' }

  /** Where `re.search(r'[^AGTC]', s)` finds its first match, or `|s|`. */
  function FirstDisallowed(s: string): (i: nat)
    ensures i <= |s|
    ensures forall j :: 0 <= j < i ==> IsNucleotide(s[j])
    ensures i < |s| ==> !IsNucleotide(s[i])
  {
    if s == [] then 0 else if !IsNucleotide(s[0]) then 0 else 1 + FirstDisallowed(s[1..])
  }

  /** `n` is the length of the maximal run of `A` that ends `s`. */
  predicate IsATail(s: string, n: nat)
  {
    n <= |s| && (forall i :: |s| - n <= i < |s| ==> s[i] == 'A') && (n < |s| ==> s[|s| - n - 1] != 'A')
  }

  /** A text has one maximal trailing run of `A`. */
  lemma ATailUnique(s: string, n: nat, m: nat)
    requires IsATail(s, n) && IsATail(s, m)
    ensures n == m
  {
    if n < m {
      assert false;
    } else if m < n {
      assert false;
    }
  }

  /** The length of the maximal run of `A` that ends `s`. */
  function TrailingARun(s: string): (n: nat)
    ensures IsATail(s, n)
  {
    if s != [] && s[|s| - 1] == 'A' then 1 + TrailingARun(s[..|s| - 1]) else 0
  }

  /** `s` without one final newline, if it has one. */
  function Unterminated(s: string): (r: string)
    ensures s != [] && s[|s| - 1] == '\n' ==> r + "\n" == s
    ensures s == [] || s[|s| - 1] != '\n' ==> r == s
  {
    if s != [] && s[|s| - 1] == '\n' then s[..|s| - 1] else s
  }

  /** The length of what `re.search(r'(A+$)', s)` matches, 0 when it matches
      nothing. Python's `$` matches at the end of the text and also just
      before a final newline, so the run may end just before one. */
  function ATailMatchLength(s: string): (n: nat)
    ensures IsATail(Unterminated(s), n)
  {
    TrailingARun(Unterminated(s))
  }

  /** `f"{a}{x}{b}{y}"`. */
  function Cigar2(a: int, x: char, b: int, y: char): string
  {
    IntToString(a) + [x] + IntToString(b) + [y]
  }

  /** `f"{a}{x}{b}{y}{c}{z}"`. */
  function Cigar3(a: int, x: char, b: int, y: char, c: int, z: char): string
  {
    IntToString(a) + [x] + IntToString(b) + [y] + IntToString(c) + [z]
  }

  lemma RenderOfCigar2(a: nat, x: char, b: nat, y: char)
    ensures Render([Op(a, x), Op(b, y)]) == Cigar2(a, x, b, y)
  {
    var o1, o2 := Op(a, x), Op(b, y);
    assert Render([o1]) == IntToString(a) + [x];
    assert Render([o2]) == IntToString(b) + [y];
    RenderAppend([o1], [o2]);
    assert [o1] + [o2] == [o1, o2];
  }

  lemma Cigar2Ops(a: int, x: char, b: int, y: char)
    requires a >= 0 && b >= 0 && IsWalkKind(x) && IsWalkKind(y)
    ensures Ops(Cigar2(a, x, b, y)) == [Op(a, x), Op(b, y)]
    ensures QueryLength(Ops(Cigar2(a, x, b, y))) == QueryPart(Op(a, x)) + QueryPart(Op(b, y))
    ensures ReferenceLength(Ops(Cigar2(a, x, b, y))) == ReferencePart(Op(a, x)) + ReferencePart(Op(b, y))
  {
    var o1, o2 := Op(a, x), Op(b, y);
    RenderOfCigar2(a, x, b, y);
    OpsOfRender([o1, o2]);
    assert [o1] + [o2] == [o1, o2];
    SingleOpLengths(o1);
    SingleOpLengths(o2);
    QueryLengthAppend([o1], [o2]);
    ReferenceLengthAppend([o1], [o2]);
  }

  lemma RenderOfCigar3(a: nat, x: char, b: nat, y: char, c: nat, z: char)
    ensures Render([Op(a, x), Op(b, y), Op(c, z)]) == Cigar3(a, x, b, y, c, z)
  {
    var o1, o2, o3 := Op(a, x), Op(b, y), Op(c, z);
    RenderOfCigar2(a, x, b, y);
    assert Render([o3]) == IntToString(c) + [z];
    RenderAppend([o1, o2], [o3]);
    assert [o1, o2] + [o3] == [o1, o2, o3];
  }

  lemma Cigar3Ops(a: int, x: char, b: int, y: char, c: int, z: char)
    requires a >= 0 && b >= 0 && c >= 0 && IsWalkKind(x) && IsWalkKind(y) && IsWalkKind(z)
    ensures Ops(Cigar3(a, x, b, y, c, z)) == [Op(a, x), Op(b, y), Op(c, z)]
    ensures QueryLength(Ops(Cigar3(a, x, b, y, c, z)))
            == QueryPart(Op(a, x)) + QueryPart(Op(b, y)) + QueryPart(Op(c, z))
    ensures ReferenceLength(Ops(Cigar3(a, x, b, y, c, z)))
            == ReferencePart(Op(a, x)) + ReferencePart(Op(b, y)) + ReferencePart(Op(c, z))
  {
    var o1, o2, o3 := Op(a, x), Op(b, y), Op(c, z);
    RenderOfCigar3(a, x, b, y, c, z);
    OpsOfRender([o1, o2, o3]);
    assert [o1] + [o2] + [o3] == [o1, o2, o3];
    SingleOpLengths(o1);
    SingleOpLengths(o2);
    SingleOpLengths(o3);
    QueryLengthAppend([o1], [o2]);
    QueryLengthAppend([o1] + [o2], [o3]);
    ReferenceLengthAppend([o1], [o2]);
    ReferenceLengthAppend([o1] + [o2], [o3]);
  }

  /** A descriptor that accounts for every base of `s` (as M or I) and spans
      `refLength` bases (as M or D) of the sequence `s` was derived from. */
  predicate DescribesEdit(cigar: string, s: string, refLength: int)
  {
    QueryLength(Ops(cigar)) == |s| && ReferenceLength(Ops(cigar)) == refLength
  }

  /** `seq[:p] + nt + seq[p + 1:]`, the text `substitute` leaves. */
  function Substituted(s: string, nt: string, p: int): string
  {
    PySlice(s, 0, p) + nt + PySlice(s, p + 1, |s|)
  }

  /** The sequence and descriptor `insert` leaves, or its failed assertion.
      The branch for `position == len(sequence)` cannot be reached past the
      assertion and has no counterpart here. */
  function Inserted(s: string, ins: string, p: int): (r: Result<(string, string)>)
    ensures r.Ok? <==> -1 <= p <= |s| - 1
  {
    if !(-1 <= p <= |s| - 1) then Err(AssertionError)
    else if p == -1 then Ok((ins + s, Cigar2(|ins|, 'I', |s|, 'M')))
    else Ok((s[..p + 1] + ins + s[p + 1..], Cigar3(p + 1, 'M', |ins|, 'I', |s| - p - 1, 'M')))
  }

  /** The sequence and descriptor `delete` leaves, or its failed assertion.
      As for `insert`, the branch for `position == len(sequence)` is
      unreachable. */
  function Deleted(s: string, d: int, p: int): (r: Result<(string, string)>)
    ensures r.Ok? <==> -1 <= p <= |s| - 1 && d < |s|
  {
    if !(-1 <= p <= |s| - 1) || !(|s| - d > 0) then Err(AssertionError)
    else if p == -1 then Ok((PySlice(s, d, |s|), Cigar2(d, 'D', |s|, 'M')))
    else Ok((s[..p + 1] + PySlice(s, p + 1 + d, |s|), Cigar3(p + 1, 'M', d, 'D', |s| - d - (p + 1), 'M')))
  }

  /** `delete` with the descriptor for a deletion at the 5' end written as
      `"{d}D{n - d}M"`, counting the bases that remain, as the other branch does. */
  function DeletedAsIntended(s: string, d: int, p: int): (r: Result<(string, string)>)
    ensures r.Ok? <==> -1 <= p <= |s| - 1 && d < |s|
  {
    if !(-1 <= p <= |s| - 1) || !(|s| - d > 0) then Err(AssertionError)
    else if p == -1 then Ok((PySlice(s, d, |s|), Cigar2(d, 'D', |s| - d, 'M')))
    else Ok((s[..p + 1] + PySlice(s, p + 1 + d, |s|), Cigar3(p + 1, 'M', d, 'D', |s| - d - (p + 1), 'M')))
  }

  /** `seq[p + 1:]`, the text `truncate` keeps. */
  function Truncated(s: string, p: int): string
  {
    PySlice(s, p + 1, |s|)
  }

  /** `f"{parent_id}.{n}"`, the identifier `new_id` hands out. */
  function NewIdText(parentId: string, n: int): string
  {
    parentId + "." + IntToString(n)
  }

  class Molecule {
    var moleculeId: MoleculeId
    var sequence: string
    var start: Option<int>
    var cigar: Option<string>

    /** The constructor strips surrounding whitespace from the sequence. */
    constructor (moleculeId: MoleculeId, sequence: string, start: Option<int>, cigar: Option<string>)
      ensures this.moleculeId == moleculeId && this.sequence == Strip(sequence)
      ensures this.start == start && this.cigar == cigar
    {
      this.moleculeId := moleculeId;
      this.sequence := Strip(sequence);
      this.start := start;
      this.cigar := cigar;
    }

    /** `validate`: false exactly when some base is not one of A, G, T, C. */
    function Validate(): (ok: bool)
      reads this
      ensures ok <==> forall i :: 0 <= i < |sequence| ==> IsNucleotide(sequence[i])
    {
      FirstDisallowed(sequence) == |sequence|
    }

    /** `poly_a_tail_length`. */
    function PolyATailLength(): (n: nat)
      reads this
      ensures IsATail(Unterminated(sequence), n)
    {
      ATailMatchLength(sequence)
    }

    method Substitute(nucleotide: string, position: int) returns (r: Result<()>)
      modifies this
      ensures r.Ok? <==> -1 <= position <= |old(sequence)| - 1
      ensures r.Ok? ==> sequence == Substituted(old(sequence), nucleotide, position)
      ensures r.Ok? ==> start == None && cigar == None
      ensures r.Err? ==> r.error == AssertionError && sequence == old(sequence)
      ensures r.Err? ==> start == old(start) && cigar == old(cigar)
      ensures moleculeId == old(moleculeId)
    {
      if !(-1 <= position <= |sequence| - 1) {
        return Err(AssertionError);
      }
      sequence := PySlice(sequence, 0, position) + nucleotide + PySlice(sequence, position + 1, |sequence|);
      start := None;
      cigar := None;
      r := Ok(());
    }

    method Insert(insertion: string, position: int) returns (r: Result<()>)
      modifies this
      ensures r.Ok? <==> Inserted(old(sequence), insertion, position).Ok?
      ensures r.Ok? ==> cigar.Some?
      ensures r.Ok? ==> (sequence, cigar.value) == Inserted(old(sequence), insertion, position).value
      ensures r.Err? ==> r.error == AssertionError && sequence == old(sequence) && cigar == old(cigar)
      ensures moleculeId == old(moleculeId) && start == old(start)
    {
      var originalLength := |sequence|;
      if !(-1 <= position <= originalLength - 1) {
        return Err(AssertionError);
      }
      if position == -1 {
        cigar := Some(Cigar2(|insertion|, 'I', originalLength, 'M'));
        sequence := insertion + sequence;
      } else {
        var leadLength := |sequence[..position + 1]|;
        var trailLength := originalLength - position - 1;
        cigar := Some(Cigar3(leadLength, 'M', |insertion|, 'I', trailLength, 'M'));
        sequence := sequence[..position + 1] + insertion + sequence[position + 1..];
      }
      r := Ok(());
    }

    /** `delete` as written: at the 5' end the descriptor is `"{d}D{n}M"`
        with `n` the original length (see `DeleteAtStartMiscounts`). */
    method Delete(deletionLength: int, position: int) returns (r: Result<()>)
      modifies this
      ensures r.Ok? <==> Deleted(old(sequence), deletionLength, position).Ok?
      ensures r.Ok? ==> cigar.Some?
      ensures r.Ok? ==> (sequence, cigar.value) == Deleted(old(sequence), deletionLength, position).value
      ensures r.Err? ==> r.error == AssertionError && sequence == old(sequence) && cigar == old(cigar)
      ensures moleculeId == old(moleculeId) && start == old(start)
    {
      var originalLength := |sequence|;
      if !(-1 <= position <= originalLength - 1) || !(originalLength - deletionLength > 0) {
        return Err(AssertionError);
      }
      if position == -1 {
        cigar := Some(Cigar2(deletionLength, 'D', originalLength, 'M'));
        sequence := PySlice(sequence, deletionLength, |sequence|);
      } else {
        var leadLength := |sequence[..position + 1]|;
        var trailLength := originalLength - deletionLength - leadLength;
        cigar := Some(Cigar3(leadLength, 'M', deletionLength, 'D', trailLength, 'M'));
        sequence := sequence[..position + 1] + PySlice(sequence, position + 1 + deletionLength, |sequence|);
      }
      r := Ok(());
    }

    /** `truncate` keeps the 3' part after `position`; a molecule without a
        start raises `TypeError` (None + int) before anything changes. */
    method Truncate(position: int) returns (r: Result<()>)
      modifies this
      ensures r.Ok? <==> old(start).Some?
      ensures r.Ok? ==> start == Some(old(start).value + position + 1)
      ensures r.Ok? ==> sequence == Truncated(old(sequence), position)
      ensures r.Ok? ==> cigar == Some(IntToString(|sequence|) + "M")
      ensures r.Err? ==> r.error == TypeError && sequence == old(sequence) && cigar == old(cigar)
      ensures r.Err? ==> start == old(start)
      ensures moleculeId == old(moleculeId)
    {
      if start.None? {
        return Err(TypeError);
      }
      start := Some(start.value + position + 1);
      sequence := PySlice(sequence, position + 1, |sequence|);
      cigar := Some(IntToString(|sequence|) + "M");
      r := Ok(());
    }

    /** `make_fragment`: a new molecule for `sequence[fragStart:fragEnd]`,
        starting at `fragStart`, whose identifier comes from `new_id`; this
        molecule is left as it is. */
    method MakeFragment(fragStart: int, fragEnd: int, ids: RunIds.IdAllocator) returns (r: Result<Molecule>)
      modifies ids
      ensures r.Ok? <==> fragStart < fragEnd <= |sequence|
      ensures r.Ok? ==> fresh(r.value)
      ensures r.Ok? ==> r.value.sequence == Strip(PySlice(sequence, fragStart, fragEnd))
      ensures r.Ok? ==> r.value.start == Some(fragStart)
      ensures r.Ok? ==> r.value.cigar == Some(IntToString(fragEnd - fragStart) + "M")
      ensures r.Ok? ==> r.value.moleculeId == TextId(NewIdText(IdText(moleculeId), old(ids.nextMoleculeId)))
      ensures r.Ok? ==> ids.nextMoleculeId == old(ids.nextMoleculeId) + 1
      ensures r.Err? ==> r.error == AssertionError && ids.nextMoleculeId == old(ids.nextMoleculeId)
      ensures ids.nextClusterId == old(ids.nextClusterId)
      ensures ids.nextClusterPacketId == old(ids.nextClusterPacketId)
    {
      if !(fragStart < fragEnd <= |sequence|) {
        return Err(AssertionError);
      }
      var fragSequence := PySlice(sequence, fragStart, fragEnd);
      var fragLength := fragEnd - fragStart;
      var fragCigar := IntToString(fragLength) + "M";
      var fragId := NewId(IdText(moleculeId), ids);
      var frag := new Molecule(TextId(fragId), fragSequence, Some(fragStart), Some(fragCigar));
      r := Ok(frag);
    }

    /** `new_id`: the next identifier under `parentId`; the counter moves on by one. */
    static method NewId(parentId: string, ids: RunIds.IdAllocator) returns (id: string)
      modifies ids
      ensures id == NewIdText(parentId, old(ids.nextMoleculeId))
      ensures ids.nextMoleculeId == old(ids.nextMoleculeId) + 1
      ensures ids.nextClusterId == old(ids.nextClusterId)
      ensures ids.nextClusterPacketId == old(ids.nextClusterPacketId)
    {
      var n := ids.nextMoleculeId;
      ids.nextMoleculeId := ids.nextMoleculeId + 1;
      id := parentId + "." + IntToString(n);
    }
  }

  // ---- properties of the edits ----

  /** Substituting one base at a position inside the molecule changes that
      position only. */
  lemma SubstituteChangesOnePosition(s: string, nt: string, p: int)
    requires 0 <= p < |s| && |nt| == 1
    ensures |Substituted(s, nt, p)| == |s|
    ensures Substituted(s, nt, p)[p] == nt[0]
    ensures forall i :: 0 <= i < |s| && i != p ==> Substituted(s, nt, p)[i] == s[i]
  {
  }

  /** Substituting the original base back undoes a substitution. */
  lemma SubstituteUndone(s: string, nt: string, p: int)
    requires 0 <= p < |s| && |nt| == 1
    ensures Substituted(Substituted(s, nt, p), [s[p]], p) == s
  {
    var t := Substituted(s, nt, p);
    SubstituteChangesOnePosition(s, nt, p);
    SubstituteChangesOnePosition(t, [s[p]], p);
    var u := Substituted(t, [s[p]], p);
    assert forall i :: 0 <= i < |s| ==> u[i] == s[i];
  }

  /** Position -1 passes the assertion of `substitute`, and then Python's
      negative slicing keeps all but the last base in front of the
      substituted text and the whole sequence behind it. */
  lemma SubstituteAtMinusOne(s: string, nt: string)
    requires s != []
    ensures Substituted(s, nt, -1) == s[..|s| - 1] + nt + s
  {
  }

  /** An insertion lengthens the molecule by the inserted length and its
      descriptor accounts for exactly the bases before and after the edit. */
  lemma InsertDescribed(s: string, ins: string, p: int)
    requires -1 <= p <= |s| - 1
    ensures Inserted(s, ins, p).Ok?
    ensures |Inserted(s, ins, p).value.0| == |s| + |ins|
    ensures DescribesEdit(Inserted(s, ins, p).value.1, Inserted(s, ins, p).value.0, |s|)
  {
    if p == -1 {
      Cigar2Ops(|ins|, 'I', |s|, 'M');
    } else {
      Cigar3Ops(p + 1, 'M', |ins|, 'I', |s| - p - 1, 'M');
    }
  }

  /** Away from the 5' end the code as written and the corrected descriptor
      agree. */
  lemma DeletedAgreesAwayFromStart(s: string, d: int, p: int)
    requires p != -1
    ensures Deleted(s, d, p) == DeletedAsIntended(s, d, p)
  {
  }

  /** As written, a deletion at the 5' end writes `"{d}D{n}M"`: the
      descriptor counts `n` bases although only `n - d` remain. */
  lemma DeleteAtStartMiscounts(s: string, d: int)
    requires 0 < d < |s|
    ensures Deleted(s, d, -1).Ok?
    ensures |Deleted(s, d, -1).value.0| == |s| - d
    ensures QueryLength(Ops(Deleted(s, d, -1).value.1)) == |s|
  {
    Cigar2Ops(d, 'D', |s|, 'M');
  }

  /** With the corrected 5' descriptor every in-range deletion is described
      exactly, at either branch. */
  lemma DeleteAsIntendedDescribed(s: string, d: int, p: int)
    requires -1 <= p && 0 <= d && p + 1 + d <= |s| && d < |s|
    ensures DeletedAsIntended(s, d, p).Ok?
    ensures DeletedAsIntended(s, d, p).value.0 == s[..p + 1] + s[p + 1 + d..]
    ensures |DeletedAsIntended(s, d, p).value.0| == |s| - d
    ensures DescribesEdit(DeletedAsIntended(s, d, p).value.1, DeletedAsIntended(s, d, p).value.0, |s|)
  {
    DeleteAsIntendedKeeps(s, d, p);
    if p == -1 {
      Cigar2Ops(d, 'D', |s| - d, 'M');
    } else {
      Cigar3Ops(p + 1, 'M', d, 'D', |s| - d - (p + 1), 'M');
    }
  }

  lemma DeleteAsIntendedKeeps(s: string, d: int, p: int)
    requires -1 <= p && 0 <= d && p + 1 + d <= |s| && d < |s|
    ensures DeletedAsIntended(s, d, p).Ok?
    ensures DeletedAsIntended(s, d, p).value.0 == s[..p + 1] + s[p + 1 + d..]
  {
    if p == -1 {
      assert s[..0] + s[d..] == s[d..];
    }
  }

  /** Deleting what was just inserted, at the same position, restores the
      sequence, and the deletion descriptor mirrors the insertion's. */
  lemma InsertThenDelete(s: string, ins: string, p: int)
    requires -1 <= p <= |s| - 1 && s != []
    ensures DeletedAsIntended(Inserted(s, ins, p).value.0, |ins|, p).Ok?
    ensures DeletedAsIntended(Inserted(s, ins, p).value.0, |ins|, p).value.0 == s
    ensures DeletedAsIntended(Inserted(s, ins, p).value.0, |ins|, p).value.1
            == (if p == -1 then Cigar2(|ins|, 'D', |s|, 'M')
                else Cigar3(p + 1, 'M', |ins|, 'D', |s| - p - 1, 'M'))
  {
    var t := Inserted(s, ins, p).value.0;
    if p == -1 {
      assert PySlice(t, |ins|, |t|) == s;
    } else {
      assert t[..p + 1] == s[..p + 1];
      assert PySlice(t, p + 1 + |ins|, |t|) == s[p + 1..];
      assert s[..p + 1] + s[p + 1..] == s;
    }
  }

  /** Truncating twice is one truncation further along. */
  lemma TruncateTwice(s: string, p: int, q: int)
    requires 0 <= p && 0 <= q
    ensures Truncated(Truncated(s, p), q) == Truncated(s, p + q + 1)
  {
  }

  /** The descriptor `truncate` and `make_fragment` write, `"{n}M"`, reads
      back as one match of `n` bases. */
  lemma MatchDescriptor(n: nat)
    ensures Ops(IntToString(n) + "M") == [Op(n, 'M')]
  {
    var ops := [Op(n, 'M')];
    assert ops[1..] == [];
    assert Render(ops) == IntToString(n) + "M";
    OpsOfRender(ops);
  }

  lemma StripOfUnspaced(t: string)
    requires forall i :: 0 <= i < |t| ==> !IsSpace(t[i])
    ensures Strip(t) == t
  {
    if t != [] {
      StripUnspaced(t);
    }
  }

  /** A fragment of a valid molecule is exactly the chosen slice, with a
      descriptor that matches it base for base. */
  lemma FragmentOfValid(s: string, fragStart: int, fragEnd: int)
    requires forall i :: 0 <= i < |s| ==> IsNucleotide(s[i])
    requires 0 <= fragStart < fragEnd <= |s|
    ensures Strip(PySlice(s, fragStart, fragEnd)) == s[fragStart..fragEnd]
    ensures DescribesEdit(IntToString(fragEnd - fragStart) + "M", s[fragStart..fragEnd], fragEnd - fragStart)
  {
    var t := s[fragStart..fragEnd];
    SliceUnspaced(s, fragStart, fragEnd);
    StripOfUnspaced(t);
    MatchDescriptor(fragEnd - fragStart);
  }

  lemma SliceUnspaced(s: string, i: int, j: int)
    requires forall k :: 0 <= k < |s| ==> IsNucleotide(s[k])
    requires 0 <= i <= j <= |s|
    ensures forall k :: 0 <= k < j - i ==> !IsSpace(s[i..j][k])
  {
    forall k | 0 <= k < j - i
      ensures !IsSpace(s[i..j][k])
    {
      assert s[i..j][k] == s[i + k];
      assert IsNucleotide(s[i + k]);
    }
  }

  /** Identifiers from `new_id` determine both the parent and the counter
      value, so successive identifiers never repeat. */
  lemma NewIdTextInjective(p1: string, n1: int, p2: string, n2: int)
    requires NewIdText(p1, n1) == NewIdText(p2, n2)
    ensures p1 == p2 && n1 == n2
  {
    var d1 := IntToString(n1);
    var d2 := IntToString(n2);
    IntToStringHasNo(n1, '.');
    IntToStringHasNo(n2, '.');
    var t := NewIdText(p1, n1);
    assert t == p1 + "." + d1 == p2 + "." + d2;
    LastIndexOfBefore(p1, '.', d1);
    LastIndexOfBefore(p2, '.', d2);
    assert |p1| == |p2|;
    assert d1 == t[|p1| + 1..] == d2;
    IntToStringInjective(n1, n2);
    assert p1 == t[..|p1|] == p2;
  }
}
