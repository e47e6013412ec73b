/** `GeneralUtils` (beers/utilities/general_utils.py): the 32-bit seed taken
    from a clock reading, and the renumbering of a list of molecules. The
    clock reading and the unpickled list are parameters. */
module GeneralUtils {
  import opened Wrappers
  import opened Molecules
  import opened RunIds

  function Abs(n: int): nat { if n < 0 then -n else n }

  function Pow2(k: nat): (p: nat)
    ensures p >= 1
  {
    if k == 0 then 1 else 2 * Pow2(k - 1)
  }

  lemma {:induction false} Pow2Add(a: nat, b: nat)
    ensures Pow2(a + b) == Pow2(a) * Pow2(b)
  {
    if a > 0 {
      Pow2Add(a - 1, b);
      assert Pow2(a + b) == 2 * Pow2(a - 1 + b);
    }
  }

  lemma Pow2Of32()
    ensures Pow2(32) == 0x1_0000_0000
  {
    assert Pow2(4) == 16;
    Pow2Add(4, 4);
    Pow2Add(8, 8);
    Pow2Add(16, 16);
  }

  /** Python's `int.bit_length`: the number of binary digits of `|n|`, 0 for 0. */
  function BitLength(n: int): (b: nat)
    decreases Abs(n)
  {
    if n == 0 then 0 else 1 + BitLength(Abs(n) / 2)
  }

  /** `n` has at most `k` binary digits exactly when `|n| < 2^k`. */
  lemma {:induction false} BitLengthBound(n: int, k: nat)
    ensures BitLength(n) <= k <==> Abs(n) < Pow2(k)
    decreases k
  {
    if n != 0 && k > 0 {
      BitLengthBound(Abs(n) / 2, k - 1);
      assert Abs(Abs(n) / 2) == Abs(n) / 2;
      assert Abs(n) / 2 < Pow2(k - 1) <==> Abs(n) < 2 * Pow2(k - 1);
    }
  }

  /** `generate_seed`, given the clock reading `int(time.time())`. A reading
      of more than 32 bits is masked with `0xffffffff`; Python's `&` on a
      negative integer acts on its two's complement, which gives the
      non-negative remainder modulo 2^32, as Dafny's `%` does. */
  function GenerateSeed(timestamp: int): (seed: int)
    ensures Abs(timestamp) < 0x1_0000_0000 ==> seed == timestamp
    ensures Abs(timestamp) >= 0x1_0000_0000 ==> seed == timestamp % 0x1_0000_0000
    ensures timestamp >= 0 ==> 0 <= seed < 0x1_0000_0000
  {
    BitLengthBound(timestamp, 32);
    Pow2Of32();
    if BitLength(timestamp) > 32 then timestamp % 0x1_0000_0000 else timestamp
  }

  /** The molecules of `ms` appear once each. */
  predicate Distinct(ms: seq<Molecule>)
  {
    forall i, j :: 0 <= i < j < |ms| ==> ms[i] != ms[j]
  }

  /** The last position of `m` in `ms`, -1 when it is not there. */
  function LastIndex(ms: seq<Molecule>, m: Molecule): (r: int)
    ensures -1 <= r < |ms|
    ensures r >= 0 ==> ms[r] == m
    ensures forall j :: r < j < |ms| ==> ms[j] != m
    ensures r == -1 <==> m !in ms
  {
    if ms == [] then -1
    else if ms[|ms| - 1] == m then |ms| - 1
    else LastIndex(ms[..|ms| - 1], m)
  }

  /** Extending the list moves the last position only of the added molecule. */
  lemma LastIndexSnoc(ms: seq<Molecule>, x: Molecule, m: Molecule)
    ensures LastIndex(ms + [x], m) == if x == m then |ms| else LastIndex(ms, m)
  {
    assert (ms + [x])[..|ms|] == ms;
  }

  /** In a list without repeats, each molecule's last position is its position. */
  lemma LastIndexOfDistinct(ms: seq<Molecule>, i: nat)
    requires Distinct(ms) && i < |ms|
    ensures LastIndex(ms, ms[i]) == i
  {
  }

  /** What the renumbering leaves alone in a molecule. */
  function Fields(m: Molecule): (string, Option<int>, Option<string>)
    reads m
  {
    (m.sequence, m.start, m.cigar)
  }

  /** The first `n` molecules carry the ids the loop has given them so far:
      the counter's value at the start plus the molecule's last place among
      them. */
  predicate Numbered(ms: seq<Molecule>, n: nat, first: int)
    requires n <= |ms|
    reads ms
  {
    forall j :: 0 <= j < n ==> ms[j].moleculeId == NumId(first + LastIndex(ms[..n], ms[j]))
  }

  /** The ids of the molecules, in list order. */
  function Ids(ms: seq<Molecule>): (r: seq<MoleculeId>)
    reads ms
    ensures |r| == |ms| && forall j :: 0 <= j < |ms| ==> r[j] == ms[j].moleculeId
  {
    seq(|ms|, j requires 0 <= j < |ms| reads ms => ms[j].moleculeId)
  }

  /** The ids after one turn: every place holding the molecule at `i` now
      shows its new id, and the first `i + 1` places are numbered. */
  lemma NumberedStep(ms: seq<Molecule>, before: seq<MoleculeId>, after: seq<MoleculeId>, i: nat, first: int)
    requires i < |ms| && |before| == |ms| && |after| == |ms|
    requires forall j :: 0 <= j < i ==> before[j] == NumId(first + LastIndex(ms[..i], ms[j]))
    requires forall j :: 0 <= j < |ms| ==> after[j] == if ms[j] == ms[i] then NumId(first + i) else before[j]
    ensures forall j :: 0 <= j < i + 1 ==> after[j] == NumId(first + LastIndex(ms[..i + 1], ms[j]))
  {
    assert ms[..i + 1] == ms[..i] + [ms[i]];
    forall j | 0 <= j < i + 1
      ensures after[j] == NumId(first + LastIndex(ms[..i + 1], ms[j]))
    {
      LastIndexSnoc(ms[..i], ms[i], ms[j]);
    }
  }

  /** One turn of the renumbering loop: the molecule at `i` takes the next
      molecule id. */
  method TakeNextId(molecules: seq<Molecule>, i: nat, ids: IdAllocator, ghost first: int)
    requires i < |molecules| && Numbered(molecules, i, first) && ids.nextMoleculeId == first + i
    modifies molecules[i], ids
    ensures Numbered(molecules, i + 1, first) && ids.nextMoleculeId == first + i + 1
    ensures ids.nextClusterId == old(ids.nextClusterId) && ids.nextClusterPacketId == old(ids.nextClusterPacketId)
    ensures forall j :: 0 <= j < |molecules| ==> Fields(molecules[j]) == old(Fields(molecules[j]))
  {
    ghost var before := Ids(molecules);
    molecules[i].moleculeId := NumId(ids.nextMoleculeId);
    ids.nextMoleculeId := ids.nextMoleculeId + 1;
    NumberedStep(molecules, before, Ids(molecules), i, first);
  }

  /** The renumbering loop of `reset_molecule_ids`: each molecule in turn
      takes the next molecule id, so a molecule listed twice keeps the id of
      its last place. Nothing else about the molecules changes. */
  method Renumber(molecules: seq<Molecule>, ids: IdAllocator)
    modifies molecules, ids
    ensures ids.nextMoleculeId == old(ids.nextMoleculeId) + |molecules|
    ensures ids.nextClusterId == old(ids.nextClusterId) && ids.nextClusterPacketId == old(ids.nextClusterPacketId)
    ensures forall i :: 0 <= i < |molecules| ==>
              molecules[i].moleculeId == NumId(old(ids.nextMoleculeId) + LastIndex(molecules, molecules[i]))
    ensures forall i :: 0 <= i < |molecules| ==> Fields(molecules[i]) == old(Fields(molecules[i]))
  {
    ghost var first := ids.nextMoleculeId;
    ghost var fixed := seq(|molecules|, j requires 0 <= j < |molecules| reads molecules => Fields(molecules[j]));
    for i := 0 to |molecules|
      invariant ids.nextMoleculeId == first + i && Numbered(molecules, i, first)
      invariant ids.nextClusterId == old(ids.nextClusterId) && ids.nextClusterPacketId == old(ids.nextClusterPacketId)
      invariant forall j :: 0 <= j < |molecules| ==> Fields(molecules[j]) == fixed[j]
    {
      TakeNextId(molecules, i, ids, first);
    }
    assert molecules[..|molecules|] == molecules;
  }

  /** `reset_molecule_ids` on the unpickled list: a list without repeats is
      numbered consecutively in list order from the counter's value. */
  method ResetMoleculeIds(molecules: seq<Molecule>, ids: IdAllocator)
    modifies molecules, ids
    ensures ids.nextMoleculeId == old(ids.nextMoleculeId) + |molecules|
    ensures ids.nextClusterId == old(ids.nextClusterId) && ids.nextClusterPacketId == old(ids.nextClusterPacketId)
    ensures forall i :: 0 <= i < |molecules| ==>
              molecules[i].moleculeId == NumId(old(ids.nextMoleculeId) + LastIndex(molecules, molecules[i]))
    ensures Distinct(molecules) ==>
              forall i :: 0 <= i < |molecules| ==> molecules[i].moleculeId == NumId(old(ids.nextMoleculeId) + i)
    ensures forall i :: 0 <= i < |molecules| ==>
              Fields(molecules[i]) == old(Fields(molecules[i]))
  {
    Renumber(molecules, ids);
    if Distinct(molecules) {
      forall i | 0 <= i < |molecules|
        ensures LastIndex(molecules, molecules[i]) == i
      {
        LastIndexOfDistinct(molecules, i);
      }
    }
  }
}
