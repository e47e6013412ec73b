/** `get_tail_length` (lib/beers/PolyAStepGraphs.py), the helper the poly-A
    selection plots use to measure the tail of a logged sequence. */
module PolyAGraphs {
  import opened Molecules

  /** `get_tail_length`: the length of the `A` run the pattern `A+$` finds,
      0 when nothing matches. */
  function GetTailLength(sequence: string): (n: nat)
    ensures n <= |sequence|
    ensures IsATail(Unterminated(sequence), n)
    ensures (sequence == [] || sequence[|sequence| - 1] !in "A\n") ==> n == 0
    ensures (forall i :: 0 <= i < |sequence| ==> sequence[i] == 'A') ==> n == |sequence|
  {
    ATailMatchLength(sequence)
  }

  /** The graphs measure a molecule's tail as the molecule itself does. */
  lemma {:induction false} TailLengthAgrees(m: Molecule)
    ensures GetTailLength(m.sequence) == m.PolyATailLength()
  {
    ATailUnique(Unterminated(m.sequence), GetTailLength(m.sequence), m.PolyATailLength());
  }
}
