/** CIGAR-like alignment descriptors (section 1.4 of the SAM format
    specification, SAMv1): a run of decimal lengths, each followed by an
    operation letter. The modelled code writes them with `M`, `I` and `D`
    and reads them back with the pattern `(\d+)([NMID])`, which skips every
    other operation. */
module Cigar {
  import opened Text

  datatype Op = Op(length: nat, kind: char)

  /** The operations the read walk acts on. */
  predicate IsWalkKind(c: char) { c == 'N' || c == 'M' || c == 'I' || c == 'D' }

  /** The length of the run of ASCII digits at the start of `s`. */
  function DigitRun(s: string): (n: nat)
    ensures n <= |s| && AllDigits(s[..n])
    ensures n < |s| ==> !IsDigit(s[n])
  {
    if s != [] && IsDigit(s[0]) then 1 + DigitRun(s[1..]) else 0
  }

  /** The operations `re.finditer(r"(\d+)([NMID])", s)` yields, in order. A
      digit run followed by anything other than N, M, I or D is not a match,
      and the scan resumes after the run. */
  function Ops(s: string): (ops: seq<Op>)
    ensures forall i :: 0 <= i < |ops| ==> IsWalkKind(ops[i].kind)
    decreases |s|
  {
    if s == [] then []
    else
      var n := DigitRun(s);
      if n == 0 then Ops(s[1..])
      else if n < |s| && IsWalkKind(s[n]) then [Op(DigitsValue(s[..n]), s[n])] + Ops(s[n + 1..])
      else Ops(s[n..])
  }

  /** The text of a list of operations, `"".join(f"{n}{op}" ...)`. */
  function Render(ops: seq<Op>): string
  {
    if ops == [] then "" else NatToString(ops[0].length) + [ops[0].kind] + Render(ops[1..])
  }

  lemma {:induction false} RenderAppend(a: seq<Op>, b: seq<Op>)
    ensures Render(a + b) == Render(a) + Render(b)
  {
    if a != [] {
      assert (a + b)[0] == a[0] && (a + b)[1..] == a[1..] + b;
      RenderAppend(a[1..], b);
    } else {
      assert a + b == b;
    }
  }

  lemma DigitRunOfDigits(d: string, rest: string)
    requires AllDigits(d)
    requires rest == [] || !IsDigit(rest[0])
    ensures DigitRun(d + rest) == |d|
    decreases |d|
  {
    if d != [] {
      assert (d + rest)[1..] == d[1..] + rest;
      DigitRunOfDigits(d[1..], rest);
    }
  }

  /** Reading back what `Render` writes gives the same operations. */
  lemma {:induction false} OpsOfRender(ops: seq<Op>)
    requires forall i :: 0 <= i < |ops| ==> IsWalkKind(ops[i].kind)
    ensures Ops(Render(ops)) == ops
  {
    if ops != [] {
      var d := NatToString(ops[0].length);
      var rest := Render(ops[1..]);
      var s := d + [ops[0].kind] + rest;
      assert s == d + ([ops[0].kind] + rest);
      DigitRunOfDigits(d, [ops[0].kind] + rest);
      assert s[..|d|] == d;
      assert s[|d|] == ops[0].kind;
      assert s[|d| + 1..] == rest;
      DigitsValueOfNatToString(ops[0].length);
      OpsOfRender(ops[1..]);
    }
  }

  /** Bases of the read (query) the operations account for: M and I. */
  function QueryLength(ops: seq<Op>): nat
  {
    if ops == [] then 0 else QueryPart(ops[0]) + QueryLength(ops[1..])
  }

  function QueryPart(o: Op): nat
  {
    if o.kind == 'M' || o.kind == 'I' then o.length else 0
  }

  lemma {:induction false} QueryLengthAppend(a: seq<Op>, b: seq<Op>)
    ensures QueryLength(a + b) == QueryLength(a) + QueryLength(b)
  {
    if a != [] {
      assert (a + b)[0] == a[0] && (a + b)[1..] == a[1..] + b;
      QueryLengthAppend(a[1..], b);
    } else {
      assert a + b == b;
    }
  }

  /** Bases of the reference the operations span: M, D and N. */
  function ReferenceLength(ops: seq<Op>): nat
  {
    if ops == [] then 0 else ReferencePart(ops[0]) + ReferenceLength(ops[1..])
  }

  function ReferencePart(o: Op): nat
  {
    if o.kind == 'M' || o.kind == 'D' || o.kind == 'N' then o.length else 0
  }

  lemma SingleOpLengths(o: Op)
    ensures QueryLength([o]) == QueryPart(o) && ReferenceLength([o]) == ReferencePart(o)
  {
    assert [o][1..] == [];
  }

  lemma {:induction false} ReferenceLengthAppend(a: seq<Op>, b: seq<Op>)
    ensures ReferenceLength(a + b) == ReferenceLength(a) + ReferenceLength(b)
  {
    if a != [] {
      assert (a + b)[0] == a[0] && (a + b)[1..] == a[1..] + b;
      ReferenceLengthAppend(a[1..], b);
    } else {
      assert a + b == b;
    }
  }
}
