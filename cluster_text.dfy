/** The line-oriented text record of a cluster (beers/cluster.py,
    `serialize` and `deserialize`): a header line, a line each for the
    coordinates and the molecule, one `##` line per read-out, and one line of
    G, A, T, C counts per molecule position. The serialisations of the
    coordinates and the molecule belong to classes that are not part of this
    model, so they appear here as the text of their lines. */
module ClusterText {
  import opened Wrappers
  import opened Text

  /** A dynamically typed Python value: `cluster_id` and
      `forward_is_5_prime` hold an int or a bool when a cluster is built and
      a str after `deserialize`. */
  datatype PyValue = PyInt(i: int) | PyStr(s: string) | PyBool(b: bool)

  /** `str(v)`, which is also what an f-string writes. */
  function Str(v: PyValue): string
  {
    match v
    case PyInt(i) => IntToString(i)
    case PyStr(s) => s
    case PyBool(b) => if b then "True" else "False"
  }

  /** Python truthiness. */
  predicate Truthy(v: PyValue)
  {
    match v
    case PyInt(i) => i != 0
    case PyStr(s) => s != []
    case PyBool(b) => b
  }

  /** The `BaseCounts` named tuple: one count per position in each channel. */
  datatype BaseCounts = BaseCounts(g: seq<int>, a: seq<int>, t: seq<int>, c: seq<int>)

  /** What the record carries. */
  datatype ClusterRecord = ClusterRecord(
    clusterId: PyValue, runId: int, moleculeCount: int, diameter: int, lane: int, forward: PyValue,
    coordinatesText: string, moleculeText: string,
    calledSequences: seq<string>, calledIndices: seq<string>, qualityScores: seq<string>,
    counts: BaseCounts)

  // ---- writing ----

  function HeaderFields(r: ClusterRecord): seq<string>
  {
    [Str(r.clusterId), IntToString(r.runId), IntToString(r.moleculeCount), IntToString(r.diameter),
     IntToString(r.lane), Str(r.forward)]
  }

  function HeaderLine(r: ClusterRecord): string
  {
    "#" + Join(HeaderFields(r), "\t")
  }

  function CalledLine(calledSequence: string, calledIndex: string, qualityScore: string): string
  {
    "##" + Join([calledSequence, calledIndex, qualityScore], "\t")
  }

  /** One `##` line per called sequence; a shorter list of indices or quality
      strings raises `IndexError`. */
  function CalledLines(seqs: seq<string>, indices: seq<string>, qualities: seq<string>): (r: Result<seq<string>>)
    ensures r.Ok? <==> |seqs| <= |indices| && |seqs| <= |qualities|
    ensures r.Err? ==> r.error == IndexError
    ensures r.Ok? ==> |r.value| == |seqs|
  {
    if seqs == [] then Ok([])
    else if indices == [] || qualities == [] then Err(IndexError)
    else
      match CalledLines(seqs[1..], indices[1..], qualities[1..])
      case Err(e) => Err(e)
      case Ok(rest) => Ok([CalledLine(seqs[0], indices[0], qualities[0])] + rest)
  }

  /** The counts line for one position, each count followed by a tab. */
  function CountLine(g: int, a: int, t: int, c: int): string
  {
    Join([IntToString(g), IntToString(a), IntToString(t), IntToString(c)], "\t") + "\t"
  }

  /** The counts lines for positions `0 .. rows - 1`; a channel shorter than
      that raises `IndexError`. */
  function CountLines(counts: BaseCounts, rows: nat): (r: Result<seq<string>>)
    ensures r.Ok? <==> rows <= |counts.g| && rows <= |counts.a| && rows <= |counts.t| && rows <= |counts.c|
    ensures r.Err? ==> r.error == IndexError
    ensures r.Ok? ==> |r.value| == rows
  {
    if rows == 0 then Ok([])
    else
      match CountLines(counts, rows - 1)
      case Err(e) => Err(e)
      case Ok(init) =>
        var i := rows - 1;
        if i < |counts.g| && i < |counts.a| && i < |counts.t| && i < |counts.c| then
          Ok(init + [CountLine(counts.g[i], counts.a[i], counts.t[i], counts.c[i])])
        else Err(IndexError)
  }

  function RecordLines(r: ClusterRecord, rows: nat): Result<seq<string>>
  {
    var called :- CalledLines(r.calledSequences, r.calledIndices, r.qualityScores);
    var counts :- CountLines(r.counts, rows);
    Ok([HeaderLine(r), "#" + r.coordinatesText, "#" + r.moleculeText] + called + counts)
  }

  /** Every line followed by a newline. */
  function Terminated(lines: seq<string>): string
  {
    if lines == [] then "" else lines[0] + "\n" + Terminated(lines[1..])
  }

  /** The text `serialize` writes for a cluster with `rows` molecule positions. */
  function RecordText(r: ClusterRecord, rows: nat): Result<string>
  {
    var lines :- RecordLines(r, rows);
    Ok(Terminated(lines))
  }

  // ---- reading ----

  datatype ParseState = ParseState(
    header: Option<seq<string>>, coordinates: Option<string>, molecule: Option<string>,
    calledSequences: seq<string>, calledIndices: seq<string>, qualityScores: seq<string>,
    g: seq<int>, a: seq<int>, t: seq<int>, c: seq<int>)

  const EmptyState := ParseState(None, None, None, [], [], [], [], [], [], [])

  /** What one line of the record says. The loop of `deserialize` decides
      it from the line's text and its line number alone. */
  datatype LineEffect =
    | SetHeader(fields: seq<string>)
    | SetCoordinates(coordinatesText: string)
    | SetMolecule(moleculeText: string)
    | AddCalled(calledSequence: string, calledIndex: string, qualityScore: string)
    | AddCounts(gCount: int, aCount: int, tCount: int, cCount: int)
    | Ignored
    | Fails(error: PyError)

  /** The effect of one line; a line with the wrong number of tab-separated
      fields or a count that is not an integer raises `ValueError`. */
  function LineEffectOf(lineNumber: nat, line: string): LineEffect
  {
    if StartsWith(line, "##") then CalledEffect(line[2..])
    else if StartsWith(line, "#") then HashedEffect(lineNumber, line[1..])
    else CountsEffect(line)
  }

  /** A `##` line: called sequence, called index and quality string. */
  function CalledEffect(body: string): LineEffect
  {
    var parts := Split(RStrip(body), '\t');
    if |parts| != 3 then Fails(ValueError) else AddCalled(parts[0], parts[1], parts[2])
  }

  /** A `#` line, read by its line number: the header fields, the
      coordinates or the molecule; any later `#` line is ignored. */
  function HashedEffect(lineNumber: nat, body: string): LineEffect
  {
    var text := RStrip(body);
    if lineNumber == 0 then
      var parts := Split(text, '\t');
      if |parts| != 6 then Fails(ValueError) else SetHeader(parts)
    else if lineNumber == 1 then SetCoordinates(text)
    else if lineNumber == 2 then SetMolecule(text)
    else Ignored
  }

  /** Any other line: four integer counts, G, A, T and C. */
  function CountsEffect(line: string): LineEffect
  {
    var parts := Split(RStrip(line), '\t');
    if |parts| != 4 then Fails(ValueError)
    else
      var g, a, t, c := ParseInt(parts[0]), ParseInt(parts[1]), ParseInt(parts[2]), ParseInt(parts[3]);
      if g.None? || a.None? || t.None? || c.None? then Fails(ValueError)
      else AddCounts(g.value, a.value, t.value, c.value)
  }

  /** What a line does to the variables `deserialize` accumulates. */
  function Apply(st: ParseState, e: LineEffect): Result<ParseState>
  {
    match e
    case SetHeader(fields) => Ok(st.(header := Some(fields)))
    case SetCoordinates(text) => Ok(st.(coordinates := Some(text)))
    case SetMolecule(text) => Ok(st.(molecule := Some(text)))
    case AddCalled(s, i, q) =>
      Ok(st.(calledSequences := st.calledSequences + [s], calledIndices := st.calledIndices + [i],
             qualityScores := st.qualityScores + [q]))
    case AddCounts(g, a, t, c) => Ok(st.(g := st.g + [g], a := st.a + [a], t := st.t + [t], c := st.c + [c]))
    case Ignored => Ok(st)
    case Fails(err) => Err(err)
  }

  /** The effects applied in order; the first failing line ends the loop. */
  function ApplyAll(st: ParseState, effects: seq<LineEffect>): Result<ParseState>
    decreases |effects|
  {
    if effects == [] then Ok(st)
    else
      match Apply(st, effects[0])
      case Err(e) => Err(e)
      case Ok(next) => ApplyAll(next, effects[1..])
  }

  /** The effect of every line, numbered from 0 as `enumerate` does. */
  function LineEffects(lines: seq<string>): seq<LineEffect>
  {
    seq(|lines|, i requires 0 <= i < |lines| => LineEffectOf(i, lines[i]))
  }

  /** The constructor call that ends `deserialize`, with its arguments taken
      in order: a missing header, coordinates or molecule line leaves a name
      unbound (`NameError`), and a field that is not an integer raises
      `ValueError`. */
  function Build(st: ParseState): Result<ClusterRecord>
  {
    if st.header.None? then Err(NameError)
    else
      var h := st.header.value;
      if |h| != 6 then Err(ValueError)
      else if ParseInt(h[1]).None? then Err(ValueError)
      else if st.molecule.None? then Err(NameError)
      else if ParseInt(h[4]).None? then Err(ValueError)
      else if st.coordinates.None? then Err(NameError)
      else if ParseInt(h[2]).None? || ParseInt(h[3]).None? then Err(ValueError)
      else Ok(ClusterRecord(PyStr(h[0]), ParseInt(h[1]).value, ParseInt(h[2]).value, ParseInt(h[3]).value,
                            ParseInt(h[4]).value, PyStr(h[5]), st.coordinates.value, st.molecule.value,
                            st.calledSequences, st.calledIndices, st.qualityScores,
                            BaseCounts(st.g, st.a, st.t, st.c)))
  }

  /** The lines `deserialize` reads: the text with trailing whitespace
      removed, split at newlines. */
  function RecordTextLines(data: string): seq<string>
  {
    Split(RStrip(data), '\n')
  }

  /** `deserialize` up to the constructor call. */
  function ParseRecord(data: string): Result<ClusterRecord>
  {
    var st :- ApplyAll(EmptyState, LineEffects(RecordTextLines(data)));
    Build(st)
  }

  // ---- the round trip ----

  predicate NoBreak(s: string) { '\t' !in s && '\n' !in s }

  predicate EndsUnspaced(s: string) { s != [] && !IsSpace(s[|s| - 1]) }

  /** A line of its own that reads back as itself: no newline, no leading
      `#` and no trailing whitespace. */
  predicate PlainLine(s: string) { '\n' !in s && (s == [] || s[0] != '#') && RStrip(s) == s }

  /** What a record must satisfy for `deserialize` to read back what
      `serialize` wrote: fields free of tabs and newlines, fields at the end
      of a line that keep their last character under `rstrip`, unambiguous
      coordinate and molecule lines, equally many indices and quality strings
      as called sequences, and `rows` counts in each channel. */
  predicate Writable(r: ClusterRecord, rows: nat)
  {
    && NoBreak(Str(r.clusterId)) && (Str(r.clusterId) == [] || Str(r.clusterId)[0] != '#')
    && NoBreak(Str(r.forward)) && EndsUnspaced(Str(r.forward))
    && PlainLine(r.coordinatesText) && PlainLine(r.moleculeText)
    && |r.calledIndices| == |r.calledSequences| && |r.qualityScores| == |r.calledSequences|
    && (forall i :: 0 <= i < |r.calledSequences| ==>
          NoBreak(r.calledSequences[i]) && NoBreak(r.calledIndices[i]) && NoBreak(r.qualityScores[i])
          && EndsUnspaced(r.qualityScores[i]))
    && |r.counts.g| == rows && |r.counts.a| == rows && |r.counts.t| == rows && |r.counts.c| == rows
  }

  /** Reading back what was written gives the same record, except that the
      cluster id and the direction flag come back as their text. */
  lemma RecordRoundTrip(r: ClusterRecord, rows: nat)
    requires Writable(r, rows)
    ensures RecordText(r, rows).Ok?
    ensures ParseRecord(RecordText(r, rows).value)
            == Ok(r.(clusterId := PyStr(Str(r.clusterId)), forward := PyStr(Str(r.forward))))
  {
    CalledLinesPlain(r.calledSequences, r.calledIndices, r.qualityScores);
    CountLinesPlain(r.counts, rows);
    var called := CalledLines(r.calledSequences, r.calledIndices, r.qualityScores).value;
    var counts := CountLines(r.counts, rows).value;
    var lines := [HeaderLine(r), "#" + r.coordinatesText, "#" + r.moleculeText] + called + counts;
    assert RecordLines(r, rows) == Ok(lines);
    LinesWellFormed(r, rows, called, counts);
    TextLinesOfTerminated(lines);
    LastStrippedEffects(lines);
    WrittenLineEffects(r, rows, called, counts);
    WrittenEffectsApplied(r, rows);
    HeaderRead(r);
  }

  /** Why the round trip needs non-empty quality strings: the `##` line of a
      read with an empty quality string loses its last tab to `rstrip`, so
      it splits into two fields and `deserialize` raises `ValueError`. */
  lemma EmptyQualityFails(n: nat, calledSequence: string, calledIndex: string)
    requires NoBreak(calledSequence) && NoBreak(calledIndex) && EndsUnspaced(calledIndex)
    ensures LineEffectOf(n, CalledLine(calledSequence, calledIndex, "")) == Fails(ValueError)
  {
    var two := Join([calledSequence, calledIndex], "\t");
    assert Join([calledSequence, calledIndex, ""], "\t") == two + "\t" by {
      assert [calledSequence, calledIndex, ""][1..] == [calledIndex, ""];
      assert [calledSequence, calledIndex][1..] == [calledIndex];
      assert [calledIndex, ""][1..] == [""];
      assert Join([calledIndex, ""], "\t") == calledIndex + "\t" + "";
      assert Join([calledIndex], "\t") == calledIndex;
      assert two == calledSequence + "\t" + Join([calledIndex], "\t");
    }
    JoinShape([calledSequence, calledIndex], "\t");
    assert IsSpace('\t');
    RStripOf(two, "\t");
    SplitJoin([calledSequence, calledIndex], '\t');
    var line := CalledLine(calledSequence, calledIndex, "");
    assert line[..2] == "##" && line[2..] == two + "\t";
  }

  /** The effects of the lines of a written record. */
  function WrittenEffects(r: ClusterRecord, rows: nat): seq<LineEffect>
    requires Writable(r, rows)
  {
    [SetHeader(HeaderFields(r)), SetCoordinates(r.coordinatesText), SetMolecule(r.moleculeText)]
    + CalledEffects(r.calledSequences, r.calledIndices, r.qualityScores)
    + CountEffects(r.counts, rows)
  }

  function CalledEffects(seqs: seq<string>, indices: seq<string>, qualities: seq<string>): seq<LineEffect>
    requires |indices| == |seqs| && |qualities| == |seqs|
  {
    seq(|seqs|, i requires 0 <= i < |seqs| => AddCalled(seqs[i], indices[i], qualities[i]))
  }

  function CountEffects(counts: BaseCounts, rows: nat): seq<LineEffect>
    requires rows <= |counts.g| && rows <= |counts.a| && rows <= |counts.t| && rows <= |counts.c|
  {
    seq(rows, i requires 0 <= i < rows => AddCounts(counts.g[i], counts.a[i], counts.t[i], counts.c[i]))
  }

  /** Each written line says what was written on it. */
  lemma WrittenLineEffects(r: ClusterRecord, rows: nat, called: seq<string>, counts: seq<string>)
    requires Writable(r, rows)
    requires CalledLines(r.calledSequences, r.calledIndices, r.qualityScores) == Ok(called)
    requires CountLines(r.counts, rows) == Ok(counts)
    ensures LineEffects([HeaderLine(r), "#" + r.coordinatesText, "#" + r.moleculeText] + called + counts)
            == WrittenEffects(r, rows)
  {
    var lines := [HeaderLine(r), "#" + r.coordinatesText, "#" + r.moleculeText] + called + counts;
    var effects := LineEffects(lines);
    var written := WrittenEffects(r, rows);
    CalledLinesPlain(r.calledSequences, r.calledIndices, r.qualityScores);
    CountLinesPlain(r.counts, rows);
    assert |effects| == |written|;
    forall i | 0 <= i < |lines|
      ensures effects[i] == written[i]
    {
      WrittenLineEffect(r, rows, called, counts, i);
    }
  }

  lemma WrittenLineEffect(r: ClusterRecord, rows: nat, called: seq<string>, counts: seq<string>, i: nat)
    requires Writable(r, rows)
    requires |called| == |r.calledSequences| && |counts| == rows
    requires forall k :: 0 <= k < |called| ==>
               called[k] == CalledLine(r.calledSequences[k], r.calledIndices[k], r.qualityScores[k])
    requires forall k :: 0 <= k < rows ==>
               counts[k] == CountLine(r.counts.g[k], r.counts.a[k], r.counts.t[k], r.counts.c[k])
    requires i < 3 + |called| + |counts|
    ensures LineEffectOf(i, ([HeaderLine(r), "#" + r.coordinatesText, "#" + r.moleculeText] + called + counts)[i])
            == WrittenEffects(r, rows)[i]
  {
    var head := [HeaderLine(r), "#" + r.coordinatesText, "#" + r.moleculeText];
    var lines := head + called + counts;
    var written := WrittenEffects(r, rows);
    var headE := [SetHeader(HeaderFields(r)), SetCoordinates(r.coordinatesText), SetMolecule(r.moleculeText)];
    var calledE := CalledEffects(r.calledSequences, r.calledIndices, r.qualityScores);
    var countE := CountEffects(r.counts, rows);
    var line := lines[i];
    var eff := written[i];
    ConcatAt(head, called, counts, i);
    ConcatAt(headE, calledE, countE, i);
    if i < 3 {
      assert line == head[i] && eff == headE[i];
      HeadLineEffect(r, i);
    } else if i < 3 + |called| {
      var k := i - 3;
      assert line == called[k] && eff == calledE[k];
      CalledLineEffect(i, r.calledSequences[k], r.calledIndices[k], r.qualityScores[k]);
    } else {
      var k := i - 3 - |called|;
      assert line == counts[k] && eff == countE[k];
      CountLineEffect(i, r.counts.g[k], r.counts.a[k], r.counts.t[k], r.counts.c[k]);
    }
  }

  lemma ConcatAt<T>(a: seq<T>, b: seq<T>, c: seq<T>, i: nat)
    requires i < |a| + |b| + |c|
    ensures (a + b + c)[i] == if i < |a| then a[i] else if i < |a| + |b| then b[i - |a|] else c[i - |a| - |b|]
  {
  }

  lemma HeadLineEffect(r: ClusterRecord, i: nat)
    requires NoBreak(Str(r.clusterId)) && (Str(r.clusterId) == [] || Str(r.clusterId)[0] != '#')
    requires NoBreak(Str(r.forward)) && EndsUnspaced(Str(r.forward))
    requires PlainLine(r.coordinatesText) && PlainLine(r.moleculeText)
    requires i < 3
    ensures LineEffectOf(i, [HeaderLine(r), "#" + r.coordinatesText, "#" + r.moleculeText][i])
            == [SetHeader(HeaderFields(r)), SetCoordinates(r.coordinatesText), SetMolecule(r.moleculeText)][i]
  {
    if i == 0 {
      HeaderLineEffect(r);
    } else {
      PlainLineEffect(i, if i == 1 then r.coordinatesText else r.moleculeText);
    }
  }

  /** The written effects build the state `Build` turns back into the record. */
  lemma WrittenEffectsApplied(r: ClusterRecord, rows: nat)
    requires Writable(r, rows)
    ensures ApplyAll(EmptyState, WrittenEffects(r, rows))
            == Ok(HeadState(r).(calledSequences := r.calledSequences, calledIndices := r.calledIndices,
                                qualityScores := r.qualityScores, g := r.counts.g, a := r.counts.a,
                                t := r.counts.t, c := r.counts.c))
  {
    assert r.counts.g[..rows] == r.counts.g && r.counts.a[..rows] == r.counts.a;
    assert r.counts.t[..rows] == r.counts.t && r.counts.c[..rows] == r.counts.c;
    var head := [SetHeader(HeaderFields(r)), SetCoordinates(r.coordinatesText), SetMolecule(r.moleculeText)];
    var calledE := CalledEffects(r.calledSequences, r.calledIndices, r.qualityScores);
    var countE := CountEffects(r.counts, rows);
    var st1 := HeadState(r);
    HeadEffectsApplied(r);
    var st2 := st1.(calledSequences := r.calledSequences, calledIndices := r.calledIndices,
                    qualityScores := r.qualityScores);
    CalledEffectsApplied(st1, r.calledSequences, r.calledIndices, r.qualityScores);
    assert st1.calledSequences + r.calledSequences == r.calledSequences;
    assert st1.calledIndices + r.calledIndices == r.calledIndices;
    assert st1.qualityScores + r.qualityScores == r.qualityScores;
    CountEffectsApplied(st2, r.counts, rows);
    assert st2.g + r.counts.g[..rows] == r.counts.g && st2.a + r.counts.a[..rows] == r.counts.a;
    assert st2.t + r.counts.t[..rows] == r.counts.t && st2.c + r.counts.c[..rows] == r.counts.c;
    var st3 := st2.(g := r.counts.g, a := r.counts.a, t := r.counts.t, c := r.counts.c);
    assert ApplyAll(st2, countE) == Ok(st3);
    ApplyAllThree(EmptyState, head, calledE, countE, st1, st2, st3);
  }

  lemma ApplyAllThree(st: ParseState, a: seq<LineEffect>, b: seq<LineEffect>, c: seq<LineEffect>,
                      mid1: ParseState, mid2: ParseState, fin: ParseState)
    requires ApplyAll(st, a) == Ok(mid1) && ApplyAll(mid1, b) == Ok(mid2) && ApplyAll(mid2, c) == Ok(fin)
    ensures ApplyAll(st, a + b + c) == Ok(fin)
  {
    ApplyAllThen(st, a, b, mid1);
    ApplyAllThen(st, a + b, c, mid2);
  }

  lemma HeadEffectsApplied(r: ClusterRecord)
    ensures ApplyAll(EmptyState, [SetHeader(HeaderFields(r)), SetCoordinates(r.coordinatesText), SetMolecule(r.moleculeText)])
            == Ok(HeadState(r))
  {
    var head := [SetHeader(HeaderFields(r)), SetCoordinates(r.coordinatesText), SetMolecule(r.moleculeText)];
    var st0 := EmptyState.(header := Some(HeaderFields(r)));
    var st1 := st0.(coordinates := Some(r.coordinatesText));
    var st2 := HeadState(r);
    assert Apply(st1, SetMolecule(r.moleculeText)) == Ok(st2);
    assert ApplyAll(st2, []) == Ok(st2);
    ApplyAllCons(st1, SetMolecule(r.moleculeText), [], st2);
    ApplyAllCons(st0, SetCoordinates(r.coordinatesText), [SetMolecule(r.moleculeText)], st2);
    assert [SetCoordinates(r.coordinatesText)] + [SetMolecule(r.moleculeText)] == head[1..];
    ApplyAllCons(EmptyState, SetHeader(HeaderFields(r)), head[1..], st2);
    assert [head[0]] + head[1..] == head;
  }

  /** Effects applied without error, followed by more effects. */
  lemma {:induction false} ApplyAllThen(st: ParseState, a: seq<LineEffect>, b: seq<LineEffect>, mid: ParseState)
    requires ApplyAll(st, a) == Ok(mid)
    ensures ApplyAll(st, a + b) == ApplyAll(mid, b)
    decreases |a|
  {
    if a == [] {
      assert a + b == b;
    } else {
      assert (a + b)[0] == a[0] && (a + b)[1..] == a[1..] + b;
      var next := Apply(st, a[0]).value;
      ApplyAllThen(next, a[1..], b, mid);
    }
  }

  lemma ApplyAllCons(st: ParseState, e: LineEffect, rest: seq<LineEffect>, fin: ParseState)
    requires Apply(st, e).Ok? && ApplyAll(Apply(st, e).value, rest) == Ok(fin)
    ensures ApplyAll(st, [e] + rest) == Ok(fin)
  {
    assert ([e] + rest)[0] == e && ([e] + rest)[1..] == rest;
  }

  /** One more effect after effects applied without error. */
  lemma ApplyAllSnoc(st: ParseState, a: seq<LineEffect>, e: LineEffect, mid: ParseState)
    requires ApplyAll(st, a) == Ok(mid)
    ensures ApplyAll(st, a + [e]) == Apply(mid, e)
  {
    ApplyAllThen(st, a, [e], mid);
    assert [e][1..] == [];
  }

  lemma {:induction false} CalledEffectsApplied(st: ParseState, seqs: seq<string>, indices: seq<string>, qualities: seq<string>)
    requires |indices| == |seqs| && |qualities| == |seqs|
    ensures ApplyAll(st, CalledEffects(seqs, indices, qualities))
            == Ok(st.(calledSequences := st.calledSequences + seqs, calledIndices := st.calledIndices + indices,
                      qualityScores := st.qualityScores + qualities))
    decreases |seqs|
  {
    var n := |seqs|;
    if n == 0 {
      assert CalledEffects(seqs, indices, qualities) == [];
      assert st.calledSequences + seqs == st.calledSequences;
      assert st.calledIndices + indices == st.calledIndices;
      assert st.qualityScores + qualities == st.qualityScores;
    } else {
      var k := n - 1;
      var init := CalledEffects(seqs[..k], indices[..k], qualities[..k]);
      assert CalledEffects(seqs, indices, qualities) == init + [AddCalled(seqs[k], indices[k], qualities[k])];
      CalledEffectsApplied(st, seqs[..k], indices[..k], qualities[..k]);
      var mid := st.(calledSequences := st.calledSequences + seqs[..k], calledIndices := st.calledIndices + indices[..k],
                     qualityScores := st.qualityScores + qualities[..k]);
      ApplyAllSnoc(st, init, AddCalled(seqs[k], indices[k], qualities[k]), mid);
      SnocPrefix(st.calledSequences, seqs, k);
      SnocPrefix(st.calledIndices, indices, k);
      SnocPrefix(st.qualityScores, qualities, k);
      assert seqs[..n] == seqs && indices[..n] == indices && qualities[..n] == qualities;
    }
  }

  lemma {:induction false} CountEffectsApplied(st: ParseState, counts: BaseCounts, rows: nat)
    requires rows <= |counts.g| && rows <= |counts.a| && rows <= |counts.t| && rows <= |counts.c|
    ensures ApplyAll(st, CountEffects(counts, rows))
            == Ok(st.(g := st.g + counts.g[..rows], a := st.a + counts.a[..rows],
                      t := st.t + counts.t[..rows], c := st.c + counts.c[..rows]))
  {
    if rows == 0 {
      assert CountEffects(counts, rows) == [];
      assert st.g + counts.g[..0] == st.g;
      assert st.a + counts.a[..0] == st.a;
      assert st.t + counts.t[..0] == st.t;
      assert st.c + counts.c[..0] == st.c;
    } else {
      var k := rows - 1;
      var e := AddCounts(counts.g[k], counts.a[k], counts.t[k], counts.c[k]);
      var init := CountEffects(counts, k);
      assert CountEffects(counts, rows) == init + [e];
      CountEffectsApplied(st, counts, k);
      var mid := st.(g := st.g + counts.g[..k], a := st.a + counts.a[..k], t := st.t + counts.t[..k], c := st.c + counts.c[..k]);
      ApplyAllSnoc(st, init, e, mid);
      SnocPrefix(st.g, counts.g, k);
      SnocPrefix(st.a, counts.a, k);
      SnocPrefix(st.t, counts.t, k);
      SnocPrefix(st.c, counts.c, k);
    }
  }

  /** `rstrip` of the last line, which `deserialize` applies to the whole
      text, leaves every effect as it was. */
  lemma LastStrippedEffects(lines: seq<string>)
    requires |lines| >= 1
    ensures LineEffects(lines[..|lines| - 1] + [RStrip(lines[|lines| - 1])]) == LineEffects(lines)
  {
    var n := |lines|;
    var read := lines[..n - 1] + [RStrip(lines[n - 1])];
    forall i | 0 <= i < n
      ensures LineEffects(read)[i] == LineEffects(lines)[i]
    {
      if i < n - 1 {
        assert read[i] == lines[i];
      } else {
        assert read[i] == RStrip(lines[i]);
        LineEffectRStrip(i, lines[i]);
      }
    }
  }

  /** `rstrip` of a line never changes its effect. */
  lemma LineEffectRStrip(n: nat, line: string)
    ensures LineEffectOf(n, RStrip(line)) == LineEffectOf(n, line)
  {
    if StartsWith(line, "##") {
      CalledRStrip(n, line);
    } else if StartsWith(line, "#") {
      HashedRStrip(n, line);
    } else {
      CountsRStrip(n, line);
    }
  }

  lemma CalledRStrip(n: nat, line: string)
    requires StartsWith(line, "##")
    ensures LineEffectOf(n, RStrip(line)) == LineEffectOf(n, line)
  {
    var r := RStrip(line);
    assert line[..2][1] == line[1];
    assert !IsSpace('#');
    RStripKeeps(line, 2);
    RStripDrop(line, 2);
    RStripIdempotent(line[2..]);
    assert StartsWith(r, "##");
    EffectOfCalledLine(n, line);
    EffectOfCalledLine(n, r);
  }

  lemma HashedRStrip(n: nat, line: string)
    requires StartsWith(line, "#") && !StartsWith(line, "##")
    ensures LineEffectOf(n, RStrip(line)) == LineEffectOf(n, line)
  {
    var r := RStrip(line);
    assert line[..1][0] == line[0];
    assert !IsSpace('#');
    RStripKeeps(line, 1);
    RStripDrop(line, 1);
    RStripIdempotent(line[1..]);
    assert StartsWith(r, "#");
    if |r| >= 2 {
      assert r[..2] == line[..2] by {
        assert r == line[..|r|];
      }
    }
    EffectOfHashedLine(n, line);
    EffectOfHashedLine(n, r);
  }

  lemma CountsRStrip(n: nat, line: string)
    requires !StartsWith(line, "#") && !StartsWith(line, "##")
    ensures LineEffectOf(n, RStrip(line)) == LineEffectOf(n, line)
  {
    var r := RStrip(line);
    RStripIdempotent(line);
    if r != [] {
      assert line[..1][0] == line[0];
      assert r[0] == line[0];
      NotStartsWith(line, "#", 0);
      NotStartsWith(r, "#", 0);
      NotStartsWith(r, "##", 0);
    } else {
      assert !StartsWith(r, "#") && !StartsWith(r, "##");
    }
    EffectOfCountsLine(n, line);
    EffectOfCountsLine(n, r);
  }

  lemma EffectOfCalledLine(n: nat, line: string)
    requires StartsWith(line, "##")
    ensures LineEffectOf(n, line) == CalledEffect(line[2..])
  {
  }

  lemma EffectOfHashedLine(n: nat, line: string)
    requires StartsWith(line, "#") && !StartsWith(line, "##")
    ensures LineEffectOf(n, line) == HashedEffect(n, line[1..])
  {
  }

  lemma EffectOfCountsLine(n: nat, line: string)
    requires !StartsWith(line, "#") && !StartsWith(line, "##")
    ensures LineEffectOf(n, line) == CountsEffect(line)
  {
  }

  /** The state after the header, coordinates and molecule lines. */
  function HeadState(r: ClusterRecord): ParseState
  {
    EmptyState.(header := Some(HeaderFields(r)), coordinates := Some(r.coordinatesText),
                molecule := Some(r.moleculeText))
  }

  lemma HeaderRead(r: ClusterRecord)
    ensures Build(HeadState(r).(calledSequences := r.calledSequences, calledIndices := r.calledIndices,
                                qualityScores := r.qualityScores, g := r.counts.g, a := r.counts.a,
                                t := r.counts.t, c := r.counts.c))
            == Ok(r.(clusterId := PyStr(Str(r.clusterId)), forward := PyStr(Str(r.forward))))
  {
    var st := HeadState(r).(calledSequences := r.calledSequences, calledIndices := r.calledIndices,
                            qualityScores := r.qualityScores, g := r.counts.g, a := r.counts.a,
                            t := r.counts.t, c := r.counts.c);
    var h := HeaderFields(r);
    HeaderParses(r);
    assert st.header == Some(h) && st.coordinates.Some? && st.molecule.Some?;
    BuildOfFields(st, h, r.runId, r.moleculeCount, r.diameter, r.lane);
  }

  /** The integer header fields read back as the integers written. */
  lemma HeaderParses(r: ClusterRecord)
    ensures |HeaderFields(r)| == 6
    ensures ParseInt(HeaderFields(r)[1]) == Some(r.runId) && ParseInt(HeaderFields(r)[2]) == Some(r.moleculeCount)
    ensures ParseInt(HeaderFields(r)[3]) == Some(r.diameter) && ParseInt(HeaderFields(r)[4]) == Some(r.lane)
  {
    var h := HeaderFields(r);
    assert h[1] == IntToString(r.runId) && h[2] == IntToString(r.moleculeCount);
    assert h[3] == IntToString(r.diameter) && h[4] == IntToString(r.lane);
    ParseIntOfIntToString(r.runId);
    ParseIntOfIntToString(r.moleculeCount);
    ParseIntOfIntToString(r.diameter);
    ParseIntOfIntToString(r.lane);
  }

  /** `Build` once every argument is present and parses. */
  lemma BuildOfFields(st: ParseState, h: seq<string>, run: int, count: int, diameter: int, lane: int)
    requires st.header == Some(h) && |h| == 6 && st.coordinates.Some? && st.molecule.Some?
    requires ParseInt(h[1]) == Some(run) && ParseInt(h[2]) == Some(count)
    requires ParseInt(h[3]) == Some(diameter) && ParseInt(h[4]) == Some(lane)
    ensures Build(st) == Ok(ClusterRecord(PyStr(h[0]), run, count, diameter, lane, PyStr(h[5]),
                                          st.coordinates.value, st.molecule.value,
                                          st.calledSequences, st.calledIndices, st.qualityScores,
                                          BaseCounts(st.g, st.a, st.t, st.c)))
  {
  }

  /** The header line sets the six header fields. */
  lemma HeaderLineEffect(r: ClusterRecord)
    requires NoBreak(Str(r.clusterId)) && NoBreak(Str(r.forward)) && EndsUnspaced(Str(r.forward))
    requires Str(r.clusterId) == [] || Str(r.clusterId)[0] != '#'
    ensures LineEffectOf(0, HeaderLine(r)) == SetHeader(HeaderFields(r))
  {
    var fields := HeaderFields(r);
    var line := HeaderLine(r);
    HeaderFieldsPlain(r);
    var joined := Join(fields, "\t");
    JoinShape(fields, "\t");
    assert line[1..] == joined;
    assert line[..1] == "#";
    assert line[1] == joined[0];
    NotStartsWith(line, "##", 1);
    RStripOf(joined, []);
    assert joined + [] == joined;
    SplitJoin(fields, '\t');
  }

  /** The coordinates and molecule lines set their text. */
  lemma PlainLineEffect(lineNumber: nat, s: string)
    requires PlainLine(s) && (lineNumber == 1 || lineNumber == 2)
    ensures LineEffectOf(lineNumber, "#" + s) == if lineNumber == 1 then SetCoordinates(s) else SetMolecule(s)
  {
    var line := "#" + s;
    assert line[1..] == s;
    assert line[..1] == "#";
    if s != [] {
      NotStartsWith(line, "##", 1);
    } else {
      NotStartsWith(line, "##", 1);
    }
  }

  /** A `##` line adds its called sequence, index and quality string. */
  lemma CalledLineEffect(n: nat, s: string, i: string, q: string)
    requires NoBreak(s) && NoBreak(i) && NoBreak(q) && EndsUnspaced(q)
    ensures LineEffectOf(n, CalledLine(s, i, q)) == AddCalled(s, i, q)
  {
    var parts := [s, i, q];
    var joined := Join(parts, "\t");
    var line := CalledLine(s, i, q);
    assert line[2..] == joined;
    assert line[..2] == "##";
    JoinShape(parts, "\t");
    RStripOf(joined, []);
    assert joined + [] == joined;
    SplitJoin(parts, '\t');
  }

  /** A counts line adds its four counts. */
  lemma CountLineEffect(n: nat, g: int, a: int, t: int, c: int)
    ensures LineEffectOf(n, CountLine(g, a, t, c)) == AddCounts(g, a, t, c)
  {
    var line := CountLine(g, a, t, c);
    CountLineShape(g, a, t, c);
    CountLineFields(g, a, t, c);
    var parts := Split(RStrip(line), '\t');
    assert parts[0] == IntToString(g) && parts[1] == IntToString(a);
    assert parts[2] == IntToString(t) && parts[3] == IntToString(c);
    ParseIntOfIntToString(g);
    ParseIntOfIntToString(a);
    ParseIntOfIntToString(t);
    ParseIntOfIntToString(c);
    NotStartsWith(line, "#", 0);
    NotStartsWith(line, "##", 0);
  }

  lemma HeaderFieldsPlain(r: ClusterRecord)
    requires NoBreak(Str(r.clusterId)) && NoBreak(Str(r.forward)) && EndsUnspaced(Str(r.forward))
    requires Str(r.clusterId) == [] || Str(r.clusterId)[0] != '#'
    ensures forall k :: 0 <= k < 6 ==> NoBreak(HeaderFields(r)[k])
    ensures EndsUnspaced(HeaderFields(r)[5])
  {
    IntToStringHasNo(r.runId, '\t');
    IntToStringHasNo(r.runId, '\n');
    IntToStringHasNo(r.moleculeCount, '\t');
    IntToStringHasNo(r.moleculeCount, '\n');
    IntToStringHasNo(r.diameter, '\t');
    IntToStringHasNo(r.diameter, '\n');
    IntToStringHasNo(r.lane, '\t');
    IntToStringHasNo(r.lane, '\n');
  }

  /** The first and last characters of a join of several fields. */
  lemma {:induction false} JoinShape(parts: seq<string>, sep: string)
    requires |parts| >= 1
    ensures parts[0] != [] ==> Join(parts, sep) != [] && Join(parts, sep)[0] == parts[0][0]
    ensures parts[|parts| - 1] != [] ==>
              Join(parts, sep) != [] && Join(parts, sep)[|Join(parts, sep)| - 1] == parts[|parts| - 1][|parts[|parts| - 1]| - 1]
    ensures |parts| > 1 && sep != [] && parts[0] == [] ==> Join(parts, sep)[0] == sep[0]
  {
    if |parts| > 1 {
      JoinShape(parts[1..], sep);
      assert parts[1..][|parts[1..]| - 1] == parts[|parts| - 1];
    }
  }

  /** Every line the record writes is free of newlines, and the last one
      starts with a character `rstrip` keeps. */
  lemma LinesWellFormed(r: ClusterRecord, rows: nat, called: seq<string>, counts: seq<string>)
    requires Writable(r, rows)
    requires CalledLines(r.calledSequences, r.calledIndices, r.qualityScores) == Ok(called)
    requires CountLines(r.counts, rows) == Ok(counts)
    ensures forall i :: 0 <= i < |[HeaderLine(r), "#" + r.coordinatesText, "#" + r.moleculeText] + called + counts| ==>
              '\n' !in ([HeaderLine(r), "#" + r.coordinatesText, "#" + r.moleculeText] + called + counts)[i]
    ensures var lines := [HeaderLine(r), "#" + r.coordinatesText, "#" + r.moleculeText] + called + counts;
            lines[|lines| - 1] != [] && !IsSpace(lines[|lines| - 1][0])
  {
    var head := [HeaderLine(r), "#" + r.coordinatesText, "#" + r.moleculeText];
    HeadLinesPlain(r, rows);
    CalledLinesKept(r.calledSequences, r.calledIndices, r.qualityScores, called);
    CountLinesKept(r.counts, rows, counts);
    assert !IsSpace('#');
    LinesOfParts(head, called, counts);
  }

  lemma HeadLinesPlain(r: ClusterRecord, rows: nat)
    requires Writable(r, rows)
    ensures '\n' !in HeaderLine(r) && '\n' !in "#" + r.coordinatesText && '\n' !in "#" + r.moleculeText
  {
    HeaderFieldsPlain(r);
    JoinNoBreak(HeaderFields(r), '\n');
    var joined := Join(HeaderFields(r), "\t");
    assert '\n' !in joined;
    assert HeaderLine(r) == "#" + joined;
  }

  lemma CalledLinesKept(seqs: seq<string>, indices: seq<string>, qualities: seq<string>, called: seq<string>)
    requires |indices| == |seqs| && |qualities| == |seqs|
    requires forall i :: 0 <= i < |seqs| ==> NoBreak(seqs[i]) && NoBreak(indices[i]) && NoBreak(qualities[i])
    requires CalledLines(seqs, indices, qualities) == Ok(called)
    ensures forall i :: 0 <= i < |called| ==> '\n' !in called[i] && called[i] != [] && !IsSpace(called[i][0])
  {
    CalledLinesPlain(seqs, indices, qualities);
    assert !IsSpace('#');
  }

  lemma CountLinesKept(counts: BaseCounts, rows: nat, lines: seq<string>)
    requires CountLines(counts, rows) == Ok(lines)
    ensures forall i :: 0 <= i < |lines| ==> '\n' !in lines[i] && lines[i] != [] && !IsSpace(lines[i][0])
  {
    CountLinesPlain(counts, rows);
  }

  /** Lines that each lack newlines, and whose last one begins with a kept
      character, in three parts. */
  lemma LinesOfParts(head: seq<string>, called: seq<string>, counts: seq<string>)
    requires head != [] && head[|head| - 1] != [] && !IsSpace(head[|head| - 1][0])
    requires forall i :: 0 <= i < |head| ==> '\n' !in head[i]
    requires forall i :: 0 <= i < |called| ==> '\n' !in called[i] && called[i] != [] && !IsSpace(called[i][0])
    requires forall i :: 0 <= i < |counts| ==> '\n' !in counts[i] && counts[i] != [] && !IsSpace(counts[i][0])
    ensures forall i :: 0 <= i < |head + called + counts| ==> '\n' !in (head + called + counts)[i]
    ensures var lines := head + called + counts;
            lines[|lines| - 1] != [] && !IsSpace(lines[|lines| - 1][0])
  {
    var lines := head + called + counts;
    forall i | 0 <= i < |lines|
      ensures '\n' !in lines[i]
    {
      if i < |head| {
        assert lines[i] == head[i];
      } else if i < |head| + |called| {
        assert lines[i] == called[i - |head|];
      } else {
        assert lines[i] == counts[i - |head| - |called|];
      }
    }
    if counts != [] {
      assert lines[|lines| - 1] == counts[|counts| - 1];
    } else if called != [] {
      assert lines[|lines| - 1] == called[|called| - 1];
    } else {
      assert lines[|lines| - 1] == head[|head| - 1];
    }
  }

  lemma {:induction false} JoinNoBreak(parts: seq<string>, c: char)
    requires c != '\t'
    requires forall k :: 0 <= k < |parts| ==> c !in parts[k]
    ensures c !in Join(parts, "\t")
  {
    if |parts| > 1 {
      JoinNoBreak(parts[1..], c);
    }
  }

  lemma {:induction false} CalledLinesPlain(seqs: seq<string>, indices: seq<string>, qualities: seq<string>)
    requires |indices| == |seqs| && |qualities| == |seqs|
    requires forall i :: 0 <= i < |seqs| ==> NoBreak(seqs[i]) && NoBreak(indices[i]) && NoBreak(qualities[i])
    ensures CalledLines(seqs, indices, qualities).Ok?
    ensures forall i :: 0 <= i < |seqs| ==> '\n' !in CalledLines(seqs, indices, qualities).value[i]
    ensures forall i :: 0 <= i < |seqs| ==>
              CalledLines(seqs, indices, qualities).value[i] != [] && CalledLines(seqs, indices, qualities).value[i][0] == '#'
    ensures forall i :: 0 <= i < |seqs| ==>
              CalledLines(seqs, indices, qualities).value[i] == CalledLine(seqs[i], indices[i], qualities[i])
  {
    if seqs != [] {
      CalledLinesPlain(seqs[1..], indices[1..], qualities[1..]);
      JoinNoBreak([seqs[0], indices[0], qualities[0]], '\n');
      var rest := CalledLines(seqs[1..], indices[1..], qualities[1..]).value;
      var all := CalledLines(seqs, indices, qualities).value;
      assert all == [CalledLine(seqs[0], indices[0], qualities[0])] + rest;
      forall i | 0 <= i < |seqs|
        ensures '\n' !in all[i] && all[i] != [] && all[i][0] == '#'
        ensures all[i] == CalledLine(seqs[i], indices[i], qualities[i])
      {
        if i > 0 {
          assert all[i] == rest[i - 1];
        }
      }
    }
  }

  lemma CountLineShape(g: int, a: int, t: int, c: int)
    ensures '\n' !in CountLine(g, a, t, c)
    ensures CountLine(g, a, t, c) != [] && CountLine(g, a, t, c)[0] != '#' && !IsSpace(CountLine(g, a, t, c)[0])
  {
    var parts := [IntToString(g), IntToString(a), IntToString(t), IntToString(c)];
    IntToStringHasNo(g, '\n');
    IntToStringHasNo(a, '\n');
    IntToStringHasNo(t, '\n');
    IntToStringHasNo(c, '\n');
    JoinNoBreak(parts, '\n');
    IntToStringShape(g);
    JoinShape(parts, "\t");
  }

  /** The counts line splits back into its four numbers. */
  lemma CountLineFields(g: int, a: int, t: int, c: int)
    ensures Split(RStrip(CountLine(g, a, t, c)), '\t') == [IntToString(g), IntToString(a), IntToString(t), IntToString(c)]
  {
    var parts := [IntToString(g), IntToString(a), IntToString(t), IntToString(c)];
    IntToStringHasNo(g, '\t');
    IntToStringHasNo(a, '\t');
    IntToStringHasNo(t, '\t');
    IntToStringHasNo(c, '\t');
    IntToStringShape(c);
    JoinShape(parts, "\t");
    var joined := Join(parts, "\t");
    assert IsSpace('\t');
    RStripOf(joined, "\t");
    SplitJoin(parts, '\t');
  }

  lemma CountLinesPlain(counts: BaseCounts, rows: nat)
    requires CountLines(counts, rows).Ok?
    ensures forall i :: 0 <= i < rows ==>
              '\n' !in CountLines(counts, rows).value[i] && CountLines(counts, rows).value[i] != []
              && !IsSpace(CountLines(counts, rows).value[i][0])
    ensures forall i :: 0 <= i < rows ==>
              CountLines(counts, rows).value[i] == CountLine(counts.g[i], counts.a[i], counts.t[i], counts.c[i])
  {
    CountLinesAre(counts, rows);
    var all := CountLines(counts, rows).value;
    forall i | 0 <= i < rows
      ensures '\n' !in all[i] && all[i] != [] && !IsSpace(all[i][0])
    {
      CountLineShape(counts.g[i], counts.a[i], counts.t[i], counts.c[i]);
    }
  }

  lemma {:induction false} CountLinesAre(counts: BaseCounts, rows: nat)
    requires CountLines(counts, rows).Ok?
    ensures forall i :: 0 <= i < rows ==>
              CountLines(counts, rows).value[i] == CountLine(counts.g[i], counts.a[i], counts.t[i], counts.c[i])
  {
    if rows > 0 {
      var k := rows - 1;
      CountLinesAre(counts, k);
      var init := CountLines(counts, k).value;
      var all := CountLines(counts, rows).value;
      assert all == init + [CountLine(counts.g[k], counts.a[k], counts.t[k], counts.c[k])];
      forall i | 0 <= i < rows
        ensures all[i] == CountLine(counts.g[i], counts.a[i], counts.t[i], counts.c[i])
      {
        if i < k {
          assert all[i] == init[i];
        }
      }
    }
  }

  lemma TextLinesOfTerminated(lines: seq<string>)
    requires |lines| >= 1
    requires forall i :: 0 <= i < |lines| ==> '\n' !in lines[i]
    requires lines[|lines| - 1] != [] && !IsSpace(lines[|lines| - 1][0])
    ensures RecordTextLines(Terminated(lines)) == lines[..|lines| - 1] + [RStrip(lines[|lines| - 1])]
  {
    var n := |lines|;
    var read := lines[..n - 1] + [RStrip(lines[n - 1])];
    TerminatedStripped(lines);
    KeptLinesPlain(lines, read);
    SplitJoin(read, '\n');
  }

  /** `rstrip` of the written text strips only the last line. */
  lemma TerminatedStripped(lines: seq<string>)
    requires |lines| >= 1
    requires lines[|lines| - 1] != [] && !IsSpace(lines[|lines| - 1][0])
    ensures RStrip(Terminated(lines)) == Join(lines[..|lines| - 1] + [RStrip(lines[|lines| - 1])], "\n")
  {
    var n := |lines|;
    var last := lines[n - 1];
    var init := lines[..n - 1];
    RStripKeeps(last, 1);
    TerminatedJoin(lines);
    var joined := Join(lines, "\n");
    assert RStrip(joined + "\n") == RStrip(joined) by {
      assert (joined + "\n")[..|joined|] == joined;
    }
    if n == 1 {
      assert joined == last;
      assert [RStrip(last)][1..] == [];
    } else {
      JoinSnoc(init, last, "\n");
      InitLast(lines);
      RStripAppend(Join(init, "\n") + "\n", last);
      JoinSnoc(init, RStrip(last), "\n");
    }
  }

  /** The lines `deserialize` reads back hold no newline. */
  lemma KeptLinesPlain(lines: seq<string>, read: seq<string>)
    requires |lines| >= 1 && read == lines[..|lines| - 1] + [RStrip(lines[|lines| - 1])]
    requires forall i :: 0 <= i < |lines| ==> '\n' !in lines[i]
    ensures forall k :: 0 <= k < |read| ==> '\n' !in read[k]
  {
    var n := |lines|;
    var last := lines[n - 1];
    var kept := RStrip(last);
    forall k | 0 <= k < n
      ensures '\n' !in read[k]
    {
      if k < n - 1 {
        assert read[k] == lines[k];
      } else {
        assert forall j :: 0 <= j < |kept| ==> kept[j] == last[j];
      }
    }
  }

  lemma {:induction false} TerminatedJoin(lines: seq<string>)
    requires |lines| >= 1
    ensures Terminated(lines) == Join(lines, "\n") + "\n"
  {
    if |lines| == 1 {
      assert lines[1..] == [];
    } else {
      TerminatedJoin(lines[1..]);
    }
  }

  /** The lines for one more called sequence end with its own line. */
  lemma {:induction false} CalledLinesSnoc(seqs: seq<string>, x: string, indices: seq<string>, qualities: seq<string>)
    requires |seqs| < |indices| && |seqs| < |qualities|
    ensures CalledLines(seqs + [x], indices, qualities)
            == Ok(CalledLines(seqs, indices, qualities).value + [CalledLine(x, indices[|seqs|], qualities[|seqs|])])
  {
    if seqs == [] {
      assert seqs + [x] == [x] && [x][1..] == [];
      var line := CalledLine(x, indices[0], qualities[0]);
      assert CalledLines([x][1..], indices[1..], qualities[1..]) == Ok([]);
      assert CalledLines([x], indices, qualities) == Ok([line] + []);
      assert CalledLines(seqs, indices, qualities) == Ok([]);
      assert [line] + [] == [] + [line];
    } else {
      assert (seqs + [x])[0] == seqs[0] && (seqs + [x])[1..] == seqs[1..] + [x];
      CalledLinesSnoc(seqs[1..], x, indices[1..], qualities[1..]);
      assert indices[1..][|seqs| - 1] == indices[|seqs|] && qualities[1..][|seqs| - 1] == qualities[|seqs|];
      var head := CalledLine(seqs[0], indices[0], qualities[0]);
      var rest := CalledLines(seqs[1..], indices[1..], qualities[1..]).value;
      var last := CalledLine(x, indices[|seqs|], qualities[|seqs|]);
      assert CalledLines(seqs + [x], indices, qualities) == Ok([head] + (rest + [last]));
      assert CalledLines(seqs, indices, qualities) == Ok([head] + rest);
      assert [head] + (rest + [last]) == [head] + rest + [last];
    }
  }

  lemma {:induction false} TerminatedAppend(a: seq<string>, b: seq<string>)
    ensures Terminated(a + b) == Terminated(a) + Terminated(b)
  {
    if a == [] {
      assert a + b == b;
    } else {
      assert (a + b)[0] == a[0] && (a + b)[1..] == a[1..] + b;
      TerminatedAppend(a[1..], b);
    }
  }

  /** Once a line fails, later lines change nothing. */
  lemma {:induction false} ApplyAllStops(st: ParseState, a: seq<LineEffect>, b: seq<LineEffect>)
    requires ApplyAll(st, a).Err?
    ensures ApplyAll(st, a + b) == ApplyAll(st, a)
    decreases |a|
  {
    assert (a + b)[0] == a[0] && (a + b)[1..] == a[1..] + b;
    match Apply(st, a[0])
    case Err(e) =>
    case Ok(next) =>
      ApplyAllStops(next, a[1..], b);
  }

  lemma SnocPrefix<T>(p: seq<T>, s: seq<T>, i: nat)
    requires i < |s|
    ensures p + s[..i] + [s[i]] == p + s[..i + 1]
  {
    assert s[..i] + [s[i]] == s[..i + 1];
  }

  /** After a write and a read, the direction flag is a non-empty string and
      so always truthy, even when it was `False`. */
  lemma ReadBackFlagTruthy(r: ClusterRecord, rows: nat)
    requires Writable(r, rows)
    ensures RecordText(r, rows).Ok?
    ensures ParseRecord(RecordText(r, rows).value).Ok?
    ensures Truthy(ParseRecord(RecordText(r, rows).value).value.forward)
  {
    RecordRoundTrip(r, rows);
  }
}
