# BEERS2 core in Dafny

This project models the sequential core of BEERS2, a simulator of RNA-seq
library preparation and sequencing. It covers:

- **Molecules** (`lib/beers/molecule.py`): the constructor that strips the
  sequence, alphabet validation and the poly-A tail length. It also covers
  `substitute`, `insert`, `delete`, `truncate`, `make_fragment` and
  `new_id`, each with the SAM-style CIGAR descriptor the edit writes.
- **Clusters** (`beers/cluster.py`):
  - the one-hot G/A/T/C counts built from the molecule;
  - per-position consensus calling, with ties giving `N` and an exact Phred
    quality floor capped at 41;
  - read-out over ranges, the 5′ and 3′ reads, and `read`;
  - the line-oriented `serialize`/`deserialize` record, with a proved round
    trip.
- **The flowcell** (`beers/flowcell.py`):
  - setting up the geometry from a configuration or by folding read-header
    coordinates;
  - the available lanes and `validate`;
  - the rejection-sampling coordinate generator, with its limit of 100
    attempts and duplicate-free lanes;
  - the lane partition that turns a molecule packet into a cluster packet.
- **Variant finding** (`beers/expression/variants_finder.py`):
  - removing leading and trailing clips from the CIGAR;
  - walking the M/I/D/N operations with a genome cursor and a read cursor, and
    counting (kind, chromosome, position, description) keys;
  - grouping the sorted keys by position into `PositionInfo` objects and
    keeping those that differ from the reference.
- **Satellites**:
  - the sort-by-coordinates sequencing step;
  - the STAR option check and command assembly of the genome alignment step;
  - 32-bit seed masking and molecule renumbering in `GeneralUtils`;
  - `get_tail_length` of the poly-A plotting script.

The layout follows the program. Value types become datatypes. Objects whose
fields the code updates become classes with `modifies` frames: `Molecule`,
`Cluster`, `Flowcell`, `PositionInfo`, `ClusterPacket`, and the run-wide id
counters.

Loops stay loops, with invariants tying them to reference functions:
`read_over_range`, `serialize`, `deserialize`, `generate_coordinates`,
`convert_molecule_pkt_to_cluster_pkt`, `get_coordinate_ranges`,
`collect_reads`, `call_variants` and `reset_molecule_ids`. Lemmas about
those reference functions state what the source promises: round trips,
permutation and stability of sorts, duplicate-free lanes, exact descriptors,
and both directions of every "iff".

Python exceptions are values. The `PyError` kinds of `Wrappers.Result`
include `AssertionError`, `IndexError`, `ZeroDivisionError`, `OverflowError`, `ValueError`,
`AttributeError`, `KeyError`, `NotImplementedError`, `UnicodeEncodeError`,
`TypeError` and `BeersException(msg)`. Python semantics are written out
where they matter: negative indices and slice clamping (`Text.PySlice`,
`Text.PyIndex`), `str.strip`/`rstrip`, `split`/`join`, `int()` of a decimal
text, and `re` matches written as functions.

Parameters stand in for what the core cannot see:

- Random draws come from an oracle `draws: nat -> nat` and a draw counter.
  A drawn value `v` maps into `[lo, hi]` as `lo + v % (hi - lo + 1)`, or
  fails with `ValueError` when the range is empty, as `np.random.choice` on
  an empty range does.
- The time stamp, the pickled molecule list and the FASTQ headers are
  arguments.
- The coordinate and molecule serialisations, whose classes are not part of
  this model, are texts for `serialize` and decoding functions for
  `deserialize`.

Notes on the code, modelled as written:
- `insert` and `delete` have a branch for `position == len(sequence)` that
  the preceding assertion makes unreachable. The model has no such branch.
- `substitute` accepts position −1. Python's `seq[:-1] + nt + seq` then
  doubles the molecule (`Molecules.SubstituteAtMinusOne`).
- `re.search(r'(A+$)', s)` also matches in front of one final newline. The
  tail length is therefore measured on the text without that newline
  (`Molecules.Unterminated`).
- The 3′ read computes both ranges and then calls `reverse()` on a `str`,
  which raises `AttributeError`. `Clusters.ThreePrimeRead` returns that
  error once the ranges have been read, or the first error of a range read.
- `deserialize` gives back `cluster_id` and `forward_is_5_prime` as strings.
  The text `"False"` is truthy (`ClusterText.ReadBackFlagTruthy`).
- The serialisation round trip needs every quality string to be non-empty
  and to end in a character other than whitespace. A read of length 0
  writes an empty quality field, the `rstrip` of line 157 removes the tab
  before it, and `deserialize` raises `ValueError` on unpacking two fields
  into three (`ClusterText.EmptyQualityFails`).
- `call_variants` on an empty dictionary reaches line 117 with
  `position_info = None` and raises `AttributeError`.
- The lane-switch test `(counter + 1) % molecules_per_lane` divides by zero
  when a packet has fewer molecules than there are lanes to use.
- `reset_molecule_ids` gives a molecule object that occurs twice in the list
  the id of its last occurrence.
- The Phred quality uses exact rational arithmetic instead of
  `floor(-10 * log10(p))`. The value is the largest `q ≤ 41` with
  `others^10 * 10^q <= count^10`. A value below −33 makes `chr` fail with
  `ValueError`.

## Model

| member | source | states |
|---|---|---|
| Text.NatToString | lib/beers/molecule.py:46 | the decimal text of a number is non-empty and all digits |
| Text.DigitsValueOfNatToString | lib/beers/molecule.py:46 | reading back the decimal digits of `n` gives `n` |
| Text.ParseIntOfIntToString | beers/cluster.py:171-176 | `int(str(i)) == i` for every integer, negative ones included |
| Text.IntToStringInjective | lib/beers/molecule.py:113 | distinct integers have distinct decimal texts |
| Text.RStrip | beers/cluster.py:147 | `rstrip` keeps a prefix, ends in a non-space and drops only whitespace |
| Text.LStrip | lib/beers/molecule.py:13 | `lstrip` keeps a suffix, starts with a non-space and drops only whitespace |
| Text.RStripIdempotent | beers/cluster.py:157 | stripping a stripped text changes nothing |
| Text.RStripAppend | beers/cluster.py:147 | `rstrip` of a text ending in a non-blank part strips only that part |
| Text.Split | beers/cluster.py:155 | `split` yields at least one part |
| Text.SplitJoin | beers/cluster.py:155-157 | splitting a join of separator-free parts gives the parts back |
| Text.JoinSnoc | beers/expression/genome_alignment.py:46 | joining one more part appends the separator and the part |
| Text.PySlice | lib/beers/molecule.py:35 | Python slicing agrees with the plain slice on in-range bounds |
| Text.PyIndex | beers/expression/variants_finder.py:166 | Python indexing succeeds exactly for `-n <= i < n` and picks `s[i]` for `i >= 0` |
| Cigar.Ops | beers/expression/variants_finder.py:51 | the `(\d+)([NMID])` matches of a CIGAR, every operation of an M/I/D/N kind |
| Cigar.OpsOfRender | beers/expression/variants_finder.py:152-154 | parsing a rendered list of M/I/D/N operations gives the list back |
| Cigar.RenderAppend | beers/expression/variants_finder.py:152 | rendering distributes over concatenation |
| Cigar.QueryLengthAppend | lib/beers/molecule.py:54 | the read bases a descriptor covers add up over concatenation |
| Cigar.ReferenceLengthAppend | lib/beers/molecule.py:72 | the reference bases a descriptor spans add up over concatenation |
| RunIds.IdAllocator.constructor | lib/beers/molecule.py:7 | molecule and cluster counters start at 1; the packet counter is given |
| FlowcellLanes.SortKeyInjective | beers/sequence/sequence_by_synthesis_step.py:10 | coordinates with equal sort keys are equal |
| Sorting.LexLessTransitive | beers/sequence/sequence_by_synthesis_step.py:10 | the coordinate order is transitive |
| Sorting.LexLessTotal | beers/sequence/sequence_by_synthesis_step.py:10 | any two distinct keys are ordered one way or the other |
| Sorting.LexLessIrreflexive | beers/sequence/sequence_by_synthesis_step.py:10 | no key is below itself |
| Sorting.InsertPermutes | beers/expression/variants_finder.py:88 | inserting adds exactly the new element to the multiset |
| Sorting.InsertSorted | beers/expression/variants_finder.py:88 | inserting into a sorted list keeps it sorted |
| Sorting.SortSorted | beers/expression/variants_finder.py:88 | `sorted` gives a list ordered by the key |
| Sorting.SortPermutes | beers/expression/variants_finder.py:88 | `sorted` gives a permutation of its input |
| Sorting.SortStable | beers/sequence/sequence_by_synthesis_step.py:10 | elements with the same key keep their input order |
| Sorting.SortOfSorted | beers/sequence/sequence_by_synthesis_step.py:10 | sorting a sorted list returns it unchanged |
| Sorting.InsertStable | beers/sequence/sequence_by_synthesis_step.py:10 | an inserted element goes behind the elements that share its key |
| Sorting.WithKeyAppend | beers/sequence/sequence_by_synthesis_step.py:10 | the elements with a given key of a concatenation are those of each part, in order |
| Molecules.FirstDisallowed | lib/beers/molecule.py:9 | the first position outside A, G, T, C, everything before it a nucleotide |
| Molecules.Molecule.constructor | lib/beers/molecule.py:11-15 | the sequence is stored stripped of surrounding whitespace; other fields as given |
| Molecules.Molecule.Validate | lib/beers/molecule.py:17-21 | false exactly when some base is not A, G, T or C |
| Molecules.TrailingARun | lib/beers/molecule.py:25-26 | the length of the maximal run of `A` ending the text |
| Molecules.ATailUnique | lib/beers/molecule.py:25-26 | a text has exactly one maximal trailing run of `A` |
| Molecules.Unterminated | lib/beers/molecule.py:25 | the text `$` anchors to: without one final newline, otherwise unchanged |
| Molecules.ATailMatchLength | lib/beers/molecule.py:25-26 | the length `re.search(r'(A+$)')` matches is the maximal trailing `A` run, 0 if none |
| Molecules.Molecule.PolyATailLength | lib/beers/molecule.py:24-26 | `poly_a_tail_length` is the maximal trailing `A` run of the sequence |
| Molecules.Molecule.Substitute | lib/beers/molecule.py:32-37 | fails the assertion exactly outside `-1..n-1`; else writes the substituted text and clears start and cigar |
| Molecules.SubstituteChangesOnePosition | lib/beers/molecule.py:35 | inside the molecule a one-letter substitution keeps the length and changes only that position |
| Molecules.SubstituteUndone | lib/beers/molecule.py:35 | substituting the original base back restores the sequence |
| Molecules.SubstituteAtMinusOne | lib/beers/molecule.py:34-35 | position −1 passes the assertion and yields `seq[:-1] + nt + seq` |
| Molecules.Inserted | lib/beers/molecule.py:39-55 | succeeds exactly for `-1 <= p <= n-1` |
| Molecules.Molecule.Insert | lib/beers/molecule.py:39-55 | sequence and cigar become those of `Inserted`; an out-of-range position fails and changes nothing |
| Molecules.InsertDescribed | lib/beers/molecule.py:42-55 | an insertion adds `k` bases and its descriptor covers the new sequence and spans the old |
| Molecules.Cigar2Ops | lib/beers/molecule.py:46 | a two-operation descriptor parses to its two operations with their lengths |
| Molecules.Cigar3Ops | lib/beers/molecule.py:54 | a three-operation descriptor parses to its three operations with their lengths |
| Molecules.Deleted | lib/beers/molecule.py:57-73 | as written: succeeds exactly for `-1 <= p <= n-1` and `d < n` |
| Molecules.DeleteAtStartMiscounts | lib/beers/molecule.py:63-65 | as written, a 5′ deletion leaves `n-d` bases but its descriptor covers `n` |
| Molecules.DeletedAsIntended | lib/beers/molecule.py:57-73 | the corrected delete succeeds under the same conditions |
| Molecules.DeletedAgreesAwayFromStart | lib/beers/molecule.py:66-73 | away from the 5′ end the corrected and the written delete agree |
| Molecules.DeleteAsIntendedDescribed | lib/beers/molecule.py:57-73 | an in-range deletion removes the `d` bases after `p` and its descriptor matches the result |
| Molecules.DeleteAsIntendedKeeps | lib/beers/molecule.py:65-73 | the kept text is `seq[:p+1] + seq[p+1+d:]` |
| Molecules.Molecule.Delete | lib/beers/molecule.py:57-73 | sequence and cigar become those of `delete` as written, `{d}D{n}M` at the 5′ end included; failed assertions change nothing |
| Molecules.InsertThenDelete | lib/beers/molecule.py:39-73 | deleting what was just inserted restores the sequence |
| Molecules.Molecule.Truncate | lib/beers/molecule.py:75-80 | keeps `seq[p+1:]`, moves start by `p+1` and writes `"{len}M"`; without a start it raises `TypeError` |
| Molecules.TruncateTwice | lib/beers/molecule.py:79 | truncating at `p` and then at `q` is truncating at `p+q+1` |
| Molecules.MatchDescriptor | lib/beers/molecule.py:80 | `"{n}M"` parses to one match of length `n` |
| Molecules.Molecule.MakeFragment | lib/beers/molecule.py:82-93 | fails exactly unless `s < e <= n`; else a new molecule for the slice, start `s`, cigar `"{e-s}M"`, a child id; the counter moves by 1 |
| Molecules.FragmentOfValid | lib/beers/molecule.py:84-91 | a fragment of a valid molecule is exactly the slice, and its descriptor describes it |
| Molecules.StripOfUnspaced | lib/beers/molecule.py:91 | stripping a text without whitespace changes nothing |
| Molecules.Molecule.NewId | lib/beers/molecule.py:110-113 | returns `"{parent}.{counter}"` and advances only the molecule counter, by one |
| Molecules.NewIdTextInjective | lib/beers/molecule.py:113 | identifiers from `new_id` determine the parent and the counter value |
| ClusterText.CalledLines | beers/cluster.py:136-137 | one `##` line per called sequence; `IndexError` exactly when the other lists are shorter |
| ClusterText.CountLines | beers/cluster.py:138-142 | one count line per position; `IndexError` exactly when a channel is shorter |
| ClusterText.RecordRoundTrip | beers/cluster.py:132-177 | reading a written record gives back every field; the id and the flag come back as text; it holds for records whose fields have no tab or newline and whose quality strings are non-empty and do not end in whitespace |
| ClusterText.EmptyQualityFails | beers/cluster.py:137-157 | a `##` line with an empty quality string loses its last tab to `rstrip` and raises `ValueError` when read back |
| ClusterText.ReadBackFlagTruthy | beers/cluster.py:163-164 | the strand flag read back is always truthy, even for `False` |
| ClusterText.HeaderParses | beers/cluster.py:133-134 | the header has six fields and the four integers parse back |
| ClusterText.CountLineFields | beers/cluster.py:170-174 | a count line splits into the four count texts |
| ClusterText.LineEffectRStrip | beers/cluster.py:147 | stripping the final line of the data does not change how it is read |
| ClusterText.WrittenEffectsApplied | beers/cluster.py:155-175 | reading the lines of a written record fills every field of the parse state |
| ClusterText.HeaderLineEffect | beers/cluster.py:161-164 | line 0 sets the six header fields |
| ClusterText.PlainLineEffect | beers/cluster.py:165-168 | lines 1 and 2 set the coordinates and the molecule text |
| ClusterText.CalledLineEffect | beers/cluster.py:156-160 | a `##` line appends one read-out to each called list |
| ClusterText.CountLineEffect | beers/cluster.py:169-174 | a count line appends one count to each channel |
| ClusterText.BuildOfFields | beers/cluster.py:175-177 | the cluster built from the fields read carries them as parsed integers |
| ClusterText.TextLinesOfTerminated | beers/cluster.py:147-155 | splitting the stripped record text gives the written lines back |
| Clusters.PositionCounts | beers/cluster.py:112-116 | four counts in G, A, T, C order, with Python index semantics and `IndexError` |
| Clusters.OneHotAt | beers/cluster.py:36-41 | a fresh cluster has, at each position, 1 in the base's channel and 0 elsewhere |
| Clusters.Top | beers/cluster.py:73 | the largest of the four counts |
| Clusters.Leader | beers/cluster.py:73 | the first channel holding the largest count |
| Clusters.Ties | beers/cluster.py:74-76 | how many channels hold the maximum; 1 exactly when the leader is unique |
| Clusters.PhredSearch | beers/cluster.py:82-83 | the largest quality value at most the cap for which the probability bound holds |
| Clusters.PhredSearchIsFloor | beers/cluster.py:82 | the found value is the floor: every value up to it holds, none above it |
| Clusters.QualityValue | beers/cluster.py:81-83 | the capped Phred floor, or `ValueError` when `chr` is given a negative code |
| Clusters.CallOne | beers/cluster.py:72-85 | a tie gives `('N', '!')`; a unique leader gives its letter and `J` when the others are 0; with a count of 0, Python integer counts raise `ZeroDivisionError`, and numpy counts raise `ValueError` (`nan`, or `-inf` whose logarithm fails) or `OverflowError` (`floor(-inf)`) |
| Clusters.ReadRangeShape | beers/cluster.py:68-86 | a read-out has one base and one quality per position, each the call at that position |
| Clusters.ReadRangeOk | beers/cluster.py:68-86 | a read-out succeeds exactly when every position's call does |
| Clusters.ReadRangeErr | beers/cluster.py:68-86 | a read-out fails only with `IndexError`, `ZeroDivisionError`, `OverflowError` or `ValueError` |
| Clusters.FreshRead | beers/cluster.py:36-41 | on a fresh cluster the read-out is the substring with non-ACGT as `N`, quality `J` or `!` |
| Clusters.FreshCall | beers/cluster.py:72-85 | on a fresh cluster each position calls its own base |
| Clusters.FreshCallZeroCount | beers/cluster.py:36-41 | a fresh cluster with molecule count 0 raises `ValueError` at every base, because its numpy counts give `0 / 0 = nan` |
| Clusters.FivePrimeReadShape | beers/cluster.py:88-94 | index over `[b0, b0+b1)` and template over `[len(adapter), len(adapter)+read_length)` |
| Clusters.ThreePrimeRead | beers/cluster.py:99-106 | the 3′ read never succeeds |
| Clusters.ThreePrimeReadFails | beers/cluster.py:100-106 | it fails with `AttributeError` exactly when both of its ranges read |
| Clusters.Cluster.New | beers/cluster.py:22-42 | a cluster with one-hot numpy counts unless counts are given, in which case they are Python integers; `UnicodeEncodeError` for non-ASCII |
| Clusters.Cluster.ReadOverRange | beers/cluster.py:68-86 | the loop computes the reference read-out of the range |
| Clusters.Cluster.ReadIn5PrimeDirection | beers/cluster.py:88-97 | appends one entry to each of the three lists, or fails and changes nothing |
| Clusters.Cluster.ReadIn3PrimeDirection | beers/cluster.py:99-110 | the 3′ read's outcome; the lists are not touched |
| Clusters.Cluster.Read | beers/cluster.py:58-66 | 5′ first when the strand flag is truthy, 3′ first otherwise; the second read only for paired ends |
| Clusters.Cluster.Serialize | beers/cluster.py:132-143 | the loops write the reference record text |
| Clusters.Cluster.WriteCalledLines | beers/cluster.py:136-137 | the loop writes the terminated `##` lines |
| Clusters.Cluster.WriteCountLines | beers/cluster.py:138-142 | the loop writes the terminated count lines |
| Clusters.Cluster.ReadRecord | beers/cluster.py:146-175 | the line loop computes the reference parse of the text |
| Clusters.Cluster.Deserialize | beers/cluster.py:146-177 | a new cluster from the parsed record, with Python integer counts, or the parse error |
| Clusters.CountLinesStop | beers/cluster.py:140 | a short channel makes the count lines fail with `IndexError` |
| Packets.ClusterPacket.constructor | beers/flowcell.py:112 | a packet with the given id, sample and clusters |
| Flowcells.MatchWrittenIdentifier | beers/flowcell.py:23 | a read name ending `:flowcell:lane:tile:x:y` matches with exactly those numbers |
| Flowcells.MatchOfFields | beers/flowcell.py:23 | the pattern takes the last five colon-separated fields |
| Flowcells.BeforeFinalNewline | beers/flowcell.py:23 | `$` accepts one final newline |
| Flowcells.FoundCoordinates | beers/flowcell.py:209-213 | one match result per header |
| Flowcells.FoldRangesStep | beers/flowcell.py:211-221 | a matching header widens each axis to include it; others change nothing |
| Flowcells.FoldRangesCover | beers/flowcell.py:214-222 | after the fold every matched header lies inside the ranges, which include the start |
| Flowcells.FoldRangesIgnore | beers/flowcell.py:211 | without matching headers the ranges stay as they were |
| Flowcells.FoldRangesAttained | beers/flowcell.py:214-221 | every bound is the start value or a value some header has |
| Flowcells.LaneRange | beers/flowcell.py:48 | `range(min_lane, max_lane + 1)` |
| Flowcells.LaneRangeMembers | beers/flowcell.py:48 | a lane is available exactly when it lies between the bounds |
| Flowcells.LanesMessage | beers/flowcell.py:67-68 | the lanes message is not empty |
| Flowcells.RetentionMessage | beers/flowcell.py:71-72 | the retention message is not empty |
| Flowcells.Draw | beers/flowcell.py:142-144 | a draw lies in the inclusive range; `ValueError` for an empty range |
| Flowcells.DrawReaches | beers/flowcell.py:142-144 | every value of the range can be drawn |
| Flowcells.Attempt | beers/flowcell.py:142-145 | one attempt gives coordinates inside the geometry |
| Flowcells.Search | beers/flowcell.py:139-154 | found coordinates are unconsumed and inside the geometry; errors are `ValueError` or the exhaustion exception |
| Flowcells.SearchEmptyRange | beers/flowcell.py:142-144 | the search fails with `ValueError` exactly when a range is empty |
| Flowcells.SearchExhausted | beers/flowcell.py:139-154 | the exhaustion exception exactly when 100 draws in a row are all consumed |
| Flowcells.FirstLane | beers/flowcell.py:146-148 | the first lane record of a lane |
| Flowcells.LaneIndex | beers/flowcell.py:100-107 | the lane of molecule `k` is below the lane count, and 0 with one lane |
| Flowcells.LaneIndexMonotone | beers/flowcell.py:100-107 | the lane index never decreases along the molecules |
| Flowcells.LaneIndexRange | beers/flowcell.py:100-107 | lane `j` takes the molecules with `j*m <= k+1 < (j+1)*m`; the last lane takes the rest |
| Flowcells.LaneAdvance | beers/flowcell.py:105-107 | the loop's increment agrees with the closed form |
| Flowcells.PlaceRecorded | beers/flowcell.py:149-151 | recording a placement keeps every lane's list the list of its placements |
| Flowcells.PlaceDistinct | beers/flowcell.py:149-152 | a fresh placement keeps the placements of each lane distinct |
| Flowcells.FreshLaneStates | beers/flowcell.py:50-53 | one empty lane record per lane to use |
| Flowcells.AdvanceLane | beers/flowcell.py:105-107 | the next lane index is `min(L-1, (counter+1) // m)` |
| Flowcells.Flowcell.constructor | beers/flowcell.py:25-54 | retention, geometry, available lanes, lanes to use and empty lane records as the code sets them |
| Flowcells.Flowcell.Validate | beers/flowcell.py:56-73 | valid exactly when the lanes are available and retention is accepted; the two messages concatenate |
| Flowcells.Flowcell.SetFlowcellCoordinateRanges | beers/flowcell.py:173-190 | given geometry is used as is; otherwise the headers are folded |
| Flowcells.Flowcell.GetCoordinateRanges | beers/flowcell.py:192-222 | the loop computes the fold of the header coordinates |
| Flowcells.Flowcell.NextCoordinates | beers/flowcell.py:129-154 | the search result is appended to the consumed list of the lane's first state (`Record`); a failed search changes no lane; an unknown lane is `KeyError` |
| Flowcells.Flowcell.DrawUnconsumed | beers/flowcell.py:139-154 | the retry loop computes the reference search |
| Flowcells.Flowcell.PlaceMolecule | beers/flowcell.py:108 | a new cluster for the molecule at fresh coordinates of its lane; that lane's first state gains exactly those coordinates; on every path the lanes only grow |
| Flowcells.Flowcell.AttachNext | beers/flowcell.py:103-111 | one step of the partition: cluster id, lane and placement as the loop sets them; the new lane states are the old ones with the new cluster's placement recorded, and lanes only grow |
| Flowcells.Flowcell.AttachAll | beers/flowcell.py:99-111 | one cluster per molecule, in order, with consecutive ids and the closed-form lane; the lane states after each cluster are those before it with its placement recorded, starting from the lanes before the call and ending at the lanes after it; on an error the lanes have only grown |
| Flowcells.Flowcell.ConvertMoleculePacket | beers/flowcell.py:85-112 | the packet counter moves by 1 and the cluster counter by N; fewer molecules than lanes divides by zero; on success the lanes become the old lanes with every cluster's placement recorded in order, those placements are recorded and distinct in each lane; on every path the lanes only grow |
| Flowcells.PlacedInMembers | beers/flowcell.py:146-151 | coordinates are placed in a lane exactly when some placement puts them there |
| Flowcells.RecordFirst | beers/flowcell.py:146-151 | recording coordinates appends them to the lane's first state and changes no other state; a lane without a state changes nothing |
| Flowcells.RecordAllAt | beers/flowcell.py:146-151 | recording placements appends to each lane's first state exactly that lane's coordinates, in order, and leaves every other state as it was |
| Flowcells.RecordAllExtends | beers/flowcell.py:146-151 | recording placements keeps the lanes and their order, and each consumed list only grows |
| Flowcells.HistoryReplays | beers/flowcell.py:103-111 | lane states recorded one cluster at a time end at the first states with all the clusters' placements recorded |
| Flowcells.RecordAllSound | beers/flowcell.py:146-151 | if every placement's lane has a state and no consumed list repeats coordinates afterwards, every placement is recorded and no two placements share coordinates in a lane |
| Flowcells.LanesHaveStates | beers/flowcell.py:99-111 | every cluster of the conversion sits in a lane that has a state |
| Flowcells.Converted | beers/flowcell.py:99-111 | the lane states after the conversion loop are the first states with every placement recorded, and those placements are recorded and distinct per lane |
| Flowcells.DistinctAcrossPackets | beers/flowcell.py:16-18 | the placements of an earlier conversion and of a later one together stay recorded and never share coordinates in a lane |
| VariantReads.LeadingClip | beers/expression/variants_finder.py:49 | the digit run of a leading `<n>S` or `<n>H` |
| VariantReads.TrailingDigitRun | beers/expression/variants_finder.py:50 | the digit run in front of the last character |
| VariantReads.RemoveClipsOfClipped | beers/expression/variants_finder.py:54-67 | both clips leave the cigar; only the leading one drops `n` bases of the sequence |
| VariantReads.RemoveClipsAround | beers/expression/variants_finder.py:54-67 | the same for any cigar body that starts `<digits><op>` and ends in an operation |
| VariantReads.LeadingClipOfClip | beers/expression/variants_finder.py:62-65 | a leading clip is found with its exact length |
| VariantReads.TrailingClipGoes | beers/expression/variants_finder.py:66 | a trailing clip is removed and nothing else |
| VariantReads.RemoveClipsUnclipped | beers/expression/variants_finder.py:54-67 | without clips, cigar and sequence come back unchanged |
| VariantReads.MatchFailsIffShort | beers/expression/variants_finder.py:162-171 | a match fails exactly when it runs past the read |
| VariantReads.MatchRecords | beers/expression/variants_finder.py:162-171 | an `M` of length L records one key per position with the read's base there |
| VariantReads.OpMoves | beers/expression/variants_finder.py:152-192 | how M, D, I and N move the two cursors and which keys they record |
| VariantReads.TallyCounts | beers/expression/variants_finder.py:136 | each key's count is the number of times it was produced |
| VariantReads.TallySnoc | beers/expression/variants_finder.py:166-168 | counting one more key bumps only that key |
| VariantReads.RecordMatch | beers/expression/variants_finder.py:162-171 | the inner loop counts the match keys and advances both cursors by L |
| VariantReads.RecordOp | beers/expression/variants_finder.py:153-192 | one operation counts its keys and moves the cursors |
| VariantReads.WalkOps | beers/expression/variants_finder.py:148-192 | the walk over a cigar counts all keys of the read |
| VariantReads.WalkRead | beers/expression/variants_finder.py:144-192 | clips removed, then the walk, starting at the read's start and base 1 |
| VariantReads.CollectReads | beers/expression/variants_finder.py:130-193 | the count of every key over all reads, or `IndexError` |
| VariantReads.WalkFailsByIndex | beers/expression/variants_finder.py:166 | a walk fails only by indexing past the read |
| Variants.HasVariantOf | beers/expression/variants_finder.py:307-316 | false exactly for one description equal to the reference base; `IndexError` when empty |
| Variants.PositionInfo.constructor | beers/expression/variants_finder.py:265-268 | a position with no reads |
| Variants.PositionInfo.AddRead | beers/expression/variants_finder.py:270-271 | appends one (description, count) pair |
| Variants.PositionInfo.TotalReads | beers/expression/variants_finder.py:273-274 | the sum of the counts, at least each count |
| Variants.PositionInfo.HasVariant | beers/expression/variants_finder.py:307-316 | true unless the only description is the reference base; `IndexError` without reads |
| Variants.SumCounts | beers/expression/variants_finder.py:274 | the total bounds every count |
| Variants.SumCountsAppend | beers/expression/variants_finder.py:274 | totals add up over concatenation |
| Variants.Groups | beers/expression/variants_finder.py:88-113 | one group per run of equal positions, none empty, the last at the last key's position |
| Variants.GroupsIncreasing | beers/expression/variants_finder.py:88-113 | grouping sorted keys gives strictly increasing positions |
| Variants.GroupEntries | beers/expression/variants_finder.py:98-113 | each group holds exactly the (description, count) pairs at its position |
| Variants.GroupOfKey | beers/expression/variants_finder.py:88-113 | every key's position has a group |
| Variants.KeyOfGroup | beers/expression/variants_finder.py:88-113 | every group's position has a key |
| Variants.SortKeepsCounted | beers/expression/variants_finder.py:88 | sorting the keys keeps them all counted |
| Variants.CalledFails | beers/expression/variants_finder.py:100 | calling fails with `IndexError` exactly when a position lies outside the reference |
| Variants.CalledKeeps | beers/expression/variants_finder.py:100-102 | a group is kept exactly when it has a variant |
| Variants.CalledIncreasing | beers/expression/variants_finder.py:88-119 | the kept groups stay in increasing order |
| Variants.CallVariantsFails | beers/expression/variants_finder.py:88-119 | `AttributeError` for no reads, `IndexError` exactly when a position is outside the reference |
| Variants.CallVariantsReports | beers/expression/variants_finder.py:88-119 | in increasing order, each result holds exactly its position's pairs and has a variant |
| Variants.CallVariantsComplete | beers/expression/variants_finder.py:98-119 | a read position is reported exactly when it has a variant |
| Variants.GatherVariants | beers/expression/variants_finder.py:79-119 | the loop over sorted keys builds exactly the called groups, as `PositionInfo` objects |
| Variants.CallVariants | beers/expression/variants_finder.py:69-128 | `call_variants` returns the reference result on the counted keys |
| Variants.FindVariants | beers/expression/variants_finder.py:195-196 | counting then calling |
| GenomeAlignment.Validate | beers/expression/genome_alignment.py:18-29 | true exactly when every key starts with `--` and none is reserved |
| GenomeAlignment.PathJoin | beers/expression/genome_alignment.py:48 | an absolute part replaces the path; otherwise the result ends with the part |
| GenomeAlignment.OptionsText | beers/expression/genome_alignment.py:58 | empty for no options; `"key value"` for one |
| GenomeAlignment.OptionsTextSnoc | beers/expression/genome_alignment.py:58 | one more option appends `" key value"` |
| GenomeAlignment.StarCommand | beers/expression/genome_alignment.py:59-65 | starts with the executable and output prefix, ends with `--readFilesIn` and the files |
| GenomeAlignment.OutputPrefix | beers/expression/genome_alignment.py:48 | the prefix ends with `genome_alignment.` |
| GenomeAlignment.Execute | beers/expression/genome_alignment.py:31-90 | the assertion and `lsf` errors exactly; a BAM input returned as is; else STAR's sorted BAM and the command |
| GenomeAlignment.BamFileName | beers/expression/genome_alignment.py:55 | the BAM path ends `genome_alignment.Aligned.sortedByCoord.out.bam` |
| GeneralUtils.BitLengthBound | beers/utilities/general_utils.py:17 | `bit_length() <= k` exactly when `|n| < 2^k` |
| GeneralUtils.GenerateSeed | beers/utilities/general_utils.py:14-19 | unchanged below 2^32, else the low 32 bits; a non-negative stamp gives a seed below 2^32 |
| GeneralUtils.LastIndex | beers/utilities/general_utils.py:25-27 | the last position of a molecule object in the list, −1 if absent |
| GeneralUtils.LastIndexOfDistinct | beers/utilities/general_utils.py:25-27 | in a list without repeats that is its own position |
| GeneralUtils.TakeNextId | beers/utilities/general_utils.py:26-27 | one molecule takes the counter and the counter moves on |
| GeneralUtils.Renumber | beers/utilities/general_utils.py:25-27 | consecutive ids from the counter, in list order; other fields unchanged |
| GeneralUtils.ResetMoleculeIds | beers/utilities/general_utils.py:21-29 | as `Renumber`; without repeats molecule `i` gets counter + `i` |
| PolyAGraphs.GetTailLength | lib/beers/PolyAStepGraphs.py:14-21 | at most the length, the maximal trailing `A` run, 0 when not ending in `A`, all of an all-`A` text |
| PolyAGraphs.TailLengthAgrees | lib/beers/PolyAStepGraphs.py:20-21 | agrees with `Molecule.poly_a_tail_length` |
| SequenceBySynthesis.ByCoordinates | beers/sequence/sequence_by_synthesis_step.py:10 | a stable sort by coordinates: permutation, ordered, equal coordinates in input order |
| SequenceBySynthesis.ByCoordinatesIdempotent | beers/sequence/sequence_by_synthesis_step.py:10 | sorting twice is sorting once |
| SequenceBySynthesis.SequenceBySynthesisStep.constructor | beers/sequence/sequence_by_synthesis_step.py:3-5 | keeps the log file path |
| SequenceBySynthesis.SequenceBySynthesisStep.Execute | beers/sequence/sequence_by_synthesis_step.py:7-11 | as written: `AttributeError` on a non-empty packet, the empty packet returned |
| SequenceBySynthesis.SequenceBySynthesisStep.ExecuteScored | beers/sequence/sequence_by_synthesis_step.py:7-11 | the packet's clusters become their stable sort by coordinates |
| SequenceBySynthesis.SequenceBySynthesisStep.Validate | beers/sequence/sequence_by_synthesis_step.py:13-14 | always true |

## Left out

- I/O everywhere is left out: FASTA/FASTQ/gzip reading, pickle files, log files, progress and error `print` calls, and `argparse` in `variants_finder.main`.
- The `subprocess` runs of STAR and `bsub`, the `bsub` command text, and `GenomeAlignmentStep.index` (`pysam.index`) are left out; the model returns the STAR command a run would use.
- The pysam read fetch and its filter (`is_unmapped`, `is_read1`, `NH`) are left out; reads are an already filtered list of (start, cigar, sequence).
- `generate_coordinates_from_alignment_file` is left out because it reads a pysam alignment file.
- `identify_retained_molecules` and `load_flowcell` are left out because they sample with numpy randomness and a float product; the cluster packet is built from the molecules given.
- `get_abundances`, `calculate_entropy`, the `__str__` methods and the entropy-sorted printing in `call_variants` are left out because they are floating point or stdout text.
- `Molecule.__len__`, `Molecule.__str__`, `Molecule.log_entry` and `longest_poly_a_stretch` (an empty stub) are left out as display helpers.
- `Cluster.assign_coordinates`, `set_forward_direction`, `generate_fasta_header` and `encode_sequence_identifier` are left out; they are single field writes or display text used only by FASTQ output.
- `LaneCoordinates`, `Molecule.serialize`/`deserialize` and the packet classes are not part of this model; their serialisations are texts and decoding functions passed in.
- `GeneralUtils.create_complement_strand` is not part of this model; the 3′ read fails before its result would be used.
- `compute_quality_score` is not defined on `Cluster`; its effect is not modelled (see Findings).
- `time.time()` is the `timestamp` parameter of `GenerateSeed`; the unpickled list is the `molecules` parameter of `ResetMoleculeIds`.
- `Flowcells.Flowcell.constructor`: `flowcell_retention` is kept as a `real`; the message text of `validate` renders lists and numbers through functions whose only stated property is that the message is not empty.
- `Clusters.QualityValue`: computes the exact floor of `-10 * log10(p)` rather than the floating-point value, so it may differ from Python at values where rounding of `log10` crosses an integer.
- Text.ParseInt: accepts surrounding whitespace, an optional sign and ASCII digits only; Python's `int()` also accepts other Unicode decimal digits and `_` between digits. The same holds for `\d` and `\w` in `Flowcells.MatchOfFields` and `VariantReads.TrailingDigitRun`, which the model reads as ASCII digits and ASCII word characters. Headers, cigars and serialised records are ASCII, so this does not change what is read from them.
- Numpy integer widths are not modelled: counts and coordinates are unbounded integers. Of numpy's arithmetic only the division by a zero molecule count is modelled (`Clusters.Arithmetic`).
- The pipelines (`library_prep_pipeline.py`, `expression_pipeline.py`), `fast_q.py`, the CAMPAREE step interface, its command-line entry point and the dash/pandas plotting code of `PolyAStepGraphs.py` are orchestration or display and are left out.

## Findings

| source | as written | input that shows it | evidently intended | confidence | as-written member | corrected member |
|---|---|---|---|---|---|---|
| lib/beers/molecule.py:63-65 | a 5′ deletion writes the descriptor `"{d}D{n}M"` with `n` the original length | `delete(2, -1)` on `"ACGTA"` leaves `"GTA"` (3 bases) with cigar `2D5M` (5 bases) | `"{d}D{n-d}M"`, counting the bases that remain, as the other branch does | not executed; high | Molecules.DeleteAtStartMiscounts | Molecules.DeleteAsIntendedDescribed |
| beers/sequence/sequence_by_synthesis_step.py:8-9 | calls `cluster.compute_quality_score()`, which `Cluster` does not define | any packet with one cluster raises `AttributeError` | score each cluster, then sort the packet by coordinates | not executed; medium | SequenceBySynthesis.SequenceBySynthesisStep.Execute | SequenceBySynthesis.SequenceBySynthesisStep.ExecuteScored |
