/** `GenomeAlignmentStep` (beers/expression/genome_alignment.py): the check
    of the user's STAR options and the paths and command line `execute`
    assembles. Running STAR is left to the caller: the model returns the
    command the step would hand to the shell. */
module GenomeAlignment {
  import opened Wrappers
  import opened Text

  /** The flags whose values the step sets itself. */
  const ReservedOptions: seq<string> :=
    ["--outFileNamePrefix", "--genomeDir", "--runMode", "--outSAMtype", "--readFilesIn"]

  /** `validate`: every option is a STAR flag (it starts with `--`) and none
      is reserved. The options are the parameter dictionary, in dictionary
      order, each value as the text an f-string gives it. */
  function Validate(options: seq<(string, string)>): (ok: bool)
    ensures ok <==> forall i :: 0 <= i < |options| ==>
                      StartsWith(options[i].0, "--") && options[i].0 !in ReservedOptions
  {
    if options == [] then true
    else if !StartsWith(options[0].0, "--") then false
    else if options[0].0 in ReservedOptions then false
    else
      var ok := Validate(options[1..]);
      assert forall i :: 1 <= i < |options| ==> options[i] == options[1..][i - 1];
      ok
  }

  /** `os.path.join(a, b)` on POSIX: an absolute `b` replaces `a`;
      otherwise a separator goes between unless `a` is empty or ends with
      one. */
  function PathJoin(a: string, b: string): (r: string)
    ensures StartsWith(b, "/") ==> r == b
    ensures !StartsWith(b, "/") ==> EndsWith(r, b)
  {
    if StartsWith(b, "/") then b
    else if a == [] || a[|a| - 1] == '/' then a + b
    else a + "/" + b
  }

  /** The `"key value"` texts joined by spaces (line 58). */
  function OptionsText(options: seq<(string, string)>): (r: string)
    ensures options == [] ==> r == ""
    ensures |options| == 1 ==> r == options[0].0 + " " + options[0].1
  {
    Join(seq(|options|, i requires 0 <= i < |options| => options[i].0 + " " + options[i].1), " ")
  }

  /** The options text of a longer dictionary extends that of its prefix. */
  lemma OptionsTextSnoc(options: seq<(string, string)>, key: string, value: string)
    requires options != []
    ensures OptionsText(options + [(key, value)]) == OptionsText(options) + " " + key + " " + value
  {
    var texts := seq(|options|, i requires 0 <= i < |options| => options[i].0 + " " + options[i].1);
    var more := options + [(key, value)];
    assert seq(|more|, i requires 0 <= i < |more| => more[i].0 + " " + more[i].1) == texts + [key + " " + value];
    JoinSnoc(texts, key + " " + value, " ");
  }

  /** The STAR command line (lines 59-65). */
  function StarCommand(starFilePath: string, outFilePrefix: string, starIndexPath: string, options: string,
                       readFiles: string): (r: string)
    ensures StartsWith(r, starFilePath + " --outFileNamePrefix " + outFilePrefix)
    ensures EndsWith(r, " --readFilesIn " + readFiles)
  {
    var head := starFilePath + " --outFileNamePrefix " + outFilePrefix;
    var tail := " --readFilesIn " + readFiles;
    var middle := " --genomeDir " + starIndexPath + " --runMode alignReads" + " --outSAMtype BAM SortedByCoordinate"
                  + " " + options;
    assert (head + middle + tail)[..|head|] == head;
    assert (head + middle + tail)[|head + middle + tail| - |tail|..] == tail;
    head + middle + tail
  }

  /** Where STAR writes its outputs for a sample (line 48). */
  function OutputPrefix(dataDirectory: string, sampleId: string): (p: string)
    ensures EndsWith(p, "genome_alignment.")
  {
    PathJoin(PathJoin(dataDirectory, "sample" + sampleId), "genome_alignment.")
  }

  /** The fields of a sample that the step reads. */
  datatype Sample = Sample(sampleId: string, sampleName: string, inputFilePaths: seq<string>)

  /** What `execute` produces: the BAM file later steps read, and the
      command it runs through the shell, if any. */
  datatype Alignment = Alignment(bamFile: string, command: Option<string>)

  /** `execute`: one or two input files; a BAM input is already aligned and
      is returned as it is; otherwise STAR is run in the serial and parallel
      modes, the `lsf` mode raises `NotImplementedError`, and any other mode
      runs nothing. Both return the path STAR writes its sorted BAM to. */
  function Execute(dataDirectory: string, logDirectory: string, options: seq<(string, string)>, sample: Sample,
                   referenceGenomePath: string, starFilePath: string, mode: string): (r: Result<Alignment>)
    ensures var paths := sample.inputFilePaths;
            r.Err? <==> !(1 <= |paths| <= 2) || (EndsWith(paths[0], "bam") && |paths| != 1)
                        || (!EndsWith(paths[0], "bam") && mode == "lsf")
    ensures r.Err? ==> r.error == AssertionError || r.error == NotImplementedError
    ensures 1 <= |sample.inputFilePaths| && EndsWith(sample.inputFilePaths[0], "bam") && r.Ok?
            ==> r.value == Alignment(sample.inputFilePaths[0], None)
    ensures r.Ok? && !EndsWith(sample.inputFilePaths[0], "bam") ==>
              var prefix := OutputPrefix(dataDirectory, sample.sampleId);
              r.value.bamFile == prefix + "Aligned.sortedByCoord.out.bam"
              && (r.value.command.Some? <==> mode == "serial" || mode == "parallel")
              && (r.value.command.Some? ==>
                    StartsWith(r.value.command.value, starFilePath + " --outFileNamePrefix " + prefix)
                    && EndsWith(r.value.command.value, " --readFilesIn " + Join(sample.inputFilePaths, " ")))
  {
    var paths := sample.inputFilePaths;
    if !(1 <= |paths| <= 2) then Err(AssertionError)
    else if EndsWith(paths[0], "bam") then
      if |paths| != 1 then Err(AssertionError) else Ok(Alignment(paths[0], None))
    else
      var outFilePrefix := OutputPrefix(dataDirectory, sample.sampleId);
      var bamOutputFile := outFilePrefix + "Aligned.sortedByCoord.out.bam";
      var command := StarCommand(starFilePath, outFilePrefix, PathJoin(referenceGenomePath, "genome"),
                                 OptionsText(options), Join(paths, " "));
      if mode == "serial" || mode == "parallel" then Ok(Alignment(bamOutputFile, Some(command)))
      else if mode == "lsf" then Err(NotImplementedError)
      else Ok(Alignment(bamOutputFile, None))
  }

  /** A common suffix carries over to longer texts. */
  lemma EndsWithExtended(p: string, q: string, t: string)
    requires EndsWith(p, q)
    ensures EndsWith(p + t, q + t)
  {
    var a := p + t;
    assert a[|a| - |q + t|..] == p[|p| - |q|..] + t;
  }

  /** The BAM file of an aligned sample is STAR's coordinate-sorted output. */
  lemma BamFileName(dataDirectory: string, sampleId: string)
    ensures EndsWith(OutputPrefix(dataDirectory, sampleId) + "Aligned.sortedByCoord.out.bam",
                     "genome_alignment." + "Aligned.sortedByCoord.out.bam")
  {
    EndsWithExtended(OutputPrefix(dataDirectory, sampleId), "genome_alignment.", "Aligned.sortedByCoord.out.bam");
  }
}
