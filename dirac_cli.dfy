/** The command-line front end of the time-stretcher: the output-path builder, the pull
    callback that fans one request out to several AIFF files, the per-file setup in `main`,
    the `-f` file list with its cap, the write demultiplexing and the stop rule of the
    processing loop. The AIFF reader and writer and the Dirac engine are collaborators
    whose effects are parameters. */
module DiracCli {
  import opened Buffers

  /** Most input files the command line accepts. */
  const MAX_NUM_FILES: nat := 16

  /** Prefix put in front of every output file name. */
  const OUTPUT_PREFIX: string := "processed-"


  // ---------------------------------------------------------------------------------------
  // createOutputFilePath

  /** Both the Unix and the Windows path separator end a directory. */
  predicate IsSeparator(ch: char)
  {
    ch == '/' || ch == '\\'
  }

  /** Length of the directory part of `path`: everything up to and including its last
      separator, 0 when it has none. */
  function DirectoryLength(path: string): (k: nat)
    ensures k <= |path|
    ensures k > 0 ==> IsSeparator(path[k - 1])
    ensures forall j :: k <= j < |path| ==> !IsSeparator(path[j])
  {
    if path == [] then 0
    else if IsSeparator(path[|path| - 1]) then |path|
    else DirectoryLength(path[..|path| - 1])
  }

  /** The directory part is the only split with those properties: a cut that ends on a
      separator (or is at 0) with no separator after it is DirectoryLength. */
  lemma LastSeparatorUnique(path: string, k: nat)
    requires k <= |path|
    requires k > 0 ==> IsSeparator(path[k - 1])
    requires forall j :: k <= j < |path| ==> !IsSeparator(path[j])
    ensures k == DirectoryLength(path)
  {
  }

  /** The output path for `inPath`: its directory, then the prefix, then its file name. */
  function OutputFilePath(inPath: string, prefix: string): (r: string)
    ensures |r| == |inPath| + |prefix|
  {
    inPath[..DirectoryLength(inPath)] + prefix + inPath[DirectoryLength(inPath)..]
  }

  /** Taking the prefix back out of an output path gives the input path, and the prefix sits
      right after the input's directory. */
  lemma OutputFilePathInverse(inPath: string, prefix: string)
    ensures DirectoryLength(inPath) + |prefix| <= |OutputFilePath(inPath, prefix)|
    ensures OutputFilePath(inPath, prefix)[DirectoryLength(inPath)..DirectoryLength(inPath) + |prefix|] == prefix
    ensures OutputFilePath(inPath, prefix)[..DirectoryLength(inPath)]
          + OutputFilePath(inPath, prefix)[DirectoryLength(inPath) + |prefix|..] == inPath
  {
    var d := DirectoryLength(inPath);
    var r := OutputFilePath(inPath, prefix);
    assert r[..d] == inPath[..d];
    assert r[d..d + |prefix|] == prefix;
    assert r[d + |prefix|..] == inPath[d..];
    assert inPath[..d] + inPath[d..] == inPath;
  }

  /** A path without any separator is a bare file name: the prefix goes in front. */
  lemma OutputFilePathNoSeparator(inPath: string, prefix: string)
    requires forall j :: 0 <= j < |inPath| ==> !IsSeparator(inPath[j])
    ensures OutputFilePath(inPath, prefix) == prefix + inPath
  {
    LastSeparatorUnique(inPath, 0);
  }

  /** A path ending in a separator has an empty file name: the prefix goes at the end. */
  lemma OutputFilePathTrailingSeparator(inPath: string, prefix: string)
    requires |inPath| > 0 && IsSeparator(inPath[|inPath| - 1])
    ensures OutputFilePath(inPath, prefix) == inPath + prefix
  {
    LastSeparatorUnique(inPath, |inPath|);
  }

  /** With a separator-free prefix the output lies in the input's directory and its file name
      is the prefix followed by the input's file name; in particular the later of two
      separators decides where the prefix goes. */
  lemma OutputFilePathSameDirectory(inPath: string, prefix: string)
    requires forall j :: 0 <= j < |prefix| ==> !IsSeparator(prefix[j])
    ensures DirectoryLength(OutputFilePath(inPath, prefix)) == DirectoryLength(inPath)
    ensures OutputFilePath(inPath, prefix)[DirectoryLength(inPath)..] == prefix + inPath[DirectoryLength(inPath)..]
  {
    var d := DirectoryLength(inPath);
    var r := OutputFilePath(inPath, prefix);
    assert r == inPath[..d] + (prefix + inPath[d..]);
    forall j | d <= j < |r|
      ensures !IsSeparator(r[j])
    {
      if j < d + |prefix| {
        assert r[j] == prefix[j - d];
      } else {
        assert r[j] == inPath[j - |prefix|];
      }
    }
    if d > 0 {
      assert r[d - 1] == inPath[d - 1];
    }
    LastSeparatorUnique(r, d);
  }

  /** memmove of `src` into `dst` starting at index `at`, element by element. */
  method CopyInto<T>(dst: array<T>, at: nat, src: seq<T>)
    requires at + |src| <= dst.Length
    modifies dst
    ensures dst[..] == Overwrite(old(dst[..]), at, src)
  {
    OverwriteEmpty(dst[..], at);
    var i := 0;
    while i < |src|
      invariant 0 <= i <= |src|
      invariant dst[..] == Overwrite(old(dst[..]), at, src[..i])
    {
      OverwriteSnoc(old(dst[..]), at, src[..i], src[i]);
      assert src[..i + 1] == src[..i] + [src[i]];
      dst[at + i] := src[i];
      i := i + 1;
    }
    assert src[..i] == src;
  }

  /** createOutputFilePath: scans back from the end for the last separator, copies the
      directory and the file name into buffers of their own (none when empty), and assembles
      directory, prefix and file name in a fresh buffer. */
  method CreateOutputFilePath(inPath: string, prefix: string) returns (outFilePath: string)
    ensures outFilePath == OutputFilePath(inPath, prefix)
  {
    var lastSeparator: int := |inPath| - 1;
    while lastSeparator >= 0 && !IsSeparator(inPath[lastSeparator])
      invariant -1 <= lastSeparator < |inPath|
      invariant forall j :: lastSeparator < j < |inPath| ==> !IsSeparator(inPath[j])
      decreases lastSeparator + 1
    {
      lastSeparator := lastSeparator - 1;
    }
    lastSeparator := lastSeparator + 1;
    LastSeparatorUnique(inPath, lastSeparator);
    var pathToDirectory := NewPiece(inPath[..lastSeparator]);
    var fileName := NewPiece(inPath[lastSeparator..]);
    outFilePath := JoinPieces(pathToDirectory, prefix, fileName);
  }

  /** The text a piece buffer holds: nothing for a null buffer. */
  function PieceText(piece: array?<char>): string
    reads piece
  {
    if piece == null then [] else piece[..]
  }

  /** A buffer of its own holding `text`, or null when `text` is empty (the directory and
      file-name buffers). */
  method NewPiece(text: string) returns (piece: array?<char>)
    ensures piece == null <==> text == []
    ensures piece != null ==> fresh(piece) && piece[..] == text
  {
    piece := null;
    if |text| != 0 {
      piece := new char[|text|](_ => '\0');
      OverwriteWhole(piece[..], text);
      CopyInto(piece, 0, text);
    }
  }

  /** The assembly step: the directory, then the prefix, then the file name, each copied
      after the previous one into a fresh buffer sized for all three. */
  method JoinPieces(pathToDirectory: array?<char>, prefix: string, fileName: array?<char>) returns (outFilePath: string)
    ensures outFilePath == PieceText(pathToDirectory) + prefix + PieceText(fileName)
  {
    var outPathLength := 0;
    if pathToDirectory != null {
      outPathLength := outPathLength + pathToDirectory.Length;
    }
    if fileName != null {
      outPathLength := outPathLength + fileName.Length;
    }
    var out := new char[outPathLength + |prefix|](_ => '\0');
    ghost var blank := out[..];
    var dest := 0;
    if pathToDirectory != null {
      CopyInto(out, dest, pathToDirectory[..]);
      dest := dest + pathToDirectory.Length;
    } else {
      OverwriteEmpty(blank, 0);
    }
    CopyInto(out, dest, prefix);
    dest := dest + |prefix|;
    if fileName != null {
      CopyInto(out, dest, fileName[..]);
      dest := dest + fileName.Length;
    } else {
      OverwriteEmpty(out[..], dest);
    }
    OverwriteThree(blank, PieceText(pathToDirectory), prefix, PieceText(fileName));
    outFilePath := out[..];
  }

  // ---------------------------------------------------------------------------------------
  // myReadData: one pull request fanned out to every input file

  /** The AIFF reader, as seen through one channel buffer: the frames that channel `channel`
      of the named file holds from frame `start` on, for a request of `numFrames` frames. */
  type ChannelReader = (string, nat, nat, nat) -> seq<real>

  /** The channel buffers one read of a file with `numChannels` channels fills, in order. */
  function FileChannels(read: ChannelReader, fileName: string, numChannels: nat, start: nat, numFrames: nat): (r: seq<seq<real>>)
    ensures |r| == numChannels
  {
    seq(numChannels, (j: nat) => read(fileName, j, start, numFrames))
  }

  /** First channel of file `v` in the caller's channel array: the channels of the files before
      it, in declaration order, accumulated as the source's `channel` counter does. */
  function ChannelOffset(counts: seq<nat>, v: nat): (c: nat)
    requires v <= |counts|
    ensures v > 0 ==> counts[v - 1] <= c
  {
    if v == 0 then 0 else ChannelOffset(counts, v - 1) + counts[v - 1]
  }

  /** The offset of file `v` is the sum of the channel counts before it, so the offset past the
      last file is the channel total the setup computes. */
  lemma {:induction false} ChannelOffsetIsSum(counts: seq<nat>, v: nat)
    requires v <= |counts|
    ensures ChannelOffset(counts, v) == SumOf(counts[..v])
  {
    if v > 0 {
      ChannelOffsetIsSum(counts, v - 1);
      SumOfTake(counts, v - 1);
    }
  }

  /** Reference for the channel array after the first `v` files have been read at `start`:
      file `u` fills the `counts[u]` channels from ChannelOffset(counts, u) on. */
  function Multiplexed(before: seq<seq<real>>, fileNames: seq<string>, counts: seq<nat>, read: ChannelReader,
                       start: nat, numFrames: nat, v: nat): (r: seq<seq<real>>)
    requires v <= |fileNames| && v <= |counts|
    ensures |r| == |before|
  {
    if v == 0 then before
    else Overwrite(Multiplexed(before, fileNames, counts, read, start, numFrames, v - 1),
                   ChannelOffset(counts, v - 1), FileChannels(read, fileNames[v - 1], counts[v - 1], start, numFrames))
  }

  /** Reading one more file writes its channels over its slice of what the earlier files
      left. */
  lemma MultiplexedNext(before: seq<seq<real>>, fileNames: seq<string>, counts: seq<nat>, read: ChannelReader,
                        start: nat, numFrames: nat, v: nat)
    requires v < |fileNames| && v < |counts|
    ensures Multiplexed(before, fileNames, counts, read, start, numFrames, v + 1)
         == Overwrite(Multiplexed(before, fileNames, counts, read, start, numFrames, v),
                      ChannelOffset(counts, v), FileChannels(read, fileNames[v], counts[v], start, numFrames))
  {
  }

  /** The files' channel slices come in declaration order and do not overlap: file `v` ends
      at or before file `w` starts. */
  lemma {:induction false} SlicesOrdered(counts: seq<nat>, v: nat, w: nat)
    requires v < w <= |counts|
    ensures ChannelOffset(counts, v) + counts[v] <= ChannelOffset(counts, w)
    decreases w
  {
    if v + 1 < w {
      SlicesOrdered(counts, v, w - 1);
    }
  }

  /** The slices leave no gap: file `v + 1` starts right where file `v` ends. */
  lemma SlicesAdjacent(counts: seq<nat>, v: nat)
    requires v < |counts|
    ensures ChannelOffset(counts, v + 1) == ChannelOffset(counts, v) + counts[v]
  {
  }

  /** The slices cover every channel below the total: each such channel belongs to a file. */
  lemma {:induction false} SlicesCover(counts: seq<nat>, numFiles: nat, channel: nat)
    requires numFiles <= |counts| && channel < ChannelOffset(counts, numFiles)
    ensures exists v :: 0 <= v < numFiles && ChannelOffset(counts, v) <= channel < ChannelOffset(counts, v) + counts[v]
  {
    if numFiles > 0 {
      SlicesAdjacent(counts, numFiles - 1);
      if channel < ChannelOffset(counts, numFiles - 1) {
        SlicesCover(counts, numFiles - 1, channel);
      }
    }
  }

  /** After the first `numFiles` files are read, the slice of file `v` holds exactly the
      channels the reader gives for that file at the shared start frame: later files never
      overwrite an earlier file's slice. */
  lemma {:induction false} MultiplexedSlice(before: seq<seq<real>>, fileNames: seq<string>, counts: seq<nat>,
                                            read: ChannelReader, start: nat, numFrames: nat, numFiles: nat, v: nat)
    requires numFiles <= |fileNames| && numFiles <= |counts| && ChannelOffset(counts, numFiles) <= |before|
    requires v < numFiles
    ensures ChannelOffset(counts, v) + counts[v] <= |before|
    ensures Multiplexed(before, fileNames, counts, read, start, numFrames, numFiles)
              [ChannelOffset(counts, v)..ChannelOffset(counts, v) + counts[v]]
         == FileChannels(read, fileNames[v], counts[v], start, numFrames)
    decreases numFiles
  {
    SlicesOrdered(counts, v, numFiles);
    if v == numFiles - 1 {
      MultiplexedLastFile(before, fileNames, counts, read, start, numFrames, numFiles, v);
    } else {
      SlicesOrdered(counts, v, numFiles - 1);
      MultiplexedSlice(before, fileNames, counts, read, start, numFrames, numFiles - 1, v);
      MultiplexedKeepsSlice(before, fileNames, counts, read, start, numFrames, numFiles, v);
    }
  }

  /** The last file read fills its own slice. */
  lemma MultiplexedLastFile(before: seq<seq<real>>, fileNames: seq<string>, counts: seq<nat>,
                            read: ChannelReader, start: nat, numFrames: nat, numFiles: nat, v: nat)
    requires v + 1 == numFiles <= |fileNames| && numFiles <= |counts| && ChannelOffset(counts, numFiles) <= |before|
    ensures ChannelOffset(counts, v) + counts[v] <= |before|
    ensures Multiplexed(before, fileNames, counts, read, start, numFrames, numFiles)
              [ChannelOffset(counts, v)..ChannelOffset(counts, v) + counts[v]]
         == FileChannels(read, fileNames[v], counts[v], start, numFrames)
  {
    SlicesAdjacent(counts, v);
  }

  /** Reading the last file leaves the slice of an earlier file as it was. */
  lemma MultiplexedKeepsSlice(before: seq<seq<real>>, fileNames: seq<string>, counts: seq<nat>,
                              read: ChannelReader, start: nat, numFrames: nat, numFiles: nat, v: nat)
    requires v + 1 < numFiles <= |fileNames| && numFiles <= |counts|
    requires ChannelOffset(counts, v) + counts[v] <= ChannelOffset(counts, numFiles - 1) <= |before|
    requires Multiplexed(before, fileNames, counts, read, start, numFrames, numFiles - 1)
               [ChannelOffset(counts, v)..ChannelOffset(counts, v) + counts[v]]
          == FileChannels(read, fileNames[v], counts[v], start, numFrames)
    ensures Multiplexed(before, fileNames, counts, read, start, numFrames, numFiles)
              [ChannelOffset(counts, v)..ChannelOffset(counts, v) + counts[v]]
         == FileChannels(read, fileNames[v], counts[v], start, numFrames)
  {
    OverwriteLeavesBefore(Multiplexed(before, fileNames, counts, read, start, numFrames, numFiles - 1),
                          ChannelOffset(counts, numFiles - 1),
                          FileChannels(read, fileNames[numFiles - 1], counts[numFiles - 1], start, numFrames),
                          ChannelOffset(counts, v), ChannelOffset(counts, v) + counts[v]);
  }

  /** Channel `j` of file `v` holds what the reader gives for that file and channel at the
      shared start frame. */
  lemma MultiplexedChannel(before: seq<seq<real>>, fileNames: seq<string>, counts: seq<nat>,
                           read: ChannelReader, start: nat, numFrames: nat, numFiles: nat, v: nat, j: nat)
    requires numFiles <= |fileNames| && numFiles <= |counts| && ChannelOffset(counts, numFiles) <= |before|
    requires v < numFiles && j < counts[v]
    ensures ChannelOffset(counts, v) + j < |before|
    ensures Multiplexed(before, fileNames, counts, read, start, numFrames, numFiles)[ChannelOffset(counts, v) + j]
         == read(fileNames[v], j, start, numFrames)
  {
    MultiplexedSlice(before, fileNames, counts, read, start, numFrames, numFiles, v);
    var m := Multiplexed(before, fileNames, counts, read, start, numFrames, numFiles);
    var c := ChannelOffset(counts, v);
    var slice := m[c..c + counts[v]];
    assert slice == FileChannels(read, fileNames[v], counts[v], start, numFrames);
    assert slice[j] == m[c + j];
  }

  /** Channels past the files' slices keep what they held. */
  lemma {:induction false} MultiplexedBeyond(before: seq<seq<real>>, fileNames: seq<string>, counts: seq<nat>,
                                             read: ChannelReader, start: nat, numFrames: nat,
                                             numFiles: nat, channel: nat)
    requires numFiles <= |fileNames| && numFiles <= |counts|
    requires ChannelOffset(counts, numFiles) <= channel < |before|
    ensures Multiplexed(before, fileNames, counts, read, start, numFrames, numFiles)[channel] == before[channel]
    decreases numFiles
  {
    if numFiles > 0 {
      SlicesAdjacent(counts, numFiles - 1);
      MultiplexedBeyond(before, fileNames, counts, read, start, numFrames, numFiles - 1, channel);
    }
  }

  /** The state myReadData reaches through its user-data pointer. Only the read cursor
      changes after setup. */
  class MultiFileState {
    var readPosition: nat
    const maxFrames: nat
    const totalNumChannels: nat
    const numFiles: nat
    const inFileNumChannels: seq<nat>
    const inFileNames: seq<string>
    const outFileNames: seq<string>

    /** The per-file tables cover every file, and the channel total is their sum. */
    predicate Valid()
    {
      numFiles <= |inFileNumChannels| && numFiles <= |inFileNames| && numFiles <= |outFileNames|
      && totalNumChannels == ChannelOffset(inFileNumChannels, numFiles)
    }

    /** The state as `main` fills it in before creating the engine: cursor at frame 0. */
    constructor (maxFrames: nat, inFileNumChannels: seq<nat>, inFileNames: seq<string>, outFileNames: seq<string>)
      requires |inFileNames| <= |inFileNumChannels| && |inFileNames| <= |outFileNames|
      ensures Valid()
      ensures this.readPosition == 0 && this.maxFrames == maxFrames && this.numFiles == |inFileNames|
      ensures this.inFileNumChannels == inFileNumChannels && this.inFileNames == inFileNames
      ensures this.outFileNames == outFileNames
      ensures this.totalNumChannels == ChannelOffset(inFileNumChannels, |inFileNames|)
    {
      this.readPosition := 0;
      this.maxFrames := maxFrames;
      this.totalNumChannels := ChannelOffset(inFileNumChannels, |inFileNames|);
      this.numFiles := |inFileNames|;
      this.inFileNumChannels := inFileNumChannels;
      this.inFileNames := inFileNames;
      this.outFileNames := outFileNames;
    }
  }

  /** The loop of myReadData: each file in turn is read at the shared cursor into the
      channel array from the channel after the previous file's on. */
  method ReadFiles(chdata: array<seq<real>>, fileNames: seq<string>, counts: seq<nat>, numFiles: nat,
                   read: ChannelReader, start: nat, numFrames: nat)
    requires numFiles <= |fileNames| && numFiles <= |counts| && ChannelOffset(counts, numFiles) <= chdata.Length
    modifies chdata
    ensures chdata[..] == Multiplexed(old(chdata[..]), fileNames, counts, read, start, numFrames, numFiles)
  {
    ghost var before := chdata[..];
    var channel := 0;
    var v := 0;
    while v < numFiles
      invariant 0 <= v <= numFiles
      invariant channel == ChannelOffset(counts, v) <= chdata.Length
      invariant chdata[..] == Multiplexed(before, fileNames, counts, read, start, numFrames, v)
    {
      SlicesAdjacent(counts, v);
      if v + 1 < numFiles {
        SlicesOrdered(counts, v + 1, numFiles);
      }
      CopyInto(chdata, channel, FileChannels(read, fileNames[v], counts[v], start, numFrames));
      MultiplexedNext(before, fileNames, counts, read, start, numFrames, v);
      channel := channel + counts[v];
      v := v + 1;
    }
  }

  /** myReadData: with a channel array and a state, reads every file at the shared cursor into
      its slice of the channel array, advances the cursor once by the request and returns the
      request size whatever the reads did; with either pointer null it returns 0 and changes
      nothing. */
  method MyReadData(chdata: array?<seq<real>>, numFrames: nat, state: MultiFileState?, read: ChannelReader)
    returns (res: int)
    requires state != null ==> state.Valid()
    requires chdata != null && state != null ==> state.totalNumChannels <= chdata.Length
    modifies chdata, state
    ensures chdata == null || state == null ==> res == 0
    ensures chdata != null && (state == null) ==> chdata[..] == old(chdata[..])
    ensures state != null && (chdata == null) ==> state.readPosition == old(state.readPosition)
    ensures chdata != null && state != null ==>
              res == numFrames
              && state.readPosition == old(state.readPosition) + numFrames
              && chdata[..] == Multiplexed(old(chdata[..]), state.inFileNames, state.inFileNumChannels, read,
                                           old(state.readPosition), numFrames, state.numFiles)
  {
    if chdata == null {
      return 0;
    }
    res := numFrames;
    if state == null {
      return 0;
    }
    ReadFiles(chdata, state.inFileNames, state.inFileNumChannels, state.numFiles, read, state.readPosition, numFrames);
    state.readPosition := state.readPosition + numFrames;
  }

  // ---------------------------------------------------------------------------------------
  // main: the -f file list, the per-file setup, the write demultiplexing and the stop rule

  /** A command-line argument that starts with '-' is an option; anything else (an empty
      argument included) is a file name. */
  predicate IsOption(arg: string)
  {
    |arg| > 0 && arg[0] == '-'
  }

  /** Number of file names that follow index `i` on the command line before the next option
      or the end. */
  function FileRun(argv: seq<string>, i: nat): (n: nat)
    requires i <= |argv|
    ensures i + n <= |argv|
    ensures forall k :: i <= k < i + n ==> !IsOption(argv[k])
    ensures i + n < |argv| ==> IsOption(argv[i + n])
    decreases |argv| - i
  {
    if i == |argv| || IsOption(argv[i]) then 0 else 1 + FileRun(argv, i + 1)
  }

  /** The smaller of two counts. */
  function Min(a: nat, b: nat): nat
  {
    if a <= b then a else b
  }

  /** The `-f` case of the option loop: collects the file names from `start` on into the
      table, stopping at the next option or once the table holds MAX_NUM_FILES names.
      `next` is the index the option loop examines next: the first argument after the names,
      or, when the cap is hit, the last name taken, which ends the option loop because it is
      not an option. */
  method CollectFileNames(argv: seq<string>, start: nat, inFileNames: seq<string>)
    returns (names: seq<string>, next: nat)
    requires start <= |argv| && |inFileNames| < MAX_NUM_FILES
    ensures |names| <= MAX_NUM_FILES
    ensures names == inFileNames + argv[start..start + Min(FileRun(argv, start), MAX_NUM_FILES - |inFileNames|)]
    ensures |names| < MAX_NUM_FILES ==> next == start + FileRun(argv, start)
    ensures |names| == MAX_NUM_FILES ==> next + 1 == start + MAX_NUM_FILES - |inFileNames| && next < |argv| && !IsOption(argv[next])
  {
    names := inFileNames;
    var i := start;
    while i < |argv| && !IsOption(argv[i])
      invariant start <= i <= |argv|
      invariant names == inFileNames + argv[start..i]
      invariant |names| < MAX_NUM_FILES
      invariant FileRun(argv, start) == i - start + FileRun(argv, i)
      decreases |argv| - i
    {
      assert argv[start..i + 1] == argv[start..i] + [argv[i]];
      names := names + [argv[i]];
      if |names| >= MAX_NUM_FILES {
        break;
      }
      i := i + 1;
    }
    next := i;
  }

  /** What the AIFF header calls report for one input file. */
  datatype FileInfo = FileInfo(sampleRate: real, numChannels: nat, numFrames: nat)

  /** Outcome of the per-file setup in `main`. */
  datatype Setup =
    | NoInputFiles
    | InvalidFile(index: nat)
    | Ready(numChannels: nat, fileChannelCounts: seq<nat>, maxFrames: nat, outFileNames: seq<string>)

  /** A file is usable when its sample rate is positive. */
  predicate IsValidFile(info: FileInfo)
  {
    info.sampleRate > 0.0
  }

  /** The frame counts of the named files, in order. */
  function FrameCounts(inFileNames: seq<string>, info: string -> FileInfo): (r: seq<nat>)
    ensures |r| == |inFileNames|
  {
    seq(|inFileNames|, (u: nat) requires u < |inFileNames| => info(inFileNames[u]).numFrames)
  }

  /** The per-file setup of `main`: no names means there is nothing to do; otherwise the files
      are checked in order and the first invalid one aborts; when all are valid, the channel
      counts are summed, the longest frame count is kept, and each file gets its output path. */
  method PrepareFiles(inFileNames: seq<string>, info: string -> FileInfo) returns (r: Setup)
    ensures r.NoInputFiles? <==> |inFileNames| == 0
    ensures r.InvalidFile? ==> r.index < |inFileNames| && !IsValidFile(info(inFileNames[r.index]))
                               && forall u :: 0 <= u < r.index ==> IsValidFile(info(inFileNames[u]))
    ensures r.Ready? <==> |inFileNames| > 0 && forall u :: 0 <= u < |inFileNames| ==> IsValidFile(info(inFileNames[u]))
    ensures r.Ready? ==>
              |r.fileChannelCounts| == |inFileNames| && |r.outFileNames| == |inFileNames|
              && (forall u :: 0 <= u < |inFileNames| ==> r.fileChannelCounts[u] == info(inFileNames[u]).numChannels)
              && r.numChannels == SumOf(r.fileChannelCounts)
              && r.maxFrames == MaxOf(FrameCounts(inFileNames, info))
              && (forall u :: 0 <= u < |inFileNames| ==> r.outFileNames[u] == OutputFilePath(inFileNames[u], OUTPUT_PREFIX))
  {
    if |inFileNames| == 0 {
      return NoInputFiles;
    }
    var numChannels := 0;
    var maxFrames := 0;
    var fileChannelCounts: seq<nat> := [];
    var outFileNames: seq<string> := [];
    var v := 0;
    while v < |inFileNames|
      invariant 0 <= v <= |inFileNames|
      invariant |fileChannelCounts| == v && |outFileNames| == v
      invariant forall u :: 0 <= u < v ==> IsValidFile(info(inFileNames[u]))
      invariant forall u :: 0 <= u < v ==> fileChannelCounts[u] == info(inFileNames[u]).numChannels
      invariant forall u :: 0 <= u < v ==> outFileNames[u] == OutputFilePath(inFileNames[u], OUTPUT_PREFIX)
      invariant numChannels == SumOf(fileChannelCounts)
      invariant maxFrames == MaxOf(FrameCounts(inFileNames[..v], info))
    {
      var file := info(inFileNames[v]);
      if IsValidFile(file) {
        SumOfSnoc(fileChannelCounts, file.numChannels);
        fileChannelCounts := fileChannelCounts + [file.numChannels];
        numChannels := numChannels + file.numChannels;
        assert FrameCounts(inFileNames[..v + 1], info) == FrameCounts(inFileNames[..v], info) + [file.numFrames];
        MaxOfSnoc(FrameCounts(inFileNames[..v], info), file.numFrames);
        if file.numFrames > maxFrames {
          maxFrames := file.numFrames;
        }
        var outName := CreateOutputFilePath(inFileNames[v], OUTPUT_PREFIX);
        outFileNames := outFileNames + [outName];
      } else {
        return InvalidFile(v);
      }
      v := v + 1;
    }
    assert inFileNames[..v] == inFileNames;
    r := Ready(numChannels, fileChannelCounts, maxFrames, outFileNames);
  }

  /** The longest file decides how far the processing runs: every file's frame count is at
      most maxFrames, and maxFrames is the frame count of one of the files. */
  lemma MaxFramesBound(inFileNames: seq<string>, info: string -> FileInfo)
    requires |inFileNames| > 0
    ensures forall u :: 0 <= u < |inFileNames| ==> info(inFileNames[u]).numFrames <= MaxOf(FrameCounts(inFileNames, info))
    ensures exists u :: 0 <= u < |inFileNames| && info(inFileNames[u]).numFrames == MaxOf(FrameCounts(inFileNames, info))
  {
    var frames := FrameCounts(inFileNames, info);
    MaxOfIsMaximum(frames);
    forall u | 0 <= u < |inFileNames|
      ensures info(inFileNames[u]).numFrames <= MaxOf(frames)
    {
      assert frames[u] == info(inFileNames[u]).numFrames;
    }
    var k :| 0 <= k < |frames| && frames[k] == MaxOf(frames);
    assert info(inFileNames[k]).numFrames == MaxOf(frames);
  }

  /** One call of the AIFF writer: the file, the channel buffers handed over and the frame
      count. */
  datatype WriteCall = WriteCall(fileName: string, channels: seq<seq<real>>, numFrames: nat)

  /** Reference for the write demultiplexing: the writes for the first `v` files, file `u`
      being written the engine channels of its slice, `numFramesPerCall` frames each. */
  function DemuxWrites(audio: seq<seq<real>>, outFileNames: seq<string>, counts: seq<nat>,
                       numFramesPerCall: nat, v: nat): (r: seq<WriteCall>)
    requires v <= |outFileNames| && v <= |counts| && ChannelOffset(counts, v) <= |audio|
    ensures |r| == v
  {
    if v == 0 then []
    else DemuxWrites(audio, outFileNames, counts, numFramesPerCall, v - 1)
         + [WriteCall(outFileNames[v - 1], audio[ChannelOffset(counts, v - 1)..ChannelOffset(counts, v)], numFramesPerCall)]
  }

  /** Write `v` of the demultiplexing goes to output file `v` and hands it exactly the
      `counts[v]` engine channels from ChannelOffset(counts, v) on. */
  lemma {:induction false} DemuxWritesAt(audio: seq<seq<real>>, outFileNames: seq<string>, counts: seq<nat>,
                                         numFramesPerCall: nat, numFiles: nat, v: nat)
    requires numFiles <= |outFileNames| && numFiles <= |counts| && ChannelOffset(counts, numFiles) <= |audio|
    requires v < numFiles
    ensures ChannelOffset(counts, v) + counts[v] <= |audio|
    ensures DemuxWrites(audio, outFileNames, counts, numFramesPerCall, numFiles)[v]
         == WriteCall(outFileNames[v], audio[ChannelOffset(counts, v)..ChannelOffset(counts, v) + counts[v]], numFramesPerCall)
    decreases numFiles
  {
    SlicesOrdered(counts, v, numFiles);
    if v < numFiles - 1 {
      SlicesOrdered(counts, v, numFiles - 1);
      DemuxWritesAt(audio, outFileNames, counts, numFramesPerCall, numFiles - 1, v);
    }
  }

  /** The write demultiplexing of the processing loop: file `v` is written the channels of the
      engine output starting at the same offset its input was read to, `numFramesPerCall`
      frames each. */
  method WriteOutputs(audio: seq<seq<real>>, outFileNames: seq<string>, fileChannelCounts: seq<nat>,
                      numFiles: nat, numFramesPerCall: nat) returns (writes: seq<WriteCall>)
    requires numFiles <= |outFileNames| && numFiles <= |fileChannelCounts|
    requires ChannelOffset(fileChannelCounts, numFiles) <= |audio|
    ensures writes == DemuxWrites(audio, outFileNames, fileChannelCounts, numFramesPerCall, numFiles)
    ensures |writes| == numFiles
    ensures forall v :: 0 <= v < numFiles ==>
              ChannelOffset(fileChannelCounts, v) + fileChannelCounts[v] <= |audio|
              && writes[v] == WriteCall(outFileNames[v],
                                        audio[ChannelOffset(fileChannelCounts, v)..ChannelOffset(fileChannelCounts, v) + fileChannelCounts[v]],
                                        numFramesPerCall)
  {
    writes := [];
    var channel := 0;
    var v := 0;
    while v < numFiles
      invariant 0 <= v <= numFiles
      invariant channel == ChannelOffset(fileChannelCounts, v) <= |audio|
      invariant writes == DemuxWrites(audio, outFileNames, fileChannelCounts, numFramesPerCall, v)
    {
      if v + 1 < numFiles {
        SlicesOrdered(fileChannelCounts, v + 1, numFiles);
      }
      writes := writes + [WriteCall(outFileNames[v], audio[channel..channel + fileChannelCounts[v]], numFramesPerCall)];
      channel := channel + fileChannelCounts[v];
      v := v + 1;
    }
    forall u | 0 <= u < numFiles
      ensures ChannelOffset(fileChannelCounts, u) + fileChannelCounts[u] <= |audio|
      ensures writes[u] == WriteCall(outFileNames[u],
                                     audio[ChannelOffset(fileChannelCounts, u)..ChannelOffset(fileChannelCounts, u) + fileChannelCounts[u]],
                                     numFramesPerCall)
    {
      DemuxWritesAt(audio, outFileNames, fileChannelCounts, numFramesPerCall, numFiles, u);
    }
  }

  /** Reading and writing use the same channel layout: demultiplexing a channel array that
      myReadData filled hands file `v`'s slot exactly the channels read from input file `v`. */
  lemma DemuxOfMultiplexed(before: seq<seq<real>>, inFileNames: seq<string>, outFileNames: seq<string>,
                           counts: seq<nat>, read: ChannelReader, start: nat, numFrames: nat,
                           numFramesPerCall: nat, numFiles: nat, v: nat)
    requires numFiles <= |inFileNames| && numFiles <= |outFileNames| && numFiles <= |counts|
    requires ChannelOffset(counts, numFiles) <= |before|
    requires v < numFiles
    ensures DemuxWrites(Multiplexed(before, inFileNames, counts, read, start, numFrames, numFiles),
                        outFileNames, counts, numFramesPerCall, numFiles)[v]
         == WriteCall(outFileNames[v], FileChannels(read, inFileNames[v], counts[v], start, numFrames), numFramesPerCall)
  {
    var m := Multiplexed(before, inFileNames, counts, read, start, numFrames, numFiles);
    MultiplexedSlice(before, inFileNames, counts, read, start, numFrames, numFiles, v);
    DemuxWritesAt(m, outFileNames, counts, numFramesPerCall, numFiles, v);
  }

  /** The stop rule of the processing loop: the cursor has passed the longest file by more
      than one request. */
  predicate Finished(readPosition: nat, maxFrames: nat, numFramesPerCall: nat)
  {
    readPosition > maxFrames + numFramesPerCall
  }

  /** Reference for the processing loop: round `t` pulls `pulls[t]` frames through the
      callback, and the loop ends after the first round that leaves the cursor Finished, or
      when the engine's rounds run out. Counts the rounds from round `t` on, given the cursor
      `start` before round 0. */
  function Rounds(start: nat, pulls: seq<nat>, maxFrames: nat, numFramesPerCall: nat, t: nat): (k: nat)
    requires t <= |pulls|
    ensures t <= k <= |pulls|
    decreases |pulls| - t
  {
    if t == |pulls| then t
    else if Finished(start + SumOf(pulls[..t + 1]), maxFrames, numFramesPerCall) then t + 1
    else Rounds(start, pulls, maxFrames, numFramesPerCall, t + 1)
  }

  /** The loop stops at the first round after which the cursor is Finished: no earlier round
      finished, and unless the engine's rounds ran out the last one did. */
  lemma {:induction false} RoundsFirstStop(start: nat, pulls: seq<nat>, maxFrames: nat, numFramesPerCall: nat, t: nat)
    requires t <= |pulls|
    ensures forall u :: t < u < Rounds(start, pulls, maxFrames, numFramesPerCall, t) ==>
              !Finished(start + SumOf(pulls[..u]), maxFrames, numFramesPerCall)
    ensures Rounds(start, pulls, maxFrames, numFramesPerCall, t) < |pulls| ==>
              Finished(start + SumOf(pulls[..Rounds(start, pulls, maxFrames, numFramesPerCall, t)]), maxFrames, numFramesPerCall)
    decreases |pulls| - t
  {
    if t < |pulls| && !Finished(start + SumOf(pulls[..t + 1]), maxFrames, numFramesPerCall) {
      RoundsFirstStop(start, pulls, maxFrames, numFramesPerCall, t + 1);
    }
  }

  /** Each round that pulls at least one frame moves the cursor by at least one. */
  lemma {:induction false} PullsAtLeast(pulls: seq<nat>, t: nat)
    requires t <= |pulls|
    requires forall u :: 0 <= u < |pulls| ==> pulls[u] >= 1
    ensures SumOf(pulls[..t]) >= t
  {
    if t > 0 {
      PullsAtLeast(pulls, t - 1);
      SumOfTake(pulls, t - 1);
    }
  }

  /** The loop ends: when every round pulls at least one frame and the engine keeps going, the
      cursor is Finished after at most `maxFrames + numFramesPerCall + 1` rounds, counted
      from a cursor at frame 0. */
  lemma {:induction false} LoopTerminates(pulls: seq<nat>, maxFrames: nat, numFramesPerCall: nat, t: nat)
    requires forall u :: 0 <= u < |pulls| ==> pulls[u] >= 1
    requires maxFrames + numFramesPerCall + 1 <= |pulls| && t <= maxFrames + numFramesPerCall
    ensures Rounds(0, pulls, maxFrames, numFramesPerCall, t) <= maxFrames + numFramesPerCall + 1
    decreases maxFrames + numFramesPerCall - t
  {
    PullsAtLeast(pulls, t + 1);
    if t < maxFrames + numFramesPerCall && !Finished(SumOf(pulls[..t + 1]), maxFrames, numFramesPerCall) {
      LoopTerminates(pulls, maxFrames, numFramesPerCall, t + 1);
    }
  }

  /** The processing loop with the engine abstracted: in round `t` the engine's pulls advance
      the shared cursor by `pulls[t]` frames; after each round the loop stops once the cursor
      is Finished. */
  method ProcessingLoop(state: MultiFileState, pulls: seq<nat>, numFramesPerCall: nat) returns (rounds: nat)
    modifies state
    ensures rounds == Rounds(old(state.readPosition), pulls, state.maxFrames, numFramesPerCall, 0)
    ensures state.readPosition == old(state.readPosition) + SumOf(pulls[..rounds])
  {
    rounds := 0;
    while rounds < |pulls|
      invariant rounds <= |pulls|
      invariant state.readPosition == old(state.readPosition) + SumOf(pulls[..rounds])
      invariant Rounds(old(state.readPosition), pulls, state.maxFrames, numFramesPerCall, 0)
             == Rounds(old(state.readPosition), pulls, state.maxFrames, numFramesPerCall, rounds)
    {
      SumOfTake(pulls, rounds);
      state.readPosition := state.readPosition + pulls[rounds];
      rounds := rounds + 1;
      if Finished(state.readPosition, state.maxFrames, numFramesPerCall) {
        assert Rounds(old(state.readPosition), pulls, state.maxFrames, numFramesPerCall, rounds - 1) == rounds;
        break;
      }
    }
  }
}
