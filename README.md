# Dirac frame supply, modelled in Dafny

The Dirac time-stretching engine does not read audio by itself. It pulls frames from
its host through a callback, always in consecutive requests. This project models how
the host code supplies those frames in two of the DIRAC 3 example programs.

The FMOD example (`Dirac3-Desktop/DiracFMOD/main.cpp`) works as follows:

- `intToFloat` converts raw 8-, 16-, 24- and 32-bit PCM into floats
  (module `SampleDecoder`).
- `readFromSound` locks a frame window of an FMOD sound, converts the first locked
  region and unlocks again (module `FmodPlayback`).
- `diracDataProviderCallback` serves interleaved frames from a read cursor. When a
  request runs past the end of the file, the callback reads up to the end, rewinds and
  reads the rest from frame 0, so the file loops without a gap.

The command-line example (`Dirac3-Desktop/Windows/DiracCLI/Source/main.cpp`) is
modelled in module `DiracCli`:

- `createOutputFilePath` inserts the prefix `processed-` between the directory and the
  file name of a path.
- `myReadData` fans one pull request out to every input file. Each file's channels go
  to the file's own slice of one channel array, and the shared cursor moves once.
- `main` contributes these parts:
  - the `-f` file list, capped at `MAX_NUM_FILES` = 16 names;
  - the per-file setup, which sums the channels, keeps the longest frame count and
    builds the output paths, or aborts on the first invalid file;
  - the write demultiplexing, which hands each output file the same channel slice its
    input was read into;
  - the stop rule of the processing loop.

Module `Buffers` holds the shared vocabulary:

- `Overwrite`: what a write through `pointer + offset` leaves in a buffer;
- `Blocks`: frame and byte extents;
- `SumOf` and `MaxOf`: the accumulations the setup performs.

The main results are the following:

- `SeamlessLoop`: a callback request no longer than the file leaves exactly the looped
  frames in the buffer. Output frame `i` is file frame `(pos + i) mod len`
  (`LoopedFrame`). Consecutive requests continue one another (`ConsecutiveCalls`).
- `CursorLeavesFile`: a request that ends more than one file length past frame 0
  (`pos + n > 2·len`) leaves the source's cursor past the end of the file (see
  Findings); `NextCursor` states that this is exactly when it happens. `LoopCursor` is the looped cursor the callback keeps
  for shorter requests, and `LoopedCalls` shows consecutive requests of any size continue
  one another along it.
- `ReturnedCountShort`: after a rewind the callback returns fewer frames than it read
  (see Findings). `FramesReadAreServed` shows that the count it evidently means,
  `FramesRead`, is exactly the looped frames it leaves in the buffer.
- `CallbackLocksPaired`: every lock of the sound is released at once with the regions
  it handed out.
- `IntToFloat`: the decoder writes exactly the decoded words. A 24-bit sample is its
  signed value times 256, so its sign is kept. Every decoded sample is normalised.
- `OutputFilePathInverse` and `OutputFilePathSameDirectory`: the output path is the
  input path with the prefix inserted in front of the file name.
- `DemuxOfMultiplexed`: the multiplexed read and the demultiplexed write use the same
  channel layout.
- `LoopTerminates`: the processing loop ends.

Collaborators are parameters:

- The FMOD sound is a small class that records its lock and unlock calls. Its lock is
  assumed to behave as `LockRegion1` and `LockRegion2` state. The first region is the
  byte window clipped at the end of the data, and is absent when the window starts past
  the end. The second region holds the part of the window that runs past the end, taken
  again from the start of the data.
- The AIFF reader is a `ChannelReader` function.
- The AIFF header queries are a `string -> FileInfo` function.
- AIFF writes are returned as `WriteCall` values.
- The Dirac engine appears only as the number of frames it pulls in each round.

## Model

| member | source | states |
|---|---|---|
| Buffers.Overwrite | Dirac3-Desktop/Windows/DiracCLI/Source/main.cpp:113-123 | a window written at an offset keeps the buffer length, holds the window there and leaves every other element unchanged |
| Buffers.OverwriteAdjacent | Dirac3-Desktop/DiracFMOD/main.cpp:194-204 | two writes side by side, the second starting where the first ends, equal one write of both windows |
| Buffers.BlocksIsProduct | Dirac3-Desktop/DiracFMOD/main.cpp:148-151 | the frame-by-frame extent equals the product `count * size` the source computes |
| Buffers.MaxOfIsMaximum | Dirac3-Desktop/Windows/DiracCLI/Source/main.cpp:238-240 | the running maximum bounds every count and is one of them (0 for no counts) |
| SampleDecoder.SampleIntMeaning | Dirac3-Desktop/DiracFMOD/main.cpp:89-128 | 8- and 16-bit words are read in their two's-complement ranges; a 24-bit word becomes its signed 24-bit value times 256, so its sign is carried by the int32's top byte; 32-bit words stay in the int32 range |
| SampleDecoder.Decode | Dirac3-Desktop/DiracFMOD/main.cpp:85-86 | one sample per complete word of the buffer, none for an unsupported word length |
| SampleDecoder.DecodeAt | Dirac3-Desktop/DiracFMOD/main.cpp:89-128 | sample `i` of a decoded buffer is the integer of word `i` times the scale constant of its branch |
| SampleDecoder.SampleInt | Dirac3-Desktop/DiracFMOD/main.cpp:88-127 | word `i` of the buffer reassembled as the source does per width (a signed byte or 16-bit word, 24 bits shifted into the top of a 32-bit word, a 32-bit word), always a 32-bit signed value |
| SampleDecoder.IntToFloat | Dirac3-Desktop/DiracFMOD/main.cpp:83-132 | the destination afterwards is the old destination with the decoded samples written from the offset on and nothing else changed; an unsupported word length writes nothing |
| SampleDecoder.Convert8 | Dirac3-Desktop/DiracFMOD/main.cpp:89-95 | the 8-bit loop writes exactly the decoded signed bytes times div8 |
| SampleDecoder.Convert16 | Dirac3-Desktop/DiracFMOD/main.cpp:96-103 | the 16-bit loop writes exactly the decoded little-endian shorts times div16 |
| SampleDecoder.Convert24 | Dirac3-Desktop/DiracFMOD/main.cpp:104-120 | the 24-bit loop, which advances a byte cursor three bytes per word and fills bytes 1 to 3 of an int32, writes exactly the decoded samples |
| SampleDecoder.Convert32 | Dirac3-Desktop/DiracFMOD/main.cpp:121-128 | the 32-bit loop writes exactly the decoded little-endian int32 values times div32 |
| SampleDecoder.ScaledRange | Dirac3-Desktop/DiracFMOD/main.cpp:49-51 | with the literal scale constants, 8-bit values land in [-1, 127/128] and, as exact products, wider ones strictly inside (-1, 1) |
| SampleDecoder.DecodedRange | Dirac3-Desktop/DiracFMOD/main.cpp:83-132 | every decoded sample is normalised: in [-1, 127/128] for 8-bit words, and strictly inside (-1, 1) otherwise as an exact product |
| SampleDecoder.SilenceDecodesToSilence | Dirac3-Desktop/DiracFMOD/main.cpp:83-132 | an all-zero buffer decodes to all 0.0 for every word length |
| SampleDecoder.DecodeSlice | Dirac3-Desktop/DiracFMOD/main.cpp:83-132 | decoding is word by word: the bytes of words a to b decode to samples a to b of the whole buffer |
| FmodPlayback.LockRegion1 | Dirac3-Desktop/DiracFMOD/main.cpp:151-154 | the first locked region exists exactly when the window starts inside the data, is never longer than asked, and is the window itself when the window fits |
| FmodPlayback.LockRegion2 | Dirac3-Desktop/DiracFMOD/main.cpp:151 | the second region exists exactly when the window starts inside the data and runs past its end |
| FmodPlayback.Sound.Lock | Dirac3-Desktop/DiracFMOD/main.cpp:151 | lock hands out the two regions of the byte window, marks the sound locked and records the call |
| FmodPlayback.Sound.Unlock | Dirac3-Desktop/DiracFMOD/main.cpp:157 | unlock releases the sound and records the regions given back |
| FmodPlayback.LockPair | Dirac3-Desktop/DiracFMOD/main.cpp:151-157 | a lock followed at once by the unlock of the regions it handed out is a paired trace |
| FmodPlayback.LocksPairedJoin | Dirac3-Desktop/DiracFMOD/main.cpp:188-205 | paired traces one after the other stay paired |
| FmodPlayback.FrameBytesIsWords | Dirac3-Desktop/DiracFMOD/main.cpp:148 | for a supported depth `numChannels * numBits / 8` is the bytes of `numChannels` words |
| FmodPlayback.FrameBlocks | Dirac3-Desktop/DiracFMOD/main.cpp:148-151 | the byte window of `x` frames is the bytes of `x * numChannels` words |
| FmodPlayback.ReadSamplesLength | Dirac3-Desktop/DiracFMOD/main.cpp:151-154 | a read produces at most `numFrames * numChannels` samples, whatever lock hands out |
| FmodPlayback.ReadSamplesWindow | Dirac3-Desktop/DiracFMOD/main.cpp:151-154 | a window inside the data reads exactly the decoded samples of frames `startFrame` to `startFrame + numFrames` |
| FmodPlayback.FrameBytes | Dirac3-Desktop/DiracFMOD/main.cpp:148 | the bytes per frame, `numChannels * numBits / 8` |
| FmodPlayback.RegionSamples | Dirac3-Desktop/DiracFMOD/main.cpp:153-154 | the samples converted from a locked region: one per whole word of a supported width, none for a null region or an unsupported width |
| FmodPlayback.ReadSamples | Dirac3-Desktop/DiracFMOD/main.cpp:148-154 | the samples readFromSound converts from the first region it locks; none when the window starts at or past the end of the data |
| FmodPlayback.ReadCalls | Dirac3-Desktop/DiracFMOD/main.cpp:148-157 | one lock of the byte window `startFrame * framesToBytes`, `numFrames * framesToBytes`, then the matching unlock, a paired trace of two calls |
| FmodPlayback.ReadFromSound | Dirac3-Desktop/DiracFMOD/main.cpp:139-159 | returns -1 in all cases; writes the decoded first region at the target offset and nothing else; leaves the sound unlocked; extends its calls by exactly one lock and the matching unlock |
| FmodPlayback.NextCursor | Dirac3-Desktop/DiracFMOD/main.cpp:188-205 | the new cursor is `pos + n` or, after a wrap, `pos + n - len`; from a cursor inside the file it leaves the file exactly when `pos + n > 2·len`, so it stays inside for requests no longer than the file |
| FmodPlayback.NextCursorModulo | Dirac3-Desktop/DiracFMOD/main.cpp:188-205 | modulo the file length, the cursor advances by exactly the request |
| FmodPlayback.ReturnedCount | Dirac3-Desktop/DiracFMOD/main.cpp:200-207 | the callback returns the request size exactly when it did not wrap (or the cursor sat at the end); after a wrap it returns only the frames read from frame 0, and those plus the tail make the request |
| FmodPlayback.ReturnedCountShort | Dirac3-Desktop/DiracFMOD/main.cpp:200-207 | a request that starts inside the file and runs past its end returns fewer frames than the callback read |
| FmodPlayback.FramesRead | Dirac3-Desktop/DiracFMOD/main.cpp:162-167 | the count of frames read, the tail plus those after the rewind, is the whole request and never less than the count returned |
| FmodPlayback.FramesReadAreServed | Dirac3-Desktop/DiracFMOD/main.cpp:162-167 | for a request no longer than the file, the frames counted by FramesRead are exactly the looped frames left at the start of the buffer |
| FmodPlayback.CallbackLocksPaired | Dirac3-Desktop/DiracFMOD/main.cpp:188-205 | every lock one callback takes is released at once with the regions it received |
| FmodPlayback.Wrap | Dirac3-Desktop/DiracFMOD/main.cpp:188-197 | a cursor plays from a frame inside the file, frame 0 when it sits at the end |
| FmodPlayback.Looped | Dirac3-Desktop/DiracFMOD/main.cpp:182-205 | the reference playback of `n` frames spans `n * numChannels` samples |
| FmodPlayback.LoopedFrame | Dirac3-Desktop/DiracFMOD/main.cpp:182-205 | output frame `i` of the looped playback is file frame `(pos + i) mod len` |
| FmodPlayback.CursorAfterModulo | Dirac3-Desktop/DiracFMOD/main.cpp:188-205 | stepping `i` frames from the cursor, rewinding at the end, lands on frame `(pos + i) mod len` |
| FmodPlayback.LoopedContiguous | Dirac3-Desktop/DiracFMOD/main.cpp:203-205 | inside the file, looped playback is the contiguous run of frames from the cursor |
| FmodPlayback.LoopedAtEnd | Dirac3-Desktop/DiracFMOD/main.cpp:197 | a cursor at the end of the file plays like one at frame 0 |
| FmodPlayback.ConsecutiveCalls | Dirac3-Desktop/DiracFMOD/main.cpp:163-167 | a request of `a` frames followed by a request of `b` frames from the new cursor serves the frames of one request of `a + b` |
| FmodPlayback.LoopCursor | Dirac3-Desktop/DiracFMOD/main.cpp:188-205 | the looped cursor never leaves the file, whatever the request size |
| FmodPlayback.LoopCursorModulo | Dirac3-Desktop/DiracFMOD/main.cpp:188-205 | the looped cursor has moved by exactly the request, modulo the file length |
| FmodPlayback.NextCursorIsLoopCursor | Dirac3-Desktop/DiracFMOD/main.cpp:188-205 | for a request no longer than the file, the source's cursor is the looped cursor |
| FmodPlayback.LoopedCalls | Dirac3-Desktop/DiracFMOD/main.cpp:163-167 | requests of any size, each starting from the looped cursor the previous one left, serve the frames of one request of their total |
| FmodPlayback.CursorLeavesFile | Dirac3-Desktop/DiracFMOD/main.cpp:188-205 | a request of `2 * len + 1` frames from frame 0 leaves the source's cursor at `len + 1`, past the file, and the next call's unsigned `len - pos` wraps to 0xFFFF_FFFF |
| FmodPlayback.LoopedWrapped | Dirac3-Desktop/DiracFMOD/main.cpp:188-204 | across the end, looped playback is the tail of the file followed by its beginning |
| FmodPlayback.SeamlessLoop | Dirac3-Desktop/DiracFMOD/main.cpp:182-205 | for a request no longer than the file, wrapping or not, the callback leaves exactly the looped frames from the cursor at the start of the buffer |
| FmodPlayback.PlaybackState.constructor | Dirac3-Desktop/DiracFMOD/main.cpp:310-320 | the user data starts with the cursor at frame 0 and the sound's length and format, and is valid |
| FmodPlayback.CallbackOutput | Dirac3-Desktop/DiracFMOD/main.cpp:188-205 | the buffer after one callback: the tail of the file from the cursor, then after a wrap the rest from frame 0 behind it; the buffer keeps its length |
| FmodPlayback.CallbackCalls | Dirac3-Desktop/DiracFMOD/main.cpp:188-205 | the calls one callback makes on the sound: one lock and unlock per read, two reads (four calls) when the request passes the end of the file, one read (two calls) otherwise |
| FmodPlayback.DiracDataProviderCallback | Dirac3-Desktop/DiracFMOD/main.cpp:169-209 | a null buffer or null state returns 0; a null state leaves the buffer as it was, and a null buffer leaves the state and the sound as they were; otherwise returns the ReturnedCount, moves the cursor to NextCursor, leaves the buffer as CallbackOutput, extends the sound's calls by CallbackCalls and leaves the sound unlocked, and is valid again for requests no longer than the file |
| FmodPlayback.ServeFrames | Dirac3-Desktop/DiracFMOD/main.cpp:179-207 | the body once both pointers are known: reads the tail, rewinds and reads the rest after it, with the same results as the callback, leaving the sound unlocked |
| DiracCli.DirectoryLength | Dirac3-Desktop/Windows/DiracCLI/Source/main.cpp:87-91 | the directory part ends on a separator (or is empty), and no separator follows it |
| DiracCli.LastSeparatorUnique | Dirac3-Desktop/Windows/DiracCLI/Source/main.cpp:87-91 | any cut ending on a separator with none after it is the directory part |
| DiracCli.OutputFilePath | Dirac3-Desktop/Windows/DiracCLI/Source/main.cpp:105-111 | the output path is as long as the input path and the prefix together |
| DiracCli.OutputFilePathInverse | Dirac3-Desktop/Windows/DiracCLI/Source/main.cpp:111-123 | the prefix sits right after the input's directory, and taking it out gives back the input path |
| DiracCli.OutputFilePathNoSeparator | Dirac3-Desktop/Windows/DiracCLI/Source/main.cpp:92-104 | a path without separators gets the prefix in front |
| DiracCli.OutputFilePathTrailingSeparator | Dirac3-Desktop/Windows/DiracCLI/Source/main.cpp:98-104 | a path ending in a separator has an empty file name, so the prefix goes at the end |
| DiracCli.OutputFilePathSameDirectory | Dirac3-Desktop/Windows/DiracCLI/Source/main.cpp:83-129 | with a separator-free prefix, the output lies in the input's directory and its file name is the prefix followed by the input's file name |
| DiracCli.CopyInto | Dirac3-Desktop/Windows/DiracCLI/Source/main.cpp:115 | a memmove into a buffer overwrites exactly the copied window |
| DiracCli.CreateOutputFilePath | Dirac3-Desktop/Windows/DiracCLI/Source/main.cpp:83-129 | the backward scan, the two piece buffers and the assembly produce exactly OutputFilePath |
| DiracCli.NewPiece | Dirac3-Desktop/Windows/DiracCLI/Source/main.cpp:92-104 | a piece buffer is null exactly when its text is empty, and otherwise fresh and holding the text |
| DiracCli.JoinPieces | Dirac3-Desktop/Windows/DiracCLI/Source/main.cpp:105-123 | the assembled path is the directory, then the prefix, then the file name, with a null piece counting as empty |
| DiracCli.FileChannels | Dirac3-Desktop/Windows/DiracCLI/Source/main.cpp:65 | one read of a file fills one channel buffer per channel of that file |
| DiracCli.Multiplexed | Dirac3-Desktop/Windows/DiracCLI/Source/main.cpp:63-67 | the reads of the files keep the channel array's length |
| DiracCli.SlicesOrdered | Dirac3-Desktop/Windows/DiracCLI/Source/main.cpp:63-67 | file slices come in declaration order and do not overlap |
| DiracCli.SlicesAdjacent | Dirac3-Desktop/Windows/DiracCLI/Source/main.cpp:66 | each file's slice starts where the previous one ends |
| DiracCli.SlicesCover | Dirac3-Desktop/Windows/DiracCLI/Source/main.cpp:63-67 | every channel below the total belongs to some file's slice |
| DiracCli.ChannelOffset | Dirac3-Desktop/Windows/DiracCLI/Source/main.cpp:63-66 | the `channel` counter before file `v`; once past a file it is at least that file's channel count |
| DiracCli.ChannelOffsetIsSum | Dirac3-Desktop/Windows/DiracCLI/Source/main.cpp:63-67 | the first channel of file `v` is the sum of the channel counts of the files before it |
| DiracCli.MultiplexedNext | Dirac3-Desktop/Windows/DiracCLI/Source/main.cpp:63-67 | reading one more file writes its channels over its slice of what the earlier files left |
| DiracCli.MultiplexedSlice | Dirac3-Desktop/Windows/DiracCLI/Source/main.cpp:63-67 | the slice of file `v` holds exactly the channels the reader gives for that file at the shared cursor; later files never overwrite it |
| DiracCli.MultiplexedChannel | Dirac3-Desktop/Windows/DiracCLI/Source/main.cpp:63-67 | channel `j` of file `v` holds what the reader gives for that file and channel at the shared cursor |
| DiracCli.MultiplexedBeyond | Dirac3-Desktop/Windows/DiracCLI/Source/main.cpp:63-67 | channels past the files' slices keep their contents |
| DiracCli.MultiFileState.constructor | Dirac3-Desktop/Windows/DiracCLI/Source/main.cpp:258-265 | the state starts with the cursor at frame 0, the channel total as the sum of the per-file counts, and the file tables as given |
| DiracCli.ReadFiles | Dirac3-Desktop/Windows/DiracCLI/Source/main.cpp:62-67 | the loop over the files leaves the channel array as Multiplexed at the shared cursor |
| DiracCli.MyReadData | Dirac3-Desktop/Windows/DiracCLI/Source/main.cpp:52-73 | a null buffer or null state returns 0 and changes nothing it could reach; otherwise returns the request size, leaves the channel array as Multiplexed at the old cursor, and advances the cursor once by the request |
| DiracCli.FileRun | Dirac3-Desktop/Windows/DiracCLI/Source/main.cpp:208 | the run of file names after an index contains no option and ends at an option or at the end of the arguments |
| DiracCli.CollectFileNames | Dirac3-Desktop/Windows/DiracCLI/Source/main.cpp:206-218 | appends the names up to the next option, at most up to 16 in total; below the cap, the option loop continues at the next option; at the cap, it continues at the last name taken, which is not an option, so the option loop ends |
| DiracCli.PrepareFiles | Dirac3-Desktop/Windows/DiracCLI/Source/main.cpp:226-248 | no names means nothing to do; the first invalid file aborts; when all files are valid, the setup holds each file's channel count, their sum, the largest frame count and each file's output path |
| DiracCli.MaxFramesBound | Dirac3-Desktop/Windows/DiracCLI/Source/main.cpp:238-240 | every file's frame count is at most maxFrames, and some file has exactly maxFrames |
| DiracCli.DemuxWrites | Dirac3-Desktop/Windows/DiracCLI/Source/main.cpp:314-318 | the reference demultiplexing makes one write per file |
| DiracCli.DemuxWritesAt | Dirac3-Desktop/Windows/DiracCLI/Source/main.cpp:314-318 | write `v` goes to output file `v` and hands it exactly the engine channels of its slice |
| DiracCli.WriteOutputs | Dirac3-Desktop/Windows/DiracCLI/Source/main.cpp:314-318 | output file `v` is written the engine channels of its slice, `numFramesPerCall` frames each, one write per file in order |
| DiracCli.DemuxOfMultiplexed | Dirac3-Desktop/Windows/DiracCLI/Source/main.cpp:314-318 | demultiplexing a channel array that myReadData filled writes to output file `v` exactly the channels read from input file `v` |
| DiracCli.Rounds | Dirac3-Desktop/Windows/DiracCLI/Source/main.cpp:300-322 | the loop runs no rounds before the first and no more rounds than the engine provides |
| DiracCli.RoundsFirstStop | Dirac3-Desktop/Windows/DiracCLI/Source/main.cpp:320-321 | the loop stops at the first round after which the cursor passes maxFrames + numFramesPerCall, and no earlier |
| DiracCli.PullsAtLeast | Dirac3-Desktop/Windows/DiracCLI/Source/main.cpp:300-322 | rounds that each pull a frame move the cursor by at least one frame per round |
| DiracCli.LoopTerminates | Dirac3-Desktop/Windows/DiracCLI/Source/main.cpp:300-322 | if every round pulls at least one frame, the loop ends within maxFrames + numFramesPerCall + 1 rounds |
| DiracCli.ProcessingLoop | Dirac3-Desktop/Windows/DiracCLI/Source/main.cpp:300-322 | the loop runs Rounds rounds, and the cursor ends advanced by the frames pulled in those rounds |

## Left out

- The Dirac engine: its pulls appear in `ProcessingLoop` and `Rounds` only as the
  number of frames each round moves the cursor. The audio it returns is the `audio`
  parameter of `WriteOutputs`. The value `DiracProcess` returns is ignored by the
  source, and by the model as well.
- The FMOD system setup, the key handling and the playback loop of the FMOD example.
  `Sound::lock` and `Sound::unlock` are modelled by the `Sound` class.
- The AIFF library calls (`mAiffReadData`, `mAiffGetSampleRate`,
  `mAiffGetNumberOfChannels`, `mAiffGetNumberOfFrames`, `mAiffInitFile`,
  `mAiffWriteData`, buffer allocation). They become the `ChannelReader` and
  `FileInfo` parameters and the `WriteCall` results.
- Floating point: samples are exact reals. A decoded sample is the exact product of
  its integer and the literal scale constant, so float rounding is not modelled.
- SampleDecoder.DecodedRange: the strict bound (-1, 1) for 16-, 24- and 32-bit words
  holds for the exact products only. Stored in a float, `-32768 * div16` rounds to
  -1.0, so the float the source keeps can reach -1.0.
- SampleDecoder.IntToFloat: the model assumes a little-endian host, as the source's
  casts of raw byte buffers to wider integers do on the platforms it targets.
- DiracCli.ChannelOffset: its own contract states only that it has passed the previous
  file's channels; that it is the sum of the counts before `v` is `ChannelOffsetIsSum`.
- FmodPlayback.ReadSamples, FmodPlayback.CallbackOutput: their own contracts state only
  the empty read and the length; what the buffer holds afterwards is stated by
  `ReadFromSound`, `DiracDataProviderCallback` and `SeamlessLoop`.
- FmodPlayback.DiracDataProviderCallback: does not model the 32-bit unsigned
  wrap-around of the cursor arithmetic. Cursors and counts are unbounded naturals,
  and the callback requires a non-negative request. It also requires a cursor inside
  the file, which a request ending more than one file length past frame 0
  (`pos + n > 2·len`) breaks (see Findings).
- FmodPlayback.SeamlessLoop: covers requests no longer than the file, which wrap at
  most once. Longer requests are still modelled by the callback's contract. After its
  single rewind the source reads at most up to the end again, so it does not loop them.
- FmodPlayback.ConsecutiveCalls: requires the first request to be no longer than the
  file, for the same single-wrap reason. `LoopedCalls` states it for any size on
  `LoopCursor`.
- DiracCli.MyReadData: takes the request as a natural, where the source's `long` could
  be negative, and keeps the cursor as an unbounded natural. The wrap-around of the
  source's `unsigned long` cursor (main.cpp:69) is not modelled.
- DiracCli.PrepareFiles: merges the three header queries of each file into one
  `FileInfo`. Because the model has no I/O, the `exit(0)` paths become the
  `NoInputFiles` and `InvalidFile` outcomes.
- DiracCli.LoopTerminates: requires every round to pull at least one frame. An engine
  that pulls nothing forever would keep the source's loop running too.
- String terminators, `memset` and `delete[]`: strings are sequences of characters,
  so their NUL terminators, zero-filling and freeing have no counterpart.
- The command-line options other than `-f` (`-L`, `-Q`, `-T`, `-P`, `-F`, `-h`),
  `usage`, `atoi` and `strtold`. They only set engine parameters or print.
- The progress percentage and all console output.
- The Linux example (`Linux/TimeStretchExample/main.cpp`), which repeats the
  single-file pull callback, with its count taken from the AIFF reader.
- The Mac OS X offline example, which has no pull callback. It reads chunks itself and
  pushes them into `DiracFxProcessFloat`. It first pre-rolls `DiracFxLatencyFrames` frames
  through a separate latency buffer, and it stops once the input position reaches the
  file length plus that latency. Its push loop and the latency compensation are not part
  of this model.
- The Mac OS X AudioUnit plug-in, whose render call hands the host's buffer straight to
  `DiracFxProcessFloatInterleaved` with no frame supply of its own.
- The Mac OS X realtime and mobile examples, of which only headers are available.
- The region-processing example. It resets the cursor to the start of each region,
  reverses regions with a negative length (`reverseBlock`) and fades the first and last
  1024 frames of each processed region at least 2048 frames long (`fadeBlock`). The region list, the fades and the
  reversal are not part of this model.

## Findings

| source | as written | input that shows it | evidently intended | confidence | as-written member | corrected member |
|---|---|---|---|---|---|---|
| Dirac3-Desktop/DiracFMOD/main.cpp:188-205 | after one rewind the callback adds the rest of the request to the cursor, however long it is | a file of `len` frames, cursor at 0, a request of `2 * len + 1` frames: the cursor becomes `len + 1`, and the next call's `sFileNumFrames - sReadPosition` wraps to 0xFFFF_FFFF | the cursor loops round the file and stays inside it for any request | not executed | FmodPlayback.CursorLeavesFile | FmodPlayback.LoopCursor |
| Dirac3-Desktop/DiracFMOD/main.cpp:200-207 | after a rewind the callback returns only the frames read from frame 0, though its contract at line 166 is to return the number of frames read | a file of `len` frames, cursor at `len - 5`, a request of 10 frames: 10 frames are written and 5 is returned | return every frame read, the request size, as the command-line callback does | not executed | FmodPlayback.ReturnedCountShort | FmodPlayback.FramesRead |
