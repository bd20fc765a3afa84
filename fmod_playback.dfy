/** The FMOD example's supply side: `readFromSound`, which locks a frame window of the
    decoded sound and converts it with intToFloat, and `diracDataProviderCallback`, the pull
    callback that serves consecutive interleaved frames and loops the file seamlessly by
    wrapping once to frame 0. */
module FmodPlayback {
  import opened Buffers
  import opened SampleDecoder

  /** A pointer handed out by `Sound::lock`: null, or the bytes it points at (its length is
      the matching `length1`/`length2`). */
  datatype Region = NoRegion | Region(bytes: seq<Byte>)

  /** One call into the sound, in the order they were made. */
  datatype SoundCall =
    | LockCall(offset: nat, length: nat)
    | UnlockCall(region1: Region, region2: Region)

  /** The first region `Sound::lock` returns for a byte window of the sample data: the part
      of the window inside the data, or null when the window starts at or past the end. */
  function LockRegion1(data: seq<Byte>, offset: nat, length: nat): (r: Region)
    ensures r.Region? <==> offset < |data|
    ensures r.Region? ==> |r.bytes| <= length
    ensures r.Region? && offset + length <= |data| ==> r.bytes == data[offset..offset + length]
  {
    if offset < |data| then
      Region(data[offset..if offset + length <= |data| then offset + length else |data|])
    else NoRegion
  }

  /** The second region: the part of the window that runs past the end of a looping sound,
      taken from its start; null when the window fits. */
  function LockRegion2(data: seq<Byte>, offset: nat, length: nat): (r: Region)
    ensures r.Region? <==> offset < |data| < offset + length
    ensures offset + length <= |data| ==> r == NoRegion
  {
    if offset < |data| < offset + length then
      Region(data[..if offset + length - |data| <= |data| then offset + length - |data| else |data|])
    else NoRegion
  }

  /** An FMOD sound as this program uses it: immutable PCM data that can be locked and
      unlocked. Every call is recorded, so that callers can state how they pair them. */
  class Sound {
    const data: seq<Byte>
    var locked: bool
    var calls: seq<SoundCall>

    constructor (data: seq<Byte>)
      ensures this.data == data && !locked && calls == []
    {
      this.data := data;
      locked := false;
      calls := [];
    }

    /** `Sound::lock`: hands out the two regions of a byte window. */
    method Lock(offset: nat, length: nat) returns (region1: Region, region2: Region)
      requires !locked
      modifies this
      ensures region1 == LockRegion1(data, offset, length)
      ensures region2 == LockRegion2(data, offset, length)
      ensures locked && calls == old(calls) + [LockCall(offset, length)]
    {
      region1 := LockRegion1(data, offset, length);
      region2 := LockRegion2(data, offset, length);
      locked := true;
      calls := calls + [LockCall(offset, length)];
    }

    /** `Sound::unlock`: gives the regions back. */
    method Unlock(region1: Region, region2: Region)
      requires locked
      modifies this
      ensures !locked && calls == old(calls) + [UnlockCall(region1, region2)]
    {
      locked := false;
      calls := calls + [UnlockCall(region1, region2)];
    }
  }

  /** A trace made of lock calls, each followed at once by the unlock of exactly the
      regions that lock handed out. */
  predicate LocksPaired(data: seq<Byte>, t: seq<SoundCall>)
  {
    t == [] ||
    (|t| >= 2 && t[0].LockCall? &&
     t[1] == UnlockCall(LockRegion1(data, t[0].offset, t[0].length), LockRegion2(data, t[0].offset, t[0].length)) &&
     LocksPaired(data, t[2..]))
  }

  /** A lock of a byte window followed at once by the unlock of the regions it handed out. */
  function LockPair(data: seq<Byte>, offset: nat, length: nat): (t: seq<SoundCall>)
    ensures LocksPaired(data, t)
  {
    var t := [LockCall(offset, length), UnlockCall(LockRegion1(data, offset, length), LockRegion2(data, offset, length))];
    assert t[2..] == [];
    t
  }

  /** Paired traces one after the other form a paired trace. */
  lemma {:induction false} LocksPairedJoin(data: seq<Byte>, t: seq<SoundCall>, u: seq<SoundCall>)
    requires LocksPaired(data, t) && LocksPaired(data, u)
    ensures LocksPaired(data, t + u)
    decreases |t|
  {
    if t == [] {
      assert t + u == u;
    } else {
      LocksPairedJoin(data, t[2..], u);
      assert (t + u)[2..] == t[2..] + u;
    }
  }

  /** `framesToBytes`: bytes per interleaved frame, `numChannels * numBits / 8`. */
  function FrameBytes(numChannels: nat, numBits: nat): (r: nat)
    ensures r == numChannels * numBits / 8
  {
    BlocksIsProduct(numChannels, numBits);
    Blocks(numChannels, numBits) / 8
  }

  /** For a supported depth a frame is `numChannels` words. */
  lemma FrameBytesIsWords(numChannels: nat, numBits: int)
    requires IsSupportedWidth(numBits)
    ensures FrameBytes(numChannels, numBits) == Blocks(numChannels, Width(numBits))
  {
    BlocksIsProduct(numChannels, numBits);
    BlocksIsProduct(numChannels, Width(numBits));
    if numBits == 8 {
    } else if numBits == 16 {
    } else if numBits == 24 {
    } else {
    }
  }

  /** The bytes of `x` frames are the bytes of `x * numChannels` words. */
  lemma {:induction false} FrameBlocks(x: nat, numChannels: nat, numBits: int)
    requires IsSupportedWidth(numBits)
    ensures Blocks(x, FrameBytes(numChannels, numBits)) == Blocks(Blocks(x, numChannels), Width(numBits))
  {
    FrameBytesIsWords(numChannels, numBits);
    if x > 0 {
      FrameBlocks(x - 1, numChannels, numBits);
      BlocksAdd(Blocks(x - 1, numChannels), numChannels, Width(numBits));
    }
  }

  /** Byte counts against word counts: `k` words' worth of bytes hold exactly `k` words,
      fewer bytes hold at most `k`, more at least `k`. */
  lemma WordsIn(n: nat, k: nat, numBits: int)
    requires IsSupportedWidth(numBits)
    ensures WordCount(Blocks(k, Width(numBits)), numBits) == k
    ensures n <= Blocks(k, Width(numBits)) ==> WordCount(n, numBits) <= k
    ensures Blocks(k, Width(numBits)) <= n ==> k <= WordCount(n, numBits)
  {
    BlocksIsProduct(k, Width(numBits));
  }

  /** No blocks of a positive size span nothing unless there are none. */
  lemma BlocksZero(k: nat, size: nat)
    requires 0 < size && Blocks(k, size) == 0
    ensures k == 0
  {
  }

  /** The samples `readFromSound` produces: the first locked region decoded, nothing when
      lock hands out no first region. */
  function ReadSamples(data: seq<Byte>, startFrame: nat, numFrames: nat, numBits: int, numChannels: nat): (r: seq<real>)
    requires 8 <= numBits
    ensures Blocks(startFrame, FrameBytes(numChannels, numBits)) >= |data| ==> r == []
  {
    RegionSamples(LockRegion1(data, Blocks(startFrame, FrameBytes(numChannels, numBits)),
                              Blocks(numFrames, FrameBytes(numChannels, numBits))), numBits)
  }

  /** The samples a locked region holds; none for a null region. */
  function RegionSamples(region: Region, numBits: int): (r: seq<real>)
    requires 8 <= numBits
    ensures |r| == if region.Region? && IsSupportedWidth(numBits) then WordCount(|region.bytes|, numBits) else 0
  {
    match region
    case NoRegion => []
    case Region(bytes) => Decode(bytes, numBits)
  }

  /** A read never produces more than the `numFrames * numChannels` samples asked for. */
  lemma ReadSamplesLength(data: seq<Byte>, startFrame: nat, numFrames: nat, numBits: int, numChannels: nat)
    requires 8 <= numBits
    ensures |ReadSamples(data, startFrame, numFrames, numBits, numChannels)| <= Blocks(numFrames, numChannels)
  {
    if IsSupportedWidth(numBits) {
      FrameBlocks(numFrames, numChannels, numBits);
      var region := LockRegion1(data, Blocks(startFrame, FrameBytes(numChannels, numBits)), Blocks(numFrames, FrameBytes(numChannels, numBits)));
      if region.Region? {
        WordsIn(|region.bytes|, Blocks(numFrames, numChannels), numBits);
      }
    }
  }

  /** The first region of a window inside the data is that window. */
  lemma RegionOfWindow(data: seq<Byte>, offset: nat, length: nat, end: nat)
    requires offset < |data| && offset + length == end <= |data|
    ensures LockRegion1(data, offset, length) == Region(data[offset..end])
  {
  }

  /** Decoding the bytes of words `a` to `b` gives samples `a` to `b`. */
  lemma DecodeWords(bytes: seq<Byte>, numBits: int, a: nat, b: nat)
    requires IsSupportedWidth(numBits) && a <= b && Blocks(b, Width(numBits)) <= |bytes|
    ensures b <= |Decode(bytes, numBits)|
    ensures Blocks(a, Width(numBits)) <= Blocks(b, Width(numBits))
    ensures Decode(bytes[Blocks(a, Width(numBits))..Blocks(b, Width(numBits))], numBits) == Decode(bytes, numBits)[a..b]
  {
    WordsIn(|bytes|, b, numBits);
    BlocksIsProduct(a, Width(numBits));
    BlocksIsProduct(b, Width(numBits));
    DecodeSlice(bytes, numBits, a, b);
  }

  /** A window inside the data reads exactly the matching samples of the whole decoded
      sound: frame `startFrame` onwards, `numChannels` samples per frame. */
  lemma ReadSamplesWindow(data: seq<Byte>, startFrame: nat, numFrames: nat, numBits: int, numChannels: nat)
    requires IsSupportedWidth(numBits)
    requires Blocks(startFrame + numFrames, FrameBytes(numChannels, numBits)) <= |data|
    ensures Blocks(startFrame, numChannels) <= Blocks(startFrame + numFrames, numChannels) <= |Decode(data, numBits)|
    ensures ReadSamples(data, startFrame, numFrames, numBits, numChannels)
         == Decode(data, numBits)[Blocks(startFrame, numChannels)..Blocks(startFrame + numFrames, numChannels)]
  {
    WindowBytes(startFrame, numFrames, numChannels, numBits);
    RegionWords(data, numBits, Blocks(startFrame, numChannels), Blocks(numFrames, numChannels),
                Blocks(startFrame + numFrames, numChannels));
  }

  /** Frame counts against word and byte counts for a window of frames. */
  lemma WindowBytes(startFrame: nat, numFrames: nat, numChannels: nat, numBits: int)
    requires IsSupportedWidth(numBits)
    ensures Blocks(startFrame, FrameBytes(numChannels, numBits)) == Blocks(Blocks(startFrame, numChannels), Width(numBits))
    ensures Blocks(numFrames, FrameBytes(numChannels, numBits)) == Blocks(Blocks(numFrames, numChannels), Width(numBits))
    ensures Blocks(startFrame + numFrames, FrameBytes(numChannels, numBits))
         == Blocks(Blocks(startFrame + numFrames, numChannels), Width(numBits))
    ensures Blocks(startFrame, numChannels) + Blocks(numFrames, numChannels) == Blocks(startFrame + numFrames, numChannels)
  {
    FrameBlocks(startFrame, numChannels, numBits);
    FrameBlocks(numFrames, numChannels, numBits);
    FrameBlocks(startFrame + numFrames, numChannels, numBits);
    BlocksAdd(startFrame, numFrames, numChannels);
  }

  /** The region of words `first` to `end` (`count` words) decodes to those samples of the
      whole data. */
  lemma RegionWords(data: seq<Byte>, numBits: int, first: nat, count: nat, end: nat)
    requires IsSupportedWidth(numBits)
    requires first + count == end && Blocks(end, Width(numBits)) <= |data|
    ensures first <= end <= |Decode(data, numBits)|
    ensures RegionSamples(LockRegion1(data, Blocks(first, Width(numBits)), Blocks(count, Width(numBits))), numBits)
         == Decode(data, numBits)[first..end]
  {
    BlocksAdd(first, count, Width(numBits));
    if Blocks(first, Width(numBits)) < |data| {
      RegionOfWindow(data, Blocks(first, Width(numBits)), Blocks(count, Width(numBits)), Blocks(end, Width(numBits)));
      DecodeWords(data, numBits, first, end);
    } else {
      BlocksZero(count, Width(numBits));
      DecodeWords(data, numBits, end, end);
    }
  }

  /** The calls one `readFromSound` makes: the lock of its byte window and the matching
      unlock. */
  function ReadCalls(data: seq<Byte>, startFrame: nat, numFrames: nat, numBits: int, numChannels: nat): (t: seq<SoundCall>)
    requires 8 <= numBits
    ensures |t| == 2 && LocksPaired(data, t)
    ensures t[0] == LockCall(Blocks(startFrame, FrameBytes(numChannels, numBits)), Blocks(numFrames, FrameBytes(numChannels, numBits)))
  {
    LockPair(data, Blocks(startFrame, FrameBytes(numChannels, numBits)), Blocks(numFrames, FrameBytes(numChannels, numBits)))
  }

  /** readFromSound: locks `numFrames` frames from `startFrame`, converts the first region
      (if any) into `targetBuffer` from `targetOffset` on, unlocks exactly what it locked,
      and returns -1 whatever happened. */
  method ReadFromSound(targetBuffer: array<real>, targetOffset: nat, startFrame: nat, numFrames: nat,
                       sound: Sound, numBits: int, numChannels: nat) returns (ret: int)
    requires 8 <= numBits && !sound.locked
    requires targetOffset + |ReadSamples(sound.data, startFrame, numFrames, numBits, numChannels)| <= targetBuffer.Length
    modifies targetBuffer, sound
    ensures ret == -1
    ensures targetBuffer[..] == Overwrite(old(targetBuffer[..]), targetOffset, ReadSamples(sound.data, startFrame, numFrames, numBits, numChannels))
    ensures !sound.locked
    ensures sound.calls == old(sound.calls) + ReadCalls(sound.data, startFrame, numFrames, numBits, numChannels)
  {
    ret := -1;
    var framesToBytes := numChannels * numBits / 8;
    BlocksIsProduct(numChannels, numBits);
    BlocksIsProduct(startFrame, framesToBytes);
    BlocksIsProduct(numFrames, framesToBytes);
    var data1, data2 := sound.Lock(startFrame * framesToBytes, numFrames * framesToBytes);
    if data1.Region? {
      IntToFloat(targetBuffer, targetOffset, data1.bytes, numBits);
    }
    sound.Unlock(data1, data2);
  }

  /** The read cursor after a request of `n` frames from `pos` in a file of `len` frames:
      a request that runs past the end continues from frame 0. */
  function NextCursor(pos: nat, n: nat, len: nat): (next: nat)
    requires pos <= len
    ensures n <= len ==> next <= len
    ensures next > len <==> pos + n > 2 * len
    ensures next == pos + n || next + len == pos + n
  {
    if pos + n > len then n - (len - pos) else pos + n
  }

  /** The cursor stays in step with the frames served: modulo the file length it has moved
      by exactly the request. */
  lemma NextCursorModulo(pos: nat, n: nat, len: nat)
    requires pos <= len && len > 0
    ensures NextCursor(pos, n, len) % len == (pos + n) % len
  {
    ModShift(NextCursor(pos, n, len), len);
  }

  /** What the callback returns: the request size, except that a request wrapping past the
      end reports only the frames read after the wrap. */
  function ReturnedCount(pos: nat, n: nat, len: nat): (r: nat)
    requires pos <= len
    ensures r <= n
    ensures r == n <==> pos + n <= len || pos == len
    ensures pos + n > len ==> r + (len - pos) == n
  {
    if pos + n > len then n - (len - pos) else n
  }

  /** The count the callback evidently means to return, the number of frames it read: the
      frames up to the end of the file plus, after a rewind, those read from frame 0. */
  function FramesRead(pos: nat, n: nat, len: nat): (r: nat)
    requires pos <= len
    ensures r == n
    ensures ReturnedCount(pos, n, len) <= r
  {
    if pos + n > len then (len - pos) + ReturnedCount(pos, n, len) else ReturnedCount(pos, n, len)
  }

  /** A request that starts inside the file and runs past its end is reported short: the
      callback returns fewer frames than it read. */
  lemma ReturnedCountShort(pos: nat, n: nat, len: nat)
    requires pos < len < pos + n
    ensures ReturnedCount(pos, n, len) < FramesRead(pos, n, len) == n
  {
  }

  /** The caller's buffer after one callback: one read of the frames up to the end of the
      file followed, if the request runs past it, by a read from frame 0 placed right after
      them. */
  function CallbackOutput(before: seq<real>, data: seq<Byte>, numBits: int, numChannels: nat,
                          len: nat, pos: nat, n: nat): (r: seq<real>)
    requires 8 <= numBits && pos <= len
    ensures |r| == |before|
  {
    if pos + n > len then
      Overwrite(Overwrite(before, 0, ReadSamples(data, pos, len - pos, numBits, numChannels)),
                Blocks(len - pos, numChannels), ReadSamples(data, 0, n - (len - pos), numBits, numChannels))
    else
      Overwrite(before, 0, ReadSamples(data, pos, n, numBits, numChannels))
  }

  /** The calls one callback makes on the sound: those of the read up to the end of the
      file and, if the request runs past it, those of the read from frame 0. */
  function CallbackCalls(data: seq<Byte>, numBits: int, numChannels: nat, len: nat, pos: nat, n: nat): (t: seq<SoundCall>)
    requires 8 <= numBits && pos <= len
    ensures |t| == if pos + n > len then 4 else 2
  {
    if pos + n > len then
      ReadCalls(data, pos, len - pos, numBits, numChannels) + ReadCalls(data, 0, n - (len - pos), numBits, numChannels)
    else
      ReadCalls(data, pos, n, numBits, numChannels)
  }

  /** Every lock a callback takes is released at once, with exactly the regions it was
      handed: the sound is never left locked. */
  lemma CallbackLocksPaired(data: seq<Byte>, numBits: int, numChannels: nat, len: nat, pos: nat, n: nat)
    requires 8 <= numBits && pos <= len
    ensures LocksPaired(data, CallbackCalls(data, numBits, numChannels, len, pos, n))
  {
    if pos + n > len {
      LocksPairedJoin(data, ReadCalls(data, pos, len - pos, numBits, numChannels), ReadCalls(data, 0, n - (len - pos), numBits, numChannels));
    }
  }

  /** Frame `f` of a file fits inside its samples. */
  lemma FrameInside(f: nat, len: nat, numChannels: nat)
    requires f < len
    ensures Blocks(f, numChannels) + numChannels <= Blocks(len, numChannels)
  {
    BlocksMono(f + 1, len, numChannels);
  }

  /** Where a cursor actually plays from: a cursor at the end of the file is at frame 0. */
  function Wrap(pos: nat, len: nat): (f: nat)
    requires 0 < len && pos <= len
    ensures f < len
    ensures f == pos || (pos == len && f == 0)
  {
    if pos == len then 0 else pos
  }

  /** Frame `f` of the decoded file: its `numChannels` interleaved samples. */
  function FrameOf(samples: seq<real>, numChannels: nat, len: nat, f: nat): (r: seq<real>)
    requires f < len && |samples| == Blocks(len, numChannels)
    ensures |r| == numChannels
  {
    FrameInside(f, len, numChannels);
    samples[Blocks(f, numChannels)..Blocks(f, numChannels) + numChannels]
  }

  /** Reference for looped playback: `n` interleaved frames of the decoded file played from
      the cursor `pos` on, going back to frame 0 whenever the end is reached; LoopedFrame
      shows that output frame `i` is file frame `(pos + i) mod len`. */
  function Looped(samples: seq<real>, numChannels: nat, len: nat, pos: nat, n: nat): (r: seq<real>)
    requires 0 < len && pos <= len && |samples| == Blocks(len, numChannels)
    ensures |r| == Blocks(n, numChannels)
    decreases n
  {
    if n == 0 then []
    else FrameOf(samples, numChannels, len, Wrap(pos, len)) + Looped(samples, numChannels, len, Wrap(pos, len) + 1, n - 1)
  }

  /** One step of Looped: the frame under the cursor, then `m` more from the next frame. */
  lemma LoopedStep(samples: seq<real>, numChannels: nat, len: nat, pos: nat, n: nat, m: nat)
    requires 0 < len && pos <= len && |samples| == Blocks(len, numChannels) && n == m + 1
    ensures Looped(samples, numChannels, len, pos, n)
         == FrameOf(samples, numChannels, len, Wrap(pos, len)) + Looped(samples, numChannels, len, Wrap(pos, len) + 1, m)
  {
  }

  /** The cursor, wrapped, is the cursor modulo the file length. */
  lemma WrapModulo(pos: nat, i: nat, len: nat)
    requires 0 < len && pos <= len
    ensures (Wrap(pos, len) + i) % len == (pos + i) % len
  {
    if pos == len {
      ModShift(i, len);
    }
  }

  /** Looped plays the file round and round: output frame `i` is file frame `(pos + i) mod len`. */
  lemma LoopedFrame(samples: seq<real>, numChannels: nat, len: nat, pos: nat, n: nat, i: nat)
    requires 0 < len && pos <= len && |samples| == Blocks(len, numChannels) && i < n
    ensures Blocks(i, numChannels) + numChannels <= Blocks(n, numChannels)
    ensures Looped(samples, numChannels, len, pos, n)[Blocks(i, numChannels)..Blocks(i, numChannels) + numChannels]
         == FrameOf(samples, numChannels, len, (pos + i) % len)
  {
    LoopedFrameAt(samples, numChannels, len, pos, n, i);
    CursorAfterModulo(pos, i, len);
  }

  /** The file frame a cursor at `pos` plays `i` frames on, stepping one frame at a time and
      going back to frame 0 at the end, as Looped does. */
  function CursorAfter(pos: nat, i: nat, len: nat): (f: nat)
    requires 0 < len && pos <= len
    ensures f < len
    decreases i
  {
    if i == 0 then Wrap(pos, len) else CursorAfter(Wrap(pos, len) + 1, i - 1, len)
  }

  /** Stepping `i` frames from `pos` is stepping `i - 1` frames from the frame after it. */
  lemma CursorAfterStep(pos: nat, i: nat, len: nat)
    requires 0 < len && pos <= len && 0 < i
    ensures CursorAfter(pos, i, len) == CursorAfter(Wrap(pos, len) + 1, i - 1, len)
  {
  }

  /** Stepping `i` frames from `pos` lands on frame `(pos + i) mod len`. */
  lemma {:induction false} CursorAfterModulo(pos: nat, i: nat, len: nat)
    requires 0 < len && pos <= len
    ensures CursorAfter(pos, i, len) == (pos + i) % len
    decreases i
  {
    if i == 0 {
      WrapFirst(pos, i, len);
    } else {
      CursorAfterModulo(Wrap(pos, len) + 1, i - 1, len);
      WrapNext(pos, i, len);
    }
  }

  /** Output frame `i` of Looped is the frame `i` steps on from the cursor. */
  lemma {:induction false} LoopedFrameAt(samples: seq<real>, numChannels: nat, len: nat, pos: nat, n: nat, i: nat)
    requires 0 < len && pos <= len && |samples| == Blocks(len, numChannels) && i < n
    ensures Blocks(i, numChannels) + numChannels <= Blocks(n, numChannels)
    ensures Looped(samples, numChannels, len, pos, n)[Blocks(i, numChannels)..Blocks(i, numChannels) + numChannels]
         == FrameOf(samples, numChannels, len, CursorAfter(pos, i, len))
    decreases i
  {
    if i == 0 {
      FrameInside(i, n, numChannels);
      LoopedStep(samples, numChannels, len, pos, n, n - 1);
      FirstOf(FrameOf(samples, numChannels, len, Wrap(pos, len)), Looped(samples, numChannels, len, Wrap(pos, len) + 1, n - 1),
              Blocks(i, numChannels), numChannels);
    } else {
      LoopedFrameAt(samples, numChannels, len, Wrap(pos, len) + 1, n - 1, i - 1);
      LoopedFrameNext(samples, numChannels, len, pos, n, i);
    }
  }

  /** The inductive step of LoopedFrameAt: frame `i - 1` after the first frame is frame `i`. */
  lemma LoopedFrameNext(samples: seq<real>, numChannels: nat, len: nat, pos: nat, n: nat, i: nat)
    requires 0 < len && pos <= len && |samples| == Blocks(len, numChannels) && 0 < i < n
    requires Blocks(i - 1, numChannels) + numChannels <= Blocks(n - 1, numChannels)
    requires Looped(samples, numChannels, len, Wrap(pos, len) + 1, n - 1)
               [Blocks(i - 1, numChannels)..Blocks(i - 1, numChannels) + numChannels]
             == FrameOf(samples, numChannels, len, CursorAfter(Wrap(pos, len) + 1, i - 1, len))
    ensures Blocks(i, numChannels) + numChannels <= Blocks(n, numChannels)
    ensures Looped(samples, numChannels, len, pos, n)[Blocks(i, numChannels)..Blocks(i, numChannels) + numChannels]
         == FrameOf(samples, numChannels, len, CursorAfter(pos, i, len))
  {
    FrameInside(i, n, numChannels);
    LoopedStep(samples, numChannels, len, pos, n, n - 1);
    BlocksPrev(i, numChannels);
    CursorAfterStep(pos, i, len);
    SliceAfter(FrameOf(samples, numChannels, len, Wrap(pos, len)), Looped(samples, numChannels, len, Wrap(pos, len) + 1, n - 1),
               Blocks(i, numChannels), Blocks(i - 1, numChannels), numChannels);
  }

  /** The frame under the cursor is frame `pos mod len`. */
  lemma WrapFirst(pos: nat, i: nat, len: nat)
    requires 0 < len && pos <= len && i == 0
    ensures Wrap(pos, len) == (pos + i) % len
  {
    WrapModulo(pos, i, len);
    ModSmall(Wrap(pos, len), len);
  }

  /** The frame `i` steps on from the cursor is `i - 1` steps on from the next frame. */
  lemma WrapNext(pos: nat, i: nat, len: nat)
    requires 0 < len && pos <= len && 0 < i
    ensures (Wrap(pos, len) + 1 + (i - 1)) % len == (pos + i) % len
  {
    WrapModulo(pos, i, len);
  }

  /** Blocks, counted back from the last one. */
  lemma BlocksPrev(x: nat, size: nat)
    requires 0 < x
    ensures Blocks(x, size) == Blocks(x - 1, size) + size
  {
  }

  /** The first `size` elements of `first + rest` are `first`. */
  lemma FirstOf<T>(first: seq<T>, rest: seq<T>, j: nat, size: nat)
    requires j == 0 && |first| == size
    ensures (first + rest)[j..j + size] == first
  {
  }

  /** Past a leading block, a window of `first + rest` is the same window of `rest`. */
  lemma SliceAfter<T>(first: seq<T>, rest: seq<T>, j: nat, k: nat, size: nat)
    requires |first| == size && j == k + size && k + size <= |rest|
    ensures (first + rest)[j..j + size] == rest[k..k + size]
  {
  }

  /** A block past `x` blocks starts where they end. */
  lemma BlocksNext(x: nat, size: nat)
    ensures Blocks(x + 1, size) == Blocks(x, size) + size
  {
  }

  /** Inside the file, looped playback is just the contiguous run of frames. */
  lemma {:induction false} LoopedContiguous(samples: seq<real>, numChannels: nat, len: nat, pos: nat, n: nat)
    requires 0 < len && |samples| == Blocks(len, numChannels) && pos + n <= len
    ensures Blocks(pos, numChannels) <= Blocks(pos + n, numChannels) <= |samples|
    ensures Looped(samples, numChannels, len, pos, n) == samples[Blocks(pos, numChannels)..Blocks(pos + n, numChannels)]
    decreases n
  {
    if n > 0 {
      LoopedContiguous(samples, numChannels, len, pos + 1, n - 1);
      LoopedContiguousNext(samples, numChannels, len, pos, n);
    } else {
      BlocksMono(pos, len, numChannels);
    }
  }

  /** The inductive step of LoopedContiguous: one more frame in front of the run. */
  lemma LoopedContiguousNext(samples: seq<real>, numChannels: nat, len: nat, pos: nat, n: nat)
    requires 0 < len && |samples| == Blocks(len, numChannels) && pos + n <= len && 0 < n
    requires Blocks(pos + 1, numChannels) <= Blocks(pos + 1 + (n - 1), numChannels) <= |samples|
    requires Looped(samples, numChannels, len, pos + 1, n - 1)
          == samples[Blocks(pos + 1, numChannels)..Blocks(pos + 1 + (n - 1), numChannels)]
    ensures Blocks(pos, numChannels) <= Blocks(pos + n, numChannels) <= |samples|
    ensures Looped(samples, numChannels, len, pos, n) == samples[Blocks(pos, numChannels)..Blocks(pos + n, numChannels)]
  {
    LoopedStepInside(samples, numChannels, len, pos, n);
    ContiguousStep(samples, numChannels, len, pos, n);
  }

  /** LoopedStep for a cursor inside the file. */
  lemma LoopedStepInside(samples: seq<real>, numChannels: nat, len: nat, pos: nat, n: nat)
    requires pos < len && 0 < n && |samples| == Blocks(len, numChannels)
    ensures Looped(samples, numChannels, len, pos, n)
         == FrameOf(samples, numChannels, len, pos) + Looped(samples, numChannels, len, pos + 1, n - 1)
  {
  }

  /** One frame followed by the run of frames after it is the run from that frame. */
  lemma ContiguousStep(samples: seq<real>, numChannels: nat, len: nat, pos: nat, n: nat)
    requires 0 < n && pos + n <= len && |samples| == Blocks(len, numChannels)
    ensures Blocks(pos + 1, numChannels) <= Blocks(pos + 1 + (n - 1), numChannels) <= |samples|
    ensures Blocks(pos, numChannels) <= Blocks(pos + n, numChannels) <= |samples|
    ensures FrameOf(samples, numChannels, len, pos) + samples[Blocks(pos + 1, numChannels)..Blocks(pos + 1 + (n - 1), numChannels)]
         == samples[Blocks(pos, numChannels)..Blocks(pos + n, numChannels)]
  {
    BlocksNext(pos, numChannels);
    BlocksMono(pos + 1, pos + n, numChannels);
    BlocksMono(pos + n, len, numChannels);
    SliceJoin(samples, Blocks(pos, numChannels), Blocks(pos + 1, numChannels), Blocks(pos + n, numChannels));
  }

  /** Adjacent slices join. */
  lemma SliceJoin<T>(s: seq<T>, a: nat, m: nat, b: nat)
    requires a <= m <= b <= |s|
    ensures s[a..m] + s[m..b] == s[a..b]
  {
  }

  /** A cursor at the end of the file plays like one at frame 0. */
  lemma LoopedAtEnd(samples: seq<real>, numChannels: nat, len: nat, n: nat)
    requires 0 < len && |samples| == Blocks(len, numChannels)
    ensures Looped(samples, numChannels, len, len, n) == Looped(samples, numChannels, len, 0, n)
  {
  }

  /** The cursor one request moves the reference playback on to. */
  lemma NextCursorStep(pos: nat, a: nat, len: nat)
    requires 0 < len && pos <= len && 0 < a <= len
    ensures NextCursor(Wrap(pos, len) + 1, a - 1, len) == NextCursor(pos, a, len)
  {
  }

  /** The cursor looped playback reaches from `pos` after `n` frames, going back to frame 0
      whenever the end is reached: the cursor the callback evidently means to keep, and
      which it does keep for requests no longer than the file (NextCursorIsLoopCursor). */
  function LoopCursor(pos: nat, n: nat, len: nat): (next: nat)
    requires 0 < len && pos <= len
    ensures next <= len
    decreases n
  {
    if n == 0 then pos else LoopCursor(Wrap(pos, len) + 1, n - 1, len)
  }

  /** LoopCursor has moved by exactly `n` frames modulo the file length. */
  lemma {:induction false} LoopCursorModulo(pos: nat, n: nat, len: nat)
    requires 0 < len && pos <= len
    ensures LoopCursor(pos, n, len) % len == (pos + n) % len
    decreases n
  {
    if n > 0 {
      LoopCursorModulo(Wrap(pos, len) + 1, n - 1, len);
      WrapModulo(pos, n, len);
    }
  }

  /** For a request no longer than the file the source's cursor is the looped cursor. */
  lemma {:induction false} NextCursorIsLoopCursor(pos: nat, n: nat, len: nat)
    requires 0 < len && pos <= len && n <= len
    ensures NextCursor(pos, n, len) == LoopCursor(pos, n, len)
    decreases n
  {
    if n > 0 {
      NextCursorStep(pos, n, len);
      NextCursorIsLoopCursor(Wrap(pos, len) + 1, n - 1, len);
    }
  }

  /** A request longer than the file: with `2 * len + 1` frames asked from frame 0 the
      source's cursor lands one frame past the end, where the looped cursor is back inside
      the file; the next callback's `sFileNumFrames - sReadPosition`, computed on 32-bit
      unsigned ints, then wraps to 0xFFFF_FFFF frames. */
  lemma CursorLeavesFile(len: nat)
    requires 0 < len
    ensures NextCursor(0, 2 * len + 1, len) == len + 1
    ensures LoopCursor(0, 2 * len + 1, len) <= len
    ensures (len - NextCursor(0, 2 * len + 1, len)) % 0x1_0000_0000 == 0xFFFF_FFFF
  {
  }

  /** Consecutive requests of any size continue one another along the looped stream: the
      frames of a request of `a` frames and then of `b` frames from the looped cursor are the
      frames of one request of `a + b`. */
  lemma {:induction false} LoopedCalls(samples: seq<real>, numChannels: nat, len: nat, pos: nat, a: nat, b: nat)
    requires 0 < len && |samples| == Blocks(len, numChannels) && pos <= len
    ensures Looped(samples, numChannels, len, pos, a) + Looped(samples, numChannels, len, LoopCursor(pos, a, len), b)
         == Looped(samples, numChannels, len, pos, a + b)
    decreases a
  {
    if a == 0 {
      assert Looped(samples, numChannels, len, pos, a) == [];
      assert a + b == b;
    } else {
      LoopedCalls(samples, numChannels, len, Wrap(pos, len) + 1, a - 1, b);
      LoopedCallsNext(samples, numChannels, len, pos, a, b);
    }
  }

  /** The inductive step of LoopedCalls: the first request starts with one more frame. */
  lemma LoopedCallsNext(samples: seq<real>, numChannels: nat, len: nat, pos: nat, a: nat, b: nat)
    requires 0 < len && |samples| == Blocks(len, numChannels) && pos <= len && 0 < a
    requires Looped(samples, numChannels, len, Wrap(pos, len) + 1, a - 1)
           + Looped(samples, numChannels, len, LoopCursor(Wrap(pos, len) + 1, a - 1, len), b)
          == Looped(samples, numChannels, len, Wrap(pos, len) + 1, a - 1 + b)
    ensures Looped(samples, numChannels, len, pos, a) + Looped(samples, numChannels, len, LoopCursor(pos, a, len), b)
         == Looped(samples, numChannels, len, pos, a + b)
  {
    LoopedStep(samples, numChannels, len, pos, a + b, a - 1 + b);
    LoopedStep(samples, numChannels, len, pos, a, a - 1);
    AppendSteps(Looped(samples, numChannels, len, pos, a), Looped(samples, numChannels, len, LoopCursor(pos, a, len), b),
                Looped(samples, numChannels, len, pos, a + b), FrameOf(samples, numChannels, len, Wrap(pos, len)),
                Looped(samples, numChannels, len, Wrap(pos, len) + 1, a - 1),
                Looped(samples, numChannels, len, LoopCursor(Wrap(pos, len) + 1, a - 1, len), b),
                Looped(samples, numChannels, len, Wrap(pos, len) + 1, a - 1 + b));
  }

  /** Consecutive callbacks continue where the previous one stopped: when the first request
      is no longer than the file, the frames it serves and then those of a request of `b`
      frames from the cursor it leaves are the frames of one request of `a + b`. */
  lemma ConsecutiveCalls(samples: seq<real>, numChannels: nat, len: nat, pos: nat, a: nat, b: nat)
    requires 0 < len && |samples| == Blocks(len, numChannels) && pos <= len && a <= len
    ensures NextCursor(pos, a, len) <= len
    ensures Looped(samples, numChannels, len, pos, a) + Looped(samples, numChannels, len, NextCursor(pos, a, len), b)
         == Looped(samples, numChannels, len, pos, a + b)
  {
    NextCursorIsLoopCursor(pos, a, len);
    LoopedCalls(samples, numChannels, len, pos, a, b);
  }

  /** Prepending one frame to two runs played back to back prepends it to their join. */
  lemma AppendSteps<T>(first: seq<T>, second: seq<T>, whole: seq<T>, frame: seq<T>, x: seq<T>, y: seq<T>, joined: seq<T>)
    requires first == frame + x && second == y && x + y == joined && whole == frame + joined
    ensures first + second == whole
  {
  }

  /** Across the end of the file, looped playback is the tail of the file followed by its
      beginning. */
  lemma LoopedWrapped(samples: seq<real>, numChannels: nat, len: nat, pos: nat, n: nat)
    requires 0 < len && |samples| == Blocks(len, numChannels)
    requires pos <= len < pos + n && n <= len
    ensures Looped(samples, numChannels, len, pos, n)
         == Looped(samples, numChannels, len, pos, len - pos) + Looped(samples, numChannels, len, 0, n - (len - pos))
  {
    ConsecutiveCalls(samples, numChannels, len, pos, len - pos, n - (len - pos));
    assert NextCursor(pos, len - pos, len) == len;
    LoopedAtEnd(samples, numChannels, len, n - (len - pos));
  }

  /** Seamless looping: for a request no longer than the file, whether or not it runs past
      the end, the callback leaves in its buffer exactly the looped frames from the cursor on,
      output frame `i` being file frame `(pos + i) mod len` (LoopedFrame). */
  lemma SeamlessLoop(before: seq<real>, data: seq<Byte>, numBits: int, numChannels: nat, len: nat, pos: nat, n: nat)
    requires IsSupportedWidth(numBits) && 0 < len && pos <= len && n <= len
    requires |data| == Blocks(len, FrameBytes(numChannels, numBits))
    requires Blocks(n, numChannels) <= |before|
    ensures |Decode(data, numBits)| == Blocks(len, numChannels)
    ensures CallbackOutput(before, data, numBits, numChannels, len, pos, n)
         == Overwrite(before, 0, Looped(Decode(data, numBits), numChannels, len, pos, n))
  {
    FrameBlocks(len, numChannels, numBits);
    WordsIn(|data|, Blocks(len, numChannels), numBits);
    if pos + n <= len {
      LoopedReadInside(data, numBits, numChannels, len, pos, n);
      CallbackOutputInside(before, data, numBits, numChannels, len, pos, n);
    } else {
      SeamlessAcrossEnd(before, data, numBits, numChannels, len, pos, n);
    }
  }

  /** The frames counted by FramesRead are the frames the callback left at the start of
      the buffer: the looped frames from the cursor on. */
  lemma FramesReadAreServed(before: seq<real>, data: seq<Byte>, numBits: int, numChannels: nat, len: nat, pos: nat, n: nat)
    requires IsSupportedWidth(numBits) && 0 < len && pos <= len && n <= len
    requires |data| == Blocks(len, FrameBytes(numChannels, numBits))
    requires Blocks(n, numChannels) <= |before|
    ensures |Decode(data, numBits)| == Blocks(len, numChannels)
    ensures CallbackOutput(before, data, numBits, numChannels, len, pos, n)[..Blocks(FramesRead(pos, n, len), numChannels)]
         == Looped(Decode(data, numBits), numChannels, len, pos, FramesRead(pos, n, len))
  {
    SeamlessLoop(before, data, numBits, numChannels, len, pos, n);
    var served := Looped(Decode(data, numBits), numChannels, len, pos, n);
    assert Overwrite(before, 0, served)[0..|served|] == served;
  }

  /** SeamlessLoop for a request that runs past the end of the file. */
  lemma SeamlessAcrossEnd(before: seq<real>, data: seq<Byte>, numBits: int, numChannels: nat, len: nat, pos: nat, n: nat)
    requires IsSupportedWidth(numBits) && 0 < len && pos <= len < pos + n && n <= len
    requires |data| == Blocks(len, FrameBytes(numChannels, numBits))
    requires |Decode(data, numBits)| == Blocks(len, numChannels)
    requires Blocks(n, numChannels) <= |before|
    ensures CallbackOutput(before, data, numBits, numChannels, len, pos, n)
         == Overwrite(before, 0, Looped(Decode(data, numBits), numChannels, len, pos, n))
  {
    LoopedReadTail(data, numBits, numChannels, len, pos);
    LoopedReadHead(data, numBits, numChannels, len, pos, n);
    LoopedWrapped(Decode(data, numBits), numChannels, len, pos, n);
    BlocksAcrossEnd(len, pos, n, numChannels);
    CallbackOutputAcrossEnd(before, data, numBits, numChannels, len, pos, n);
    JoinReads(before, ReadSamples(data, pos, len - pos, numBits, numChannels), ReadSamples(data, 0, n - (len - pos), numBits, numChannels),
              Looped(Decode(data, numBits), numChannels, len, pos, len - pos),
              Looped(Decode(data, numBits), numChannels, len, 0, n - (len - pos)),
              Looped(Decode(data, numBits), numChannels, len, pos, n), Blocks(len - pos, numChannels));
  }

  /** The read of the tail of the file reads the looped frames up to the end. */
  lemma LoopedReadTail(data: seq<Byte>, numBits: int, numChannels: nat, len: nat, pos: nat)
    requires IsSupportedWidth(numBits) && 0 < len && pos <= len
    requires |data| == Blocks(len, FrameBytes(numChannels, numBits))
    requires |Decode(data, numBits)| == Blocks(len, numChannels)
    ensures ReadSamples(data, pos, len - pos, numBits, numChannels)
         == Looped(Decode(data, numBits), numChannels, len, pos, len - pos)
  {
    LoopedReadInside(data, numBits, numChannels, len, pos, len - pos);
  }

  /** The read from frame 0 after a wrap reads the looped frames from the start. */
  lemma LoopedReadHead(data: seq<Byte>, numBits: int, numChannels: nat, len: nat, pos: nat, n: nat)
    requires IsSupportedWidth(numBits) && 0 < len && pos <= len < pos + n && n <= len
    requires |data| == Blocks(len, FrameBytes(numChannels, numBits))
    requires |Decode(data, numBits)| == Blocks(len, numChannels)
    ensures ReadSamples(data, 0, n - (len - pos), numBits, numChannels)
         == Looped(Decode(data, numBits), numChannels, len, 0, n - (len - pos))
  {
    LoopedReadInside(data, numBits, numChannels, len, 0, n - (len - pos));
  }

  /** The frames up to the end and the frames after the wrap fill the request. */
  lemma BlocksAcrossEnd(len: nat, pos: nat, n: nat, numChannels: nat)
    requires pos <= len < pos + n
    ensures Blocks(len - pos, numChannels) + Blocks(n - (len - pos), numChannels) == Blocks(n, numChannels)
  {
    BlocksAdd(len - pos, n - (len - pos), numChannels);
  }

  /** Two reads side by side that match two runs of looped frames leave the joined run. */
  lemma JoinReads(before: seq<real>, r1: seq<real>, r2: seq<real>, l1: seq<real>, l2: seq<real>, whole: seq<real>, off: nat)
    requires r1 == l1 && r2 == l2 && whole == l1 + l2 && off == |l1| && |l1| + |l2| <= |before|
    ensures Overwrite(Overwrite(before, 0, r1), off, r2) == Overwrite(before, 0, whole)
  {
    OverwriteAdjacent(before, 0, l1, l2);
  }

  /** One read inside the file reads the matching looped frames. */
  lemma LoopedReadInside(data: seq<Byte>, numBits: int, numChannels: nat, len: nat, pos: nat, n: nat)
    requires IsSupportedWidth(numBits) && 0 < len && pos + n <= len
    requires |data| == Blocks(len, FrameBytes(numChannels, numBits))
    requires |Decode(data, numBits)| == Blocks(len, numChannels)
    ensures ReadSamples(data, pos, n, numBits, numChannels) == Looped(Decode(data, numBits), numChannels, len, pos, n)
  {
    BlocksMono(pos + n, len, FrameBytes(numChannels, numBits));
    ReadSamplesWindow(data, pos, n, numBits, numChannels);
    LoopedContiguous(Decode(data, numBits), numChannels, len, pos, n);
  }

  /** CallbackOutput of a request that runs past the end: the two reads, side by side. */
  lemma CallbackOutputAcrossEnd(before: seq<real>, data: seq<Byte>, numBits: int, numChannels: nat, len: nat, pos: nat, n: nat)
    requires 8 <= numBits && pos <= len < pos + n
    ensures CallbackOutput(before, data, numBits, numChannels, len, pos, n)
         == Overwrite(Overwrite(before, 0, ReadSamples(data, pos, len - pos, numBits, numChannels)),
                      Blocks(len - pos, numChannels), ReadSamples(data, 0, n - (len - pos), numBits, numChannels))
  {
  }

  /** CallbackOutput of a request inside the file: one read. */
  lemma CallbackOutputInside(before: seq<real>, data: seq<Byte>, numBits: int, numChannels: nat, len: nat, pos: nat, n: nat)
    requires 8 <= numBits && pos + n <= len
    ensures CallbackOutput(before, data, numBits, numChannels, len, pos, n)
         == Overwrite(before, 0, ReadSamples(data, pos, n, numBits, numChannels))
  {
  }

  /** The callback's user data (`userDataStruct`): the read cursor, the file length in
      frames, the sound's format and the sound itself. */
  class PlaybackState {
    var readPosition: nat
    const fileNumFrames: nat
    const numChannels: nat
    const numBits: int
    const sound: Sound

    /** Between callbacks the cursor is inside the file and the sound is not locked. */
    predicate Valid()
      reads this, sound
    {
      readPosition <= fileNumFrames && 8 <= numBits && !sound.locked
    }

    /** The setup in the example's main: cursor at frame 0, length and format as the sound
        reports them. */
    constructor (sound: Sound, fileNumFrames: nat, numChannels: nat, numBits: int)
      requires 8 <= numBits && !sound.locked
      ensures Valid() && readPosition == 0
      ensures this.sound == sound && this.fileNumFrames == fileNumFrames
      ensures this.numChannels == numChannels && this.numBits == numBits
    {
      readPosition := 0;
      this.sound := sound;
      this.fileNumFrames := fileNumFrames;
      this.numChannels := numChannels;
      this.numBits := numBits;
    }
  }

  /** diracDataProviderCallback: with no buffer or no state it returns 0 and touches
      nothing; otherwise it serves the request (ServeFrames). */
  method DiracDataProviderCallback(chdata: array?<real>, numFrames: int, state: PlaybackState?) returns (r: int)
    requires numFrames >= 0
    requires chdata != null && state != null ==> state.Valid() && Blocks(numFrames, state.numChannels) <= chdata.Length
    modifies chdata, state, if state != null then {state.sound} else {}
    ensures chdata == null || state == null ==> r == 0
    ensures chdata == null && state != null ==> unchanged(state, state.sound)
    ensures chdata != null && state == null ==> chdata[..] == old(chdata[..])
    ensures chdata != null && state != null ==>
              && r == ReturnedCount(old(state.readPosition), numFrames, state.fileNumFrames)
              && state.readPosition == NextCursor(old(state.readPosition), numFrames, state.fileNumFrames)
              && chdata[..] == CallbackOutput(old(chdata[..]), state.sound.data, state.numBits, state.numChannels,
                                              state.fileNumFrames, old(state.readPosition), numFrames)
              && (numFrames <= state.fileNumFrames ==> state.Valid())
              && !state.sound.locked
              && state.sound.calls == old(state.sound.calls) + CallbackCalls(state.sound.data, state.numBits, state.numChannels,
                                                                            state.fileNumFrames, old(state.readPosition), numFrames)
  {
    if chdata == null {
      return 0;
    }
    if state == null {
      return 0;
    }
    r := ServeFrames(chdata, numFrames, state);
  }

  /** The body of the callback once both pointers are known: read up to the end of the
      file and, if the request runs past it, rewind and read the rest from frame 0 right
      after those frames; the cursor moves on by the request, the reduced count is
      returned, and every lock is paired with its unlock. */
  method ServeFrames(chdata: array<real>, numFrames: nat, state: PlaybackState) returns (r: nat)
    requires state.Valid() && Blocks(numFrames, state.numChannels) <= chdata.Length
    modifies chdata, state, state.sound
    ensures r == ReturnedCount(old(state.readPosition), numFrames, state.fileNumFrames)
    ensures state.readPosition == NextCursor(old(state.readPosition), numFrames, state.fileNumFrames)
    ensures chdata[..] == CallbackOutput(old(chdata[..]), state.sound.data, state.numBits, state.numChannels,
                                         state.fileNumFrames, old(state.readPosition), numFrames)
    ensures numFrames <= state.fileNumFrames ==> state.Valid()
    ensures !state.sound.locked
    ensures state.sound.calls == old(state.sound.calls) + CallbackCalls(state.sound.data, state.numBits, state.numChannels,
                                                                         state.fileNumFrames, old(state.readPosition), numFrames)
  {
    var mySound := state.sound;
    ghost var calls0 := mySound.calls;
    ghost var made: seq<SoundCall> := [];
    ghost var before := chdata[..];
    ghost var pos := state.readPosition;
    var framesToReadBeforeEndOfFile: nat := 0;
    var frames: nat := numFrames;
    if state.readPosition + frames > state.fileNumFrames {
      framesToReadBeforeEndOfFile := state.fileNumFrames - state.readPosition;
      ReadSamplesLength(mySound.data, state.readPosition, framesToReadBeforeEndOfFile, state.numBits, state.numChannels);
      BlocksMono(framesToReadBeforeEndOfFile, numFrames, state.numChannels);
      var _ := ReadFromSound(chdata, 0, state.readPosition, framesToReadBeforeEndOfFile, mySound, state.numBits, state.numChannels);
      made := ReadCalls(mySound.data, pos, framesToReadBeforeEndOfFile, state.numBits, state.numChannels);
      state.readPosition := 0;
      frames := frames - framesToReadBeforeEndOfFile;
    } else {
      assert calls0 + made == calls0;
    }
    ghost var middle := chdata[..];
    ghost var start := state.readPosition;
    ReadSamplesLength(mySound.data, start, frames, state.numBits, state.numChannels);
    BlocksSum(framesToReadBeforeEndOfFile, frames, numFrames, state.numChannels);
    var _ := ReadFromSound(chdata, framesToReadBeforeEndOfFile * state.numChannels, state.readPosition, frames,
                           mySound, state.numBits, state.numChannels);
    AppendAssoc(calls0, made, ReadCalls(mySound.data, start, frames, state.numBits, state.numChannels));
    if pos + numFrames > state.fileNumFrames {
      StepsAcrossEnd(before, middle, mySound.data, state.numBits, state.numChannels, state.fileNumFrames, pos, numFrames,
                     framesToReadBeforeEndOfFile, start, frames, framesToReadBeforeEndOfFile * state.numChannels);
    } else {
      assert made == [];
      StepsInside(before, mySound.data, state.numBits, state.numChannels, state.fileNumFrames, pos, numFrames,
                  start, frames, framesToReadBeforeEndOfFile * state.numChannels);
    }
    state.readPosition := state.readPosition + frames;
    return frames;
  }

  /** The two reads of a callback fill the frames it was asked for; the offset of the
      second is the product the source computes. */
  lemma BlocksSum(first: nat, second: nat, n: nat, numChannels: nat)
    requires first + second == n
    ensures Blocks(first, numChannels) + Blocks(second, numChannels) == Blocks(n, numChannels)
    ensures Blocks(first, numChannels) == first * numChannels
  {
    BlocksAdd(first, second, numChannels);
    BlocksIsProduct(first, numChannels);
  }

  /** Appending is associative. */
  lemma AppendAssoc<T>(a: seq<T>, b: seq<T>, c: seq<T>)
    ensures (a + b) + c == a + (b + c)
  {
  }

  /** CallbackOutput of a request that runs past the end is what the callback's two steps
      leave: the read of the tail of the file, then the read from frame 0 placed after it. */
  lemma StepsAcrossEnd(before: seq<real>, middle: seq<real>, data: seq<Byte>, numBits: int, numChannels: nat,
                       len: nat, pos: nat, n: nat, tail: nat, start: nat, frames: nat, offset: nat)
    requires 8 <= numBits && pos <= len < pos + n && offset == Blocks(tail, numChannels)
    requires tail == len - pos && start == 0 && frames == n - tail
    requires middle == Overwrite(before, 0, ReadSamples(data, pos, tail, numBits, numChannels))
    ensures CallbackOutput(before, data, numBits, numChannels, len, pos, n)
         == Overwrite(middle, offset, ReadSamples(data, start, frames, numBits, numChannels))
    ensures CallbackCalls(data, numBits, numChannels, len, pos, n)
         == ReadCalls(data, pos, tail, numBits, numChannels) + ReadCalls(data, start, frames, numBits, numChannels)
  {
    CallbackOutputAcrossEnd(before, data, numBits, numChannels, len, pos, n);
    TailReadsAgree(data, numBits, numChannels, len, pos, n, tail, start, frames);
    OverwriteTwice(before, ReadSamples(data, pos, tail, numBits, numChannels), ReadSamples(data, pos, len - pos, numBits, numChannels),
                   offset, Blocks(len - pos, numChannels),
                   ReadSamples(data, start, frames, numBits, numChannels), ReadSamples(data, 0, n - (len - pos), numBits, numChannels));
  }

  /** The callback's own counts name the same windows as CallbackOutput. */
  lemma TailReadsAgree(data: seq<Byte>, numBits: int, numChannels: nat, len: nat, pos: nat, n: nat,
                       tail: nat, start: nat, frames: nat)
    requires 8 <= numBits && pos <= len < pos + n
    requires tail == len - pos && start == 0 && frames == n - tail
    ensures Blocks(tail, numChannels) == Blocks(len - pos, numChannels)
    ensures ReadSamples(data, pos, tail, numBits, numChannels) == ReadSamples(data, pos, len - pos, numBits, numChannels)
    ensures ReadSamples(data, start, frames, numBits, numChannels) == ReadSamples(data, 0, n - (len - pos), numBits, numChannels)
    ensures ReadCalls(data, pos, tail, numBits, numChannels) == ReadCalls(data, pos, len - pos, numBits, numChannels)
    ensures ReadCalls(data, start, frames, numBits, numChannels) == ReadCalls(data, 0, n - (len - pos), numBits, numChannels)
  {
  }

  /** CallbackOutput of a request inside the file is what the callback's single read leaves. */
  lemma StepsInside(before: seq<real>, data: seq<Byte>, numBits: int, numChannels: nat,
                    len: nat, pos: nat, n: nat, start: nat, frames: nat, offset: nat)
    requires 8 <= numBits && pos + n <= len && offset == 0 && start == pos && frames == n
    ensures CallbackOutput(before, data, numBits, numChannels, len, pos, n)
         == Overwrite(before, offset, ReadSamples(data, start, frames, numBits, numChannels))
    ensures CallbackCalls(data, numBits, numChannels, len, pos, n) == [] + ReadCalls(data, start, frames, numBits, numChannels)
  {
    CallbackOutputInside(before, data, numBits, numChannels, len, pos, n);
    assert [] + ReadCalls(data, start, frames, numBits, numChannels) == ReadCalls(data, start, frames, numBits, numChannels);
  }

  /** Two writes with equal windows at equal offsets leave equal buffers. */
  lemma OverwriteTwice(before: seq<real>, a1: seq<real>, a2: seq<real>, off1: nat, off2: nat, r1: seq<real>, r2: seq<real>)
    requires a1 == a2 && off1 == off2 && r1 == r2
    ensures Overwrite(Overwrite(before, 0, a1), off1, r1) == Overwrite(Overwrite(before, 0, a2), off2, r2)
  {
  }

  /** Integer division's remainder is the unique one. */
  lemma ModUnique(x: int, q: int, r: int, len: int)
    requires len > 0 && x == q * len + r && 0 <= r < len
    ensures x % len == r
  {
    var d := q - x / len;
    assert d * len == x % len - r;
  }

  /** Adding the modulus does not change the remainder. */
  lemma ModShift(x: int, len: int)
    requires len > 0
    ensures (x + len) % len == x % len
  {
    ModUnique(x + len, x / len + 1, x % len, len);
  }

  /** A number below the modulus is its own remainder. */
  lemma ModSmall(x: int, len: int)
    requires 0 <= x < len
    ensures x % len == x
  {
    ModUnique(x, 0, x, len);
  }
}
