/** Cutting JPEG frames out of a byte stream that arrives in arbitrary chunks: two incremental
    readers with different overflow rules, both against one parse of the whole stream. */
module JpegFraming {
  type Octet = x: int | 0 <= x < 256

  type Bytes = seq<Octet>

  const MARK: Octet := 0xff
  const START: Octet := 0xd8
  const END: Octet := 0xd9
  const MAX_BUFFER := 8 * 1024 * 1024

  // ----- markers ------------------------------------------------------------------------

  predicate MarkerAt(s: Bytes, kind: Octet, k: int) {
    0 <= k && k + 1 < |s| && s[k] == MARK && s[k + 1] == kind
  }

  /** `bytearray.find` for a two-byte marker. */
  function Find(s: Bytes, kind: Octet, from: nat): (r: int)
    ensures r == -1 || (from <= r && MarkerAt(s, kind, r))
    ensures forall k :: from <= k && (r == -1 || k < r) ==> !MarkerAt(s, kind, k)
    decreases |s| - from
  {
    if from + 1 >= |s| then -1
    else if MarkerAt(s, kind, from) then from
    else Find(s, kind, from + 1)
  }

  predicate Silent(s: Bytes) {
    Find(s, START, 0) == -1
  }

  lemma FindIs(s: Bytes, kind: Octet, from: nat, at: int)
    requires from <= at && MarkerAt(s, kind, at)
    requires forall k :: from <= k < at ==> !MarkerAt(s, kind, k)
    ensures Find(s, kind, from) == at
  {}

  /** A marker that is found stays where it is when bytes are appended. */
  lemma FindAppend(s: Bytes, more: Bytes, kind: Octet, from: nat)
    requires Find(s, kind, from) >= 0
    ensures Find(s + more, kind, from) == Find(s, kind, from)
  {
    var at := Find(s, kind, from);
    forall k | from <= k < at ensures !MarkerAt(s + more, kind, k) {
      assert !MarkerAt(s, kind, k);
    }
    FindIs(s + more, kind, from, at);
  }

  lemma FindNone(s: Bytes, kind: Octet, from: nat)
    requires forall k :: from <= k ==> !MarkerAt(s, kind, k)
    ensures Find(s, kind, from) == -1
  {}

  /** Dropping `n` leading bytes moves every later marker down by `n`. */
  lemma FindShift(s: Bytes, n: nat, kind: Octet, from: nat)
    requires n <= from && n <= |s|
    ensures Find(s[n..], kind, from - n) == if Find(s, kind, from) == -1 then -1 else Find(s, kind, from) - n
  {
    var rest, at := s[n..], Find(s, kind, from);
    if at == -1 {
      forall k | from - n <= k ensures !MarkerAt(rest, kind, k) {
        assert !MarkerAt(s, kind, k + n);
      }
      FindNone(rest, kind, from - n);
    } else {
      assert MarkerAt(rest, kind, at - n);
      forall k | from - n <= k < at - n ensures !MarkerAt(rest, kind, k) {
        assert !MarkerAt(s, kind, k + n);
      }
      FindIs(rest, kind, from - n, at - n);
    }
  }

  /** Nothing found before `n`: the search may as well begin there. */
  lemma FindLater(s: Bytes, kind: Octet, from: nat, n: nat)
    requires from <= n
    requires forall k :: from <= k < n ==> !MarkerAt(s, kind, k)
    ensures Find(s, kind, from) == Find(s, kind, n)
  {
    var at := Find(s, kind, n);
    if at == -1 {
      FindNone(s, kind, from);
    } else {
      FindIs(s, kind, from, at);
    }
  }

  // ----- the whole-stream parse --------------------------------------------------------------

  /** The frames cut from a stream and what is left over: an unfinished frame from its start
      marker on, or bytes without a start marker. */
  datatype Parsed = Parsed(frames: seq<Bytes>, rest: Bytes)

  function Parse(s: Bytes): Parsed
    decreases |s|
  {
    var start := Find(s, START, 0);
    if start < 0 then Parsed([], s)
    else
      var end := Find(s, END, start + 2);
      if end < 0 then Parsed([], s[start..])
      else
        var later := Parse(s[end + 2..]);
        Parsed([s[start..end + 2]] + later.frames, later.rest)
  }

  predicate WellShaped(jpeg: Bytes) {
    |jpeg| >= 4 && jpeg[..2] == [MARK, START] && jpeg[|jpeg| - 2..] == [MARK, END]
  }

  /** What is left over holds no start marker except, at most, at its very beginning, and then
      no end marker after it. */
  predicate Leftover(rest: Bytes) {
    Silent(rest) || (MarkerAt(rest, START, 0) && Find(rest, END, 2) == -1)
  }

  lemma FrameShape(s: Bytes, start: nat, end: nat)
    requires Find(s, START, 0) == start && Find(s, END, start + 2) == end
    ensures WellShaped(s[start..end + 2])
  {
    var frame := s[start..end + 2];
    assert frame[..2] == [MARK, START];
    assert frame[|frame| - 2..] == [MARK, END];
  }

  lemma OpenShape(s: Bytes, start: nat)
    requires Find(s, START, 0) == start && Find(s, END, start + 2) == -1
    ensures Leftover(s[start..])
  {
    FindShift(s, start, END, start + 2);
  }

  lemma {:induction false} ParseShape(s: Bytes)
    ensures forall k :: 0 <= k < |Parse(s).frames| ==> WellShaped(Parse(s).frames[k])
    ensures Leftover(Parse(s).rest)
    ensures |Parse(s).rest| <= |s|
    decreases |s|
  {
    var start := Find(s, START, 0);
    if start >= 0 {
      var end := Find(s, END, start + 2);
      if end < 0 {
        OpenShape(s, start);
      } else {
        ParseShape(s[end + 2..]);
        FrameShape(s, start, end);
        ParseOne(s, start, end);
      }
    }
  }

  lemma SliceOfDrop(s: Bytes, n: nat, i: nat, j: nat)
    requires n <= i <= j <= |s|
    ensures s[n..][i - n..j - n] == s[i..j] && s[n..][i - n..] == s[i..]
  {}

  lemma ParseOne(s: Bytes, start: nat, end: nat)
    requires Find(s, START, 0) == start && Find(s, END, start + 2) == end
    ensures Parse(s) == Parsed([s[start..end + 2]] + Parse(s[end + 2..]).frames, Parse(s[end + 2..]).rest)
  {}

  lemma ParseOpen(s: Bytes, start: nat)
    requires Find(s, START, 0) == start && Find(s, END, start + 2) == -1
    ensures Parse(s) == Parsed([], s[start..])
  {}

  /** The first frame, or the start of one, found `n` bytes later in the longer sequence. */
  lemma MarkersShift(s: Bytes, n: nat)
    requires n <= |s|
    requires forall k :: 0 <= k < n ==> !MarkerAt(s, START, k)
    ensures var start, t := Find(s, START, 0), s[n..];
            if start == -1 then Find(t, START, 0) == -1
            else start >= n && Find(t, START, 0) == start - n &&
                 var end := Find(s, END, start + 2);
                 if end == -1 then Find(t, END, start - n + 2) == -1
                 else end >= start + 2 && Find(t, END, start - n + 2) == end - n
  {
    FindLater(s, START, 0, n);
    FindShift(s, n, START, n);
    var start := Find(s, START, 0);
    if start >= 0 {
      FindShift(s, n, END, start + 2);
    }
  }

  lemma SameFirstFrame(s: Bytes, t: Bytes, n: nat, start: nat, end: nat)
    requires n <= start && Find(s, START, 0) == start && Find(s, END, start + 2) == end
    requires Find(t, START, 0) == start - n && Find(t, END, start - n + 2) == end - n
    requires t[start - n..end - n + 2] == s[start..end + 2] && t[end - n + 2..] == s[end + 2..]
    ensures Parse(s) == Parse(t)
  {
    ParseOne(s, start, end);
    ParseOne(t, start - n, end - n);
  }

  lemma ShiftedFrame(s: Bytes, t: Bytes, n: nat, start: nat, end: nat)
    requires n <= start && n <= |s| && t == s[n..]
    requires Find(s, START, 0) == start && Find(s, END, start + 2) == end
    requires Find(t, START, 0) == start - n && Find(t, END, start - n + 2) == end - n
    ensures Parse(s) == Parse(t)
  {
    SliceOfDrop(s, n, start, end + 2);
    SliceOfDrop(s, n, end + 2, |s|);
    SameFirstFrame(s, t, n, start, end);
  }

  lemma ShiftedOpening(s: Bytes, t: Bytes, n: nat, start: nat)
    requires n <= start && n <= |s| && t == s[n..]
    requires Find(s, START, 0) == start && Find(s, END, start + 2) == -1
    requires Find(t, START, 0) == start - n && Find(t, END, start - n + 2) == -1
    ensures Parse(s) == Parse(t)
  {
    ParseOpen(s, start);
    ParseOpen(t, start - n);
    SliceOfDrop(s, n, start, |s|);
  }

  /** Bytes before the first start marker do not matter to the frames. */
  lemma LeadingNoise(s: Bytes, t: Bytes, n: nat)
    requires n <= |s| && t == s[n..]
    requires forall k :: 0 <= k < n ==> !MarkerAt(s, START, k)
    ensures Silent(s) == Silent(t)
    ensures Parse(s).frames == Parse(t).frames
    ensures !Silent(s) ==> Parse(s).rest == Parse(t).rest
  {
    MarkersShift(s, n);
    var start := Find(s, START, 0);
    if start >= 0 {
      var end := Find(s, END, start + 2);
      if end < 0 {
        ShiftedOpening(s, t, n, start);
      } else {
        ShiftedFrame(s, t, n, start, end);
      }
    }
  }

  lemma SliceOfSum(s: Bytes, more: Bytes, i: nat, j: nat)
    requires i <= j <= |s|
    ensures (s + more)[i..j] == s[i..j] && (s + more)[j..] == s[j..] + more
  {}

  lemma FirstFrameFirst(s: Bytes, more: Bytes, start: nat, end: nat)
    requires start <= end && end + 2 <= |s|
    requires Find(s + more, START, 0) == start && Find(s + more, END, start + 2) == end
    ensures Parse(s + more) ==
            Parsed([s[start..end + 2]] + Parse(s[end + 2..] + more).frames, Parse(s[end + 2..] + more).rest)
  {
    SliceOfSum(s, more, start, end + 2);
    ParseOne(s + more, start, end);
  }

  lemma OpeningResumes(s: Bytes, more: Bytes, start: nat)
    requires start <= |s| && Find(s + more, START, 0) == start
    ensures Parse(s + more) == Parse(s[start..] + more)
  {
    SliceOfSum(s, more, start, start);
    forall k | 0 <= k < start ensures !MarkerAt(s + more, START, k) {}
    LeadingNoise(s + more, s[start..] + more, start);
  }

  /** Parsing may be interrupted anywhere: parse what there is, keep the leftover, and go on
      with the leftover in front of what comes next. */
  lemma {:induction false} ParseResumes(s: Bytes, more: Bytes)
    ensures Parse(s + more).frames == Parse(s).frames + Parse(Parse(s).rest + more).frames
    ensures Parse(s + more).rest == Parse(Parse(s).rest + more).rest
    decreases |s|
  {
    var start := Find(s, START, 0);
    if start >= 0 {
      FindAppend(s, more, START, 0);
      var end := Find(s, END, start + 2);
      if end < 0 {
        ParseOpen(s, start);
        OpeningResumes(s, more, start);
      } else {
        FindAppend(s, more, END, start + 2);
        var tail := s[end + 2..];
        ParseResumes(tail, more);
        ParseOne(s, start, end);
        FirstFrameFirst(s, more, start, end);
      }
    }
  }

  // ----- what the readers keep between chunks -----------------------------------------------------

  datatype Reader = Reader(buffer: Bytes, frames: seq<Bytes>)

  const FRESH := Reader([], [])

  /** The multicast camera: noise is cut to its last byte, an oversized open frame is dropped. */
  function CameraKeeps(rest: Bytes): (r: Bytes)
    ensures |r| <= MAX_BUFFER
  {
    if |rest| <= MAX_BUFFER then rest
    else if Silent(rest) then rest[|rest| - 1..]
    else []
  }

  /** The decoder: noise is dropped whole, an open frame may grow without limit. */
  function DecoderKeeps(rest: Bytes): Bytes {
    if |rest| > MAX_BUFFER && Silent(rest) then [] else rest
  }

  function CameraFeed(r: Reader, chunk: Bytes): Reader {
    var p := Parse(r.buffer + chunk);
    Reader(CameraKeeps(p.rest), r.frames + p.frames)
  }

  function DecoderFeed(r: Reader, chunk: Bytes): Reader {
    var p := Parse(r.buffer + chunk);
    Reader(DecoderKeeps(p.rest), r.frames + p.frames)
  }

  function CameraFed(chunks: seq<Bytes>): Reader {
    if chunks == [] then FRESH
    else CameraFeed(CameraFed(chunks[..|chunks| - 1]), chunks[|chunks| - 1])
  }

  function DecoderFed(chunks: seq<Bytes>): Reader {
    if chunks == [] then FRESH
    else DecoderFeed(DecoderFed(chunks[..|chunks| - 1]), chunks[|chunks| - 1])
  }

  function Join(chunks: seq<Bytes>): Bytes {
    if chunks == [] then [] else Join(chunks[..|chunks| - 1]) + chunks[|chunks| - 1]
  }

  // ----- when forgetting bytes is harmless ---------------------------------------------------------

  /** `kept` is a tail of `rest`, and the bytes cut off cannot begin a start marker. */
  predicate StandsFor(kept: Bytes, rest: Bytes) {
    && |kept| <= |rest| && kept == rest[|rest| - |kept|..]
    && (kept != rest ==> Silent(rest) && (kept != [] || rest[|rest| - 1] != MARK))
  }

  lemma NoMarkerInTheCut(kept: Bytes, rest: Bytes, more: Bytes, k: nat)
    requires StandsFor(kept, rest) && k < |rest| - |kept|
    ensures !MarkerAt(rest + more, START, k)
  {
    assert !MarkerAt(rest, START, k);
  }

  /** Whatever comes next, the kept bytes give the same frames as the full leftover would. */
  lemma SameFuture(kept: Bytes, rest: Bytes, more: Bytes)
    requires StandsFor(kept, rest)
    ensures Parse(kept + more).frames == Parse(rest + more).frames
    ensures StandsFor(Parse(kept + more).rest, Parse(rest + more).rest)
  {
    var n := |rest| - |kept|;
    var all := rest + more;
    assert all[n..] == kept + more;
    forall k | 0 <= k < n ensures !MarkerAt(all, START, k) {
      NoMarkerInTheCut(kept, rest, more, k);
    }
    LeadingNoise(all, kept + more, n);
  }

  /** For the camera, cutting the leftover loses nothing, whatever comes next, exactly when it
      is not an open frame beyond the limit. */
  lemma CameraCutIsHarmless(rest: Bytes)
    requires Leftover(rest)
    ensures (forall more :: Parse(CameraKeeps(rest) + more).frames == Parse(rest + more).frames) <==>
              Silent(rest) || |rest| <= MAX_BUFFER
  {
    if Silent(rest) || |rest| <= MAX_BUFFER {
      assert StandsFor(CameraKeeps(rest), rest);
      forall more ensures Parse(CameraKeeps(rest) + more).frames == Parse(rest + more).frames {
        SameFuture(CameraKeeps(rest), rest, more);
      }
    } else {
      var more := [MARK, END];
      ClosingFrame(rest);
      assert CameraKeeps(rest) + more == more;
      FindNone(more, START, 0);
    }
  }

  /** An end marker closes an open frame. */
  lemma ClosingFrame(rest: Bytes)
    requires MarkerAt(rest, START, 0)
    ensures |Parse(rest + [MARK, END]).frames| > 0
  {
    var all := rest + [MARK, END];
    FindIs(all, START, 0, 0);
    assert MarkerAt(all, END, |rest|);
    assert Find(all, END, 2) != -1;
  }

  /** For the decoder it loses nothing exactly when noise beyond the limit does not end in the
      first byte of a marker. */
  lemma DecoderCutIsHarmless(rest: Bytes)
    requires Leftover(rest)
    ensures (forall more :: Parse(DecoderKeeps(rest) + more).frames == Parse(rest + more).frames) <==>
              !Silent(rest) || |rest| <= MAX_BUFFER || rest[|rest| - 1] != MARK
  {
    if !Silent(rest) || |rest| <= MAX_BUFFER || rest[|rest| - 1] != MARK {
      assert StandsFor(DecoderKeeps(rest), rest);
      forall more ensures Parse(DecoderKeeps(rest) + more).frames == Parse(rest + more).frames {
        SameFuture(DecoderKeeps(rest), rest, more);
      }
    } else {
      var more := [START, MARK, END];
      SplitMarker(rest);
      assert DecoderKeeps(rest) + more == more;
      FindNone(more, START, 0);
    }
  }

  /** A start marker split across the end of the noise still opens a frame. */
  lemma SplitMarker(rest: Bytes)
    requires Silent(rest) && rest != [] && rest[|rest| - 1] == MARK
    ensures |Parse(rest + [START, MARK, END]).frames| > 0
  {
    var all := rest + [START, MARK, END];
    forall k | 0 <= k < |rest| - 1 ensures !MarkerAt(all, START, k) {
      assert !MarkerAt(rest, START, k);
    }
    assert MarkerAt(all, START, |rest| - 1);
    FindIs(all, START, 0, |rest| - 1);
    assert MarkerAt(all, END, |rest| + 1);
    assert Find(all, END, |rest| + 1) != -1;
  }

  // ----- chunk independence --------------------------------------------------------------------------

  /** At no chunk boundary is an open frame longer than the limit. */
  ghost predicate OpenFramesFit(chunks: seq<Bytes>) {
    forall n :: 0 <= n <= |chunks| ==> Fits(chunks[..n])
  }

  predicate Fits(heard: seq<Bytes>) {
    var rest := Parse(Join(heard)).rest;
    Silent(rest) || |rest| <= MAX_BUFFER
  }

  /** One more chunk, given to a buffer that stands for the leftover of what was heard. */
  lemma FeedStep(buffer: Bytes, heard: Bytes, chunk: Bytes)
    requires StandsFor(buffer, Parse(heard).rest)
    ensures Parse(heard + chunk).frames == Parse(heard).frames + Parse(buffer + chunk).frames
    ensures StandsFor(Parse(buffer + chunk).rest, Parse(heard + chunk).rest)
  {
    ParseResumes(heard, chunk);
    SameFuture(buffer, Parse(heard).rest, chunk);
  }

  /** However the stream is cut into chunks, the camera has delivered exactly the frames of one
      parse of everything heard. */
  lemma {:induction false} CameraIgnoresChunking(chunks: seq<Bytes>)
    requires OpenFramesFit(chunks)
    ensures CameraFed(chunks).frames == Parse(Join(chunks)).frames
    ensures StandsFor(CameraFed(chunks).buffer, Parse(Join(chunks)).rest)
  {
    if chunks != [] {
      var heard, chunk := chunks[..|chunks| - 1], chunks[|chunks| - 1];
      forall n | 0 <= n <= |heard| ensures Fits(heard[..n]) {
        assert heard[..n] == chunks[..n];
      }
      CameraIgnoresChunking(heard);
      FeedStep(CameraFed(heard).buffer, Join(heard), chunk);
      var rest := Parse(CameraFed(heard).buffer + chunk).rest;
      assert chunks[..|chunks|] == chunks;
      assert Fits(chunks);
      StandsThrough(CameraKeeps(rest), rest, Parse(Join(chunks)).rest);
    }
  }

  lemma StandsThrough(kept: Bytes, rest: Bytes, whole: Bytes)
    requires StandsFor(rest, whole)
    requires (kept == CameraKeeps(rest) && (Silent(whole) || |whole| <= MAX_BUFFER))
          || (kept == DecoderKeeps(rest) && (kept == [] && rest != [] ==> rest[|rest| - 1] != MARK))
    ensures StandsFor(kept, whole)
  {
    if Silent(whole) {
      forall k | 0 <= k ensures !MarkerAt(rest, START, k) {
        assert !MarkerAt(whole, START, k + |whole| - |rest|);
      }
      FindNone(rest, START, 0);
    }
  }

  /** Whenever the decoder throws its noise away, that noise does not end in a marker byte. */
  ghost predicate CutsAreClean(chunks: seq<Bytes>) {
    forall n :: 0 < n <= |chunks| ==> CleanCut(chunks[..n])
  }

  predicate CleanCut(heard: seq<Bytes>)
    requires heard != []
  {
    CleanEnd(Parse(DecoderFed(heard[..|heard| - 1]).buffer + heard[|heard| - 1]).rest)
  }

  predicate CleanEnd(rest: Bytes) {
    Silent(rest) && |rest| > MAX_BUFFER ==> rest[|rest| - 1] != MARK
  }

  lemma {:induction false} DecoderIgnoresChunking(chunks: seq<Bytes>)
    requires CutsAreClean(chunks)
    ensures DecoderFed(chunks).frames == Parse(Join(chunks)).frames
    ensures StandsFor(DecoderFed(chunks).buffer, Parse(Join(chunks)).rest)
  {
    if chunks != [] {
      var heard, chunk := chunks[..|chunks| - 1], chunks[|chunks| - 1];
      forall n | 0 < n <= |heard| ensures CleanCut(heard[..n]) {
        assert heard[..n] == chunks[..n];
      }
      DecoderIgnoresChunking(heard);
      FeedStep(DecoderFed(heard).buffer, Join(heard), chunk);
      var rest := Parse(DecoderFed(heard).buffer + chunk).rest;
      assert chunks[..|chunks|] == chunks;
      assert CleanCut(chunks);
      StandsThrough(DecoderKeeps(rest), rest, Parse(Join(chunks)).rest);
    }
  }

  /** The same as a condition on the stream alone: at no chunk boundary is more than the limit
      of noise pending with a marker byte at its end. */
  ghost predicate NoiseEndsClean(chunks: seq<Bytes>) {
    forall n :: 0 < n <= |chunks| ==> EndsClean(chunks[..n])
  }

  predicate EndsClean(heard: seq<Bytes>) {
    CleanEnd(Parse(Join(heard)).rest)
  }

  lemma StandingEnds(rest: Bytes, whole: Bytes)
    requires StandsFor(rest, whole) && Silent(rest) && rest != []
    ensures Silent(whole) && |whole| >= |rest| && whole[|whole| - 1] == rest[|rest| - 1]
  {}

  lemma StandingEndsClean(rest: Bytes, whole: Bytes)
    requires StandsFor(rest, whole) && CleanEnd(whole)
    ensures CleanEnd(rest)
  {
    if Silent(rest) && rest != [] {
      StandingEnds(rest, whole);
    }
  }

  lemma AnotherChunk(heard: seq<Bytes>, chunk: Bytes)
    ensures Join(heard + [chunk]) == Join(heard) + chunk
    ensures DecoderFed(heard + [chunk]) == DecoderFeed(DecoderFed(heard), chunk)
    ensures CleanCut(heard + [chunk]) <==> CleanEnd(Parse(DecoderFed(heard).buffer + chunk).rest)
  {
    assert (heard + [chunk])[..|heard + [chunk]| - 1] == heard;
  }

  lemma CleanNoiseMakesACleanCut(heard: seq<Bytes>, chunk: Bytes)
    requires CutsAreClean(heard) && EndsClean(heard + [chunk])
    ensures CleanCut(heard + [chunk])
  {
    AnotherChunk(heard, chunk);
    DecoderIgnoresChunking(heard);
    FeedStep(DecoderFed(heard).buffer, Join(heard), chunk);
    StandingEndsClean(Parse(DecoderFed(heard).buffer + chunk).rest, Parse(Join(heard) + chunk).rest);
  }

  lemma {:induction false} CleanNoiseMakesCleanCuts(chunks: seq<Bytes>)
    requires NoiseEndsClean(chunks)
    ensures CutsAreClean(chunks)
  {
    if chunks != [] {
      var heard, chunk := chunks[..|chunks| - 1], chunks[|chunks| - 1];
      forall n | 0 < n <= |heard| ensures EndsClean(heard[..n]) {
        Prefixes(chunks, n);
      }
      CleanNoiseMakesCleanCuts(heard);
      assert chunks[..|chunks|] == chunks == heard + [chunk];
      assert EndsClean(chunks[..|chunks|]);
      CleanNoiseMakesACleanCut(heard, chunk);
      CutsExtend(heard, chunk);
    }
  }

  lemma Prefixes(chunks: seq<Bytes>, n: nat)
    requires n < |chunks|
    ensures chunks[..|chunks| - 1][..n] == chunks[..n]
  {}

  lemma CutsExtend(heard: seq<Bytes>, chunk: Bytes)
    requires CutsAreClean(heard) && CleanCut(heard + [chunk])
    ensures CutsAreClean(heard + [chunk])
  {
    var chunks := heard + [chunk];
    assert chunks[..|chunks| - 1] == heard && chunks[..|chunks|] == chunks;
    forall n | 0 < n <= |chunks| ensures CleanCut(chunks[..n]) {
      if n < |chunks| {
        Prefixes(chunks, n);
        assert CleanCut(heard[..n]);
      }
    }
  }

  /** The two readers agree on a stream, each with its own chunking. */
  lemma ReadersAgree(ours: seq<Bytes>, theirs: seq<Bytes>)
    requires Join(ours) == Join(theirs) && OpenFramesFit(ours) && NoiseEndsClean(theirs)
    ensures CameraFed(ours).frames == DecoderFed(theirs).frames
  {
    CameraIgnoresChunking(ours);
    CleanNoiseMakesCleanCuts(theirs);
    DecoderIgnoresChunking(theirs);
  }

  // ----- exactly when nothing is lost ------------------------------------------------------------

  /** Whatever follows, the reader will have delivered what one parse of everything delivers. */
  ghost predicate Faithful(r: Reader, heard: Bytes) {
    forall more :: r.frames + Parse(r.buffer + more).frames == Parse(heard + more).frames
  }

  lemma StandingIsFaithful(r: Reader, heard: Bytes)
    requires r.frames == Parse(heard).frames && StandsFor(r.buffer, Parse(heard).rest)
    ensures Faithful(r, heard)
  {
    forall more ensures r.frames + Parse(r.buffer + more).frames == Parse(heard + more).frames {
      SameFuture(r.buffer, Parse(heard).rest, more);
      ParseResumes(heard, more);
    }
  }

  /** Continuing with `more` would deliver a frame that an emptied buffer does not. */
  lemma EmptiedIsUnfaithful(r: Reader, heard: Bytes, more: Bytes)
    requires r.frames == Parse(heard).frames && r.buffer == []
    requires Silent(more) && |Parse(Parse(heard).rest + more).frames| > 0
    ensures !Faithful(r, heard)
  {
    ParseResumes(heard, more);
    assert r.buffer + more == more;
    assert |Parse(heard + more).frames| > |r.frames + Parse(r.buffer + more).frames|;
  }

  lemma CameraForgets(heard: seq<Bytes>, chunk: Bytes)
    requires OpenFramesFit(heard) && !Fits(heard + [chunk])
    ensures !Faithful(CameraFed(heard + [chunk]), Join(heard + [chunk]))
  {
    var chunks := heard + [chunk];
    assert chunks[..|chunks| - 1] == heard;
    CameraIgnoresChunking(heard);
    FeedStep(CameraFed(heard).buffer, Join(heard), chunk);
    ParseShape(Join(chunks));
    ClosingFrame(Parse(Join(chunks)).rest);
    var more := [MARK, END];
    FindNone(more, START, 0);
    EmptiedIsUnfaithful(CameraFed(chunks), Join(chunks), more);
  }

  /** Noise ending in a marker byte is open to a start marker that an emptied buffer misses. */
  lemma DroppedNoise(r: Reader, heard: Bytes, whole: Bytes)
    requires r.frames == Parse(heard).frames && r.buffer == [] && whole == Parse(heard).rest
    requires Silent(whole) && whole != [] && whole[|whole| - 1] == MARK
    ensures !Faithful(r, heard)
  {
    var more := [START, MARK, END];
    FindNone(more, START, 0);
    SplitMarker(whole);
    EmptiedIsUnfaithful(r, heard, more);
  }

  lemma DecoderDrops(r: Reader, heard: Bytes, chunk: Bytes, rest: Bytes)
    requires r.frames == Parse(heard).frames && StandsFor(r.buffer, Parse(heard).rest)
    requires rest == Parse(r.buffer + chunk).rest && !CleanEnd(rest)
    ensures !Faithful(DecoderFeed(r, chunk), heard + chunk)
  {
    FeedStep(r.buffer, heard, chunk);
    var whole := Parse(heard + chunk).rest;
    StandingEnds(rest, whole);
    DroppedNoise(DecoderFeed(r, chunk), heard + chunk, whole);
  }

  lemma DecoderForgets(heard: seq<Bytes>, chunk: Bytes)
    requires CutsAreClean(heard) && !CleanCut(heard + [chunk])
    ensures !Faithful(DecoderFed(heard + [chunk]), Join(heard + [chunk]))
  {
    var r, bytes := DecoderFed(heard), Join(heard);
    AnotherChunk(heard, chunk);
    assert !CleanEnd(Parse(r.buffer + chunk).rest);
    DecoderIgnoresChunking(heard);
    DecoderDrops(r, bytes, chunk, Parse(r.buffer + chunk).rest);
  }

  lemma NothingFits()
    ensures OpenFramesFit([])
  {
    FindNone([], START, 0);
  }

  /** The first boundary at which an open frame outgrows the limit is where the camera errs. */
  lemma {:induction false} CameraErrs(chunks: seq<Bytes>) returns (n: nat)
    requires !OpenFramesFit(chunks)
    ensures n <= |chunks| && !Faithful(CameraFed(chunks[..n]), Join(chunks[..n]))
  {
    NothingFits();
    var heard := chunks[..|chunks| - 1];
    if OpenFramesFit(heard) {
      assert heard + [chunks[|chunks| - 1]] == chunks && chunks[..|chunks|] == chunks;
      forall k | 0 <= k < |chunks| ensures Fits(chunks[..k]) {
        Prefixes(chunks, k);
        assert Fits(heard[..k]);
      }
      n := |chunks|;
      CameraForgets(heard, chunks[|chunks| - 1]);
    } else {
      n := CameraErrs(heard);
      Prefixes(chunks, n);
    }
  }

  lemma {:induction false} DecoderErrs(chunks: seq<Bytes>) returns (n: nat)
    requires !CutsAreClean(chunks)
    ensures n <= |chunks| && !Faithful(DecoderFed(chunks[..n]), Join(chunks[..n]))
  {
    var heard := chunks[..|chunks| - 1];
    if CutsAreClean(heard) {
      assert heard + [chunks[|chunks| - 1]] == chunks && chunks[..|chunks|] == chunks;
      forall k | 0 < k < |chunks| ensures CleanCut(chunks[..k]) {
        Prefixes(chunks, k);
        assert CleanCut(heard[..k]);
      }
      n := |chunks|;
      DecoderForgets(heard, chunks[|chunks| - 1]);
    } else {
      n := DecoderErrs(heard);
      Prefixes(chunks, n);
    }
  }

  /** At every chunk boundary the camera agrees with one parse of the stream, whatever follows,
      exactly when no open frame exceeds the limit at a boundary. */
  lemma CameraIsExact(chunks: seq<Bytes>)
    ensures OpenFramesFit(chunks) <==>
              forall n :: 0 <= n <= |chunks| ==> Faithful(CameraFed(chunks[..n]), Join(chunks[..n]))
  {
    if OpenFramesFit(chunks) {
      forall n | 0 <= n <= |chunks| ensures Faithful(CameraFed(chunks[..n]), Join(chunks[..n])) {
        forall k | 0 <= k <= n ensures Fits(chunks[..n][..k]) {
          assert chunks[..n][..k] == chunks[..k];
        }
        CameraIgnoresChunking(chunks[..n]);
        StandingIsFaithful(CameraFed(chunks[..n]), Join(chunks[..n]));
      }
    } else {
      var n := CameraErrs(chunks);
    }
  }

  /** And the decoder exactly when none of its cuts ends in a marker byte. */
  lemma DecoderIsExact(chunks: seq<Bytes>)
    ensures CutsAreClean(chunks) <==>
              forall n :: 0 <= n <= |chunks| ==> Faithful(DecoderFed(chunks[..n]), Join(chunks[..n]))
  {
    if CutsAreClean(chunks) {
      forall n | 0 <= n <= |chunks| ensures Faithful(DecoderFed(chunks[..n]), Join(chunks[..n])) {
        forall k | 0 < k <= n ensures CleanCut(chunks[..n][..k]) {
          assert chunks[..n][..k] == chunks[..k];
        }
        DecoderIgnoresChunking(chunks[..n]);
        StandingIsFaithful(DecoderFed(chunks[..n]), Join(chunks[..n]));
      }
    } else {
      var n := DecoderErrs(chunks);
    }
  }

  // ----- frames that are lost ---------------------------------------------------------------------

  /** What one read may return at most. */
  const READ_SIZE := 65536

  /** A stream as the reads deliver it. */
  function Pieces(s: Bytes): (chunks: seq<Bytes>)
    ensures forall c | c in chunks :: 0 < |c| <= READ_SIZE
    decreases |s|
  {
    if s == [] then []
    else
      var n := if |s| <= READ_SIZE then 0 else |s| - READ_SIZE;
      Pieces(s[..n]) + [s[n..]]
  }

  lemma FedMore(chunks: seq<Bytes>, x: Bytes)
    ensures Join(chunks + [x]) == Join(chunks) + x
    ensures CameraFed(chunks + [x]) == CameraFeed(CameraFed(chunks), x)
    ensures DecoderFed(chunks + [x]) == DecoderFeed(DecoderFed(chunks), x)
  {
    assert (chunks + [x])[..|chunks|] == chunks;
  }

  lemma {:induction false} PiecesJoin(s: Bytes)
    ensures Join(Pieces(s)) == s
    decreases |s|
  {
    if s != [] {
      var n := if |s| <= READ_SIZE then 0 else |s| - READ_SIZE;
      PiecesJoin(s[..n]);
      FedMore(Pieces(s[..n]), s[n..]);
      Rejoined(s, n);
    }
  }

  lemma Rejoined(s: Bytes, n: nat)
    requires n <= |s|
    ensures s[..n] + s[n..] == s
  {}

  /** Until the limit is reached neither reader forgets anything. */
  lemma {:induction false} ShortStreamIsKept(chunks: seq<Bytes>)
    requires |Join(chunks)| <= MAX_BUFFER
    ensures var p := Parse(Join(chunks));
            CameraFed(chunks) == DecoderFed(chunks) == Reader(p.rest, p.frames)
  {
    if chunks == [] {
      FindNone([], START, 0);
    } else {
      var before, x := chunks[..|chunks| - 1], chunks[|chunks| - 1];
      assert before + [x] == chunks;
      FedMore(before, x);
      ShortStreamIsKept(before);
      ParseResumes(Join(before), x);
      ParseShape(Join(chunks));
    }
  }

  /** A reader that drops `a` and `x` delivers nothing for a last chunk without a start marker. */
  lemma NothingLeftToDeliver(a: Bytes, x: Bytes, y: Bytes)
    requires |a| <= MAX_BUFFER && Parse(a) == Parsed([], a) && Parse(a + x) == Parsed([], a + x) && Silent(y)
    ensures var chunks := Pieces(a) + [x] + [y];
            && Join(chunks) == a + x + y
            && (CameraKeeps(a + x) == [] ==> CameraFed(chunks).frames == [])
            && (DecoderKeeps(a + x) == [] ==> DecoderFed(chunks).frames == [])
  {
    PiecesJoin(a);
    ShortStreamIsKept(Pieces(a));
    FedMore(Pieces(a), x);
    FedMore(Pieces(a) + [x], y);
    assert [] + y == y;
  }

  predicate AsRead(chunks: seq<Bytes>) {
    forall c | c in chunks :: 0 < |c| <= READ_SIZE
  }

  function Zeros(n: nat): (s: Bytes)
    ensures |s| == n && forall k :: 0 <= k < n ==> s[k] == 0
  {
    seq(n, _ => 0)
  }

  /** Chunks as they are read from which a reader delivers nothing although the stream holds a frame. */
  ghost predicate CameraLoses(chunks: seq<Bytes>) {
    AsRead(chunks) && CameraFed(chunks).frames == [] && |Parse(Join(chunks)).frames| > 0
  }

  ghost predicate DecoderLoses(chunks: seq<Bytes>) {
    AsRead(chunks) && DecoderFed(chunks).frames == [] && |Parse(Join(chunks)).frames| > 0
  }

  lemma LastChunks(a: Bytes, x: Bytes, y: Bytes) returns (chunks: seq<Bytes>)
    requires 0 < |x| <= READ_SIZE && 0 < |y| <= READ_SIZE
    requires |a| <= MAX_BUFFER && Parse(a) == Parsed([], a) && Parse(a + x) == Parsed([], a + x) && Silent(y)
    requires |Parse(a + x + y).frames| > 0
    ensures CameraKeeps(a + x) == [] ==> CameraLoses(chunks)
    ensures DecoderKeeps(a + x) == [] ==> DecoderLoses(chunks)
  {
    chunks := Pieces(a) + [x] + [y];
    NothingLeftToDeliver(a, x, y);
  }

  lemma OpenChunk(a: Bytes, n: nat)
    requires a == [MARK, START] + Zeros(n)
    ensures Parse(a) == Parsed([], a) && !Silent(a) && |Parse(a + [MARK, END]).frames| > 0
  {
    FindIs(a, START, 0, 0);
    forall k | 2 <= k ensures !MarkerAt(a, END, k) {}
    FindNone(a, END, 2);
    ParseOpen(a, 0);
    assert a[0..] == a;
    ClosingFrame(a);
  }

  /** A frame of more than 8 MiB, delivered by reads of at most 64 KiB: the camera delivers
      nothing. */
  lemma CameraLosesAFrame()
    ensures exists chunks :: CameraLoses(chunks)
  {
    var n: nat := MAX_BUFFER - 2;
    var a := [MARK, START] + Zeros(n);
    OpenFrameIsLost(a, n);
  }

  lemma OpenFrameIsLost(a: Bytes, n: nat)
    requires a == [MARK, START] + Zeros(n) && |a| == MAX_BUFFER
    ensures exists chunks :: CameraLoses(chunks)
  {
    assert a + [0] == [MARK, START] + Zeros(n + 1);
    OpenChunk(a, n);
    OpenChunk(a + [0], n + 1);
    FindNone([MARK, END], START, 0);
    var chunks := LastChunks(a, [0], [MARK, END]);
  }

  lemma NoiseChunk(a: Bytes)
    requires forall k :: 0 <= k < |a| ==> a[k] == 0
    ensures Parse(a) == Parsed([], a)
    ensures Parse(a + [MARK]) == Parsed([], a + [MARK]) && Silent(a + [MARK])
    ensures |Parse(a + [MARK] + [START, MARK, END]).frames| > 0
    ensures |a| == MAX_BUFFER ==> DecoderKeeps(a + [MARK]) == []
    ensures Silent([START, MARK, END])
  {
    FindNone([START, MARK, END], START, 0);
    forall k | 0 <= k ensures !MarkerAt(a, START, k) && !MarkerAt(a + [MARK], START, k) {}
    FindNone(a, START, 0);
    FindNone(a + [MARK], START, 0);
    SplitMarker(a + [MARK]);
  }

  /** More than 8 MiB of noise ending in the first byte of a start marker, delivered likewise: the
      decoder delivers nothing. */
  lemma DecoderLosesAFrame()
    ensures exists chunks :: DecoderLoses(chunks)
  {
    NoiseSwallowsAFrame(Zeros(MAX_BUFFER));
  }

  lemma NoiseSwallowsAFrame(a: Bytes)
    requires |a| == MAX_BUFFER && forall k :: 0 <= k < |a| ==> a[k] == 0
    ensures exists chunks :: DecoderLoses(chunks)
  {
    NoiseChunk(a);
    var chunks := LastChunks(a, [MARK], [START, MARK, END]);
  }

  /** Everything the camera cuts out passes the shape test of its publisher. */
  lemma {:induction false} CameraFramesAreWellShaped(chunks: seq<Bytes>, k: nat)
    requires k < |CameraFed(chunks).frames|
    ensures WellShaped(CameraFed(chunks).frames[k])
  {
    if chunks != [] {
      var before := CameraFed(chunks[..|chunks| - 1]);
      ParseShape(before.buffer + chunks[|chunks| - 1]);
      if k < |before.frames| {
        CameraFramesAreWellShaped(chunks[..|chunks| - 1], k);
      }
    }
  }
}
