/** The two reading loops, proved to compute the framing of `JpegFraming`. */
module JpegReaders {
  import opened JpegFraming

  /** How many chunks a reader takes before the first empty one ends the stream. */
  function Heard(chunks: seq<Bytes>): (n: nat)
    ensures n <= |chunks|
    ensures forall k :: 0 <= k < n ==> chunks[k] != []
    ensures n < |chunks| ==> chunks[n] == []
  {
    if chunks == [] || chunks[0] == [] then 0 else 1 + Heard(chunks[1..])
  }

  lemma CameraFedStep(chunks: seq<Bytes>, i: nat)
    requires i < |chunks|
    ensures CameraFed(chunks[..i + 1]) == CameraFeed(CameraFed(chunks[..i]), chunks[i])
  {
    assert chunks[..i + 1][..i] == chunks[..i];
  }

  lemma DecoderFedStep(chunks: seq<Bytes>, i: nat)
    requires i < |chunks|
    ensures DecoderFed(chunks[..i + 1]) == DecoderFeed(DecoderFed(chunks[..i]), chunks[i])
  {
    assert chunks[..i + 1][..i] == chunks[..i];
  }

  lemma Regroup(a: seq<Bytes>, b: seq<Bytes>, c: seq<Bytes>)
    ensures (a + b) + c == a + (b + c)
  {}

  // ----- a parse under way -------------------------------------------------------------------

  /** The frames `cut` so far and the remaining buffer together make up the parse of `given`. */
  predicate Halfway(given: Bytes, cut: seq<Bytes>, buffer: Bytes) {
    Parse(given).frames == cut + Parse(buffer).frames && Parse(given).rest == Parse(buffer).rest
  }

  /** No start marker: nothing is complete, and everything is left over. */
  lemma NothingBegun(given: Bytes)
    requires Find(given, START, 0) == -1
    ensures Silent(given) && Parse(given) == Parsed([], given)
  {}

  /** The buffer moved up to its start marker. */
  lemma MovedUp(given: Bytes, start: nat, buffer: Bytes)
    requires Find(given, START, 0) == start && buffer == given[start..]
    ensures Parse(given) == Parse(buffer) && Find(buffer, START, 0) == 0
  {
    LeadingNoise(given, buffer, start);
    FindShift(given, start, START, start);
  }

  lemma NothingComplete(buffer: Bytes)
    requires Find(buffer, START, 0) == 0 && Find(buffer, END, 2) == -1
    ensures !Silent(buffer) && Parse(buffer) == Parsed([], buffer)
  {
    ParseOpen(buffer, 0);
  }

  lemma OneComplete(buffer: Bytes, end: nat)
    requires Find(buffer, START, 0) == 0 && Find(buffer, END, 2) == end
    ensures WellShaped(buffer[..end + 2])
    ensures var later := Parse(buffer[end + 2..]);
            Parse(buffer) == Parsed([buffer[..end + 2]] + later.frames, later.rest)
  {
    ParseOne(buffer, 0, end);
    FrameShape(buffer, 0, end);
  }

  lemma AfterFrame(given: Bytes, cut: seq<Bytes>, buffer: Bytes, start: nat, end: nat)
    requires Halfway(given, cut, buffer)
    requires Find(buffer, START, 0) == start && Find(buffer, END, start + 2) == end
    ensures Halfway(given, cut + [buffer[start..end + 2]], buffer[end + 2..])
    ensures WellShaped(buffer[start..end + 2])
  {
    ParseOne(buffer, start, end);
    FrameShape(buffer, start, end);
    OneMore(given, cut, Parse(buffer), buffer[start..end + 2], Parse(buffer[end + 2..]));
  }

  lemma OneMore(given: Bytes, cut: seq<Bytes>, open: Parsed, frame: Bytes, later: Parsed)
    requires Parse(given).frames == cut + open.frames && Parse(given).rest == open.rest
    requires open == Parsed([frame] + later.frames, later.rest)
    ensures Parse(given).frames == (cut + [frame]) + later.frames && Parse(given).rest == later.rest
  {
    Regroup(cut, [frame], later.frames);
  }

  lemma AtTheEnd(given: Bytes, cut: seq<Bytes>, buffer: Bytes)
    requires Halfway(given, cut, buffer)
    requires var start := Find(buffer, START, 0); start == -1 || Find(buffer, END, start + 2) == -1
    ensures Parse(given).frames == cut
    ensures Parse(given).rest == if Silent(buffer) then buffer else buffer[Find(buffer, START, 0)..]
  {}

  /** Of the frames offered to a callback, how many it took. */
  function Taken(offered: seq<Bytes>, takes: Bytes -> bool): nat {
    if offered == [] then 0
    else Taken(offered[..|offered| - 1], takes) + if takes(offered[|offered| - 1]) then 1 else 0
  }

  class MulticastCamera {
    /** Whether the callback returns normally for a frame. */
    const takes: Bytes -> bool
    var offered: seq<Bytes>
    var frames: nat

    ghost predicate Valid()
      reads this
    {
      frames == Taken(offered, takes)
    }

    constructor (takes: Bytes -> bool)
      ensures Valid() && offered == []
    {
      this.takes := takes;
      offered, frames := [], 0;
    }

    method PublishJpeg(jpeg: Bytes)
      requires Valid()
      modifies this
      ensures Valid()
      ensures offered == if WellShaped(jpeg) then old(offered) + [jpeg] else old(offered)
    {
      if |jpeg| < 4 || jpeg[..2] != [MARK, START] || jpeg[|jpeg| - 2..] != [MARK, END] {
        return;
      }
      offered := offered + [jpeg];
      assert offered[..|offered| - 1] == old(offered);
      if takes(jpeg) {
        frames := frames + 1;
      }
    }

    /** The next complete frame of a buffer, or what is kept when there is none. */
    method Cut(given: Bytes) returns (found: bool, jpeg: Bytes, buffer: Bytes)
      ensures found ==> |buffer| < |given| && WellShaped(jpeg)
                        && Parse(given).frames == [jpeg] + Parse(buffer).frames
                        && Parse(given).rest == Parse(buffer).rest
      ensures !found ==> Parse(given).frames == [] && buffer == CameraKeeps(Parse(given).rest)
    {
      found, jpeg, buffer := false, [], given;
      var start := Find(buffer, START, 0);
      if start < 0 {
        NothingBegun(given);
        if |buffer| > MAX_BUFFER {
          buffer := buffer[|buffer| - 1..];
        }
        return;
      }
      if start != 0 {
        buffer := buffer[start..];
      }
      MovedUp(given, start, buffer);
      var end := Find(buffer, END, 2);
      if end < 0 {
        NothingComplete(buffer);
        if |buffer| > MAX_BUFFER {
          buffer := [];
        }
        return;
      }
      OneComplete(buffer, end);
      return true, buffer[..end + 2], buffer[end + 2..];
    }

    /** One chunk: everything complete is published, the rest kept within the limit. */
    method Drain(given: Bytes) returns (buffer: Bytes)
      requires Valid()
      modifies this
      ensures Valid()
      ensures offered == old(offered) + Parse(given).frames
      ensures buffer == CameraKeeps(Parse(given).rest)
    {
      buffer := given;
      ghost var cut: seq<Bytes> := [];
      var found := true;
      while found
        invariant Valid()
        invariant offered == old(offered) + cut
        invariant found ==> Halfway(given, cut, buffer)
        invariant !found ==> Parse(given).frames == cut && buffer == CameraKeeps(Parse(given).rest)
        decreases found, |buffer|
      {
        ghost var before := buffer;
        var jpeg;
        found, jpeg, buffer := Cut(buffer);
        if found {
          Regroup(cut, [jpeg], Parse(buffer).frames);
          PublishJpeg(jpeg);
          cut := cut + [jpeg];
        }
      }
    }

    /** One chunk on top of what earlier ones left. */
    method Take(buffer: Bytes, chunk: Bytes, ghost before: Reader, ghost base: seq<Bytes>) returns (next: Bytes)
      requires Valid() && buffer == before.buffer && offered == base + before.frames
      modifies this
      ensures Valid() && next == CameraFeed(before, chunk).buffer && |next| <= MAX_BUFFER
      ensures offered == base + CameraFeed(before, chunk).frames
    {
      next := Drain(buffer + chunk);
      Regroup(base, before.frames, Parse(buffer + chunk).frames);
    }

    /** The whole read loop. */
    method ReadJpegs(chunks: seq<Bytes>) returns (buffer: Bytes)
      requires Valid()
      modifies this
      ensures Valid()
      ensures var heard := CameraFed(chunks[..Heard(chunks)]);
              offered == old(offered) + heard.frames && buffer == heard.buffer && |buffer| <= MAX_BUFFER
    {
      buffer := [];
      ghost var r := FRESH;
      var i := 0;
      while i < |chunks| && chunks[i] != []
        invariant 0 <= i <= Heard(chunks)
        invariant Valid()
        invariant r == CameraFed(chunks[..i]) && buffer == r.buffer && |buffer| <= MAX_BUFFER
        invariant offered == old(offered) + r.frames
      {
        CameraFedStep(chunks, i);
        buffer := Take(buffer, chunks[i], r, old(offered));
        r := CameraFeed(r, chunks[i]);
        i := i + 1;
      }
    }
  }

  class CameraDecoder {
    var decodedFrames: nat
    var delivered: seq<Bytes>

    constructor ()
      ensures decodedFrames == 0 && delivered == []
    {
      decodedFrames, delivered := 0, [];
    }

    /** One chunk, without moving the buffer up to the start marker first. */
    method Drain(given: Bytes) returns (buffer: Bytes)
      modifies this
      ensures delivered == old(delivered) + Parse(given).frames
      ensures decodedFrames == old(decodedFrames) + |Parse(given).frames|
      ensures buffer == DecoderKeeps(Parse(given).rest)
    {
      buffer := given;
      ghost var cut: seq<Bytes> := [];
      while true
        invariant delivered == old(delivered) + cut
        invariant decodedFrames == old(decodedFrames) + |cut|
        invariant Halfway(given, cut, buffer)
        decreases |buffer|
      {
        var start := Find(buffer, START, 0);
        if start < 0 {
          AtTheEnd(given, cut, buffer);
          if |buffer| > MAX_BUFFER {
            buffer := [];
          }
          return;
        }
        var end := Find(buffer, END, start + 2);
        if end < 0 {
          AtTheEnd(given, cut, buffer);
          ParseShape(given);
          FindShift(buffer, start, START, start);
          if start != 0 {
            buffer := buffer[start..];
          }
          return;
        }
        AfterFrame(given, cut, buffer, start, end);
        var jpeg := buffer[start..end + 2];
        buffer := buffer[end + 2..];
        decodedFrames := decodedFrames + 1;
        delivered := delivered + [jpeg];
        cut := cut + [jpeg];
      }
    }

    /** One chunk on top of what earlier ones left. */
    method Take(buffer: Bytes, chunk: Bytes, ghost before: Reader, ghost base: seq<Bytes>) returns (next: Bytes)
      requires buffer == before.buffer && delivered == base + before.frames
      modifies this
      ensures next == DecoderFeed(before, chunk).buffer
      ensures delivered == base + DecoderFeed(before, chunk).frames
      ensures decodedFrames == old(decodedFrames) + |delivered| - |old(delivered)|
    {
      next := Drain(buffer + chunk);
      Regroup(base, before.frames, Parse(buffer + chunk).frames);
    }

    method ReadLoop(chunks: seq<Bytes>) returns (buffer: Bytes)
      modifies this
      ensures var heard := DecoderFed(chunks[..Heard(chunks)]);
              && delivered == old(delivered) + heard.frames && buffer == heard.buffer
              && decodedFrames == old(decodedFrames) + |heard.frames|
    {
      buffer := [];
      ghost var r := FRESH;
      var i := 0;
      while i < |chunks| && chunks[i] != []
        invariant 0 <= i <= Heard(chunks)
        invariant r == DecoderFed(chunks[..i]) && buffer == r.buffer
        invariant delivered == old(delivered) + r.frames
        invariant decodedFrames == old(decodedFrames) + |r.frames|
      {
        DecoderFedStep(chunks, i);
        buffer := Take(buffer, chunks[i], r, old(delivered));
        r := DecoderFeed(r, chunks[i]);
        i := i + 1;
      }
    }
  }
}
