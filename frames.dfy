/** Media as the video library reports it, and the two frame-copying algorithms: trim and merge. */
module Frames {
  import opened Results

  /** One decoded picture (its pixel values). */
  type Frame = seq<int>

  /** What opening a file reports: frames per second, frame size and the stream of frames. */
  datatype Media = Media(fps: real, width: int, height: int, frames: seq<Frame>)

  /** A file in the upload folder: either the library can open it, or it cannot. */
  datatype Blob = Unreadable | Playable(media: Media)

  type Filename = string

  /** The upload folder, by file name. */
  type Storage = map<Filename, Blob>

  /** Opening a capture on a file: it fails when the file is missing or not a video. */
  function Open(storage: Storage, filename: Filename): Option<Media>
  {
    if filename in storage && storage[filename].Playable? then Some(storage[filename].media) else None
  }

  /** frame_count / fps, the length of a video in seconds. */
  function Duration(m: Media): real
    requires m.fps != 0.0
  {
    |m.frames| as real / m.fps
  }

  function Max(a: int, b: int): int { if a < b then b else a }
  function Min(a: int, b: int): int { if a < b then a else b }

  // ---------------------------------------------------------------------------
  // Trim

  /** Python's int() on a float: truncation toward zero, for either sign. */
  function Trunc(x: real): (n: int)
    ensures 0.0 <= x ==> n as real <= x < n as real + 1.0
    ensures x < 0.0 ==> x <= n as real < x + 1.0
  {
    if 0.0 <= x then x.Floor else -((-x).Floor)
  }

  /** int(time * fps): the index of the frame shown at a given time. */
  function FrameAt(time: real, fps: real): int
  {
    Trunc(time * fps)
  }

  /** The end of a trim: the requested end time, unless it is absent or zero (Python `or`),
      in which case the whole video's duration, which divides by fps. */
  function ResolveEndTime(endTime: Option<real>, frameCount: nat, fps: real): (r: Result<real>)
    ensures endTime.Some? && endTime.value != 0.0 ==> r == Ok(endTime.value)
    ensures (endTime.None? || endTime.value == 0.0) ==> (r.Ok? <==> fps != 0.0)
    ensures (endTime.None? || endTime.value == 0.0) && r.Ok? ==> r.value * fps == frameCount as real
    ensures r.Err? ==> r.error == Internal(DivisionByZero)
  {
    if endTime.Some? && endTime.value != 0.0 then Ok(endTime.value)
    else if fps == 0.0 then Err(Internal(DivisionByZero))
    else Ok(frameCount as real / fps)
  }

  /** The frames whose index i satisfies lo <= i < hi, in order. */
  function Window(frames: seq<Frame>, lo: int, hi: int): seq<Frame>
  {
    var a := Max(lo, 0);
    var b := Min(hi, |frames|);
    if a < b then frames[a..b] else []
  }

  /** The frames a trim keeps: indices from startFrame to endFrame inclusive, clamped to the stream. */
  function TrimWindow(frames: seq<Frame>, startFrame: int, endFrame: int): seq<Frame>
  {
    Window(frames, startFrame, endFrame + 1)
  }

  /** Reference definition: walk the stream from index `from` and keep each frame whose index
      lies in [startFrame, endFrame]. */
  function IndexFilter(frames: seq<Frame>, startFrame: int, endFrame: int, from: nat): seq<Frame>
    decreases |frames| - from
  {
    if from >= |frames| then []
    else (if startFrame <= from <= endFrame then [frames[from]] else [])
         + IndexFilter(frames, startFrame, endFrame, from + 1)
  }

  lemma {:induction false} IndexFilterIsWindow(frames: seq<Frame>, startFrame: int, endFrame: int, from: nat)
    requires from <= |frames|
    ensures IndexFilter(frames, startFrame, endFrame, from) == Window(frames, Max(startFrame, from), endFrame + 1)
    decreases |frames| - from
  {
    if from < |frames| {
      IndexFilterIsWindow(frames, startFrame, endFrame, from + 1);
      var b := Min(endFrame + 1, |frames|);
      if startFrame <= from <= endFrame {
        assert Max(startFrame, from) == from;
        assert Max(startFrame, from + 1) == from + 1;
        assert frames[from..b] == [frames[from]] + frames[from + 1..b];
      }
    }
  }

  /** A trim keeps exactly the frames whose index lies in [startFrame, endFrame], in order. */
  lemma TrimWindowIsIndexFilter(frames: seq<Frame>, startFrame: int, endFrame: int)
    ensures TrimWindow(frames, startFrame, endFrame) == IndexFilter(frames, startFrame, endFrame, 0)
  {
    IndexFilterIsWindow(frames, startFrame, endFrame, 0);
    assert Max(startFrame, 0) == Max(Max(startFrame, 0), 0);
  }

  /** Element by element: the k-th kept frame is frame max(startFrame, 0) + k, and as many frames are
      kept as the clamped range holds; an end beyond the stream clamps instead of failing. */
  lemma TrimWindowElements(frames: seq<Frame>, startFrame: int, endFrame: int)
    ensures var lo, hi := Max(startFrame, 0), Min(endFrame + 1, |frames|);
            var r := TrimWindow(frames, startFrame, endFrame);
            |r| == Max(hi - lo, 0) &&
            forall k :: 0 <= k < |r| ==> lo + k < |frames| && r[k] == frames[lo + k]
    ensures startFrame > endFrame ==> TrimWindow(frames, startFrame, endFrame) == []
    ensures endFrame >= |frames| ==> TrimWindow(frames, startFrame, endFrame) == TrimWindow(frames, startFrame, |frames| - 1)
  {
  }

  /** The frame-copying loop of a trim: read frames until the stream ends or the index passes
      endFrame, and write every frame whose index has reached startFrame. */
  method CopyTrimmedFrames(frames: seq<Frame>, startFrame: int, endFrame: int) returns (written: seq<Frame>)
    ensures written == TrimWindow(frames, startFrame, endFrame)
  {
    written := [];
    var frameCount := 0;
    while frameCount < |frames|
      invariant 0 <= frameCount <= |frames|
      invariant frameCount == 0 || frameCount <= endFrame + 1
      invariant written == Window(frames, startFrame, frameCount)
    {
      if frameCount > endFrame {
        break;
      }
      if frameCount >= startFrame {
        written := written + [frames[frameCount]];
      }
      frameCount := frameCount + 1;
    }
  }

  /** The media a trim writes: the source's fps and frame size, and the frames between
      int(start_time * fps) and int(end_time * fps). */
  function TrimmedMedia(m: Media, startTime: real, endTime: Option<real>): (r: Result<Media>)
    ensures r.Ok? ==> r.value.fps == m.fps && r.value.width == m.width && r.value.height == m.height
    ensures r.Ok? <==> ResolveEndTime(endTime, |m.frames|, m.fps).Ok?
  {
    var end := ResolveEndTime(endTime, |m.frames|, m.fps);
    if end.Err? then Err(end.error)
    else Ok(Media(m.fps, m.width, m.height,
                  TrimWindow(m.frames, FrameAt(startTime, m.fps), FrameAt(end.value, m.fps))))
  }

  /** An end time of zero is read as no end time at all: both trim to the end of the video. */
  lemma ZeroEndTimeIsAbsent(m: Media, startTime: real)
    ensures TrimmedMedia(m, startTime, Some(0.0)) == TrimmedMedia(m, startTime, None)
  {
  }

  /** With no end time (or end time zero) and a non-negative start, a trim keeps the whole tail of the
      stream from the start frame on. */
  lemma TrimToEndKeepsTail(m: Media, startTime: real)
    requires m.fps > 0.0 && 0.0 <= startTime
    ensures var r := TrimmedMedia(m, startTime, None);
            var s := FrameAt(startTime, m.fps);
            r.Ok? && r.value.frames == if s < |m.frames| then m.frames[s..] else []
  {
  }

  /** The name a trim writes to; it always differs from the source's name. */
  function TrimmedName(filename: Filename): (t: Filename)
    ensures t != filename
    ensures |t| == |filename| + 8 && t[..8] == "trimmed_" && t[8..] == filename
  {
    "trimmed_" + filename
  }

  // ---------------------------------------------------------------------------
  // Merge

  /** The frames a capture on this file reads: none when it cannot be opened. */
  function FramesOf(storage: Storage, filename: Filename): seq<Frame>
  {
    var m := Open(storage, filename);
    if m.Some? then m.value.frames else []
  }

  /** Reference definition of a merge's output: every input's frames, back to back, in request order. */
  function MergedFrames(storage: Storage, filenames: seq<Filename>): seq<Frame>
  {
    if filenames == [] then [] else FramesOf(storage, filenames[0]) + MergedFrames(storage, filenames[1..])
  }

  /** The number of frames the inputs hold together. */
  function TotalFrames(storage: Storage, filenames: seq<Filename>): nat
  {
    if filenames == [] then 0 else |FramesOf(storage, filenames[0])| + TotalFrames(storage, filenames[1..])
  }

  /** Merging a + b is merging a, then merging b. */
  lemma {:induction false} MergedFramesAppend(storage: Storage, a: seq<Filename>, b: seq<Filename>)
    ensures MergedFrames(storage, a + b) == MergedFrames(storage, a) + MergedFrames(storage, b)
  {
    if a != [] {
      assert (a + b)[1..] == a[1..] + b;
      MergedFramesAppend(storage, a[1..], b);
    } else {
      assert a + b == b;
    }
  }

  /** The output is exactly as long as all inputs together (so at a shared fps its duration is the sum). */
  lemma {:induction false} MergedFramesLength(storage: Storage, filenames: seq<Filename>)
    ensures |MergedFrames(storage, filenames)| == TotalFrames(storage, filenames)
  {
    if filenames != [] {
      MergedFramesLength(storage, filenames[1..]);
    }
  }

  /** Input k's frames occupy the output from the frames of inputs 0..k-1 on, unchanged. */
  lemma MergedFramesPlacesInput(storage: Storage, filenames: seq<Filename>, k: nat)
    requires k < |filenames|
    ensures var before := TotalFrames(storage, filenames[..k]);
            var out := MergedFrames(storage, filenames);
            before + |FramesOf(storage, filenames[k])| <= |out| &&
            out[before..before + |FramesOf(storage, filenames[k])|] == FramesOf(storage, filenames[k])
  {
    var pre, mid, post := filenames[..k], [filenames[k]], filenames[k + 1..];
    assert filenames == pre + (mid + post);
    MergedFramesAppend(storage, pre, mid + post);
    MergedFramesAppend(storage, mid, post);
    assert MergedFrames(storage, mid) == FramesOf(storage, filenames[k]) by {
      assert mid[1..] == [];
    }
    MergedFramesLength(storage, pre);
  }

  /** The merge's frame-writing loops: for each input file in order, read its capture to the end and
      write every frame. */
  method MergeFrames(storage: Storage, filenames: seq<Filename>) returns (written: seq<Frame>)
    ensures written == MergedFrames(storage, filenames)
  {
    written := [];
    var i := 0;
    while i < |filenames|
      invariant 0 <= i <= |filenames|
      invariant written == MergedFrames(storage, filenames[..i])
    {
      var source := FramesOf(storage, filenames[i]);
      var j := 0;
      while j < |source|
        invariant 0 <= j <= |source|
        invariant written == MergedFrames(storage, filenames[..i]) + source[..j]
      {
        written := written + [source[j]];
        j := j + 1;
      }
      assert source[..j] == source;
      assert MergedFrames(storage, [filenames[i]]) == source by {
        assert [filenames[i]][1..] == [];
      }
      MergedFramesAppend(storage, filenames[..i], [filenames[i]]);
      assert filenames[..i + 1] == filenames[..i] + [filenames[i]];
      i := i + 1;
    }
    assert filenames[..i] == filenames;
  }

  /** The name a merge writes to, built from the new id's hex digits. */
  function MergedName(hex: string): (n: Filename)
    ensures |n| == |hex| + 11 && n[..7] == "merged_" && n[7..|n| - 4] == hex && n[|n| - 4..] == ".mp4"
    ensures forall f: Filename :: n != TrimmedName(f)
  {
    assert "merged_"[0] != "trimmed_"[0];
    "merged_" + hex + ".mp4"
  }
}
