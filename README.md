# VideoUploader: the video and share-link lifecycle, in Dafny

This project models the core of the VideoUploader service (`video_uploader.py`). The service stores
uploaded videos, trims them, merges them, and hands out share links that expire. The framework,
sqlite and OpenCV are replaced by abstract state, which leaves three parts:

- two tables: `videos` (id → file name, created/updated time) and `shared_links` (id → video id,
  created/expiry time);
- the upload folder: a map from file name to what the video library makes of that file. The file is
  either `Unreadable` or `Playable` with the fps, the frame size and the sequence of frames;
- the handlers, as methods of the class `VideoService`. Each returns `Ok(value)` or `Err(failure)`.
  Each failure kind carries its HTTP status (401, 400, 404, 410, or 500 for an uncaught exception).

Files:

- `results.dfy` (module `Results`): `Option`, `Result`, the failure kinds and their status codes.
- `access.dfy` (module `Access`): the configuration value and the token check. It also holds the size
  and duration predicates of an upload.
- `frames.dfy` (module `Frames`): media, Python's `int()` truncation, and the resolution of the trim's
  end time. It holds the trim's frame-selection loop against a closed-form window and an
  index-by-index reference definition. It also holds the merge's concatenation loops against a
  recursive reference definition, and the derived file names `trimmed_<name>` and
  `merged_<hex>.mp4`.
- `video_uploader.dfy` (module `VideoUploader`): the records, the merge's id-resolution loop, and the
  class `VideoService`. The class holds the two tables and the folder as `map` fields. Its handlers
  are `Upload`, `Trim`, `Share`, `Download` and `Merge`. A client method shows that a link serves a
  later trim.

Each state-changing handler states its whole new state, case by case, in the source's order of
checks. The object invariant `Valid()` says every link names a recorded video. It holds because
records are never deleted and a link is created only for an existing video. Every handler preserves
it. It is the foreign key declared at video_uploader.py:40, which sqlite does not enforce but which
the handlers keep. Because of it, `Download`'s "video not found" branch is never taken.

The code and its test suite disagree on one point (test_video_uploader.py:86-87 expects 400 naming
`end_time`), and the model follows the code. A trim whose `end_time` lies beyond the video does not
fail with 400. The frame loop at video_uploader.py:145-151 stops at the end of the stream, so the
trim clamps silently (`TrimWindowElements`, third clause).

Behaviours of the code that the contracts spell out:

- `end_time` equal to 0 counts as absent. This comes from Python's `or`.
- `fps == 0` makes a division raise. In an upload this happens after the file is written, so the
  file stays behind with no record.
- A merge with no ids raises at `filenames[0]` before anything is written.
- An upload that fails validation removes the file under its name. If an older file had that name,
  it is gone too, because the upload overwrote it first.

## Model

| member | source | states |
|---|---|---|
| Access.Authenticate | video_uploader.py:48-53 | success exactly when the token is present, non-empty and listed; absent or empty gives MissingToken, unlisted gives InvalidToken, both 401 |
| Frames.Trunc | video_uploader.py:133-135 | int() truncates toward zero: the result lies within one of the argument on the side of zero, for either sign |
| Frames.ResolveEndTime | video_uploader.py:134 | a non-zero end time is used as given; an absent or zero one becomes the video's duration (result × fps = frame count), and fails with a division by zero when fps is 0 |
| Frames.ZeroEndTimeIsAbsent | video_uploader.py:134 | a trim with end time 0 produces the same media as a trim with no end time |
| Frames.TrimmedMedia | video_uploader.py:132-143 | the trimmed media keeps the source's fps and frame size, and exists exactly when the end time resolves |
| Frames.IndexFilterIsWindow | video_uploader.py:144-151 | walking the stream from any index and keeping the frames with index in [start, end] yields the clamped window from that index on |
| Frames.TrimWindowIsIndexFilter | video_uploader.py:144-151 | the trim window is exactly the frames whose index lies in [start_frame, end_frame], in stream order |
| Frames.TrimWindowElements | video_uploader.py:144-151 | the k-th kept frame is frame max(start,0)+k, the count is the clamped range's size, start > end keeps nothing, an end past the stream clamps |
| Frames.CopyTrimmedFrames | video_uploader.py:144-151 | the frame-reading loop writes exactly the trim window of the stream |
| Frames.TrimToEndKeepsTail | video_uploader.py:133-151 | with no end time, positive fps and a non-negative start, the trim keeps every frame from the start frame to the end of the stream |
| Frames.TrimmedName | video_uploader.py:137 | the trimmed name is the source name prefixed by "trimmed_", so it never equals the source name |
| Frames.MergedName | video_uploader.py:229-230 | the merged name is "merged_" + hex + ".mp4", and never equals any trimmed name |
| Frames.MergedFramesAppend | video_uploader.py:242-249 | merging the inputs a + b gives the merge of a followed by the merge of b |
| Frames.MergedFramesLength | video_uploader.py:242-249 | the merged stream holds as many frames as all inputs together |
| Frames.MergedFramesPlacesInput | video_uploader.py:242-249 | input k's frames appear unchanged in the output, right after the frames of inputs 0..k-1 |
| Frames.MergeFrames | video_uploader.py:242-249 | the nested read/write loops write every input's frames, back to back, in request order |
| VideoUploader.ResolveFilenames | video_uploader.py:220-226 | succeeds exactly when every id has a record, returning their current names in order; otherwise fails naming the first missing id |
| VideoUploader.VideoService.constructor | video_uploader.py:23-46 | a first start on a new database and an empty folder: both tables and the folder are empty, and the invariant holds |
| VideoUploader.VideoService.Upload | video_uploader.py:72-109 | token and size failures change nothing; an unopenable file or an out-of-window duration removes the written file and adds no record; fps 0 crashes leaving the file; success adds exactly one record under the fresh id and keeps the file under the client's name; links unchanged |
| VideoUploader.VideoService.Trim | video_uploader.py:111-163 | unknown id gives 404 and an unopenable file 400, both changing nothing; success keeps the id, renames the record to trimmed_<old> with the new update time, stores the window's frames there and removes the old file, which is never the new one; links and other records unchanged |
| VideoUploader.VideoService.Share | video_uploader.py:165-184 | unknown video gives 404 and adds no link; success adds one link expiring at now + expiry (request value or configured default) and returns its id; videos and files unchanged |
| VideoUploader.VideoService.Download | video_uploader.py:186-212 | unknown link gives 404; a link is expired only strictly after expires_at (410); a missing video gives 404; otherwise it returns the video's current name, or a 500 when no file of that name is left; it changes nothing, and under the invariant the missing-video case never occurs |
| VideoUploader.VideoService.Merge | video_uploader.py:214-260 | a missing id fails with 404 naming the first one, and an empty request crashes, both writing nothing; success adds one record under a new id not among the inputs, stores the concatenated frames with the first input's fps and size under merged_<hex>.mp4, and leaves input records and files unchanged |
| VideoUploader.LinkFollowsTrim | video_uploader.py:203-212 | share, then trim, then download returns the trimmed file name: a link follows the video's current file |

## Left out

- The FastAPI routing, request parsing and `FileResponse` are left out. `Download` returns the name of
  the file that is streamed, not its bytes or its content type.
- Download: a missing file is modelled as the 500 that `FileResponse` raises while sending. The
  model does not say how much of the response the client may already have received by then.
- Share: does not model the `OverflowError` that `now + timedelta(seconds=expiry_sec)` raises when
  `expires_at` falls outside datetime's range (about 2.5·10^11 s). The model returns Ok for any
  integer expiry.
- The sqlite connection and commit mechanics are left out; the two tables are maps. Each handler's
  writes happen all at once, with no failure between them.
- Loading the configuration file is left out; it is the immutable `Config` passed to the constructor.
  The upload folder and database paths are not modelled.
- OpenCV decoding is left out: it is the `decoded` parameter of `Upload`. Encoding is left out too: a
  video writer is assumed to store exactly the frames, fps and size it is given.
- `uuid.uuid4` is left out. It becomes the `newId`, `newLink` and `hex` parameters, with the
  precondition that they are fresh: `newId` has no record, `newLink` has no row, and the merged name
  is not already in the folder. The source derives a merge's record id and its file name's hex digits
  from one uuid; the model does not tie `hex` to `newId`.
- `datetime.now` is left out: it is the `now` parameter, an integer count of seconds. Sub-second
  precision is not modelled. So are the separate clock readings for `created_at` and `updated_at`.
- Floating point is left out: fps, durations and times are `real`. NaN and infinities are not
  modelled, and neither is rounding in `end_time * fps`.
- File contents are left out: only the upload's length matters, and path joining and traversal
  through client file names are not modelled.
- The handlers are async. Upload can suspend at its awaits (video_uploader.py:76, 80, 85), one of
  them after it has truncated the target file at :84. The model runs each handler as one atomic
  step, so it does not capture another request seeing that emptied file. Per-video locking is left
  out; the code has none.
- A trim that rejects an out-of-range `end_time` is left out. The code clamps instead.
- A trim or merge writer that fails to open is left out.
- A global "every record points at an existing file" invariant is left out, because it does not
  hold. Uploads reuse client file names, so two records can share one file, and trimming one of
  them deletes the other's file.
