/** The video service: the `videos` and `shared_links` tables, the upload folder, and the handlers
    that read and change them. */
module VideoUploader {
  import opened Results
  import opened Access
  import opened Frames

  type VideoId = string
  type LinkId = string

  /** A row of `videos`; times are integer seconds. */
  datatype VideoRecord = VideoRecord(filename: Filename, createdAt: int, updatedAt: int)

  /** A row of `shared_links`. */
  datatype SharedLink = SharedLink(videoId: VideoId, createdAt: int, expiresAt: int)

  /** The body of a successful upload, trim or merge. */
  datatype Saved = Saved(videoId: VideoId, filename: Filename)

  /** The body of a successful share. */
  datatype ShareInfo = ShareInfo(videoId: VideoId, expiresAt: int, linkId: LinkId)

  /** A link is expired strictly after its expiry time. */
  predicate IsExpired(link: SharedLink, now: int)
  {
    now > link.expiresAt
  }

  /** The first loop of a merge: look up each requested id in order and collect its current file name,
      failing on the first id that has no record. */
  method ResolveFilenames(videos: map<VideoId, VideoRecord>, videoIds: seq<VideoId>)
    returns (r: Result<seq<Filename>>)
    ensures r.Ok? <==> forall k :: 0 <= k < |videoIds| ==> videoIds[k] in videos
    ensures r.Ok? ==> r.value == CurrentNames(videos, videoIds)
    ensures r.Err? ==> exists k :: 0 <= k < |videoIds| && videoIds[k] !in videos &&
                                   r.error == VideoNotFound(videoIds[k]) &&
                                   forall j :: 0 <= j < k ==> videoIds[j] in videos
  {
    var filenames: seq<Filename> := [];
    var i := 0;
    while i < |videoIds|
      invariant 0 <= i <= |videoIds|
      invariant forall k :: 0 <= k < i ==> videoIds[k] in videos
      invariant |filenames| == i
      invariant forall k :: 0 <= k < i ==> filenames[k] == videos[videoIds[k]].filename
    {
      if videoIds[i] !in videos {
        return Err(VideoNotFound(videoIds[i]));
      }
      filenames := filenames + [videos[videoIds[i]].filename];
      i := i + 1;
    }
    return Ok(filenames);
  }

  /** The current file names of the given (recorded) videos, in order. */
  function CurrentNames(videos: map<VideoId, VideoRecord>, videoIds: seq<VideoId>): seq<Filename>
    requires forall k :: 0 <= k < |videoIds| ==> videoIds[k] in videos
  {
    seq(|videoIds|, k requires 0 <= k < |videoIds| => videos[videoIds[k]].filename)
  }

  class VideoService {
    const config: Config
    var videos: map<VideoId, VideoRecord>
    var links: map<LinkId, SharedLink>
    var storage: Storage

    /** The foreign key of `shared_links.video_id`: video records are never deleted and a link is
        only created for an existing video, so every link names a video that has a record. */
    ghost predicate Valid()
      reads this
    {
      forall l :: l in links ==> links[l].videoId in videos
    }

    predicate Authorized(token: Option<string>)
    {
      Authenticate(config.apiTokens, token).Ok?
    }

    constructor (config: Config)
      ensures this.config == config
      ensures videos == map[] && links == map[] && storage == map[]
      ensures Valid()
    {
      this.config := config;
      videos := map[];
      links := map[];
      storage := map[];
    }

    /** POST /upload. `data` is the uploaded body, `filename` the client's name for it, `decoded` what
        the video library makes of those bytes (None: it cannot open them), `newId` the fresh uuid. */
    method Upload(token: Option<string>, data: seq<bv8>, filename: Filename, decoded: Option<Media>,
                  newId: VideoId, now: int)
      returns (r: Result<Saved>)
      requires newId !in videos
      modifies this
      ensures links == old(links)
      ensures old(Valid()) ==> Valid()
      // refused before anything is written
      ensures !Authorized(token) ==>
                r == Err(Authenticate(config.apiTokens, token).error) &&
                videos == old(videos) && storage == old(storage)
      ensures Authorized(token) && !SizeAllowed(config, |data|) ==>
                r == Err(FileTooLarge(config.maxSizeBytes)) &&
                videos == old(videos) && storage == old(storage)
      // written, found unusable, removed again
      ensures Authorized(token) && SizeAllowed(config, |data|) && decoded.None? ==>
                r == Err(InvalidVideoFile) &&
                videos == old(videos) && storage == old(storage) - {filename}
      ensures Authorized(token) && SizeAllowed(config, |data|) && decoded.Some? &&
              decoded.value.fps != 0.0 && !DurationAllowed(config, Duration(decoded.value)) ==>
                r == Err(DurationNotAllowed(config.minDurationSec, config.maxDurationSec)) &&
                videos == old(videos) && storage == old(storage) - {filename}
      // the duration divides by zero: the request crashes and the written file stays
      ensures Authorized(token) && SizeAllowed(config, |data|) && decoded.Some? && decoded.value.fps == 0.0 ==>
                r == Err(Internal(DivisionByZero)) &&
                videos == old(videos) && storage == old(storage)[filename := Playable(decoded.value)]
      // accepted: one new record under the fresh id, the file kept under the client's name
      ensures Authorized(token) && SizeAllowed(config, |data|) && decoded.Some? &&
              decoded.value.fps != 0.0 && DurationAllowed(config, Duration(decoded.value)) ==>
                r == Ok(Saved(newId, filename)) &&
                videos == old(videos)[newId := VideoRecord(filename, now, now)] &&
                storage == old(storage)[filename := Playable(decoded.value)]
      ensures r.Ok? ==> r.value.videoId !in old(videos) && Open(storage, r.value.filename).Some?
    {
      var auth := Authenticate(config.apiTokens, token);
      if auth.Err? {
        return Err(auth.error);
      }
      if |data| > config.maxSizeBytes {
        return Err(FileTooLarge(config.maxSizeBytes));
      }
      storage := storage[filename := if decoded.Some? then Playable(decoded.value) else Unreadable];
      var capture := Open(storage, filename);
      if capture.None? {
        storage := storage - {filename};
        return Err(InvalidVideoFile);
      }
      var m := capture.value;
      if m.fps == 0.0 {
        return Err(Internal(DivisionByZero));
      }
      var duration := |m.frames| as real / m.fps;
      if duration < config.minDurationSec || duration > config.maxDurationSec {
        storage := storage - {filename};
        return Err(DurationNotAllowed(config.minDurationSec, config.maxDurationSec));
      }
      videos := videos[newId := VideoRecord(filename, now, now)];
      return Ok(Saved(newId, filename));
    }

    /** POST /trim. Copies the selected frames to "trimmed_" + the current name, points the record at
        the new file and removes the old one. */
    method Trim(token: Option<string>, videoId: VideoId, startTime: real, endTime: Option<real>, now: int)
      returns (r: Result<Saved>)
      modifies this
      ensures links == old(links)
      ensures old(Valid()) ==> Valid()
      ensures !Authorized(token) ==>
                r == Err(Authenticate(config.apiTokens, token).error) &&
                videos == old(videos) && storage == old(storage)
      ensures Authorized(token) && videoId !in old(videos) ==>
                r == Err(VideoNotFound(videoId)) && videos == old(videos) && storage == old(storage)
      ensures Authorized(token) && videoId in old(videos) &&
              Open(old(storage), old(videos)[videoId].filename).None? ==>
                r == Err(InvalidVideo(videoId)) && videos == old(videos) && storage == old(storage)
      ensures Authorized(token) && videoId in old(videos) &&
              Open(old(storage), old(videos)[videoId].filename).Some? ==>
                var trimmed := TrimmedMedia(Open(old(storage), old(videos)[videoId].filename).value, startTime, endTime);
                trimmed.Err? ==>
                  r == Err(trimmed.error) && videos == old(videos) && storage == old(storage)
      ensures Authorized(token) && videoId in old(videos) &&
              Open(old(storage), old(videos)[videoId].filename).Some? ==>
                var source := old(videos)[videoId].filename;
                var trimmed := TrimmedMedia(Open(old(storage), source).value, startTime, endTime);
                trimmed.Ok? ==>
                  r == Ok(Saved(videoId, TrimmedName(source))) &&
                  videos == old(videos)[videoId := old(videos)[videoId].(filename := TrimmedName(source),
                                                                         updatedAt := now)] &&
                  storage == old(storage)[TrimmedName(source) := Playable(trimmed.value)] - {source}
      // the old file is gone and the new one is there: removing the one never removes the other
      ensures r.Ok? ==> r.value.videoId == videoId && videoId in old(videos) &&
                        old(videos)[videoId].filename !in storage &&
                        videos[videoId].filename == TrimmedName(old(videos)[videoId].filename) &&
                        videos[videoId].filename in storage
    {
      var auth := Authenticate(config.apiTokens, token);
      if auth.Err? {
        return Err(auth.error);
      }
      if videoId !in videos {
        return Err(VideoNotFound(videoId));
      }
      var filename := videos[videoId].filename;
      var capture := Open(storage, filename);
      if capture.None? {
        return Err(InvalidVideo(videoId));
      }
      var m := capture.value;
      var startFrame := FrameAt(startTime, m.fps);
      var end := ResolveEndTime(endTime, |m.frames|, m.fps);
      if end.Err? {
        return Err(end.error);
      }
      var endFrame := FrameAt(end.value, m.fps);
      var trimmedFilename := TrimmedName(filename);
      var kept := CopyTrimmedFrames(m.frames, startFrame, endFrame);
      assert TrimmedMedia(m, startTime, endTime) == Ok(Media(m.fps, m.width, m.height, kept));
      storage := storage[trimmedFilename := Playable(Media(m.fps, m.width, m.height, kept))];
      videos := videos[videoId := videos[videoId].(filename := trimmedFilename, updatedAt := now)];
      storage := storage - {filename};
      return Ok(Saved(videoId, trimmedFilename));
    }

    /** POST /share. `expirySec` None stands for the request's default, the configured expiry. */
    method Share(token: Option<string>, videoId: VideoId, expirySec: Option<int>, newLink: LinkId, now: int)
      returns (r: Result<ShareInfo>)
      requires newLink !in links
      modifies this
      ensures videos == old(videos) && storage == old(storage)
      ensures old(Valid()) ==> Valid()
      ensures !Authorized(token) ==>
                r == Err(Authenticate(config.apiTokens, token).error) && links == old(links)
      ensures Authorized(token) && videoId !in videos ==>
                r == Err(VideoNotFound(videoId)) && links == old(links)
      ensures Authorized(token) && videoId in videos ==>
                var expiresAt := now + (if expirySec.Some? then expirySec.value else config.shareExpirySec);
                r == Ok(ShareInfo(videoId, expiresAt, newLink)) &&
                links == old(links)[newLink := SharedLink(videoId, now, expiresAt)]
    {
      var auth := Authenticate(config.apiTokens, token);
      if auth.Err? {
        return Err(auth.error);
      }
      if videoId !in videos {
        return Err(VideoNotFound(videoId));
      }
      var expiry := if expirySec.Some? then expirySec.value else config.shareExpirySec;
      var expiresAt := now + expiry;
      links := links[newLink := SharedLink(videoId, now, expiresAt)];
      return Ok(ShareInfo(videoId, expiresAt, newLink));
    }

    /** GET /download/{link_id}, which needs no token. Returns the name of the file served: the video's
        name at the time of the download, not at the time of the share. When no file of that name is
        left, sending the response fails. Changes nothing. */
    method Download(linkId: LinkId, now: int) returns (r: Result<Filename>)
      ensures linkId !in links ==> r == Err(LinkNotFound(linkId))
      ensures linkId in links && IsExpired(links[linkId], now) ==>
                r == Err(LinkExpired(linkId, links[linkId].expiresAt))
      ensures linkId in links && !IsExpired(links[linkId], now) && links[linkId].videoId !in videos ==>
                r == Err(VideoNotFound(links[linkId].videoId))
      ensures linkId in links && now <= links[linkId].expiresAt && links[linkId].videoId in videos ==>
                var filename := videos[links[linkId].videoId].filename;
                r == if filename in storage then Ok(filename) else Err(Internal(FileMissing))
      ensures r.Ok? ==> r.value in storage
      // with every link naming a recorded video, the missing-video branch is never taken
      ensures Valid() ==> !(r.Err? && r.error.VideoNotFound?)
    {
      if linkId !in links {
        return Err(LinkNotFound(linkId));
      }
      var link := links[linkId];
      if now > link.expiresAt {
        return Err(LinkExpired(linkId, link.expiresAt));
      }
      if link.videoId !in videos {
        return Err(VideoNotFound(link.videoId));
      }
      var filename := videos[link.videoId].filename;
      if filename !in storage {
        return Err(Internal(FileMissing));
      }
      return Ok(filename);
    }

    /** POST /merge. `newId` is the fresh uuid and `hex` its hex digits, which name the output file. */
    method Merge(token: Option<string>, videoIds: seq<VideoId>, newId: VideoId, hex: string, now: int)
      returns (r: Result<Saved>)
      requires newId !in videos && MergedName(hex) !in storage
      modifies this
      ensures links == old(links)
      ensures old(Valid()) ==> Valid()
      ensures !Authorized(token) ==>
                r == Err(Authenticate(config.apiTokens, token).error) &&
                videos == old(videos) && storage == old(storage)
      // a missing id: the first one is named, and nothing is written
      ensures Authorized(token) && (exists k :: 0 <= k < |videoIds| && videoIds[k] !in old(videos)) ==>
                r.Err? && videos == old(videos) && storage == old(storage) &&
                exists k :: 0 <= k < |videoIds| && r.error == VideoNotFound(videoIds[k]) &&
                            videoIds[k] !in old(videos) && forall j :: 0 <= j < k ==> videoIds[j] in old(videos)
      // an empty request crashes at filenames[0], before anything is written
      ensures Authorized(token) && videoIds == [] ==>
                r == Err(Internal(IndexOutOfRange)) && videos == old(videos) && storage == old(storage)
      ensures Authorized(token) && videoIds != [] && (forall k :: 0 <= k < |videoIds| ==> videoIds[k] in old(videos)) ==>
                var names := CurrentNames(old(videos), videoIds);
                var first := Open(old(storage), names[0]);
                var merged := Media(if first.Some? then first.value.fps else 0.0,
                                    if first.Some? then first.value.width else 0,
                                    if first.Some? then first.value.height else 0,
                                    MergedFrames(old(storage), names));
                r == Ok(Saved(newId, MergedName(hex))) &&
                videos == old(videos)[newId := VideoRecord(MergedName(hex), now, now)] &&
                storage == old(storage)[MergedName(hex) := Playable(merged)]
      // inputs untouched, the new id new
      ensures r.Ok? ==> r.value.videoId !in old(videos) &&
                        (forall k :: 0 <= k < |videoIds| ==> r.value.videoId != videoIds[k] &&
                                                             videos[videoIds[k]] == old(videos)[videoIds[k]]) &&
                        forall f :: f in old(storage) ==> f in storage && storage[f] == old(storage)[f]
    {
      var auth := Authenticate(config.apiTokens, token);
      if auth.Err? {
        return Err(auth.error);
      }
      var resolved := ResolveFilenames(videos, videoIds);
      if resolved.Err? {
        return Err(resolved.error);
      }
      var filenames := resolved.value;
      var mergedFilename := MergedName(hex);
      if |filenames| == 0 {
        return Err(Internal(IndexOutOfRange));
      }
      var first := Open(storage, filenames[0]);
      var fps := if first.Some? then first.value.fps else 0.0;
      var width := if first.Some? then first.value.width else 0;
      var height := if first.Some? then first.value.height else 0;
      var frames := MergeFrames(storage, filenames);
      storage := storage[mergedFilename := Playable(Media(fps, width, height, frames))];
      videos := videos[newId := VideoRecord(mergedFilename, now, now)];
      return Ok(Saved(newId, mergedFilename));
    }
  }

  /** A link serves the video as it is when redeemed: share, then trim, then download yields the
      trimmed file. */
  method LinkFollowsTrim(service: VideoService, token: Option<string>, videoId: VideoId,
                         newLink: LinkId, now: int)
    returns (downloaded: Result<Filename>)
    requires service.Authorized(token) && videoId in service.videos && newLink !in service.links
    requires service.config.shareExpirySec >= 0
    requires Open(service.storage, service.videos[videoId].filename).Some?
    requires Open(service.storage, service.videos[videoId].filename).value.fps != 0.0
    modifies service
    ensures downloaded == Ok(TrimmedName(old(service.videos[videoId].filename)))
  {
    var shared := service.Share(token, videoId, None, newLink, now);
    var trimmed := service.Trim(token, videoId, 0.0, None, now);
    downloaded := service.Download(newLink, now);
  }
}
