/** Uploader.find_media (src/iytdl/upload_lib/uploader.py): one pass over the job
    directory that picks the media file and the thumbnail, splits an oversized video,
    and builds the descriptor the upload consumes.

    The directory, hachoir, PIL and mutagen are oracles: Disk answers is_dir, the
    listing (names and sizes in iteration order) and is_file; Inspect answers the
    metadata of a file, the pixel size of an image and the tags of an audio file. */
module Discovery {
  import opened Base
  import opened Text
  import opened Paths
  import opened Functions

  /** A video strictly larger than this many bytes is split before upload. */
  const SplitThreshold: nat := 2147000000

  /** Video dimensions used when no photo supplied a size. */
  const DefaultDims: Dims := Dims(1280, 720)

  /** timedelta.seconds drops whole days. */
  const SecondsPerDay: nat := 86400

  datatype Kind = AudioKind | VideoKind

  /** find_media accepts the media_type strings "video" and "audio" only. */
  function ParseKind(mediaType: string): (r: Result<Kind>)
    ensures r.Ok? <==> mediaType == "video" || mediaType == "audio"
    ensures r.Err? ==> r.error == TypeError
    ensures r.Ok? ==> (r.value == VideoKind <==> mediaType == "video")
  {
    if mediaType == "video" then Ok(VideoKind)
    else if mediaType == "audio" then Ok(AudioKind)
    else Err(TypeError)
  }

  /** The extension tuples ext.audio, ext.video and ext.photo (lower case, dotted). */
  datatype Exts = Exts(audio: seq<string>, video: seq<string>, photo: seq<string>)

  function KindExts(exts: Exts, kind: Kind): seq<string>
  {
    match kind
    case AudioKind => exts.audio
    case VideoKind => exts.video
  }

  /** A directory entry: its name and st_size. */
  datatype Entry = Entry(name: string, size: nat)

  datatype Disk = Disk(
    isDir: string -> bool,
    listing: string -> seq<Entry>,
    isFile: Path -> bool)

  /** What hachoir reports: whole seconds of duration, artist, title. */
  datatype Metadata = Metadata(duration: Option<nat>, artist: Option<string>, title: Option<string>)

  datatype Inspect = Inspect(
    metadata: Path -> Option<Metadata>,
    imageSize: Path -> Dims,
    tags: Path -> Option<seq<Tag>>)

  /** download_path.joinpath(key). */
  function JobDir(downloadPath: string, key: string): string
  {
    downloadPath + "/" + key
  }

  /** The media entry of the descriptor: one file, or the parts of a split video with
      their names (the "video"/"audio", "file_name" and "is_split" keys). */
  datatype MediaFiles =
    | Single(path: Path, fileName: string)
    | Split(parts: seq<Path>, fileNames: seq<string>)

  /** The descriptor find_media returns, one variant per media type: an audio descriptor
      has no size, width or height; a video descriptor has no performer or title. */
  datatype Descriptor =
    | AudioMedia(files: MediaFiles, thumb: Option<Path>, duration: Option<nat>,
                 performer: Option<string>, title: Option<string>)
    | VideoMedia(files: MediaFiles, thumb: Option<Path>, duration: Option<nat>,
                 width: int, height: int)

  /** Everything a scan of one job directory depends on. */
  datatype Ctx = Ctx(kind: Kind, exts: Exts, tools: Tools, inspect: Inspect, disk: Disk, dir: string)

  function Listing(ctx: Ctx): seq<Entry> { ctx.disk.listing(ctx.dir) }

  // ---------------------------------------------------------------- the scan

  datatype Thumb = Thumb(path: Path, dims: Dims)

  /** The chosen media: the sanitised file ("real_file") and what it became. */
  datatype Selected = Selected(chosen: Path, files: MediaFiles)

  /** info_dict during the loop. */
  datatype Scan = Scan(selected: Option<Selected>, thumb: Option<Thumb>)

  const NothingFound: Scan := Scan(None, None)

  /** info_dict.get(media_type) is truthy: set, and not an empty list of parts. */
  predicate MediaTruthy(st: Scan)
  {
    st.selected.Some? && !(st.selected.value.files.Split? && st.selected.value.files.parts == [])
  }

  /** media_type in info_dict and "thumb" in info_dict: the loop breaks. */
  predicate Done(st: Scan)
  {
    st.selected.Some? && st.thumb.Some?
  }

  /** A non-empty file whose lower-cased name ends with one of the kind's extensions. */
  predicate WantsMedia(ctx: Ctx, e: Entry)
  {
    EndsWithAny(Lower(e.name), KindExts(ctx.exts, ctx.kind)) && e.size != 0
  }

  predicate PhotoName(ctx: Ctx, name: string)
  {
    EndsWithAny(Lower(name), ctx.exts.photo)
  }

  function NamesOf(parts: seq<Path>): (r: seq<string>)
    ensures |r| == |parts|
    ensures forall i :: 0 <= i < |parts| ==> r[i] == parts[i].name
  {
    seq(|parts|, i requires 0 <= i < |parts| => parts[i].name)
  }

  function SelfKey(s: string): string { s }

  /** What a chosen file becomes: the sorted parts and sorted part names of a split, or
      the file and its name. Only a video strictly over the threshold is split, and the
      two sorted lists pair each part with its own name. */
  function FilesFor(ctx: Ctx, file: Path, size: nat): (r: MediaFiles)
    ensures r.Split? <==> ctx.kind == VideoKind && size > SplitThreshold
    ensures r.Single? ==> r == Single(file, file.name)
    ensures r.Split? ==> r.parts == SplitResult(ctx.tools, file, size)
    ensures r.Split? ==> |r.fileNames| == |r.parts|
    ensures r.Split? ==> forall i :: 0 <= i < |r.parts| ==> r.fileNames[i] == r.parts[i].name
  {
    if size > SplitThreshold && ctx.kind == VideoKind then
      var parts := SplitResult(ctx.tools, file, size);
      SortedNamesOfSorted(parts);
      Split(parts, SortBy(NamesOf(parts), SelfKey))
    else Single(file, file.name)
  }

  lemma SortedNamesOfSorted(parts: seq<Path>)
    requires SortedBy(parts, NameOf)
    ensures SortBy(NamesOf(parts), SelfKey) == NamesOf(parts)
  {
    var names := NamesOf(parts);
    assert SortedBy(names, SelfKey) by {
      forall i, j | 0 <= i < j < |names| ensures LexLe(SelfKey(names[i]), SelfKey(names[j])) {
        assert NameOf(parts[i]) == names[i] && NameOf(parts[j]) == names[j];
      }
    }
    SortByOfSorted(names, SelfKey);
  }

  /** The photo branch: the first photo-named file becomes the thumbnail and its size. */
  function TakeThumb(ctx: Ctx, st: Scan, cur: Path): (r: Scan)
    ensures r.selected == st.selected
    ensures st.thumb.Some? ==> r.thumb == st.thumb
  {
    if st.thumb.None? && PhotoName(ctx, cur.name) then
      var conv := CovertToJpg(cur, ctx.exts.photo, ctx.inspect.imageSize(cur));
      st.(thumb := Some(Thumb(conv.0, conv.1)))
    else st
  }

  /** One turn of the loop body for one entry. */
  function Visit(ctx: Ctx, st: Scan, e: Entry): Result<Scan>
  {
    var file := Path(ctx.dir, e.name);
    if !MediaTruthy(st) && WantsMedia(ctx, e) then
      match UnquoteFilename(file)
      case Err(err) => Err(err)
      case Ok(u) =>
        var st1 := st.(selected := Some(Selected(u.path, FilesFor(ctx, u.path, e.size))));
        Ok(TakeThumb(ctx, st1, u.path))
    else Ok(TakeThumb(ctx, st, file))
  }

  /** The loop from state st over the remaining entries, stopping once both are found. */
  function ScanFrom(ctx: Ctx, st: Scan, es: seq<Entry>): Result<Scan>
    decreases |es|
  {
    if es == [] || Done(st) then Ok(st)
    else
      match Visit(ctx, st, es[0])
      case Err(err) => Err(err)
      case Ok(next) => ScanFrom(ctx, next, es[1..])
  }

  /** After the loop: pop "real_file" (KeyError when nothing was chosen), read its metadata,
      then shape the descriptor for the kind. */
  function Finish(ctx: Ctx, st: Scan): (r: Result<Descriptor>)
    ensures st.selected.None? ==> r == Err(KeyError)
    ensures r.Ok? ==> (r.value.VideoMedia? <==> ctx.kind == VideoKind)
    ensures r.Ok? ==> r.value.files == st.selected.value.files
    ensures st.selected.Some? && ctx.kind == VideoKind ==> r.Ok?
    ensures st.selected.Some? && ctx.kind == AudioKind ==>
      (r.Err? <==> ctx.inspect.metadata(st.selected.value.chosen).None?)
    ensures r.Err? ==> r.error == KeyError || r.error == AttributeError
    ensures r.Ok? ==> (r.value.duration.Some? <==>
      ctx.inspect.metadata(st.selected.value.chosen).Some? && ctx.inspect.metadata(st.selected.value.chosen).value.duration.Some?)
    ensures r.Ok? && r.value.duration.Some? ==>
      r.value.duration.value < SecondsPerDay &&
      r.value.duration.value == ctx.inspect.metadata(st.selected.value.chosen).value.duration.value % SecondsPerDay
    ensures r.Ok? && r.value.AudioMedia? ==>
      r.value.performer == ctx.inspect.metadata(st.selected.value.chosen).value.artist &&
      r.value.title == ctx.inspect.metadata(st.selected.value.chosen).value.title
    ensures r.Ok? && st.thumb.Some? ==> r.value.thumb == Some(st.thumb.value.path)
    ensures r.Ok? && r.value.AudioMedia? && st.thumb.None? ==>
      var chosen := st.selected.value.chosen;
      r.value.thumb == AlbumArtThumb(chosen, ctx.inspect.tags(chosen), ctx.disk.isFile(AlbumArtPath(chosen)))
    ensures r.Ok? && r.value.VideoMedia? ==>
      Dims(r.value.width, r.value.height) == if st.thumb.Some? then st.thumb.value.dims else DefaultDims
    ensures r.Ok? && r.value.VideoMedia? && st.thumb.None? ==> r.value.thumb.None?
  {
    if st.selected.None? then Err(KeyError)
    else
      var chosen := st.selected.value.chosen;
      var md := ctx.inspect.metadata(chosen);
      var duration := if md.Some? && md.value.duration.Some? then Some(md.value.duration.value % SecondsPerDay) else None;
      match ctx.kind
      case AudioKind =>
        if md.None? then Err(AttributeError)
        else
          var thumb := if st.thumb.Some? then Some(st.thumb.value.path)
                       else AlbumArtThumb(chosen, ctx.inspect.tags(chosen), ctx.disk.isFile(AlbumArtPath(chosen)));
          Ok(AudioMedia(st.selected.value.files, thumb, duration, md.value.artist, md.value.title))
      case VideoKind =>
        var dims := if st.thumb.Some? then st.thumb.value.dims else DefaultDims;
        var thumb := if st.thumb.Some? then Some(st.thumb.value.path) else None;
        Ok(VideoMedia(st.selected.value.files, thumb, duration, dims.width, dims.height))
  }

  function DiscoverIn(ctx: Ctx): Result<Descriptor>
  {
    match ScanFrom(ctx, NothingFound, Listing(ctx))
    case Err(err) => Err(err)
    case Ok(st) => Finish(ctx, st)
  }

  /** find_media as a function of its inputs and the oracles. */
  function Discover(mediaType: string, downloadPath: string, key: string, exts: Exts,
                    tools: Tools, inspect: Inspect, disk: Disk): (r: Result<Descriptor>)
    ensures !(mediaType == "video" || mediaType == "audio") ==> r == Err(TypeError)
    ensures (mediaType == "video" || mediaType == "audio") && !disk.isDir(JobDir(downloadPath, key)) ==>
      r == Err(FileNotFoundError)
    ensures r.Ok? ==> (r.value.VideoMedia? <==> mediaType == "video")
    ensures r.Ok? && r.value.duration.Some? ==> r.value.duration.value < SecondsPerDay
    ensures r.Ok? && r.value.VideoMedia? && r.value.thumb.None? ==> Dims(r.value.width, r.value.height) == DefaultDims
  {
    match ParseKind(mediaType)
    case Err(err) => Err(err)
    case Ok(kind) =>
      var dir := JobDir(downloadPath, key);
      if !disk.isDir(dir) then Err(FileNotFoundError)
      else DiscoverIn(Ctx(kind, exts, tools, inspect, disk, dir))
  }

  // ---------------------------------------------------------------- the method

  /** Uploader.find_media: the checks, then the for/break scan filling info_dict, then the
      pop of "real_file" and the kind-specific descriptor. */
  method FindMedia(mediaType: string, downloadPath: string, key: string, exts: Exts,
                   tools: Tools, inspect: Inspect, disk: Disk) returns (r: Result<Descriptor>)
    ensures r == Discover(mediaType, downloadPath, key, exts, tools, inspect, disk)
  {
    var parsed := ParseKind(mediaType);
    if parsed.Err? {
      return Err(TypeError);
    }
    var mediaPath := JobDir(downloadPath, key);
    if !disk.isDir(mediaPath) {
      return Err(FileNotFoundError);
    }
    var ctx := Ctx(parsed.value, exts, tools, inspect, disk, mediaPath);
    var entries := disk.listing(mediaPath);
    var st := NothingFound;
    var i := 0;
    while i < |entries|
      invariant 0 <= i <= |entries|
      invariant ScanFrom(ctx, st, entries[i..]) == ScanFrom(ctx, NothingFound, entries)
      invariant !Done(st)
    {
      assert entries[i..][0] == entries[i] && entries[i..][1..] == entries[i + 1..];
      var next := VisitEntry(ctx, st, entries[i]);
      if next.Err? {
        return Err(next.error);
      }
      st := next.value;
      i := i + 1;
      if st.selected.Some? && st.thumb.Some? {
        break;
      }
    }
    r := FinishScan(ctx, st);
  }

  /** One turn of the loop: take the entry as the media when none is held yet (sanitising
      and, for a large video, splitting it), then as the thumbnail when none is held yet. */
  method VisitEntry(ctx: Ctx, st: Scan, entry: Entry) returns (r: Result<Scan>)
    ensures r == Visit(ctx, st, entry)
  {
    var selected, thumb := st.selected, st.thumb;
    var file := Path(ctx.dir, entry.name);
    if !MediaTruthy(st) && EndsWithAny(Lower(entry.name), KindExts(ctx.exts, ctx.kind)) && entry.size != 0 {
      var unquoted := UnquoteFilename(file);
      if unquoted.Err? {
        return Err(unquoted.error);
      }
      file := unquoted.value.path;
      var files: MediaFiles;
      if entry.size > SplitThreshold && ctx.kind == VideoKind {
        var parts, attempts := SplitVideo(ctx.tools, file, entry.size);
        files := Split(parts, SortBy(NamesOf(parts), SelfKey));
      } else {
        files := Single(file, file.name);
      }
      selected := Some(Selected(file, files));
    }
    if thumb.None? && EndsWithAny(Lower(file.name), ctx.exts.photo) {
      var conv := CovertToJpg(file, ctx.exts.photo, ctx.inspect.imageSize(file));
      thumb := Some(Thumb(conv.0, conv.1));
    }
    r := Ok(Scan(selected, thumb));
  }

  /** After the loop: pop the chosen file (KeyError when there is none), read its metadata
      and shape the descriptor for the kind. */
  method FinishScan(ctx: Ctx, st: Scan) returns (r: Result<Descriptor>)
    ensures r == Finish(ctx, st)
  {
    if st.selected.None? {
      return Err(KeyError);
    }
    var chosen := st.selected.value.chosen;
    var metadata := ctx.inspect.metadata(chosen);
    var duration: Option<nat> := None;
    if metadata.Some? && metadata.value.duration.Some? {
      duration := Some(metadata.value.duration.value % SecondsPerDay);
    }
    if ctx.kind == AudioKind {
      if metadata.None? {
        return Err(AttributeError);
      }
      var audioThumb: Option<Path>;
      if st.thumb.Some? {
        audioThumb := Some(st.thumb.value.path);
      } else {
        var artIndex;
        audioThumb, artIndex := ThumbFromAudio(chosen, ctx.inspect.tags(chosen), ctx.disk.isFile(AlbumArtPath(chosen)));
      }
      r := Ok(AudioMedia(st.selected.value.files, audioThumb, duration, metadata.value.artist, metadata.value.title));
    } else {
      var size := if st.thumb.Some? then st.thumb.value.dims else DefaultDims;
      var videoThumb := if st.thumb.Some? then Some(st.thumb.value.path) else None;
      r := Ok(VideoMedia(st.selected.value.files, videoThumb, duration, size.width, size.height));
    }
  }

  // ---------------------------------------------------------------- properties

  /** The selection find_media makes from one candidate entry. */
  function SelectionFor(ctx: Ctx, e: Entry): Selected
  {
    var file := Path(ctx.dir, e.name);
    var u := UnquoteFilename(file);
    var chosen := if u.Ok? then u.value.path else file; // a failed rename ends the scan instead
    Selected(chosen, FilesFor(ctx, chosen, e.size))
  }

  /** The candidate's split, if any, produced no part at all. */
  predicate EmptySplit(ctx: Ctx, e: Entry)
  {
    var sel := SelectionFor(ctx, e);
    sel.files.Split? && sel.files.parts == []
  }

  /** The thumbnail a photo entry yields. */
  function ThumbFor(ctx: Ctx, e: Entry): Thumb
  {
    var file := Path(ctx.dir, e.name);
    var conv := CovertToJpg(file, ctx.exts.photo, ctx.inspect.imageSize(file));
    Thumb(conv.0, conv.1)
  }

  /** With no candidate in the rest of the listing nothing gets selected, and nothing can fail. */
  lemma {:induction false} ScanWithoutCandidates(ctx: Ctx, st: Scan, es: seq<Entry>)
    requires st.selected.None?
    requires forall k :: 0 <= k < |es| ==> !WantsMedia(ctx, es[k])
    ensures ScanFrom(ctx, st, es).Ok?
    ensures ScanFrom(ctx, st, es).value.selected.None?
    decreases |es|
  {
    if es != [] {
      var next := TakeThumb(ctx, st, Path(ctx.dir, es[0].name));
      assert Visit(ctx, st, es[0]) == Ok(next);
      ScanWithoutCandidates(ctx, next, es[1..]);
    }
  }

  /** Once the media is set (and truthy) no later entry replaces it, and no later entry is
      renamed, so the scan cannot fail. */
  lemma {:induction false} ScanKeepsSelection(ctx: Ctx, st: Scan, es: seq<Entry>)
    requires MediaTruthy(st)
    ensures ScanFrom(ctx, st, es).Ok?
    ensures ScanFrom(ctx, st, es).value.selected == st.selected
    decreases |es|
  {
    if es != [] && !Done(st) {
      var next := TakeThumb(ctx, st, Path(ctx.dir, es[0].name));
      assert Visit(ctx, st, es[0]) == Ok(next);
      ScanKeepsSelection(ctx, next, es[1..]);
    }
  }

  /** Once a thumbnail is set it is never replaced. */
  lemma {:induction false} ScanKeepsThumb(ctx: Ctx, st: Scan, es: seq<Entry>)
    requires st.thumb.Some?
    ensures ScanFrom(ctx, st, es).Ok? ==> ScanFrom(ctx, st, es).value.thumb == st.thumb
    decreases |es|
  {
    if es != [] && !Done(st) {
      match Visit(ctx, st, es[0])
      case Err(_) =>
      case Ok(next) =>
        ScanKeepsThumb(ctx, next, es[1..]);
    }
  }

  /** The first candidate entry is the one selected (when its split is not empty). */
  lemma {:induction false} ScanSelectsFirst(ctx: Ctx, st: Scan, es: seq<Entry>, i0: nat)
    requires st.selected.None?
    requires i0 < |es| && WantsMedia(ctx, es[i0])
    requires forall k :: 0 <= k < i0 ==> !WantsMedia(ctx, es[k])
    requires !EmptySplit(ctx, es[i0])
    requires ScanFrom(ctx, st, es).Ok?
    ensures ScanFrom(ctx, st, es).value.selected == Some(SelectionFor(ctx, es[i0]))
    decreases |es|
  {
    match Visit(ctx, st, es[0])
    case Err(_) =>
    case Ok(next) =>
      if i0 == 0 {
        assert next.selected == Some(SelectionFor(ctx, es[0]));
        ScanKeepsSelection(ctx, next, es[1..]);
      } else {
        var rest := es[1..];
        assert next.selected.None?;
        assert rest[i0 - 1] == es[i0];
        forall k | 0 <= k < i0 - 1 ensures !WantsMedia(ctx, rest[k]) {
          assert rest[k] == es[k + 1];
        }
        ScanSelectsFirst(ctx, next, rest, i0 - 1);
      }
  }

  /** No candidate name is photo-like, before or after its quotes are stripped. */
  predicate CandidatesAreNotPhotos(ctx: Ctx, es: seq<Entry>)
  {
    forall k :: 0 <= k < |es| && WantsMedia(ctx, es[k]) ==>
      !PhotoName(ctx, es[k].name) && !PhotoName(ctx, StripQuotes(es[k].name))
  }

  /** When media and photo names are told apart, the thumbnail is converted from the first
      photo-named entry. */
  lemma {:induction false} ScanTakesFirstPhoto(ctx: Ctx, st: Scan, es: seq<Entry>, j0: nat)
    requires st.thumb.None?
    requires CandidatesAreNotPhotos(ctx, es)
    requires j0 < |es| && PhotoName(ctx, es[j0].name)
    requires forall k :: 0 <= k < j0 ==> !PhotoName(ctx, es[k].name)
    requires ScanFrom(ctx, st, es).Ok?
    ensures ScanFrom(ctx, st, es).value.thumb == Some(ThumbFor(ctx, es[j0]))
    decreases |es|
  {
    var file := Path(ctx.dir, es[0].name);
    match Visit(ctx, st, es[0])
    case Err(_) =>
    case Ok(next) =>
      if j0 == 0 {
        assert !WantsMedia(ctx, es[0]);
        assert next.thumb == Some(ThumbFor(ctx, es[0]));
        ScanKeepsThumb(ctx, next, es[1..]);
      } else {
        assert next.thumb.None?;
        assert CandidatesAreNotPhotos(ctx, es[1..]) by {
          forall k | 0 <= k < |es[1..]| && WantsMedia(ctx, es[1..][k])
            ensures !PhotoName(ctx, es[1..][k].name) && !PhotoName(ctx, StripQuotes(es[1..][k].name))
          {
            assert es[1..][k] == es[k + 1];
          }
        }
        ScanTakesFirstPhoto(ctx, next, es[1..], j0 - 1);
      }
  }

  /** Without a photo-named entry, and with no candidate that becomes one once sanitised,
      the scan takes no thumbnail. */
  lemma {:induction false} ScanWithoutPhotos(ctx: Ctx, st: Scan, es: seq<Entry>)
    requires st.thumb.None?
    requires CandidatesAreNotPhotos(ctx, es)
    requires forall k :: 0 <= k < |es| ==> !PhotoName(ctx, es[k].name)
    ensures ScanFrom(ctx, st, es).Ok? ==> ScanFrom(ctx, st, es).value.thumb.None?
    decreases |es|
  {
    if es != [] && !Done(st) {
      match Visit(ctx, st, es[0])
      case Err(_) =>
      case Ok(next) =>
        assert next.thumb.None?;
        var rest := es[1..];
        forall k | 0 <= k < |rest|
          ensures !PhotoName(ctx, rest[k].name)
          ensures WantsMedia(ctx, rest[k]) ==> !PhotoName(ctx, StripQuotes(rest[k].name))
        {
          assert rest[k] == es[k + 1];
        }
        ScanWithoutPhotos(ctx, next, rest);
    }
  }

  /** In an audio job nothing is ever split. */
  lemma {:induction false} ScanAudioNeverSplits(ctx: Ctx, st: Scan, es: seq<Entry>)
    requires ctx.kind == AudioKind
    requires st.selected.Some? ==> st.selected.value.files.Single?
    ensures ScanFrom(ctx, st, es).Ok? && ScanFrom(ctx, st, es).value.selected.Some? ==>
      ScanFrom(ctx, st, es).value.selected.value.files.Single?
    decreases |es|
  {
    if es != [] && !Done(st) {
      match Visit(ctx, st, es[0])
      case Err(_) =>
      case Ok(next) =>
        ScanAudioNeverSplits(ctx, next, es[1..]);
    }
  }

  /** A listing without a non-empty file of the requested kind ends in KeyError. */
  lemma DiscoverFindsNothing(ctx: Ctx)
    requires forall k :: 0 <= k < |Listing(ctx)| ==> !WantsMedia(ctx, Listing(ctx)[k])
    ensures DiscoverIn(ctx) == Err(KeyError)
  {
    ScanWithoutCandidates(ctx, NothingFound, Listing(ctx));
  }

  /** The descriptor carries the first candidate file, sanitised, split only if it is a video
      over the threshold. */
  lemma DiscoverTakesFirstMedia(ctx: Ctx, i0: nat)
    requires i0 < |Listing(ctx)| && WantsMedia(ctx, Listing(ctx)[i0])
    requires forall k :: 0 <= k < i0 ==> !WantsMedia(ctx, Listing(ctx)[k])
    requires !EmptySplit(ctx, Listing(ctx)[i0])
    requires DiscoverIn(ctx).Ok?
    ensures DiscoverIn(ctx).value.files == SelectionFor(ctx, Listing(ctx)[i0]).files
    ensures DiscoverIn(ctx).value.files.Split? <==>
      ctx.kind == VideoKind && Listing(ctx)[i0].size > SplitThreshold
  {
    ScanSelectsFirst(ctx, NothingFound, Listing(ctx), i0);
  }

  /** The descriptor's thumbnail is the first photo's converted file, and a video takes
      that photo's size. */
  lemma DiscoverTakesFirstPhoto(ctx: Ctx, j0: nat)
    requires CandidatesAreNotPhotos(ctx, Listing(ctx))
    requires j0 < |Listing(ctx)| && PhotoName(ctx, Listing(ctx)[j0].name)
    requires forall k :: 0 <= k < j0 ==> !PhotoName(ctx, Listing(ctx)[k].name)
    requires DiscoverIn(ctx).Ok?
    ensures DiscoverIn(ctx).value.thumb == Some(ThumbFor(ctx, Listing(ctx)[j0]).path)
    ensures DiscoverIn(ctx).value.VideoMedia? ==>
      Dims(DiscoverIn(ctx).value.width, DiscoverIn(ctx).value.height) == ThumbFor(ctx, Listing(ctx)[j0]).dims
  {
    ScanTakesFirstPhoto(ctx, NothingFound, Listing(ctx), j0);
  }

  /** An audio descriptor always names a single file. */
  lemma DiscoverAudioIsSingle(ctx: Ctx)
    requires ctx.kind == AudioKind
    requires DiscoverIn(ctx).Ok?
    ensures DiscoverIn(ctx).value.AudioMedia? && DiscoverIn(ctx).value.files.Single?
  {
    ScanAudioNeverSplits(ctx, NothingFound, Listing(ctx));
  }

  /** An audio job reads the metadata of its first audio file: without metadata it ends in
      AttributeError, otherwise the performer and title are the file's artist and title. */
  lemma DiscoverAudioMetadata(ctx: Ctx, i0: nat)
    requires ctx.kind == AudioKind
    requires i0 < |Listing(ctx)| && WantsMedia(ctx, Listing(ctx)[i0])
    requires forall k :: 0 <= k < i0 ==> !WantsMedia(ctx, Listing(ctx)[k])
    requires ScanFrom(ctx, NothingFound, Listing(ctx)).Ok?
    ensures var md := ctx.inspect.metadata(SelectionFor(ctx, Listing(ctx)[i0]).chosen);
      && (DiscoverIn(ctx).Err? <==> md.None?)
      && (DiscoverIn(ctx).Err? ==> DiscoverIn(ctx).error == AttributeError)
      && (DiscoverIn(ctx).Ok? ==>
            DiscoverIn(ctx).value.AudioMedia? &&
            DiscoverIn(ctx).value.performer == md.value.artist && DiscoverIn(ctx).value.title == md.value.title)
  {
    ScanSelectsFirst(ctx, NothingFound, Listing(ctx), i0);
  }

  /** An audio job whose listing holds no photo takes its thumbnail from the album art of
      its first audio file. */
  lemma DiscoverAudioAlbumArt(ctx: Ctx, i0: nat)
    requires ctx.kind == AudioKind
    requires CandidatesAreNotPhotos(ctx, Listing(ctx))
    requires forall k :: 0 <= k < |Listing(ctx)| ==> !PhotoName(ctx, Listing(ctx)[k].name)
    requires i0 < |Listing(ctx)| && WantsMedia(ctx, Listing(ctx)[i0])
    requires forall k :: 0 <= k < i0 ==> !WantsMedia(ctx, Listing(ctx)[k])
    requires DiscoverIn(ctx).Ok?
    ensures var chosen := SelectionFor(ctx, Listing(ctx)[i0]).chosen;
      DiscoverIn(ctx).value.thumb == AlbumArtThumb(chosen, ctx.inspect.tags(chosen), ctx.disk.isFile(AlbumArtPath(chosen)))
  {
    ScanSelectsFirst(ctx, NothingFound, Listing(ctx), i0);
    ScanWithoutPhotos(ctx, NothingFound, Listing(ctx));
  }

  /** Any video over the threshold needs at least two parts of SplitSize, a video up to twice
      SplitSize exactly two, and a video of exactly the threshold is not split at all. */
  lemma SplitThresholdParts(ctx: Ctx, file: Path, size: nat)
    requires ctx.kind == VideoKind
    ensures size > SplitThreshold ==> PartsCount(size) >= 2
    ensures SplitThreshold < size <= 2 * SplitSize ==> PartsCount(size) == 2
    ensures FilesFor(ctx, file, SplitThreshold).Single?
  {
  }
}
