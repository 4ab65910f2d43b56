/** src/iytdl/upload_lib/functions.py: file-name sanitising, the duration probe,
    thumbnail derivation (frame grab, image normalisation, album art) and the
    planning loop that cuts an oversized video into parts.

    ffprobe and ffmpeg are oracles (Tools): each call is answered by a total
    function of its arguments, giving the exit code, whether the output file
    exists afterwards, and the probed duration. */
module Functions {
  import opened Base
  import opened Text
  import opened Paths

  // ---------------------------------------------------------------- unquote_filename

  /** Where the file ends up and whether a rename took place. */
  datatype Unquoted = Unquoted(path: Path, renamed: bool)

  /** unquote_filename: quotes leave the name (never the directory), and the file is renamed
      exactly when the joined path's name differs from the file's own. A stripped name of
      "", "." or ".." joins to a directory (the parent or the one above it), so that rename
      fails; when the parent itself carries the file's name, nothing is renamed at all. */
  function UnquoteFilename(file: Path): (r: Result<Unquoted>)
    ensures r.Err? <==>
      JoinsOutside(StripQuotes(file.name)) && JoinedName(file.parent, StripQuotes(file.name)) != file.name
    ensures r.Err? ==> r.error == OSError
    ensures r.Ok? ==> (r.value.renamed <==> JoinedName(file.parent, StripQuotes(file.name)) != file.name)
    ensures r.Ok? && !r.value.renamed ==> r.value.path == file
    ensures !JoinsOutside(StripQuotes(file.name)) ==>
      r.Ok? && r.value.path == Path(file.parent, StripQuotes(file.name)) && NoQuotes(r.value.path.name)
  {
    StripQuotesFacts(file.name);
    var clean := StripQuotes(file.name);
    if JoinedName(file.parent, clean) == file.name then Ok(Unquoted(file, false))
    else if JoinsOutside(clean) then Err(OSError)
    else Ok(Unquoted(Path(file.parent, clean), true))
  }

  /** Sanitising a sanitised path renames nothing and returns the same path. */
  lemma UnquoteIdempotent(file: Path)
    requires UnquoteFilename(file).Ok?
    ensures UnquoteFilename(UnquoteFilename(file).value.path) == Ok(Unquoted(UnquoteFilename(file).value.path, false))
  {
    StripQuotesIdempotent(file.name);
  }

  /** A name that keeps some character other than a quote or a dot is renamed to its
      stripped form beside the original. */
  lemma UnquoteSucceeds(file: Path, i: nat)
    requires i < |file.name| && !IsQuote(file.name[i]) && file.name[i] != '.'
    ensures UnquoteFilename(file).Ok?
    ensures UnquoteFilename(file).value.path == Path(file.parent, StripQuotes(file.name))
  {
    StripQuotesFacts(file.name);
    assert file.name[i] in file.name;
    assert file.name[i] in StripQuotes(file.name);
    assert !JoinsOutside(StripQuotes(file.name));
  }

  // ---------------------------------------------------------------- external tools

  /** What ffprobe answered: its exit code and the duration it printed (already read as
      whole seconds), or an exception (missing binary, unparsable output). */
  datatype ProbeOutcome = Probed(exitCode: int, seconds: int) | ProbeRaised

  /** An ffmpeg run: its exit code and whether the output file exists afterwards. */
  datatype RunOutcome = RunOutcome(exitCode: int, outputExists: bool)

  datatype Tools = Tools(
    probe: Path -> ProbeOutcome,              // ffprobe -show_entries format=duration <file>
    cutPart: (Path, int, Path) -> RunOutcome, // ffmpeg -i <source> -ss <start> -fs <split size> -c copy <part>
    grabFrame: (Path, int, Path) -> RunOutcome) // ffmpeg -ss <second> -i <video> -vframes 1 <jpg>

  /** get_duration: the probed seconds, or 0 whenever the probe failed or raised. */
  function GetDuration(o: ProbeOutcome): (d: int)
    ensures o.ProbeRaised? ==> d == 0
    ensures o.Probed? && o.exitCode != 0 ==> d == 0
    ensures o.Probed? && o.exitCode == 0 ==> d == o.seconds
  {
    match o
    case ProbeRaised => 0
    case Probed(code, seconds) => if code != 0 then 0 else seconds
  }

  // ---------------------------------------------------------------- take_screen_shot

  /** The frame of a video is written beside it as <stem>.jpg. */
  function ScreenShotPath(video: Path): (r: Path)
    ensures r.parent == video.parent
    ensures EndsWith(r.name, ".jpg")
  {
    Path(video.parent, Stem(video.name) + ".jpg")
  }

  /** The second the frame is taken at: ttl itself, or, for ttl == -1, half the probed
      duration rounded down (Python's //; Dafny's / agrees for the divisor 2). */
  function SeekSecond(tools: Tools, video: Path, ttl: int): (s: int)
    ensures ttl != -1 ==> s == ttl
    ensures ttl == -1 ==> 2 * s <= GetDuration(tools.probe(video)) < 2 * s + 2
  {
    if ttl == -1 then GetDuration(tools.probe(video)) / 2 else ttl
  }

  /** take_screen_shot: the thumbnail path exactly when ffmpeg exited 0 and the file exists. */
  function TakeScreenShot(tools: Tools, video: Path, ttl: int): (r: Option<Path>)
    ensures r.Some? <==>
      (var run := tools.grabFrame(video, SeekSecond(tools, video, ttl), ScreenShotPath(video));
       run.exitCode == 0 && run.outputExists)
    ensures r.Some? ==> r.value == ScreenShotPath(video)
  {
    var ss := ScreenShotPath(video);
    var run := tools.grabFrame(video, SeekSecond(tools, video, ttl), ss);
    if run.exitCode == 0 && run.outputExists then Some(ss) else None
  }

  // ---------------------------------------------------------------- covert_to_jpg

  /** An image's pixel size as PIL reports it. */
  datatype Dims = Dims(width: int, height: int)

  /** ext.photo[:2]: the extensions a thumbnail may keep as it is. */
  function KeptPhotoExts(photo: seq<string>): (r: seq<string>)
    ensures |r| <= 2 && |r| <= |photo| && r == photo[..|r|]
  {
    if |photo| < 2 then photo else photo[..2]
  }

  /** covert_to_jpg: an image already in one of the first two photo formats is used in
      place; any other is re-saved beside itself as <stem>.jpeg. The size is the
      image's own: nothing is resized. */
  function CovertToJpg(file: Path, photo: seq<string>, size: Dims): (r: (Path, Dims))
    ensures r.1 == size
    ensures r.0.parent == file.parent
    ensures EndsWithAny(Lower(file.name), KeptPhotoExts(photo)) ==> r.0 == file
    ensures !EndsWithAny(Lower(file.name), KeptPhotoExts(photo)) ==>
      r.0.name == Stem(file.name) + ".jpeg"
  {
    if EndsWithAny(Lower(file.name), KeptPhotoExts(photo)) then (file, size)
    else (Path(file.parent, Stem(file.name) + ".jpeg"), size)
  }

  // ---------------------------------------------------------------- thumb_from_audio

  /** One tag of a mutagen file: its key and the bytes of its `data` attribute
      (empty when the attribute is missing or empty). */
  datatype Tag = Tag(key: string, data: seq<bv8>)

  /** A key naming an APIC frame that carries picture bytes. */
  predicate IsAlbumArt(t: Tag)
  {
    Contains(t.key, "APIC") && |t.data| > 0
  }

  function AlbumArtPath(audio: Path): (r: Path)
    ensures r.parent == audio.parent
  {
    Path(audio.parent, "album_art.jpg")
  }

  /** The first tag holding album art, in key order. */
  function FirstAlbumArt(tags: seq<Tag>): (r: Option<nat>)
    ensures r.Some? ==> r.value < |tags| && IsAlbumArt(tags[r.value])
    ensures r.Some? ==> forall k :: 0 <= k < r.value ==> !IsAlbumArt(tags[k])
    ensures r.None? ==> forall k :: 0 <= k < |tags| ==> !IsAlbumArt(tags[k])
    decreases |tags|
  {
    if tags == [] then None
    else if IsAlbumArt(tags[0]) then Some(0)
    else
      match FirstAlbumArt(tags[1..])
      case None => None
      case Some(i) => Some(i + 1)
  }

  /** The thumbnail thumb_from_audio reports: nothing for a file mutagen cannot read or
      that has no tags; otherwise album_art.jpg whenever it exists after the scan, that
      is, when it was already there or a picture was just saved to it. */
  function AlbumArtThumb(audio: Path, tags: Option<seq<Tag>>, artExisted: bool): (r: Option<Path>)
    ensures tags.None? || tags.value == [] ==> r.None?
    ensures r.Some? ==> r.value == AlbumArtPath(audio)
    ensures tags.Some? && tags.value != [] ==>
      (r.Some? <==> artExisted || exists k :: 0 <= k < |tags.value| && IsAlbumArt(tags.value[k]))
  {
    if tags.None? || tags.value == [] then None
    else if artExisted || FirstAlbumArt(tags.value).Some? then Some(AlbumArtPath(audio))
    else None
  }

  /** thumb_from_audio: walks the tag keys, saves the first album-art picture, stops.
      `saved` is the index of the tag whose picture was written. */
  method ThumbFromAudio(audio: Path, tags: Option<seq<Tag>>, artExisted: bool)
    returns (thumb: Option<Path>, saved: Option<nat>)
    ensures thumb == AlbumArtThumb(audio, tags, artExisted)
    ensures saved.Some? ==> tags.Some? && saved.value < |tags.value| && IsAlbumArt(tags.value[saved.value])
    ensures saved.Some? ==> forall k :: 0 <= k < saved.value ==> !IsAlbumArt(tags.value[k])
    ensures saved.None? && tags.Some? && tags.value != [] ==>
      forall k :: 0 <= k < |tags.value| ==> !IsAlbumArt(tags.value[k])
  {
    saved := None;
    if tags.None? || tags.value == [] {
      thumb := None;
      return;
    }
    var keys := tags.value;
    var i := 0;
    while i < |keys|
      invariant 0 <= i <= |keys|
      invariant forall k :: 0 <= k < i ==> !IsAlbumArt(keys[k])
    {
      if IsAlbumArt(keys[i]) {
        saved := Some(i);
        break;
      }
      i := i + 1;
    }
    var artOnDisk := artExisted || saved.Some?;
    thumb := if artOnDisk then Some(AlbumArtPath(audio)) else None;
  }

  // ---------------------------------------------------------------- split_video

  /** split_size = 1.5 * 1024 * 1024 * 1024 bytes, the -fs cap of every part. */
  const SplitSize: nat := 1610612736

  /** ceil(size / split_size). */
  function PartsCount(size: nat): (n: nat)
    ensures size <= n * SplitSize
    ensures n == 0 || (n - 1) * SplitSize < size
  {
    (size + SplitSize - 1) / SplitSize
  }

  /** "{stem}.part{zfill(k, 3)}{suffix}". */
  function PartName(file: Path, k: nat): string
  {
    Stem(file.name) + ".part" + ZFill(NatToString(k), 3) + Suffix(file.name)
  }

  function PartPath(file: Path, k: nat): (r: Path)
    ensures r.parent == file.parent
  {
    Path(file.parent, PartName(file, k))
  }

  /** One pass of the loop: the part asked for, the offset it was cut from, what ffmpeg
      did, and the duration then probed on the part's (pre-rename) path. */
  datatype Attempt = Attempt(ordinal: nat, output: Path, start: int, run: RunOutcome, duration: int)

  predicate Succeeded(a: Attempt)
  {
    a.run.exitCode == 0 && a.run.outputExists
  }

  /** The output path of every ordinal: <stem>.part<k as 3 digits><suffix> beside the source. */
  function PartPaths(file: Path): nat -> Path
  {
    (k: nat) => PartPath(file, k)
  }

  /** The passes for ordinals k..parts when the cut starts at `start`, part k going to
      partPath(k). */
  function AttemptsFrom(tools: Tools, file: Path, partPath: nat -> Path, k: nat, parts: nat, start: int): seq<Attempt>
    decreases parts + 1 - k
  {
    if k > parts then []
    else
      var out := partPath(k);
      var d := GetDuration(tools.probe(out));
      [Attempt(k, out, start, tools.cutPart(file, start, out), d)]
        + AttemptsFrom(tools, file, partPath, k + 1, parts, start + d)
  }

  function SplitAttempts(tools: Tools, file: Path, size: nat): seq<Attempt>
  {
    AttemptsFrom(tools, file, PartPaths(file), 1, PartsCount(size), 0)
  }

  /** The path unquote_filename gives a part. */
  function CleanPath(p: Path): Path
  {
    Path(p.parent, StripQuotes(p.name))
  }

  /** `result` before sorting: the sanitised path of every part that was written, in loop order. */
  function Produced(attempts: seq<Attempt>): seq<Path>
    decreases |attempts|
  {
    if attempts == [] then []
    else
      var last := attempts[|attempts| - 1];
      Produced(attempts[..|attempts| - 1]) + (if Succeeded(last) then [CleanPath(last.output)] else [])
  }

  /** sorted(result). */
  function SplitResult(tools: Tools, file: Path, size: nat): seq<Path>
  {
    SortBy(Produced(SplitAttempts(tools, file, size)), NameOf)
  }

  lemma PartNameHasContent(file: Path, k: nat)
    ensures UnquoteFilename(PartPath(file, k)).Ok?
    ensures UnquoteFilename(PartPath(file, k)).value.path == CleanPath(PartPath(file, k))
  {
    var n := PartName(file, k);
    var stem := Stem(file.name);
    assert n[|stem| + 1] == 'p';
    UnquoteSucceeds(PartPath(file, k), |stem| + 1);
  }

  lemma ProducedSnoc(attempts: seq<Attempt>, a: Attempt)
    ensures Produced(attempts + [a])
      == Produced(attempts) + (if Succeeded(a) then [CleanPath(a.output)] else [])
  {
    assert (attempts + [a])[..|attempts|] == attempts;
  }

  lemma AttemptsFromStep(tools: Tools, file: Path, partPath: nat -> Path, k: nat, parts: nat, start: int,
                         done: seq<Attempt>)
    requires k <= parts
    ensures done + AttemptsFrom(tools, file, partPath, k, parts, start)
      == (done + [Attempt(k, partPath(k), start, tools.cutPart(file, start, partPath(k)),
                          GetDuration(tools.probe(partPath(k))))])
         + AttemptsFrom(tools, file, partPath, k + 1, parts, start + GetDuration(tools.probe(partPath(k))))
  {
  }

  /** split_video: one ffmpeg cut per ordinal 1..ceil(size / split_size), each starting
      where the probed durations of the earlier parts add up to; written parts are
      sanitised and kept, failed ones skipped; the survivors come back sorted. */
  method SplitVideo(tools: Tools, file: Path, size: nat) returns (result: seq<Path>, attempts: seq<Attempt>)
    ensures attempts == SplitAttempts(tools, file, size)
    ensures result == SplitResult(tools, file, size)
  {
    var start: nat, curDuration := 1, 0;
    var produced := [];
    var parts := PartsCount(size);
    attempts := [];
    while start <= parts
      invariant 1 <= start <= parts + 1
      invariant attempts + AttemptsFrom(tools, file, PartPaths(file), start, parts, curDuration) == SplitAttempts(tools, file, size)
      invariant produced == Produced(attempts)
    {
      var newFile := PartPath(file, start);
      var run := tools.cutPart(file, curDuration, newFile);
      if run.exitCode == 0 && run.outputExists {
        PartNameHasContent(file, start);
        var unquoted := UnquoteFilename(newFile);
        produced := produced + [unquoted.value.path];
      }
      var newDuration := GetDuration(tools.probe(newFile));
      var a := Attempt(start, newFile, curDuration, run, newDuration);
      assert PartPaths(file)(start) == newFile;
      AttemptsFromStep(tools, file, PartPaths(file), start, parts, curDuration, attempts);
      ProducedSnoc(attempts, a);
      attempts := attempts + [a];
      curDuration := curDuration + newDuration;
      start := start + 1;
    }
    result := SortBy(produced, NameOf);
  }

  // ---------------------------------------------------------------- facts about the split plan

  /** The seconds the probes of the given parts add up to. */
  function SumDurations(attempts: seq<Attempt>): int
    decreases |attempts|
  {
    if attempts == [] then 0 else attempts[0].duration + SumDurations(attempts[1..])
  }

  lemma {:induction false} AttemptsFromShape(tools: Tools, file: Path, partPath: nat -> Path, k: nat, parts: nat, start: int)
    ensures var r := AttemptsFrom(tools, file, partPath, k, parts, start);
      && |r| == (if k > parts then 0 else parts + 1 - k)
      && forall i :: 0 <= i < |r| ==>
           && r[i].ordinal == k + i
           && r[i].output == partPath(k + i)
           && r[i].start == start + SumDurations(r[..i])
           && r[i].run == tools.cutPart(file, r[i].start, r[i].output)
           && r[i].duration == GetDuration(tools.probe(r[i].output))
    decreases parts + 1 - k
  {
    if k <= parts {
      var out := partPath(k);
      var d := GetDuration(tools.probe(out));
      var first := Attempt(k, out, start, tools.cutPart(file, start, out), d);
      var rest := AttemptsFrom(tools, file, partPath, k + 1, parts, start + d);
      var r := AttemptsFrom(tools, file, partPath, k, parts, start);
      assert r == [first] + rest;
      AttemptsFromShape(tools, file, partPath, k + 1, parts, start + d);
      forall i | 0 < i < |r|
        ensures r[i] == rest[i - 1]
        ensures SumDurations(r[..i]) == d + SumDurations(rest[..i - 1])
      {
        assert r[..i][1..] == rest[..i - 1];
      }
      assert r[..0] == [];
    }
  }

  /** split_video tries every ordinal 1..ceil(size / split_size) once, in order, naming part k
      <stem>.part<k as 3 digits><suffix> beside the source; part k is cut from the sum of the
      durations probed on parts 1..k-1, and every part is probed, written or not. */
  lemma SplitAttemptsShape(tools: Tools, file: Path, size: nat)
    ensures var a := SplitAttempts(tools, file, size);
      && |a| == PartsCount(size)
      && forall i :: 0 <= i < |a| ==>
           && a[i].ordinal == i + 1
           && a[i].output == PartPath(file, i + 1)
           && a[i].start == SumDurations(a[..i])
           && a[i].run == tools.cutPart(file, a[i].start, a[i].output)
           && a[i].duration == GetDuration(tools.probe(a[i].output))
  {
    AttemptsFromShape(tools, file, PartPaths(file), 1, PartsCount(size), 0);
  }

  /** Consecutive parts: the next one starts where the previous one's probe ends. */
  lemma SplitStartsAccumulate(tools: Tools, file: Path, size: nat, i: nat)
    requires i + 1 < PartsCount(size)
    ensures var a := SplitAttempts(tools, file, size);
      |a| == PartsCount(size) &&
      a[i + 1].start == a[i].start + GetDuration(tools.probe(PartPath(file, i + 1)))
  {
    var a := SplitAttempts(tools, file, size);
    SplitAttemptsShape(tools, file, size);
    SumDurationsSnoc(a[..i + 1]);
    assert a[..i + 1][..i] == a[..i];
  }

  lemma {:induction false} SumDurationsSnoc(attempts: seq<Attempt>)
    requires attempts != []
    ensures SumDurations(attempts)
      == SumDurations(attempts[..|attempts| - 1]) + attempts[|attempts| - 1].duration
    decreases |attempts|
  {
    if |attempts| > 1 {
      SumDurationsSnoc(attempts[1..]);
      assert attempts[1..][..|attempts[1..]| - 1] == attempts[..|attempts| - 1][1..];
    }
  }

  /** Every produced path is the sanitised output of an attempt that succeeded. */
  lemma {:induction false} ProducedFromSucceeded(attempts: seq<Attempt>)
    ensures |Produced(attempts)| <= |attempts|
    ensures forall j :: 0 <= j < |Produced(attempts)| ==>
      exists i :: 0 <= i < |attempts| && Succeeded(attempts[i]) && Produced(attempts)[j] == CleanPath(attempts[i].output)
    decreases |attempts|
  {
    if attempts != [] {
      var n := |attempts|;
      var init := attempts[..n - 1];
      var last := attempts[n - 1];
      ProducedFromSucceeded(init);
      var p := Produced(init);
      var q := Produced(attempts);
      assert q == p + (if Succeeded(last) then [CleanPath(last.output)] else []);
      forall j | 0 <= j < |q|
        ensures exists i :: 0 <= i < n && Succeeded(attempts[i]) && q[j] == CleanPath(attempts[i].output)
      {
        if j < |p| {
          assert q[j] == p[j];
          var i :| 0 <= i < |init| && Succeeded(init[i]) && p[j] == CleanPath(init[i].output);
          assert attempts[i] == init[i];
          assert Succeeded(attempts[i]) && q[j] == CleanPath(attempts[i].output);
        } else {
          assert Succeeded(attempts[n - 1]) && q[j] == CleanPath(attempts[n - 1].output);
        }
      }
    }
  }

  /** Every attempt that succeeded left its sanitised output among the produced paths. */
  lemma {:induction false} SucceededProduced(attempts: seq<Attempt>)
    ensures forall i :: 0 <= i < |attempts| && Succeeded(attempts[i]) ==>
      CleanPath(attempts[i].output) in Produced(attempts)
    decreases |attempts|
  {
    if attempts != [] {
      var n := |attempts|;
      var init := attempts[..n - 1];
      var last := attempts[n - 1];
      SucceededProduced(init);
      var p := Produced(init);
      var q := Produced(attempts);
      assert q == p + (if Succeeded(last) then [CleanPath(last.output)] else []);
      forall i | 0 <= i < n && Succeeded(attempts[i]) ensures CleanPath(attempts[i].output) in q {
        if i < n - 1 {
          assert attempts[i] == init[i];
          assert CleanPath(init[i].output) in p;
        } else {
          assert q[|q| - 1] == CleanPath(last.output);
        }
      }
    }
  }

  lemma {:induction false} ProducedSorted(attempts: seq<Attempt>)
    requires forall i, j :: 0 <= i < j < |attempts| ==>
      LexLe(CleanPath(attempts[i].output).name, CleanPath(attempts[j].output).name)
    ensures SortedBy(Produced(attempts), NameOf)
    decreases |attempts|
  {
    if attempts != [] {
      var n := |attempts|;
      var init := attempts[..n - 1];
      var last := attempts[n - 1];
      ProducedSorted(init);
      var p := Produced(init);
      if Succeeded(last) {
        ProducedFromSucceeded(init);
        var q := Produced(attempts);
        assert q == p + [CleanPath(last.output)];
        forall i, j | 0 <= i < j < |q| ensures LexLe(NameOf(q[i]), NameOf(q[j])) {
          assert q[i] == p[i];
          if j < |p| {
            assert q[j] == p[j];
          } else {
            assert exists k :: 0 <= k < |init| && Succeeded(init[k]) && p[i] == CleanPath(init[k].output);
            var k :| 0 <= k < |init| && Succeeded(init[k]) && p[i] == CleanPath(init[k].output);
            assert init[k] == attempts[k];
            assert q[j] == CleanPath(attempts[n - 1].output);
          }
        }
      }
    }
  }

  /** sorted(result): no more paths than parts tried, in name order, and a permutation of
      the paths the loop kept. */
  lemma SplitResultFacts(tools: Tools, file: Path, size: nat)
    ensures |SplitAttempts(tools, file, size)| == PartsCount(size)
    ensures |SplitResult(tools, file, size)| <= PartsCount(size)
    ensures SortedBy(SplitResult(tools, file, size), NameOf)
    ensures multiset(SplitResult(tools, file, size)) == multiset(Produced(SplitAttempts(tools, file, size)))
  {
    SplitAttemptsShape(tools, file, size);
    ProducedFromSucceeded(SplitAttempts(tools, file, size));
  }

  /** A path is in sorted(result) exactly when it is the sanitised name of a part ffmpeg
      wrote; every such path lies in the source's directory. */
  lemma SplitResultMembers(tools: Tools, file: Path, size: nat, p: Path)
    ensures p in SplitResult(tools, file, size) <==>
      exists k :: 1 <= k <= |SplitAttempts(tools, file, size)| && p == CleanPath(PartPath(file, k)) &&
        Succeeded(SplitAttempts(tools, file, size)[k - 1])
    ensures p in SplitResult(tools, file, size) ==> p.parent == file.parent
  {
    var a := SplitAttempts(tools, file, size);
    var produced := Produced(a);
    SplitAttemptsShape(tools, file, size);
    assert p in SplitResult(tools, file, size) <==> p in multiset(produced);
    if p in produced {
      ProducedFromSucceeded(a);
      var j :| 0 <= j < |produced| && produced[j] == p;
      var i :| 0 <= i < |a| && Succeeded(a[i]) && p == CleanPath(a[i].output);
      assert a[(i + 1) - 1] == a[i];
    }
    if exists k :: 1 <= k <= |a| && p == CleanPath(PartPath(file, k)) && Succeeded(a[k - 1]) {
      var k :| 1 <= k <= |a| && p == CleanPath(PartPath(file, k)) && Succeeded(a[k - 1]);
      SucceededProduced(a);
      assert CleanPath(a[k - 1].output) in produced;
    }
  }

  lemma NatToStringTwoDigits(n: nat)
    requires 10 <= n < 100
    ensures NatToString(n) == [DigitChar(n / 10), DigitChar(n % 10)]
  {
    assert NatToString(n / 10) == [DigitChar(n / 10)];
  }

  lemma NatToStringThreeDigits(n: nat)
    requires 100 <= n < 1000
    ensures NatToString(n) == [DigitChar(n / 100), DigitChar(n / 10 % 10), DigitChar(n % 10)]
  {
    var m := n / 10;
    assert 10 <= m < 100;
    assert m / 10 == n / 100;
    NatToStringTwoDigits(m);
  }

  /** str(n).zfill(3) for n <= 999 is its three decimal digits. */
  lemma ZFill3Digits(n: nat)
    requires n <= 999
    ensures ZFill(NatToString(n), 3) == [DigitChar(n / 100), DigitChar(n / 10 % 10), DigitChar(n % 10)]
  {
    var zero := DigitChar(0);
    assert zero == '0';
    if n < 10 {
      assert n / 100 == 0 && n / 10 % 10 == 0 && n % 10 == n;
      assert NatToString(n) == [DigitChar(n)];
      assert ZFill([DigitChar(n)], 3) == [zero, zero] + [DigitChar(n)];
    } else if n < 100 {
      assert n / 100 == 0 && n / 10 % 10 == n / 10;
      NatToStringTwoDigits(n);
      assert ZFill([DigitChar(n / 10), DigitChar(n % 10)], 3) == [zero] + [DigitChar(n / 10), DigitChar(n % 10)];
    } else {
      NatToStringThreeDigits(n);
    }
  }

  /** Decimal digits compare like the numbers they spell. */
  lemma DigitsCompare(i: nat, j: nat)
    requires i < j <= 999
    ensures i / 100 < j / 100 || (i / 100 == j / 100 &&
      (i / 10 % 10 < j / 10 % 10 || (i / 10 % 10 == j / 10 % 10 && i % 10 < j % 10)))
  {
    assert i / 10 <= j / 10;
    assert i / 10 / 10 == i / 100 && j / 10 / 10 == j / 100;
    assert i / 10 % 10 == i / 10 - 10 * (i / 100);
    assert j / 10 % 10 == j / 10 - 10 * (j / 100);
    assert i % 10 == i - 10 * (i / 10);
    assert j % 10 == j - 10 * (j / 10);
  }

  lemma Digits3Clean(a0: nat, a1: nat, a2: nat)
    requires a0 < 10 && a1 < 10 && a2 < 10
    ensures NoQuotes([DigitChar(a0), DigitChar(a1), DigitChar(a2)])
  {
    var x := [DigitChar(a0), DigitChar(a1), DigitChar(a2)];
    assert !IsQuote(x[0]) && !IsQuote(x[1]) && !IsQuote(x[2]);
  }

  /** Three-digit strings compare digit by digit. */
  lemma LexLtDigits3(a0: nat, a1: nat, a2: nat, b0: nat, b1: nat, b2: nat)
    requires a0 < 10 && a1 < 10 && a2 < 10 && b0 < 10 && b1 < 10 && b2 < 10
    requires a0 < b0 || (a0 == b0 && (a1 < b1 || (a1 == b1 && a2 < b2)))
    ensures LexLt([DigitChar(a0), DigitChar(a1), DigitChar(a2)], [DigitChar(b0), DigitChar(b1), DigitChar(b2)])
  {
    var x := [DigitChar(a0), DigitChar(a1), DigitChar(a2)];
    var y := [DigitChar(b0), DigitChar(b1), DigitChar(b2)];
    assert x[1..] == [DigitChar(a1), DigitChar(a2)] && y[1..] == [DigitChar(b1), DigitChar(b2)];
    assert x[1..][1..] == [DigitChar(a2)] && y[1..][1..] == [DigitChar(b2)];
    if a0 == b0 {
      if a1 == b1 {
        assert LexLe(x[1..][1..], y[1..][1..]);
      }
      assert LexLe(x[1..], y[1..]);
    }
  }

  lemma ZFill3Ordered(i: nat, j: nat)
    requires i < j <= 999
    ensures |ZFill(NatToString(i), 3)| == 3 == |ZFill(NatToString(j), 3)|
    ensures NoQuotes(ZFill(NatToString(i), 3)) && NoQuotes(ZFill(NatToString(j), 3))
    ensures LexLt(ZFill(NatToString(i), 3), ZFill(NatToString(j), 3))
  {
    var a0, a1, a2 := i / 100, i / 10 % 10, i % 10;
    var b0, b1, b2 := j / 100, j / 10 % 10, j % 10;
    ZFill3Digits(i);
    ZFill3Digits(j);
    DigitsCompare(i, j);
    assert a0 < 10 && b0 < 10;
    LexLtDigits3(a0, a1, a2, b0, b1, b2);
    Digits3Clean(a0, a1, a2);
    Digits3Clean(b0, b1, b2);
  }

  /** Equally long middles decide the order of P + x + S against P + y + S. */
  lemma LexLtMiddle(p: string, x: string, y: string, s: string)
    requires |x| == |y| && LexLt(x, y)
    ensures LexLt(p + x + s, p + y + s)
  {
    LexLtSameLengthHead(x, y, s, s);
    LexLeCommonPrefix(p, x + s, y + s);
    assert p + x + s == p + (x + s) && p + y + s == p + (y + s);
    assert (p + (x + s))[|p|..] == x + s && (p + (y + s))[|p|..] == y + s;
  }

  /** With three-digit ordinals, part names sort in ordinal order, before and after
      sanitising. */
  lemma PartNamesOrdered(file: Path, i: nat, j: nat)
    requires i < j <= 999
    ensures LexLt(PartName(file, i), PartName(file, j))
    ensures LexLt(CleanPath(PartPath(file, i)).name, CleanPath(PartPath(file, j)).name)
  {
    var pre := Stem(file.name) + ".part";
    var suf := Suffix(file.name);
    var zi, zj := ZFill(NatToString(i), 3), ZFill(NatToString(j), 3);
    ZFill3Ordered(i, j);
    LexLtMiddle(pre, zi, zj, suf);
    StripQuotesAppend(pre + zi, suf);
    StripQuotesAppend(pre, zi);
    StripQuotesAppend(pre + zj, suf);
    StripQuotesAppend(pre, zj);
    StripQuotesOfClean(zi);
    StripQuotesOfClean(zj);
    LexLtMiddle(StripQuotes(pre), zi, zj, StripQuotes(suf));
  }

  /** Up to 999 parts, sorting the written parts keeps them in the order they were cut. */
  lemma SplitResultInOrdinalOrder(tools: Tools, file: Path, size: nat)
    requires PartsCount(size) <= 999
    ensures SplitResult(tools, file, size) == Produced(SplitAttempts(tools, file, size))
  {
    var a := SplitAttempts(tools, file, size);
    SplitAttemptsShape(tools, file, size);
    forall i, j | 0 <= i < j < |a|
      ensures LexLe(CleanPath(a[i].output).name, CleanPath(a[j].output).name)
    {
      PartNamesOrdered(file, i + 1, j + 1);
    }
    ProducedSorted(a);
    SortByOfSorted(Produced(a), NameOf);
  }

  /** From the 1000th part on, zfill(3) no longer pads and the name of part 1000 sorts
      before that of part 101, so sorted(result) leaves ordinal order. */
  lemma PartOrderBreaksPast999(file: Path)
    ensures LexLt(PartName(file, 1000), PartName(file, 101))
  {
    assert NatToString(1) == "1";
    assert NatToString(10) == "10";
    assert NatToString(100) == "100";
    assert NatToString(1000) == "1000";
    assert NatToString(101) == "101";
    var pre := Stem(file.name) + ".part" + "10";
    var suf := Suffix(file.name);
    assert PartName(file, 1000) == pre + ("00" + suf);
    assert PartName(file, 101) == pre + ("1" + suf);
    LexLeCommonPrefix(pre, "00" + suf, "1" + suf);
    assert ("00" + suf)[0] == '0' && ("1" + suf)[0] == '1';
    assert (pre + ("00" + suf))[|pre|] == '0';
  }
}
