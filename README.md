# iytdl upload packaging rules in Dafny

This project models the media packaging core of iytdl's upload library
(`src/iytdl/upload_lib/functions.py` and `src/iytdl/upload_lib/uploader.py`). That core
decides names, sizes, ordering and grouping between the download directory,
ffmpeg/ffprobe and the Telegram client. The project proves properties of that logic.

Every external effect is an oracle: a total function passed in as a datatype field.

- `Functions.Tools` stands for three external programs:
  - the ffprobe duration probe, which answers an exit code and the probed whole seconds, or an exception;
  - the ffmpeg part cut and the ffmpeg frame grab, each of which answers an exit code and whether its output file exists afterwards.
- `Discovery.Disk` answers `is_dir`, the directory listing (name and `st_size` in iteration order) and `is_file`.
- `Discovery.Inspect` answers the hachoir metadata, the PIL image size and the mutagen tags.
- `Uploading.Transport` answers `send_video`, `send_audio` and `reply_media_group`.
- `Process.is_cancelled` is one boolean.

The client and `Process` calls are returned as a trace of `Uploading.Action` values, in the order they are made.

Modules, one file each:

- `base.dfy` (`Base`): `Option`, `Result` and the Python exceptions the core can raise.
- `text.dfy` (`Text`): quote stripping (`re.sub(r"[\"']", "", …)`), ASCII `lower()`, `endswith` over a tuple, `str(n).zfill(3)`, Python string ordering and a stable sort (`sorted`).
- `paths.dfy` (`Paths`): `Path(parent, name)` with pathlib's `stem` and `suffix`.
- `functions.dfy` (`Functions`): `unquote_filename`, `get_duration`, `take_screen_shot`, `covert_to_jpg`, `thumb_from_audio` (an imperative loop over the tag keys) and `split_video` (an imperative `while` loop), each proved against a specification function.
- `discovery.dfy` (`Discovery`): `Uploader.find_media`. It is an imperative `for`/`break` scan, proved equal to a fold (`ScanFrom`) over the listing.
- `uploading.dfy` (`Uploading`): `upload`, `__upload_video` and `__upload_audio`. The part loop, the batching loop and the summary loops are methods, each proved equal to a specification function.

Where a reader might expect different behaviour, the model follows the code:

- When no file qualifies, `find_media` raises `KeyError` at `info_dict.pop("real_file")`. It does not return an empty result (`Discovery.DiscoverFindsNothing`).
- The duration comes from the metadata of the original file, not from a part. It is `timedelta.seconds`, so whole days are dropped (`% 86400`).
- For audio, a file whose metadata cannot be read raises `AttributeError` at `metadata.has`.
- An empty split counts as "no media yet", because `not info_dict.get(media_type)` is true for `[]`. A later file can then be selected instead.
- `thumb_from_audio` returns `album_art.jpg` whenever that file exists after the loop, including one that was there before. It returns nothing when mutagen yields no tags, even if the file exists.
- pathlib drops `""` and `"."` in `joinpath`, and `".."` names the directory above. So a name that strips to `""`, `"."` or `".."` (such as `''` or `'..'`) joins to a directory. When that directory's name differs from the file's, the rename of the file onto it fails, modelled as `OSError`. When they are equal (`/x/''/''`), nothing is renamed and the file itself is returned.
- Directory paths are normalised strings, and a directory's name is the text after its last `/`.
- `split_video` probes the part under its pre-rename name.
- Only groups of exactly ten parts are replied. A trailing group of fewer than ten is never sent or listed.
- The summary numbering restarts at 1 in every group.
- The "File is Splitted" notice is edited in before any part is sent, so it happens even when the upload is later cancelled. Every other edit waits for `is_cancelled` to be false.
- The directory is removed in `finally` whenever discovery succeeded and `delete_file_after_upload` is set. That includes cancellation and exceptions during the upload. A discovery error happens before the `try`, so nothing is removed.
- The caption marks and the summary header are the exact characters `uploader.py` holds: each emoji's UTF-8 bytes read as Windows-1252 (`ðŸ“¹` for the video mark, for example).
- A request carries its caption as a `Caption` value (mark, link, name); `Uploading.CaptionHtml` renders the text Telegram receives.
- Names are ordered through `zfill(3)`, so from part 1000 onwards `sorted` no longer keeps ordinal order (`Functions.PartOrderBreaksPast999`).

## Model

| member | source | states |
|---|---|---|
| `Text.StripQuotesFacts` | src/iytdl/upload_lib/functions.py:35 | the result holds no `'` or `"`, is no longer than the input, and holds exactly the input's other characters |
| `Text.StripQuotesIdempotent` | src/iytdl/upload_lib/functions.py:35 | stripping quotes twice is stripping them once |
| `Text.ZFill` | src/iytdl/upload_lib/functions.py:157 | the result has length max(width, len), ends with the input and is padded with '0' on the left |
| `Text.SortBy` | src/iytdl/upload_lib/functions.py:183 | `sorted`: the result is a permutation of the input (same multiset, same length) and is ordered by the key |
| `Functions.UnquoteFilename` | src/iytdl/upload_lib/functions.py:34-39 | the rename happens exactly when the joined path's name differs from the file's; OSError exactly when the stripped name is "", "." or ".." and that joined name differs; otherwise the path keeps the parent and takes the stripped, quote-free name, and without a rename the file itself is returned |
| `Functions.UnquoteIdempotent` | src/iytdl/upload_lib/functions.py:35-39 | applying it again to its own result renames nothing and returns the same path |
| `Functions.GetDuration` | src/iytdl/upload_lib/functions.py:92-109 | 0 on a non-zero exit code or an exception, otherwise the probed seconds |
| `Functions.SeekSecond` | src/iytdl/upload_lib/functions.py:130-131 | a ttl of -1 becomes half the probed duration rounded down; any other ttl is kept |
| `Functions.TakeScreenShot` | src/iytdl/upload_lib/functions.py:127-146 | returns `parent/stem.jpg` exactly when the frame grab exited 0 and the file exists, otherwise None |
| `Functions.CovertToJpg` | src/iytdl/upload_lib/functions.py:81-89 | keeps the path when the lower-cased name ends with one of the first two photo extensions, else `parent/stem.jpeg`; the size is the image's own |
| `Functions.FirstAlbumArt` | src/iytdl/upload_lib/functions.py:58-64 | the index of the first tag whose key contains APIC and whose data is non-empty, and none exists when it answers None |
| `Functions.AlbumArtThumb` | src/iytdl/upload_lib/functions.py:54-66 | no tags gives None; otherwise `parent/album_art.jpg` exactly when it already existed or some tag holds album art |
| `Functions.ThumbFromAudio` | src/iytdl/upload_lib/functions.py:54-66 | the key loop with `break` returns the album-art thumbnail above and saves only the first album-art tag |
| `Functions.PartsCount` | src/iytdl/upload_lib/functions.py:152-153 | the least n with size <= n * 1610612736 (ceiling division) |
| `Functions.SplitVideo` | src/iytdl/upload_lib/functions.py:149-183 | the loop makes exactly the planned attempts and returns the sorted sanitised outputs of the successful ones |
| `Functions.SplitAttemptsShape` | src/iytdl/upload_lib/functions.py:150-180 | ceil(size / 1610612736) attempts with ordinals 1..n, each named part k beside the source, cut from the sum of the earlier parts' probed durations, every part probed |
| `Functions.SplitStartsAccumulate` | src/iytdl/upload_lib/functions.py:166-179 | the next part starts where the previous one started plus its probed duration, written or not |
| `Functions.SplitResultFacts` | src/iytdl/upload_lib/functions.py:150-183 | exactly n = ceil(size / 1610612736) parts are tried; the result holds at most n paths, is sorted by name and is a permutation of the paths the loop kept |
| `Functions.SplitResultMembers` | src/iytdl/upload_lib/functions.py:174-183 | a path is in the result exactly when it is the sanitised name of some part k whose cut exited 0 and whose file exists, and every such path lies in the source's directory |
| `Functions.ZFill3Digits` | src/iytdl/upload_lib/functions.py:157 | for n <= 999, `str(n).zfill(3)` is n's hundreds, tens and units digit |
| `Functions.ZFill3Ordered` | src/iytdl/upload_lib/functions.py:157 | for i < j <= 999 the 3-digit forms are quote-free, of length 3 and ordered i before j |
| `Functions.PartNamesOrdered` | src/iytdl/upload_lib/functions.py:155-159 | for i < j <= 999 part i's name sorts before part j's, before and after sanitising |
| `Functions.SplitResultInOrdinalOrder` | src/iytdl/upload_lib/functions.py:183 | with at most 999 parts the sorted result is the successful parts in ordinal order |
| `Functions.PartOrderBreaksPast999` | src/iytdl/upload_lib/functions.py:155-159 | part 1000's name sorts before part 101's |
| `Discovery.ParseKind` | src/iytdl/upload_lib/uploader.py:54-55 | only "video" and "audio" are accepted, anything else is TypeError |
| `Discovery.FilesFor` | src/iytdl/upload_lib/uploader.py:68-83 | split exactly when the kind is video and the size exceeds 2147000000; a split pairs the sorted parts with their own sorted names; otherwise the file and its name |
| `Discovery.SortedNamesOfSorted` | src/iytdl/upload_lib/uploader.py:75-77 | sorting the names of name-sorted parts leaves them in place |
| `Discovery.TakeThumb` | src/iytdl/upload_lib/uploader.py:85-88 | never changes the selection and never replaces a thumbnail already set |
| `Discovery.Finish` | src/iytdl/upload_lib/uploader.py:93-111 | no selection gives KeyError; a video always succeeds; audio fails with AttributeError exactly when the file has no metadata; the variant follows the kind; the duration is present exactly when the metadata has one and is its `.seconds` (modulo 86400); audio takes artist and title from the metadata and, without a photo, the album-art thumbnail; a video's size is the photo's or 1280x720, with no thumbnail when no photo was found |
| `Discovery.Discover` | src/iytdl/upload_lib/uploader.py:54-111 | TypeError for another kind before the disk is touched, FileNotFoundError for a missing directory, the variant follows the kind, a video without thumbnail is 1280x720 |
| `Discovery.VisitEntry` | src/iytdl/upload_lib/uploader.py:60-91 | one turn of the loop computes `Visit`: the entry is taken as media only while no truthy media is held, then as thumbnail only while none is held |
| `Discovery.FinishScan` | src/iytdl/upload_lib/uploader.py:93-111 | the pops and metadata reads after the loop compute `Finish` |
| `Discovery.FindMedia` | src/iytdl/upload_lib/uploader.py:35-111 | the `for`/`break` scan over the listing and the pops afterwards compute `Discover` |
| `Discovery.ScanWithoutCandidates` | src/iytdl/upload_lib/uploader.py:60-65 | with no non-empty file of the kind, nothing is selected and nothing fails |
| `Discovery.ScanKeepsSelection` | src/iytdl/upload_lib/uploader.py:61-62 | once a truthy media entry is set, no later entry replaces it |
| `Discovery.ScanKeepsThumb` | src/iytdl/upload_lib/uploader.py:85 | once a thumbnail is set, no later entry replaces it |
| `Discovery.ScanSelectsFirst` | src/iytdl/upload_lib/uploader.py:60-91 | the first non-empty entry with a kind extension is the one selected |
| `Discovery.ScanTakesFirstPhoto` | src/iytdl/upload_lib/uploader.py:85-91 | the thumbnail is converted from the first photo-named entry |
| `Discovery.ScanWithoutPhotos` | src/iytdl/upload_lib/uploader.py:85-88 | with no photo-named entry, and no candidate that becomes one once sanitised, no thumbnail is taken |
| `Discovery.ScanAudioNeverSplits` | src/iytdl/upload_lib/uploader.py:68-69 | in an audio scan every selection is a single file |
| `Discovery.DiscoverFindsNothing` | src/iytdl/upload_lib/uploader.py:93 | no qualifying file ends in KeyError, not in an empty result |
| `Discovery.DiscoverTakesFirstMedia` | src/iytdl/upload_lib/uploader.py:60-83 | the descriptor's files come from the first qualifying entry, split exactly when it is a video over 2147000000 bytes |
| `Discovery.DiscoverTakesFirstPhoto` | src/iytdl/upload_lib/uploader.py:85-110 | the descriptor's thumbnail is the first photo's converted path, and a video takes that photo's size |
| `Discovery.DiscoverAudioMetadata` | src/iytdl/upload_lib/uploader.py:94-103 | an audio job fails with AttributeError exactly when its first audio file has no metadata, and otherwise takes that file's artist and title |
| `Discovery.DiscoverAudioAlbumArt` | src/iytdl/upload_lib/uploader.py:104-106 | an audio job whose listing holds no photo takes the album-art thumbnail of its first audio file |
| `Discovery.DiscoverAudioIsSingle` | src/iytdl/upload_lib/uploader.py:68-82 | an audio descriptor always names one file |
| `Discovery.SplitThresholdParts` | src/iytdl/upload_lib/uploader.py:68-70 | every split attempts at least two parts, exactly two up to 2 * 1610612736 bytes, and a file of exactly 2147000000 bytes is not split |
| `Uploading.CaptionShape` | src/iytdl/upload_lib/uploader.py:238-242 | after the mark, `<a href=LINK>NAME</a>` when the link is non-empty, else `<code>NAME</code>`, with the name at the position right after the opening tag |
| `Uploading.CaptionNamesDistinct` | src/iytdl/upload_lib/uploader.py:238-242 | with the same mark and link, equal caption texts come only from equal file names |
| `Uploading.Ttl` | src/iytdl/upload_lib/uploader.py:246-248 | duration // 2 when the duration is present and non-zero, else -1 |
| `Uploading.InputOf` | src/iytdl/upload_lib/uploader.py:300-308 | the video, else the document, as input media carrying the message's caption; None when there is neither |
| `Uploading.PartRequestsFacts` | src/iytdl/upload_lib/uploader.py:234-269 | part k is sent in list order with its caption, without a file name, with counter (number of parts, k + 1); only part 0 can reuse the discovered thumbnail, every other part gets its own screenshot at Ttl |
| `Uploading.SendParts` | src/iytdl/upload_lib/uploader.py:234-269 | the loop that pops the thumbnail and counts from 1 sends exactly the planned requests, keeping every answer in order |
| `Uploading.Groups` | src/iytdl/upload_lib/uploader.py:315-321 | floor(n / 10) groups of exactly ten whose concatenation is the first floor(n / 10) * 10 inputs |
| `Uploading.GroupsOfFull` | src/iytdl/upload_lib/uploader.py:316-321 | full groups followed by a remainder of fewer than ten regroup into exactly those groups |
| `Uploading.Batches` | src/iytdl/upload_lib/uploader.py:317-321 | AttributeError exactly when some part's send answered None |
| `Uploading.BatchInputs` | src/iytdl/upload_lib/uploader.py:316-321 | the `child_up` loop computes `Batches` |
| `Uploading.LineFor` | src/iytdl/upload_lib/uploader.py:328-330 | a line fails exactly when the message has neither video nor document, and then with AttributeError |
| `Uploading.LineForNumbered` | src/iytdl/upload_lib/uploader.py:328-330 | a line for a message with media starts with "i. <a href=" |
| `Uploading.GroupLinesUpTo` | src/iytdl/upload_lib/uploader.py:328-330 | succeeds exactly when every reply has media, then with one line per reply; the only error is AttributeError |
| `Uploading.GroupLinesNumbered` | src/iytdl/upload_lib/uploader.py:328-330 | line i of a group is the line of reply i numbered i + 1 |
| `Uploading.PartRequestsUpToShape` | src/iytdl/upload_lib/uploader.py:234-269 | the first n requests are, in order, the requests for parts 0 .. n - 1 |
| `Uploading.SummarizeUpTo` | src/iytdl/upload_lib/uploader.py:323-330 | at most n groups replied, all n when it succeeds, one line per reply, and the only error is AttributeError |
| `Uploading.AppendGroupLines` | src/iytdl/upload_lib/uploader.py:328-330 | the inner loop appends exactly the group's lines to the caption |
| `Uploading.ComposeSummary` | src/iytdl/upload_lib/uploader.py:315-331 | the reply loops reply the same groups and produce the header followed by the summary lines |
| `Uploading.SummaryNumberingRestarts` | src/iytdl/upload_lib/uploader.py:323-330 | reply i of group g is listed as line i + 1, after all replies of the earlier groups |
| `Uploading.UploadVideo` | src/iytdl/upload_lib/uploader.py:194-331 | `__upload_video` performs the calls and returns the outcome that `VideoRun` specifies |
| `Uploading.UploadSplitVideo` | src/iytdl/upload_lib/uploader.py:205-331 | the split branch: notice, parts, then (unless cancelled) full groups and the summary edit |
| `Uploading.UploadAudio` | src/iytdl/upload_lib/uploader.py:333-375 | `__upload_audio` sends once and replaces the status with the audio or document unless cancelled |
| `Uploading.UploadRun` | src/iytdl/upload_lib/uploader.py:177-192 | a discovery error is raised with no call made and nothing removed; once discovery succeeds, removal follows `delete_file_after_upload` whatever the outcome; the outcome is never an edited message when cancelled |
| `Uploading.Upload` | src/iytdl/upload_lib/uploader.py:151-192 | `upload` performs what `UploadRun` specifies |
| `Uploading.CancelledVideoEditsNothing` | src/iytdl/upload_lib/uploader.py:310-331 | when cancelled: no media replacement, no group reply, and the only edit is the split notice made first |
| `Uploading.CancelledAudioEditsNothing` | src/iytdl/upload_lib/uploader.py:361-375 | when cancelled the only call is the audio send |
| `Uploading.SummarizeSucceeds` | src/iytdl/upload_lib/uploader.py:323-330 | when every reply carries a video or document, the summary has no error |
| `Uploading.SplitVideoSummarized` | src/iytdl/upload_lib/uploader.py:205-331 | not cancelled, with every part answered and every reply carrying media: floor(parts / 10) groups, outcome Edited, and the calls are the notice, the parts, one reply per group and the header with one line per reply |
| `Uploading.SingleVideoReplaced` | src/iytdl/upload_lib/uploader.py:296-314 | not cancelled, a single video whose send was answered ends in exactly one media replacement |

## Left out

- ffmpeg and ffprobe, hachoir, PIL, mutagen, the file system and the Pyrogram client are oracles. Their internals, the shell command strings and their quoting are not modelled.
- `get_duration` parses ffprobe's output with `int(float(...))`. The probe oracle answers whole seconds directly.
- The split size is the float `1.5 * 1024 ** 3`, and the part count is `ceil` of a float division. Both are modelled in integers, which agree with the float computation for file sizes below 2^53 bytes.
- Exceptions raised inside PIL decoding and mutagen parsing are not modelled; only the returned paths are. PIL and mutagen are not part of this model.
- `str.lower()` is modelled on ASCII letters only.
- `asyncio.sleep` and `asyncio.gather` only add delays. They are left out.
- `Process` internals, `self.msg`, the progress callback and its arguments beyond the file name and the counter are left out. So are the `chat_id`, `parse_mode`, `disable_notification` and `reply_markup` constants, which do not vary.
- `is_cancelled` is read once, at the point where the code tests it.
- The summary reads `link` and `file_name` from the video or document object, as the transport oracle reports them. Whether the Pyrogram object really carries those attributes is not modelled.
- `edit_media(None)` happens when a single video's answer has neither video nor document. It is recorded as `EditMedia(None)`; what `Process` then does is not modelled.
- A `caption_link` of None and an empty `caption_link` are both modelled as the empty string, since both are falsy.
- `iterdir` over a directory the loop itself changes (a rename, a converted `.jpeg`, split parts) is modelled as one listing taken before the loop. `is_file` for `album_art.jpg` is answered as the directory stands when `thumb_from_audio` looks.
- Absolute-path resolution (`absolute()`, `str(...)`) is modelled as the job directory joined with the name.
- `Uploader.get_input_media` is not part of this model.
- Discovery.ScanTakesFirstPhoto: requires that no selected media file's name, before or after quote stripping, also ends with a photo extension. Without that, the renamed media file is itself tested as a photo in the same loop turn.
- Discovery.ScanSelectsFirst: requires that the first candidate's split is not empty. An empty split leaves the media key falsy, so a later file can still be selected.
