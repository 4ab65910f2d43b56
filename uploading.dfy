/** Uploader.upload, __upload_video and __upload_audio (src/iytdl/upload_lib/uploader.py):
    the order of the sends, the captions, the batching of a split video's parts into
    media groups, the summary text, cancel gating and the cleanup in `finally`.

    The Telegram client is the Transport oracle (send_video, send_audio and
    reply_media_group answer from the request alone); what the model returns is the
    trace of client and Process calls in order, the outcome, and whether the job
    directory was removed. Process.is_cancelled is read as one boolean. */
module Uploading {
  import opened Base
  import opened Text
  import opened Paths
  import opened Functions
  import opened Discovery

  // ---------------------------------------------------------------- messages

  /** The video, audio or document object of a sent message. */
  datatype MediaRef = MediaRef(fileId: string, link: string, fileName: string)

  /** A message the client returns; captionHtml is caption.html. */
  datatype Msg = Msg(video: Option<MediaRef>, audio: Option<MediaRef>, document: Option<MediaRef>,
                     captionHtml: string)

  datatype InputMedia =
    | VideoInput(fileId: string, caption: string)
    | AudioInput(fileId: string, caption: string)
    | DocumentInput(fileId: string, caption: string)

  /** progress_args when with_progress is set: the file name and, for a split part, the
      counter {"all_videos", "now_video"}. */
  datatype Counter = Counter(allVideos: nat, nowVideo: nat)
  datatype Progress = Progress(fileName: string, counter: Option<Counter>)

  /** The keyword arguments of one send_video call. fileName is None for a split part,
      whose name was popped out of the arguments. */
  datatype VideoRequest = VideoRequest(
    video: Path, fileName: Option<string>, caption: Caption, thumb: Option<Path>,
    duration: Option<nat>, width: int, height: int, progress: Option<Progress>)

  datatype AudioRequest = AudioRequest(
    audio: Path, fileName: string, caption: Caption, thumb: Option<Path>,
    duration: Option<nat>, performer: Option<string>, title: Option<string>,
    progress: Option<Progress>)

  type Group = seq<Option<InputMedia>>

  datatype Transport = Transport(
    sendVideo: VideoRequest -> Option<Msg>,
    sendAudio: AudioRequest -> Option<Msg>,
    replyGroup: Group -> seq<Msg>)

  datatype Env = Env(tools: Tools, transport: Transport)

  /** One call on the client or on Process, in the order made. */
  datatype Action =
    | EditText(text: string)
    | SentVideo(videoRequest: VideoRequest)
    | SentAudio(audioRequest: AudioRequest)
    | EditMedia(media: Option<InputMedia>)
    | RepliedGroup(group: Group)

  /** Edited: the edited message is returned; ReturnedNone: the method returns None;
      Raised: an exception leaves the method. */
  datatype Outcome = Edited | ReturnedNone | Raised(error: Error)

  datatype Run = Run(actions: seq<Action>, outcome: Outcome)

  /** The caption marks and the summary header are the characters the source file spells
      (the UTF-8 bytes of an emoji read back as Windows-1252), followed by the text. */
  const VideoMark: string := "\U{F0}\U{178}\U{201C}\U{B9}  "
  const AudioMark: string := "\U{F0}\U{178}\U{17D}\U{B5}  "
  const SplitNotice: string := "`File is Splitted...`"
  const SummaryHeader: string := "**\U{F0}\U{178}\U{2014}\U{201A} Files Splitted Because More Than 2GB**\n\n"

  /** The caption a file is sent with: the kind's mark, then the file name, linked to
      caption_link when that is truthy (non-empty) and shown as code otherwise. The
      request carries these parts; CaptionHtml is the text Telegram receives. */
  datatype Caption = Caption(mark: string, link: string, name: string)

  function CaptionHtml(c: Caption): string
  {
    c.mark + if c.link != [] then "<a href=" + c.link + ">" + c.name + "</a>" else "<code>" + c.name + "</code>"
  }

  function VideoCaption(link: string, name: string): Caption { Caption(VideoMark, link, name) }
  function AudioCaption(link: string, name: string): Caption { Caption(AudioMark, link, name) }

  /** After the mark the name is linked when there is a link and shown as code otherwise;
      either way the name itself follows the opening tag. */
  lemma CaptionShape(c: Caption)
    ensures c.link != [] ==> CaptionHtml(c) == c.mark + "<a href=" + c.link + ">" + c.name + "</a>"
    ensures c.link != [] ==> OccursAt(CaptionHtml(c), c.name, |c.mark| + 9 + |c.link|)
    ensures c.link == [] ==> CaptionHtml(c) == c.mark + "<code>" + c.name + "</code>"
    ensures c.link == [] ==> OccursAt(CaptionHtml(c), c.name, |c.mark| + 6)
  {
    if c.link != [] {
      var pre := c.mark + "<a href=" + c.link + ">";
      assert CaptionHtml(c) == pre + c.name + "</a>";
      assert (pre + c.name + "</a>")[|pre|..|pre| + |c.name|] == c.name;
    } else {
      var pre := c.mark + "<code>";
      assert CaptionHtml(c) == pre + c.name + "</code>";
      assert (pre + c.name + "</code>")[|pre|..|pre| + |c.name|] == c.name;
    }
  }

  /** With the same mark and link, different file names give different caption texts. */
  lemma CaptionNamesDistinct(mark: string, link: string, a: string, b: string)
    requires CaptionHtml(Caption(mark, link, a)) == CaptionHtml(Caption(mark, link, b))
    ensures a == b
  {
    var ca, cb := Caption(mark, link, a), Caption(mark, link, b);
    CaptionShape(ca);
    CaptionShape(cb);
    var at := |mark| + (if link != [] then 9 + |link| else 6);
    assert |CaptionHtml(ca)| == at + |a| + (if link != [] then 4 else 7);
    assert |CaptionHtml(cb)| == at + |b| + (if link != [] then 4 else 7);
    assert CaptionHtml(ca)[at..at + |a|] == a;
    assert CaptionHtml(cb)[at..at + |b|] == b;
  }

  /** The screenshot timestamp: duration // 2 when the duration is truthy, else -1
      (take_screen_shot then probes the file itself). */
  function Ttl(duration: Option<nat>): (t: int)
    ensures t == -1 <==> duration.None? || duration.value == 0
    ensures t != -1 ==> 0 <= 2 * t <= duration.value < 2 * t + 2
  {
    if duration.Some? && duration.value != 0 then duration.value / 2 else -1
  }

  /** __get_inputs: the message's video, else its document, as input media; else None. */
  function InputOf(m: Msg): (r: Option<InputMedia>)
    ensures r.Some? <==> m.video.Some? || m.document.Some?
    ensures r.Some? ==> r.value.caption == m.captionHtml
    ensures m.video.Some? ==> r == Some(VideoInput(m.video.value.fileId, m.captionHtml))
  {
    if m.video.Some? then Some(VideoInput(m.video.value.fileId, m.captionHtml))
    else if m.document.Some? then Some(DocumentInput(m.document.value.fileId, m.captionHtml))
    else None
  }

  // ---------------------------------------------------------------- sending the parts

  /** What the parts of one split video share: the part files and their names (the two
      lists zip walks), the caption's link, the thumbnail discovery found, and the
      keyword arguments every send_video call repeats. */
  datatype PartPlan = PartPlan(parts: seq<Path>, names: seq<string>, link: string, thumb: Option<Path>,
                               duration: Option<nat>, width: int, height: int, withProgress: bool)

  /** take_screen_shot(video, ttl) with the ttl the split loop computes from the duration. */
  function ScreenShotter(tools: Tools, duration: Option<nat>): Path -> Option<Path>
  {
    video => TakeScreenShot(tools, video, Ttl(duration))
  }

  /** The send_video call for one part: its caption, no file name (popped), the counter
      (all_videos, now_video) when progress is on. */
  function PartCall(plan: PartPlan, part: Path, name: string, nowVideo: nat, thumb: Option<Path>): VideoRequest
  {
    VideoRequest(part, None, VideoCaption(plan.link, name), thumb, plan.duration, plan.width, plan.height,
                 if plan.withProgress then Some(Progress(name, Some(Counter(|plan.parts|, nowVideo)))) else None)
  }

  /** Only the first part may carry the thumbnail found by discovery (it is popped out of
      the arguments on the first turn); any other part, or the first when there was none,
      gets a screenshot of itself. */
  function PartThumb(plan: PartPlan, screenShot: Path -> Option<Path>, k: nat): Option<Path>
    requires k < |plan.parts|
  {
    if k == 0 && plan.thumb.Some? then plan.thumb else screenShot(plan.parts[k])
  }

  /** The send_video call for part k of a split video. */
  function PartRequest(plan: PartPlan, screenShot: Path -> Option<Path>, k: nat): VideoRequest
    requires k < |plan.parts| && k < |plan.names|
  {
    PartCall(plan, plan.parts[k], plan.names[k], k + 1, PartThumb(plan, screenShot, k))
  }

  function Min(a: nat, b: nat): nat { if a <= b then a else b }

  /** The requests for the first n pairs of zip(videos, videos_name), in list order. */
  function PartRequestsUpTo(plan: PartPlan, screenShot: Path -> Option<Path>, n: nat): seq<VideoRequest>
    requires n <= |plan.parts| && n <= |plan.names|
  {
    if n == 0 then []
    else PartRequestsUpTo(plan, screenShot, n - 1) + [PartRequest(plan, screenShot, n - 1)]
  }

  /** The requests of zip(videos, videos_name): one per pair, the shorter list deciding. */
  function PartRequests(plan: PartPlan, screenShot: Path -> Option<Path>): seq<VideoRequest>
  {
    PartRequestsUpTo(plan, screenShot, Min(|plan.parts|, |plan.names|))
  }

  lemma {:induction false} PartRequestsUpToShape(plan: PartPlan, screenShot: Path -> Option<Path>, n: nat)
    requires n <= |plan.parts| && n <= |plan.names|
    ensures var rs := PartRequestsUpTo(plan, screenShot, n);
      |rs| == n && forall k :: 0 <= k < n ==> rs[k] == PartRequest(plan, screenShot, k)
  {
    if n > 0 {
      PartRequestsUpToShape(plan, screenShot, n - 1);
    }
  }

  /** The parts are sent in list order with the running counter; only the first part can
      carry the thumbnail found by discovery, every other part gets its own screenshot. */
  lemma PartRequestsFacts(plan: PartPlan, tools: Tools)
    ensures var rs := PartRequests(plan, ScreenShotter(tools, plan.duration));
      && |rs| == Min(|plan.parts|, |plan.names|)
      && (forall k :: 0 <= k < |rs| ==>
            rs[k].video == plan.parts[k] && rs[k].fileName.None? && rs[k].duration == plan.duration &&
            rs[k].caption == VideoCaption(plan.link, plan.names[k]))
      && (forall k :: 0 <= k < |rs| ==>
            rs[k].progress == if plan.withProgress then Some(Progress(plan.names[k], Some(Counter(|plan.parts|, k + 1)))) else None)
      && (forall k :: 0 < k < |rs| ==> rs[k].thumb == TakeScreenShot(tools, plan.parts[k], Ttl(plan.duration)))
      && (|rs| > 0 ==> rs[0].thumb == if plan.thumb.Some? then plan.thumb else TakeScreenShot(tools, plan.parts[0], Ttl(plan.duration)))
  {
    PartRequestsUpToShape(plan, ScreenShotter(tools, plan.duration), Min(|plan.parts|, |plan.names|));
  }

  /** The split branch's send loop: the thumbnail is popped out of the arguments on the
      first turn, the counter runs from 1, and every answer is kept in order. */
  method SendParts(transport: Transport, plan: PartPlan, screenShot: Path -> Option<Path>)
    returns (requests: seq<VideoRequest>, uploaded: seq<Option<Msg>>)
    ensures requests == PartRequests(plan, screenShot)
    ensures |uploaded| == |requests|
    ensures forall k :: 0 <= k < |uploaded| ==> uploaded[k] == transport.sendVideo(requests[k])
  {
    requests, uploaded := [], [];
    var pending := plan.thumb;
    var nums := 1;
    var k := 0;
    while k < |plan.parts| && k < |plan.names|
      invariant 0 <= k <= Min(|plan.parts|, |plan.names|)
      invariant nums == k + 1
      invariant pending == if k == 0 then plan.thumb else None
      invariant requests == PartRequestsUpTo(plan, screenShot, k)
      invariant |uploaded| == |requests|
      invariant forall j :: 0 <= j < |requests| ==> uploaded[j] == transport.sendVideo(requests[j])
    {
      var fileName := plan.names[k];
      var partThumb := pending;
      pending := None;
      if partThumb.None? {
        partThumb := screenShot(plan.parts[k]);
      }
      var request := PartCall(plan, plan.parts[k], fileName, nums, partThumb);
      requests := requests + [request];
      uploaded := uploaded + [transport.sendVideo(request)];
      nums := nums + 1;
      k := k + 1;
    }
  }

  // ---------------------------------------------------------------- batching

  function Flatten<T>(gs: seq<seq<T>>): seq<T>
  {
    if gs == [] then [] else gs[0] + Flatten(gs[1..])
  }

  /** Groups of exactly ten, in order; a trailing remainder of fewer than ten is dropped. */
  function Groups<T>(xs: seq<T>): (r: seq<seq<T>>)
    ensures |r| == |xs| / 10
    ensures forall g :: 0 <= g < |r| ==> |r[g]| == 10
    ensures Flatten(r) == xs[..|xs| / 10 * 10]
    decreases |xs|
  {
    if |xs| < 10 then []
    else
      var rest := Groups(xs[10..]);
      assert xs[10..][..|xs[10..]| / 10 * 10] == xs[10..|xs| / 10 * 10];
      assert xs[..|xs| / 10 * 10] == xs[..10] + xs[10..|xs| / 10 * 10];
      [xs[..10]] + rest
  }

  /** Every part's message converted, or AttributeError at the first None answer. */
  function Batches(uploaded: seq<Option<Msg>>): (r: Result<seq<Group>>)
    ensures r.Err? <==> exists k :: 0 <= k < |uploaded| && uploaded[k].None?
    ensures r.Err? ==> r.error == AttributeError
  {
    if exists k :: 0 <= k < |uploaded| && uploaded[k].None? then Err(AttributeError)
    else Ok(Groups(seq(|uploaded|, k requires 0 <= k < |uploaded| && uploaded[k].Some? => InputOf(uploaded[k].value))))
  }

  /** A list of full groups followed by a short remainder regroups into those groups. */
  lemma {:induction false} GroupsOfFull<T>(gs: seq<seq<T>>, tail: seq<T>)
    requires forall g :: 0 <= g < |gs| ==> |gs[g]| == 10
    requires |tail| < 10
    ensures Groups(Flatten(gs) + tail) == gs
    decreases |gs|
  {
    if gs == [] {
      assert Flatten(gs) + tail == tail;
    } else {
      var xs := Flatten(gs) + tail;
      assert xs == gs[0] + (Flatten(gs[1..]) + tail);
      assert xs[..10] == gs[0] && xs[10..] == Flatten(gs[1..]) + tail;
      GroupsOfFull(gs[1..], tail);
      assert gs == [gs[0]] + gs[1..];
    }
  }

  lemma FlattenSnoc<T>(gs: seq<seq<T>>, g: seq<T>)
    ensures Flatten(gs + [g]) == Flatten(gs) + g
    decreases |gs|
  {
    if gs == [] {
      assert gs + [g] == [g];
    } else {
      assert (gs + [g])[1..] == gs[1..] + [g];
      FlattenSnoc(gs[1..], g);
    }
  }

  /** The child_up/uploads loop: convert each answer, close a group at ten. */
  method BatchInputs(uploaded: seq<Option<Msg>>) returns (r: Result<seq<Group>>)
    ensures r == Batches(uploaded)
  {
    var uploads: seq<Group> := [];
    var childUp: Group := [];
    ghost var inputs: seq<Option<InputMedia>> := [];
    for k := 0 to |uploaded|
      invariant forall j :: 0 <= j < k ==> uploaded[j].Some?
      invariant |inputs| == k
      invariant forall j :: 0 <= j < k ==> inputs[j] == InputOf(uploaded[j].value)
      invariant Flatten(uploads) + childUp == inputs
      invariant |childUp| < 10
      invariant forall g :: 0 <= g < |uploads| ==> |uploads[g]| == 10
    {
      var ups := uploaded[k];
      if ups.None? {
        return Err(AttributeError);
      }
      var input := InputOf(ups.value);
      inputs := inputs + [input];
      childUp := childUp + [input];
      if |childUp| == 10 {
        FlattenSnoc(uploads, childUp);
        uploads := uploads + [childUp];
        childUp := [];
      }
    }
    GroupsOfFull(uploads, childUp);
    assert inputs == seq(|uploaded|, k requires 0 <= k < |uploaded| && uploaded[k].Some? => InputOf(uploaded[k].value));
    r := Ok(uploads);
  }

  // ---------------------------------------------------------------- the summary

  /** The media object a summary line reads: the message's video, else its document. */
  function ListedMedia(m: Msg): Option<MediaRef>
  {
    if m.video.Some? then m.video else m.document
  }

  /** Line i of a group: "i. <a href=LINK>NAME</a>", or AttributeError without media. */
  function LineFor(i: nat, m: Msg): (r: Result<string>)
    ensures r.Err? <==> ListedMedia(m).None?
    ensures r.Err? ==> r.error == AttributeError
  {
    match ListedMedia(m)
    case None => Err(AttributeError)
    case Some(media) => Ok(NatToString(i) + ". <a href=" + media.link + ">" + media.fileName + "</a>\n")
  }

  /** A summary line opens with its number and the link tag. */
  lemma LineForNumbered(i: nat, m: Msg)
    requires ListedMedia(m).Some?
    ensures OccursAt(LineFor(i, m).value, NatToString(i) + ". <a href=", 0)
  {
    var media := ListedMedia(m).value;
    var prefix := NatToString(i) + ". <a href=";
    var line := prefix + (media.link + ">" + media.fileName + "</a>\n");
    assert LineFor(i, m).value == line;
    assert line[..|prefix|] == prefix;
  }

  /** The lines of the first n replies of one group, numbered from 1. */
  function GroupLinesUpTo(replies: seq<Msg>, n: nat): (r: Result<seq<string>>)
    requires n <= |replies|
    ensures r.Ok? <==> forall i :: 0 <= i < n ==> ListedMedia(replies[i]).Some?
    ensures r.Ok? ==> |r.value| == n
    ensures r.Err? ==> r.error == AttributeError
  {
    if n == 0 then Ok([])
    else
      match GroupLinesUpTo(replies, n - 1)
      case Err(e) => Err(e)
      case Ok(ls) =>
        match LineFor(n, replies[n - 1])
        case Err(e) => Err(e)
        case Ok(line) => Ok(ls + [line])
  }

  /** Line i of a group's caption is the line of its (i + 1)-th reply. */
  lemma {:induction false} GroupLinesNumbered(replies: seq<Msg>, n: nat)
    requires n <= |replies|
    requires GroupLinesUpTo(replies, n).Ok?
    ensures forall i :: 0 <= i < n ==> LineFor(i + 1, replies[i]) == Ok(GroupLinesUpTo(replies, n).value[i])
  {
    if n > 0 {
      GroupLinesNumbered(replies, n - 1);
    }
  }

  datatype Summary = Summary(replied: nat, lines: Result<seq<string>>)

  /** How many replies the first g groups produced. */
  function RepliedBefore(transport: Transport, groups: seq<Group>, g: nat): nat
    requires g <= |groups|
  {
    if g == 0 then 0 else RepliedBefore(transport, groups, g - 1) + |transport.replyGroup(groups[g - 1])|
  }

  /** The reply loop over the first n groups: how many groups were replied, and the lines,
      or the error that stopped it. */
  function SummarizeUpTo(transport: Transport, groups: seq<Group>, n: nat): (r: Summary)
    requires n <= |groups|
    ensures r.replied <= n
    ensures r.lines.Ok? ==> r.replied == n
    ensures r.lines.Err? ==> r.lines.error == AttributeError
    ensures r.lines.Ok? ==> |r.lines.value| == RepliedBefore(transport, groups, n)
  {
    if n == 0 then Summary(0, Ok([]))
    else
      var prev := SummarizeUpTo(transport, groups, n - 1);
      if prev.lines.Err? then prev
      else
        var replies := transport.replyGroup(groups[n - 1]);
        match GroupLinesUpTo(replies, |replies|)
        case Err(e) => Summary(n, Err(e))
        case Ok(ls) => Summary(n, Ok(prev.lines.value + ls))
  }

  function Summarize(transport: Transport, groups: seq<Group>): Summary
  {
    SummarizeUpTo(transport, groups, |groups|)
  }

  /** Concatenation of lines, last line last. */
  function Join(ls: seq<string>): string
  {
    if ls == [] then "" else Join(ls[..|ls| - 1]) + ls[|ls| - 1]
  }

  lemma AppendAssoc(a: string, b: string, c: string)
    ensures (a + b) + c == a + (b + c)
  {
  }

  lemma JoinSnoc(ls: seq<string>, l: string)
    ensures Join(ls + [l]) == Join(ls) + l
  {
    assert (ls + [l])[..|ls|] == ls;
  }

  lemma {:induction false} JoinAppend(a: seq<string>, b: seq<string>)
    ensures Join(a + b) == Join(a) + Join(b)
    decreases |b|
  {
    if b == [] {
      assert a + b == a;
    } else {
      var c := b[..|b| - 1];
      assert a + b == (a + c) + [b[|b| - 1]];
      JoinSnoc(a + c, b[|b| - 1]);
      JoinAppend(a, c);
      assert b == c + [b[|b| - 1]];
      JoinSnoc(c, b[|b| - 1]);
    }
  }

  /** Once a group has failed the later groups are not replied. */
  lemma {:induction false} SummarizeStaysFailed(transport: Transport, groups: seq<Group>, m: nat, n: nat)
    requires m <= n <= |groups|
    requires SummarizeUpTo(transport, groups, m).lines.Err?
    ensures SummarizeUpTo(transport, groups, n) == SummarizeUpTo(transport, groups, m)
    decreases n
  {
    if n > m {
      SummarizeStaysFailed(transport, groups, m, n - 1);
    }
  }

  lemma GroupFails(transport: Transport, groups: seq<Group>, g: nat, lines: seq<string>)
    requires g < |groups|
    requires SummarizeUpTo(transport, groups, g) == Summary(g, Ok(lines))
    requires GroupLinesUpTo(transport.replyGroup(groups[g]), |transport.replyGroup(groups[g])|).Err?
    ensures Summarize(transport, groups) == Summary(g + 1, Err(AttributeError))
  {
    assert SummarizeUpTo(transport, groups, g + 1) == Summary(g + 1, Err(AttributeError));
    SummarizeStaysFailed(transport, groups, g + 1, |groups|);
  }

  lemma GroupSucceeds(transport: Transport, groups: seq<Group>, g: nat, lines: seq<string>, groupLines: seq<string>)
    requires g < |groups|
    requires SummarizeUpTo(transport, groups, g) == Summary(g, Ok(lines))
    requires GroupLinesUpTo(transport.replyGroup(groups[g]), |transport.replyGroup(groups[g])|) == Ok(groupLines)
    ensures SummarizeUpTo(transport, groups, g + 1) == Summary(g + 1, Ok(lines + groupLines))
  {
  }

  /** The inner loop of one group: append line i (numbered from 1) for every reply. */
  method AppendGroupLines(caption: string, replies: seq<Msg>) returns (r: Result<string>)
    ensures r.Ok? <==> GroupLinesUpTo(replies, |replies|).Ok?
    ensures r.Ok? ==> r.value == caption + Join(GroupLinesUpTo(replies, |replies|).value)
  {
    var text := caption;
    ghost var groupLines: seq<string> := [];
    var i := 0;
    while i < |replies|
      invariant 0 <= i <= |replies|
      invariant GroupLinesUpTo(replies, i) == Ok(groupLines)
      invariant text == caption + Join(groupLines)
    {
      var line := LineFor(i + 1, replies[i]);
      if line.Err? {
        return Err(line.error);
      }
      JoinSnoc(groupLines, line.value);
      AppendAssoc(caption, Join(groupLines), line.value);
      groupLines := groupLines + [line.value];
      text := text + line.value;
      i := i + 1;
    }
    return Ok(text);
  }

  /** The reply loop and its caption: for each group, reply it and append one numbered
      line per returned message, numbering from 1 again in every group. */
  method ComposeSummary(transport: Transport, groups: seq<Group>) returns (replied: nat, text: Result<string>)
    ensures replied == Summarize(transport, groups).replied
    ensures text.Ok? <==> Summarize(transport, groups).lines.Ok?
    ensures text.Ok? ==> text.value == SummaryHeader + Join(Summarize(transport, groups).lines.value)
    ensures text.Err? ==> text.error == AttributeError
  {
    var caption := SummaryHeader;
    ghost var header := caption;
    ghost var lines: seq<string> := [];
    var g := 0;
    while g < |groups|
      invariant 0 <= g <= |groups|
      invariant SummarizeUpTo(transport, groups, g) == Summary(g, Ok(lines))
      invariant header == SummaryHeader
      invariant caption == header + Join(lines)
    {
      var replies := transport.replyGroup(groups[g]);
      var next := AppendGroupLines(caption, replies);
      if next.Err? {
        GroupFails(transport, groups, g, lines);
        return g + 1, Err(AttributeError);
      }
      ghost var groupLines := GroupLinesUpTo(replies, |replies|).value;
      GroupSucceeds(transport, groups, g, lines, groupLines);
      JoinAppend(lines, groupLines);
      AppendAssoc(header, Join(lines), Join(groupLines));
      caption := next.value;
      lines := lines + groupLines;
      g := g + 1;
    }
    return |groups|, Ok(caption);
  }

  /** Numbering restarts in every group: reply i of group g is listed as line i + 1, at the
      position after all replies of the earlier groups. */
  lemma {:induction false} SummaryNumberingRestarts(transport: Transport, groups: seq<Group>, n: nat, g: nat, i: nat)
    requires n <= |groups| && g < n
    requires SummarizeUpTo(transport, groups, n).lines.Ok?
    requires i < |transport.replyGroup(groups[g])|
    ensures RepliedBefore(transport, groups, g) + i < |SummarizeUpTo(transport, groups, n).lines.value|
    ensures LineFor(i + 1, transport.replyGroup(groups[g])[i]) ==
      Ok(SummarizeUpTo(transport, groups, n).lines.value[RepliedBefore(transport, groups, g) + i])
    decreases n
  {
    var prev := SummarizeUpTo(transport, groups, n - 1);
    assert prev.lines.Ok?;
    var replies := transport.replyGroup(groups[n - 1]);
    var ls := GroupLinesUpTo(replies, |replies|).value;
    assert SummarizeUpTo(transport, groups, n).lines.value == prev.lines.value + ls;
    if g == n - 1 {
      GroupLinesNumbered(replies, |replies|);
    }
    if g < n - 1 {
      SummaryNumberingRestarts(transport, groups, n - 1, g, i);
      assert RepliedBefore(transport, groups, g) <= RepliedBefore(transport, groups, n - 1) by {
        RepliedBeforeGrows(transport, groups, g, n - 1);
      }
    }
  }

  lemma {:induction false} RepliedBeforeGrows(transport: Transport, groups: seq<Group>, g: nat, n: nat)
    requires g < n <= |groups|
    ensures RepliedBefore(transport, groups, g) + |transport.replyGroup(groups[g])| <= RepliedBefore(transport, groups, n)
    decreases n
  {
    if g < n - 1 {
      RepliedBeforeGrows(transport, groups, g, n - 1);
    }
  }

  // ---------------------------------------------------------------- the uploads

  function SentActions(requests: seq<VideoRequest>): seq<Action>
  {
    seq(|requests|, k requires 0 <= k < |requests| => SentVideo(requests[k]))
  }

  function RepliedActions(groups: seq<Group>, replied: nat): seq<Action>
    requires replied <= |groups|
  {
    seq(replied, g requires 0 <= g < replied => RepliedGroup(groups[g]))
  }

  /** __upload_video for a single file: screenshot if discovery found no thumbnail, send
      with the file name, then replace the status message unless cancelled. */
  function SingleVideoRun(env: Env, d: Descriptor, link: string, withProgress: bool, cancelled: bool): Run
    requires d.VideoMedia? && d.files.Single?
  {
    var path := d.files.path;
    var name := d.files.fileName;
    var thumb := if d.thumb.Some? then d.thumb else TakeScreenShot(env.tools, path, Ttl(d.duration));
    var request := VideoRequest(path, Some(name), VideoCaption(link, name), thumb, d.duration,
                                d.width, d.height, if withProgress then Some(Progress(name, None)) else None);
    var sent := env.transport.sendVideo(request);
    if sent.None? || cancelled then Run([SentVideo(request)], ReturnedNone)
    else Run([SentVideo(request), EditMedia(InputOf(sent.value))], Edited)
  }

  /** The part plan of a split descriptor: parts, names and the keyword arguments they share. */
  function SplitPlan(d: Descriptor, link: string, withProgress: bool): PartPlan
    requires d.VideoMedia? && d.files.Split?
  {
    PartPlan(d.files.parts, d.files.fileNames, link, d.thumb, d.duration, d.width, d.height, withProgress)
  }

  /** The client's answer to each request, in order. */
  function Answers(transport: Transport, requests: seq<VideoRequest>): seq<Option<Msg>>
  {
    seq(|requests|, k requires 0 <= k < |requests| => transport.sendVideo(requests[k]))
  }

  /** __upload_video for split parts: announce, send every part, then (unless cancelled)
      reply the full groups of ten and replace the status with the numbered summary. */
  function SplitVideoRun(env: Env, d: Descriptor, link: string, withProgress: bool, cancelled: bool): Run
    requires d.VideoMedia? && d.files.Split?
  {
    var requests := PartRequests(SplitPlan(d, link, withProgress), ScreenShotter(env.tools, d.duration));
    var sent := [EditText(SplitNotice)] + SentActions(requests);
    if |requests| == 0 || cancelled then Run(sent, ReturnedNone)
    else
      match Batches(Answers(env.transport, requests))
      case Err(e) => Run(sent, Raised(e))
      case Ok(groups) =>
        var summary := Summarize(env.transport, groups);
        var replies := sent + RepliedActions(groups, summary.replied);
        match summary.lines
        case Err(e) => Run(replies, Raised(e))
        case Ok(lines) => Run(replies + [EditText(SummaryHeader + Join(lines))], Edited)
  }

  function VideoRun(env: Env, d: Descriptor, link: string, withProgress: bool, cancelled: bool): Run
    requires d.VideoMedia?
  {
    if d.files.Single? then SingleVideoRun(env, d, link, withProgress, cancelled)
    else SplitVideoRun(env, d, link, withProgress, cancelled)
  }

  /** __upload_audio: send with the file name, then replace the status message with the
      audio (or document) unless cancelled. */
  function AudioRun(env: Env, d: Descriptor, link: string, withProgress: bool, cancelled: bool): Run
    requires d.AudioMedia? && d.files.Single?
  {
    var name := d.files.fileName;
    var request := AudioRequest(d.files.path, name, AudioCaption(link, name), d.thumb, d.duration,
                                d.performer, d.title, if withProgress then Some(Progress(name, None)) else None);
    var sent := env.transport.sendAudio(request);
    if sent.None? || cancelled then Run([SentAudio(request)], ReturnedNone)
    else
      var m := sent.value;
      if m.audio.Some? then Run([SentAudio(request), EditMedia(Some(AudioInput(m.audio.value.fileId, m.captionHtml)))], Edited)
      else if m.document.Some? then Run([SentAudio(request), EditMedia(Some(DocumentInput(m.document.value.fileId, m.captionHtml)))], Edited)
      else Run([SentAudio(request)], ReturnedNone)
  }

  method UploadVideo(env: Env, d: Descriptor, link: string, withProgress: bool, cancelled: bool) returns (run: Run)
    requires d.VideoMedia?
    ensures run == VideoRun(env, d, link, withProgress, cancelled)
  {
    match d.files
    case Single(path, fileName) =>
      var thumb := d.thumb;
      if thumb.None? {
        thumb := TakeScreenShot(env.tools, path, Ttl(d.duration));
      }
      var request := VideoRequest(path, Some(fileName), VideoCaption(link, fileName), thumb, d.duration,
                                  d.width, d.height, if withProgress then Some(Progress(fileName, None)) else None);
      var uploaded := env.transport.sendVideo(request);
      var actions := [SentVideo(request)];
      if uploaded.None? || cancelled {
        return Run(actions, ReturnedNone);
      }
      return Run(actions + [EditMedia(InputOf(uploaded.value))], Edited);
    case Split(_, _) =>
      run := UploadSplitVideo(env, d, link, withProgress, cancelled);
  }

  /** The split branch of __upload_video. */
  method UploadSplitVideo(env: Env, d: Descriptor, link: string, withProgress: bool, cancelled: bool) returns (run: Run)
    requires d.VideoMedia? && d.files.Split?
    ensures run == SplitVideoRun(env, d, link, withProgress, cancelled)
  {
    var videos, videosName := d.files.parts, d.files.fileNames;
    var actions := [EditText(SplitNotice)];
    var plan := SplitPlan(d, link, withProgress);
    var requests, uploaded := SendParts(env.transport, plan, ScreenShotter(env.tools, d.duration));
    actions := actions + SentActions(requests);
    if |uploaded| == 0 || cancelled {
      return Run(actions, ReturnedNone);
    }
    assert uploaded == Answers(env.transport, requests);
    var uploads := BatchInputs(uploaded);
    if uploads.Err? {
      return Run(actions, Raised(uploads.error));
    }
    var replied, newCaption := ComposeSummary(env.transport, uploads.value);
    actions := actions + RepliedActions(uploads.value, replied);
    if newCaption.Err? {
      return Run(actions, Raised(newCaption.error));
    }
    return Run(actions + [EditText(newCaption.value)], Edited);
  }

  method UploadAudio(env: Env, d: Descriptor, link: string, withProgress: bool, cancelled: bool) returns (run: Run)
    requires d.AudioMedia? && d.files.Single?
    ensures run == AudioRun(env, d, link, withProgress, cancelled)
  {
    var fileName := d.files.fileName;
    var request := AudioRequest(d.files.path, fileName, AudioCaption(link, fileName), d.thumb, d.duration,
                                d.performer, d.title, if withProgress then Some(Progress(fileName, None)) else None);
    var uploaded := env.transport.sendAudio(request);
    run := Run([SentAudio(request)], ReturnedNone);
    if uploaded.None? || cancelled {
      return;
    }
    var m := uploaded.value;
    if m.audio.Some? {
      run := Run(run.actions + [EditMedia(Some(AudioInput(m.audio.value.fileId, m.captionHtml)))], Edited);
    } else if m.document.Some? {
      run := Run(run.actions + [EditMedia(Some(DocumentInput(m.document.value.fileId, m.captionHtml)))], Edited);
    }
  }

  /** Uploader.upload: discovery, the upload for the kind, and the cleanup in `finally`,
      which runs once discovery has succeeded whatever the upload then does. */
  function UploadRun(downtype: string, downloadPath: string, key: string, exts: Exts, env: Env,
                     inspect: Inspect, disk: Disk, link: string, withProgress: bool, cancelled: bool,
                     deleteAfter: bool): (r: (Run, bool))
    ensures Discover(downtype, downloadPath, key, exts, env.tools, inspect, disk).Err? ==>
      r.0 == Run([], Raised(Discover(downtype, downloadPath, key, exts, env.tools, inspect, disk).error)) && !r.1
    ensures Discover(downtype, downloadPath, key, exts, env.tools, inspect, disk).Ok? ==> r.1 == deleteAfter
    ensures r.0.outcome == Edited ==> !cancelled
  {
    match Discover(downtype, downloadPath, key, exts, env.tools, inspect, disk)
    case Err(e) => (Run([], Raised(e)), false)
    case Ok(d) =>
      if d.VideoMedia? then (VideoRun(env, d, link, withProgress, cancelled), deleteAfter)
      else
        DiscoverAudioIsSingle(Ctx(AudioKind, exts, env.tools, inspect, disk, JobDir(downloadPath, key)));
        (AudioRun(env, d, link, withProgress, cancelled), deleteAfter)
  }

  method Upload(downtype: string, downloadPath: string, key: string, exts: Exts, env: Env,
                inspect: Inspect, disk: Disk, link: string, withProgress: bool, cancelled: bool,
                deleteAfter: bool) returns (run: Run, removed: bool)
    ensures (run, removed) == UploadRun(downtype, downloadPath, key, exts, env, inspect, disk, link,
                                        withProgress, cancelled, deleteAfter)
  {
    var mkwargs := FindMedia(downtype, downloadPath, key, exts, env.tools, inspect, disk);
    if mkwargs.Err? {
      return Run([], Raised(mkwargs.error)), false;
    }
    if downtype == "video" {
      run := UploadVideo(env, mkwargs.value, link, withProgress, cancelled);
    } else {
      DiscoverAudioIsSingle(Ctx(AudioKind, exts, env.tools, inspect, disk, JobDir(downloadPath, key)));
      run := UploadAudio(env, mkwargs.value, link, withProgress, cancelled);
    }
    removed := deleteAfter;
  }

  // ---------------------------------------------------------------- properties

  /** Nothing is edited, replaced or replied once the process is cancelled; the only edit
      left is the split notice, made before the first part is sent. */
  lemma CancelledVideoEditsNothing(env: Env, d: Descriptor, link: string, withProgress: bool)
    requires d.VideoMedia?
    ensures VideoRun(env, d, link, withProgress, true).outcome == ReturnedNone
    ensures forall i :: 0 <= i < |VideoRun(env, d, link, withProgress, true).actions| ==>
      var a := VideoRun(env, d, link, withProgress, true).actions[i];
      !a.EditMedia? && !a.RepliedGroup? && (a.EditText? ==> i == 0 && a.text == SplitNotice)
  {
  }

  lemma CancelledAudioEditsNothing(env: Env, d: Descriptor, link: string, withProgress: bool)
    requires d.AudioMedia? && d.files.Single?
    ensures AudioRun(env, d, link, withProgress, true).outcome == ReturnedNone
    ensures forall a :: a in AudioRun(env, d, link, withProgress, true).actions ==> a.SentAudio?
  {
  }

  /** Not cancelled, a single video whose send was answered always ends in the media
      replacement. */
  lemma SingleVideoReplaced(env: Env, d: Descriptor, link: string, withProgress: bool)
    requires d.VideoMedia? && d.files.Single?
    requires env.transport.sendVideo(VideoRun(env, d, link, withProgress, false).actions[0].videoRequest).Some?
    ensures VideoRun(env, d, link, withProgress, false).outcome == Edited
    ensures |VideoRun(env, d, link, withProgress, false).actions| == 2
    ensures VideoRun(env, d, link, withProgress, false).actions[1].EditMedia?
  {
  }

  /** When every reply of the first n groups carries a video or document, the summary of
      those groups has no error. */
  lemma {:induction false} SummarizeSucceeds(transport: Transport, groups: seq<Group>, n: nat)
    requires n <= |groups|
    requires forall g, i :: 0 <= g < n && 0 <= i < |transport.replyGroup(groups[g])| ==>
      ListedMedia(transport.replyGroup(groups[g])[i]).Some?
    ensures SummarizeUpTo(transport, groups, n).lines.Ok?
    decreases n
  {
    if n > 0 {
      SummarizeSucceeds(transport, groups, n - 1);
      var replies := transport.replyGroup(groups[n - 1]);
      assert GroupLinesUpTo(replies, |replies|).Ok?;
    }
  }

  /** Not cancelled, a split video whose parts were all answered and whose group replies all
      carry a video or document ends in the summary edit: the notice, every part, one reply
      per full group of ten, then the header followed by one line per reply. */
  lemma SplitVideoSummarized(env: Env, d: Descriptor, link: string, withProgress: bool,
                             requests: seq<VideoRequest>, groups: seq<Group>)
    requires d.VideoMedia? && d.files.Split?
    requires requests == PartRequests(SplitPlan(d, link, withProgress), ScreenShotter(env.tools, d.duration))
    requires |requests| > 0
    requires forall k :: 0 <= k < |requests| ==> env.transport.sendVideo(requests[k]).Some?
    requires groups == Batches(Answers(env.transport, requests)).value
    requires forall g, i :: 0 <= g < |groups| && 0 <= i < |env.transport.replyGroup(groups[g])| ==>
      ListedMedia(env.transport.replyGroup(groups[g])[i]).Some?
    ensures |groups| == |requests| / 10
    ensures Summarize(env.transport, groups).lines.Ok?
    ensures |Summarize(env.transport, groups).lines.value| == RepliedBefore(env.transport, groups, |groups|)
    ensures VideoRun(env, d, link, withProgress, false).outcome == Edited
    ensures VideoRun(env, d, link, withProgress, false).actions ==
      [EditText(SplitNotice)] + SentActions(requests) + RepliedActions(groups, |groups|)
        + [EditText(SummaryHeader + Join(Summarize(env.transport, groups).lines.value))]
  {
    SummarizeSucceeds(env.transport, groups, |groups|);
  }
}
