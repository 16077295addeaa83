/**
 * Download orchestration (tea/downloader.py): the output template of one download, the retry
 * loop around the extractor, the fan-in of the per-URL results in completion order with the
 * history writes, and the summary totals. The extractor is an oracle: what it does on each
 * attempt for each URL is a parameter, and so is the order in which the workers finish.
 */
module Downloader {
  import opened Wrappers
  import opened Text
  import opened History
  import opened Seqs

  const MaxRetries: nat := 3
  const RetryDelay: nat := 2

  // ---------------------------------------------------------------------------
  // The output template

  /** `os.path.join` of two pieces: an absolute second piece replaces the first. */
  function PathJoin(a: string, b: string): string {
    if StartsWith(b, "/") then b
    else if a == [] || a[|a| - 1] == '/' then a + b
    else a + "/" + b
  }

  predicate EndsWith(s: string, p: string) {
    |p| <= |s| && s[|s| - |p|..] == p
  }

  /** Joining keeps the directory in front of a relative piece and always ends with the piece. */
  lemma PathJoinShape(a: string, b: string)
    ensures EndsWith(PathJoin(a, b), b)
    ensures !StartsWith(b, "/") ==> StartsWith(PathJoin(a, b), a)
  {
    var r := PathJoin(a, b);
    if !StartsWith(b, "/") {
      assert r[..|a|] == a;
    }
    assert r[|r| - |b|..] == b;
  }

  function Extension(audioOnly: bool): string {
    if audioOnly then "mp3" else "mp4"
  }

  /** The `outtmpl` chosen for one download. `aiTitle` is the cleaned title when the AI template
    * was set, which happens only for a video. */
  function OutputTemplate(outputPath: string, contentType: string, audioOnly: bool, aiTitle: Option<string>): string {
    var ext := Extension(audioOnly);
    if contentType == "playlist" then
      PathJoin(PathJoin(outputPath, "%(playlist_title)s"), "%(playlist_index)s-%(title)s." + ext)
    else if contentType == "channel" then
      PathJoin(PathJoin(outputPath, "%(uploader)s"), "%(upload_date)s-%(title)s." + ext)
    else if aiTitle.Some? then PathJoin(outputPath, aiTitle.value + ".{ext}")
    else PathJoin(outputPath, "%(title)s.{ext}")
  }

  /** A piece that does not start with '/' is relative. */
  lemma Relative(b: string)
    requires b != [] && b[0] != '/'
    ensures !StartsWith(b, "/")
  {
    assert b[..1] == [b[0]];
  }

  /** Joining onto a directory that does not end in '/' puts one '/' between. */
  lemma JoinRelative(d: string, name: string)
    requires d != [] && d[|d| - 1] != '/' && !StartsWith(name, "/")
    ensures PathJoin(d, name) == d + "/" + name
  {
  }

  /** The directory as `os.path.join` writes it in front of a relative piece. */
  function DirPrefix(d: string): string {
    if d == [] || d[|d| - 1] == '/' then d else d + "/"
  }

  lemma JoinOnto(d: string, name: string)
    requires !StartsWith(name, "/")
    ensures PathJoin(d, name) == DirPrefix(d) + name
  {
  }

  lemma CollectionTemplate(outputPath: string, folder: string, name: string)
    requires folder != [] && folder[0] != '/' && folder[|folder| - 1] != '/' && name != [] && name[0] != '/'
    ensures StartsWith(PathJoin(PathJoin(outputPath, folder), name), outputPath)
    ensures EndsWith(PathJoin(PathJoin(outputPath, folder), name), "/" + name)
    ensures PathJoin(PathJoin(outputPath, folder), name) == DirPrefix(outputPath) + folder + "/" + name
  {
    Relative(folder);
    Relative(name);
    var d := PathJoin(outputPath, folder);
    PathJoinShape(outputPath, folder);
    assert d[|d| - 1] == folder[|folder| - 1];
    JoinRelative(d, name);
    var t := d + "/" + name;
    assert t[|t| - |"/" + name|..] == "/" + name;
    assert t[..|outputPath|] == d[..|outputPath|];
    JoinOnto(outputPath, folder);
    assert t == DirPrefix(outputPath) + folder + "/" + name;
  }

  /** Playlists go to a folder per playlist below the output directory, each file named with its
    * index, its title and the real extension. */
  lemma PlaylistTemplate(outputPath: string, audioOnly: bool, aiTitle: Option<string>)
    ensures var t := OutputTemplate(outputPath, "playlist", audioOnly, aiTitle);
      StartsWith(t, outputPath) && EndsWith(t, "/" + ("%(playlist_index)s-%(title)s." + Extension(audioOnly)))
    ensures OutputTemplate(outputPath, "playlist", audioOnly, aiTitle) ==
      DirPrefix(outputPath) + "%(playlist_title)s" + "/" + "%(playlist_index)s-%(title)s." + Extension(audioOnly)
  {
    var f, n := "%(playlist_title)s", "%(playlist_index)s-%(title)s." + Extension(audioOnly);
    assert OutputTemplate(outputPath, "playlist", audioOnly, aiTitle) == PathJoin(PathJoin(outputPath, f), n);
    assert f[0] == '%' && f[|f| - 1] == 's' && n[0] == '%';
    CollectionTemplate(outputPath, f, n);
  }

  /** Channels go to a folder per uploader below the output directory, each file named with its
    * upload date, its title and the real extension. */
  lemma ChannelTemplate(outputPath: string, audioOnly: bool, aiTitle: Option<string>)
    ensures var t := OutputTemplate(outputPath, "channel", audioOnly, aiTitle);
      StartsWith(t, outputPath) && EndsWith(t, "/" + ("%(upload_date)s-%(title)s." + Extension(audioOnly)))
    ensures OutputTemplate(outputPath, "channel", audioOnly, aiTitle) ==
      DirPrefix(outputPath) + "%(uploader)s" + "/" + "%(upload_date)s-%(title)s." + Extension(audioOnly)
  {
    var f, n := "%(uploader)s", "%(upload_date)s-%(title)s." + Extension(audioOnly);
    assert "channel" != "playlist" by { assert |"channel"| == 7; }
    assert OutputTemplate(outputPath, "channel", audioOnly, aiTitle) == PathJoin(PathJoin(outputPath, f), n);
    assert f[0] == '%' && f[|f| - 1] == 's' && n[0] == '%';
    CollectionTemplate(outputPath, f, n);
  }

  /** A video without the AI template gets the literal text `.{ext}` after its title: the
    * template is not an f-string, and yt-dlp fills only `%(...)s` fields. */
  lemma VideoTemplateLiteralExt(outputPath: string, audioOnly: bool)
    ensures EndsWith(OutputTemplate(outputPath, "video", audioOnly, None), "%(title)s.{ext}")
  {
    PathJoinShape(outputPath, "%(title)s.{ext}");
  }

  /** The template for a video downloaded to `downloads`. */
  lemma VideoTemplateExample()
    ensures OutputTemplate("downloads", "video", false, None) == "downloads/%(title)s.{ext}"
  {
    var name := "%(title)s.{ext}";
    assert name[0] == '%';
    Relative(name);
    JoinRelative("downloads", name);
  }

  /** The templates with the extension field yt-dlp fills for single videos. */
  function OutputTemplateIntended(outputPath: string, contentType: string, audioOnly: bool, aiTitle: Option<string>): (t: string)
    ensures contentType != "playlist" && contentType != "channel" ==>
      EndsWith(t, ".%(ext)s") && (aiTitle.None? ==> StartsWith(t, outputPath))
  {
    if contentType == "playlist" || contentType == "channel" then OutputTemplate(outputPath, contentType, audioOnly, aiTitle)
    else
      var base := if aiTitle.Some? then aiTitle.value else "%(title)s";
      var name := base + ".%(ext)s";
      VideoName(outputPath, base, ".%(ext)s", aiTitle.None?);
      PathJoin(outputPath, name)
  }

  lemma VideoName(outputPath: string, base: string, suffix: string, plain: bool)
    requires plain ==> base == "%(title)s"
    ensures EndsWith(PathJoin(outputPath, base + suffix), suffix)
    ensures EndsWith(PathJoin(outputPath, base + suffix), base + suffix)
    ensures plain ==> StartsWith(PathJoin(outputPath, base + suffix), outputPath)
  {
    var name := base + suffix;
    var t := PathJoin(outputPath, name);
    if plain {
      assert name[0] == '%';
      Relative(name);
    }
    PathJoinShape(outputPath, name);
    assert name[|name| - |suffix|..] == suffix;
    EndsWithTrans(t, name, suffix);
  }

  /** A string ending in `m` ends in every ending of `m`. */
  lemma EndsWithTrans(s: string, m: string, p: string)
    requires EndsWith(s, m) && EndsWith(m, p)
    ensures EndsWith(s, p)
  {
    assert s[|s| - |p|..] == s[|s| - |m|..][|m| - |p|..];
  }

  // ---------------------------------------------------------------------------
  // download_single_video

  /** What one `extract_info(url, download=True)` call does: raise with a message, return
    * `None`, return a playlist-typed answer (its title if any, and how many entries), or return
    * any other answer (its title if any). */
  datatype Attempt = Raise(error: string) | Null | Playlist(title: Option<string>, entries: nat) | Single(title: Option<string>)

  /** The result dictionary; `title` and `kind` (the `type` key) are present on successes only. */
  datatype DownloadResult = DownloadResult(
    url: string, success: bool, count: nat, title: Option<string>, kind: Option<string>, message: string)

  /** What a download is about: its URL, directory, worker number, format and content type. */
  datatype Job = Job(url: string, outputPath: string, threadId: nat, audioOnly: bool, contentType: string)

  function ThreadTag(id: nat): string {
    "[Thread " + NatToString(id) + "]"
  }

  function Failure(job: Job, message: string): (r: DownloadResult)
    ensures !r.success && r.count == 0 && r.url == job.url
  {
    DownloadResult(job.url, false, 0, None, None, message)
  }

  /** The result after every attempt raised; the message ends with the last error. */
  function Exhausted(job: Job, lastError: string): (r: DownloadResult)
    ensures !r.success && r.count == 0 && r.url == job.url
    ensures EndsWith(r.message, "Last error: " + lastError)
  {
    ExhaustedMessageEnds(job, lastError);
    Failure(job, ExhaustedMessage(job, lastError))
  }

  function ExhaustedMessage(job: Job, lastError: string): string {
    "[ERROR] " + ThreadTag(job.threadId) + " Failed after " + NatToString(MaxRetries) + " attempts. " + ("Last error: " + lastError)
  }

  lemma ExhaustedMessageEnds(job: Job, lastError: string)
    ensures EndsWith(ExhaustedMessage(job, lastError), "Last error: " + lastError)
  {
    var m := "[ERROR] " + ThreadTag(job.threadId) + " Failed after " + NatToString(MaxRetries) + " attempts. ";
    var t := "Last error: " + lastError;
    assert ExhaustedMessage(job, lastError) == m + t;
    assert (m + t)[|m + t| - |t|..] == t;
  }

  /** The result of an attempt that did not raise. */
  function Finish(job: Job, a: Attempt): (r: DownloadResult)
    requires !a.Raise?
    ensures r.url == job.url
    ensures r.success ==> r.count >= 1 && r.title.Some?
    ensures !r.success ==> r.count == 0
  {
    match a
    case Null => Failure(job, NullMessage(job))
    case Playlist(t, n) =>
      if n == 0 then Failure(job, EmptyMessage(job))
      else
        var title := t.GetOr("Unknown Playlist");
        DownloadResult(job.url, true, n, Some(title), Some(job.contentType), PlaylistMessage(job, title, n))
    case Single(t) =>
      var title := t.GetOr("Unknown");
      DownloadResult(job.url, true, 1, Some(title), Some("video"), VideoMessage(job, title))
  }

  function NullMessage(job: Job): string {
    "[ERROR] " + ThreadTag(job.threadId) + " Failed to extract video information. Video may be private or unavailable."
  }

  function EmptyMessage(job: Job): string {
    "[ERROR] " + ThreadTag(job.threadId) + " " + Title(job.contentType) + " appears to be empty or private"
  }

  function PlaylistMessage(job: Job, title: string, n: nat): string {
    "[OK] " + ThreadTag(job.threadId) + " " + Title(job.contentType) + " '" + title + "' download completed! ("
      + NatToString(n) + " " + (if job.audioOnly then "MP3s" else "videos") + ") Location: " + job.outputPath
  }

  function VideoMessage(job: Job, title: string): string {
    "[OK] " + ThreadTag(job.threadId) + " " + (if job.audioOnly then "Audio" else "Video") + " '" + title
      + "' download completed! Location: " + job.outputPath
  }

  /** The result of the retry loop from attempt `k` on. */
  function RunFrom(job: Job, attempt: nat -> Attempt, k: nat): (r: DownloadResult)
    requires 1 <= k <= MaxRetries
    ensures r.url == job.url
    ensures r.success ==> r.count >= 1 && r.title.Some?
    ensures !r.success ==> r.count == 0
    decreases MaxRetries - k
  {
    match attempt(k)
    case Raise(error) => if k < MaxRetries then RunFrom(job, attempt, k + 1) else Exhausted(job, error)
    case _ => Finish(job, attempt(k))
  }

  /** The attempt at which the loop stops: the first that does not raise, or the last. */
  function StopAt(attempt: nat -> Attempt, k: nat): (s: nat)
    requires 1 <= k <= MaxRetries
    ensures k <= s <= MaxRetries
    decreases MaxRetries - k
  {
    if attempt(k).Raise? && k < MaxRetries then StopAt(attempt, k + 1) else k
  }

  function Pow2(n: nat): (r: nat)
    ensures r >= 1
  {
    if n == 0 then 1 else 2 * Pow2(n - 1)
  }

  /** The pause after the failed attempt `k`. */
  function Delay(k: nat): nat
    requires k >= 1
  {
    RetryDelay * Pow2(k - 1)
  }

  /** The pauses after attempts `k` up to but not including `s`. */
  function DelaysBetween(k: nat, s: nat): (r: seq<nat>)
    requires 1 <= k <= s
    ensures |r| == s - k && forall i :: 0 <= i < |r| ==> r[i] == Delay(k + i)
  {
    seq<nat>(s - k, i requires 0 <= i < s - k => Delay(k + i))
  }

  /** The pauses of the retry loop from attempt `k` on. */
  ghost function SleepsFrom(attempt: nat -> Attempt, k: nat): seq<nat>
    requires 1 <= k <= MaxRetries
    decreases MaxRetries - k
  {
    if attempt(k).Raise? && k < MaxRetries then [Delay(k)] + SleepsFrom(attempt, k + 1) else []
  }

  /** The loop runs until the first attempt that does not raise, or until the last one. The
    * result is that attempt's result, or the retries-exhausted failure with the last error;
    * before it come the pauses `2 * 2^(j-1)` after each failed attempt `j`. */
  lemma RetryShape(job: Job, attempt: nat -> Attempt, k: nat)
    requires 1 <= k <= MaxRetries
    ensures forall j :: k <= j < StopAt(attempt, k) ==> attempt(j).Raise?
    ensures RunFrom(job, attempt, k) ==
      if attempt(StopAt(attempt, k)).Raise? then Exhausted(job, attempt(StopAt(attempt, k)).error)
      else Finish(job, attempt(StopAt(attempt, k)))
    ensures SleepsFrom(attempt, k) == DelaysBetween(k, StopAt(attempt, k))
    ensures attempt(StopAt(attempt, k)).Raise? ==> StopAt(attempt, k) == MaxRetries
  {
    StopShape(attempt, k);
    RunShape(job, attempt, k);
    SleepShape(attempt, k);
  }

  lemma {:induction false} StopShape(attempt: nat -> Attempt, k: nat)
    requires 1 <= k <= MaxRetries
    ensures forall j :: k <= j < StopAt(attempt, k) ==> attempt(j).Raise?
    ensures attempt(StopAt(attempt, k)).Raise? ==> StopAt(attempt, k) == MaxRetries
    decreases MaxRetries - k
  {
    if attempt(k).Raise? && k < MaxRetries {
      StopShape(attempt, k + 1);
    }
  }

  lemma {:induction false} RunShape(job: Job, attempt: nat -> Attempt, k: nat)
    requires 1 <= k <= MaxRetries
    ensures RunFrom(job, attempt, k) ==
      if attempt(StopAt(attempt, k)).Raise? then Exhausted(job, attempt(StopAt(attempt, k)).error)
      else Finish(job, attempt(StopAt(attempt, k)))
    decreases MaxRetries - k
  {
    if attempt(k).Raise? && k < MaxRetries {
      RunShape(job, attempt, k + 1);
    }
  }

  lemma {:induction false} SleepShape(attempt: nat -> Attempt, k: nat)
    requires 1 <= k <= MaxRetries
    ensures SleepsFrom(attempt, k) == DelaysBetween(k, StopAt(attempt, k))
    decreases MaxRetries - k
  {
    if attempt(k).Raise? && k < MaxRetries {
      SleepShape(attempt, k + 1);
      var s := StopAt(attempt, k);
      assert DelaysBetween(k, s) == [Delay(k)] + DelaysBetween(k + 1, s);
    }
  }

  /** When every attempt raises there are exactly three attempts with pauses of 2 s and 4 s, and
    * the failure names the last error. */
  lemma AllAttemptsRaise(job: Job, attempt: nat -> Attempt)
    requires forall j :: 1 <= j <= MaxRetries ==> attempt(j).Raise?
    ensures StopAt(attempt, 1) == MaxRetries
    ensures SleepsFrom(attempt, 1) == [2, 4]
    ensures RunFrom(job, attempt, 1) == Exhausted(job, attempt(MaxRetries).error)
    ensures EndsWith(RunFrom(job, attempt, 1).message, "Last error: " + attempt(MaxRetries).error)
  {
    RetryShape(job, attempt, 1);
    assert attempt(1).Raise? && attempt(2).Raise? && attempt(3).Raise?;
    assert StopAt(attempt, 1) == 3;
    assert DelaysBetween(1, 3) == [Delay(1), Delay(2)];
  }

  /** A `None` answer ends the loop at once, without a pause, as a failure. */
  lemma NullStops(job: Job, attempt: nat -> Attempt)
    requires attempt(1).Null?
    ensures StopAt(attempt, 1) == 1 && SleepsFrom(attempt, 1) == []
    ensures !RunFrom(job, attempt, 1).success && RunFrom(job, attempt, 1).count == 0
  {
  }

  /** An empty playlist is a failure that is not retried; a playlist with `n` entries is a
    * success counting `n`, with the content type and the title (default 'Unknown Playlist');
    * any other answer is a success counting one video. */
  lemma FinishCases(job: Job, a: Attempt)
    requires !a.Raise?
    ensures a.Playlist? && a.entries == 0 ==> !Finish(job, a).success
    ensures a.Playlist? && a.entries > 0 ==>
      var r := Finish(job, a);
      r.success && r.count == a.entries && r.kind == Some(job.contentType) && r.title == Some(a.title.GetOr("Unknown Playlist"))
    ensures a.Single? ==>
      var r := Finish(job, a);
      r.success && r.count == 1 && r.kind == Some("video") && r.title == Some(a.title.GetOr("Unknown"))
  {
  }

  /** The template of a job: the AI title applies to videos only, and outside playlists and
    * channels the file name ends in the literal `.{ext}`, after the AI title when there is one
    * and after `%(title)s` below the output directory otherwise. */
  function TemplateFor(job: Job, useAi: bool, aiTitle: Option<string>): (t: string)
    ensures job.contentType != "playlist" && job.contentType != "channel" ==> EndsWith(t, ".{ext}")
    ensures job.contentType == "video" && useAi && aiTitle.Some? ==> EndsWith(t, aiTitle.value + ".{ext}")
    ensures job.contentType != "playlist" && job.contentType != "channel" && !(job.contentType == "video" && useAi && aiTitle.Some?) ==>
      StartsWith(t, job.outputPath) && EndsWith(t, "%(title)s.{ext}")
  {
    var ai := if useAi && job.contentType == "video" then aiTitle else None;
    if job.contentType != "playlist" && job.contentType != "channel" then
      VideoTemplateShape(job.outputPath, job.contentType, job.audioOnly, ai);
      OutputTemplate(job.outputPath, job.contentType, job.audioOnly, ai)
    else
      assert job.contentType != "video" by { assert |"video"| != |"playlist"| && |"video"| != |"channel"|; }
      OutputTemplate(job.outputPath, job.contentType, job.audioOnly, ai)
  }

  /** Outside playlists and channels the template is the directory joined with the AI title or
    * `%(title)s`, followed by the literal `.{ext}`. */
  lemma VideoTemplateShape(outputPath: string, contentType: string, audioOnly: bool, ai: Option<string>)
    requires contentType != "playlist" && contentType != "channel"
    ensures var t := OutputTemplate(outputPath, contentType, audioOnly, ai);
      EndsWith(t, ".{ext}") && (ai.Some? ==> EndsWith(t, ai.value + ".{ext}"))
      && (ai.None? ==> StartsWith(t, outputPath) && EndsWith(t, "%(title)s.{ext}"))
  {
    if ai.Some? {
      AiTemplateShape(outputPath, ai.value);
    } else {
      PlainTemplateShape(outputPath);
    }
  }

  lemma AiTemplateShape(outputPath: string, title: string)
    ensures var t := PathJoin(outputPath, title + ".{ext}");
      EndsWith(t, ".{ext}") && EndsWith(t, title + ".{ext}")
  {
    VideoName(outputPath, title, ".{ext}", false);
  }

  lemma PlainTemplateShape(outputPath: string)
    ensures var t := PathJoin(outputPath, "%(title)s.{ext}");
      EndsWith(t, ".{ext}") && StartsWith(t, outputPath) && EndsWith(t, "%(title)s.{ext}")
  {
    assert "%(title)s" + ".{ext}" == "%(title)s.{ext}";
    VideoName(outputPath, "%(title)s", ".{ext}", true);
  }

  /** `download_single_video`: `useAi` is whether AI cleaning is on and a cleaner was given,
    * `aiTitle` the cleaned title (`None` when the metadata has no title or cleaning raises), and
    * `attempt(k)` what the extractor does on attempt `k`. `sleeps` are the pauses taken and
    * `attempts` the number of extractor calls. */
  method DownloadSingleVideo(job: Job, useAi: bool, aiTitle: Option<string>, attempt: nat -> Attempt)
    returns (result: DownloadResult, template: string, ghost sleeps: seq<nat>, ghost attempts: nat)
    ensures template == TemplateFor(job, useAi, aiTitle)
    ensures result == RunFrom(job, attempt, 1)
    ensures sleeps == SleepsFrom(attempt, 1) && attempts == StopAt(attempt, 1)
  {
    var aiTemplate: Option<string> := None;
    if useAi && job.contentType == "video" && aiTitle.Some? {
      aiTemplate := aiTitle;
    }
    template := OutputTemplate(job.outputPath, job.contentType, job.audioOnly, aiTemplate);
    result, sleeps, attempts := Retry(job, attempt);
  }

  /** The retry loop of `download_single_video`: up to `MaxRetries` extractor calls, pausing
    * `Delay(k)` after a failed attempt `k` that is not the last. */
  method Retry(job: Job, attempt: nat -> Attempt) returns (result: DownloadResult, ghost sleeps: seq<nat>, ghost attempts: nat)
    ensures result == RunFrom(job, attempt, 1)
    ensures sleeps == SleepsFrom(attempt, 1) && attempts == StopAt(attempt, 1)
  {
    sleeps := [];
    for k := 1 to MaxRetries + 1
      invariant k <= MaxRetries
      invariant forall j :: 1 <= j < k ==> attempt(j).Raise?
      invariant sleeps == DelaysBetween(1, k)
    {
      var a := attempt(k);
      if !a.Raise? {
        RetryEnd(job, attempt, k);
        return Finish(job, a), sleeps, k;
      }
      if k < MaxRetries {
        DelaysSnoc(k);
        sleeps := sleeps + [Delay(k)];
      } else {
        RetryEnd(job, attempt, k);
        return Exhausted(job, a.error), sleeps, k;
      }
    }
    // The last attempt always returns, so the loop never ends normally.
    assert false;
  }

  lemma DelaysSnoc(k: nat)
    requires 1 <= k
    ensures DelaysBetween(1, k + 1) == DelaysBetween(1, k) + [Delay(k)]
  {
  }

  /** Attempt `i` is the stop point of the loop from `i` on when it does not raise or is the last. */
  lemma {:induction false} StopFrom(attempt: nat -> Attempt, i: nat, k: nat)
    requires 1 <= i <= k <= MaxRetries
    requires forall j :: i <= j < k ==> attempt(j).Raise?
    requires !attempt(k).Raise? || k == MaxRetries
    ensures StopAt(attempt, i) == k
    decreases k - i
  {
    if i < k {
      StopFrom(attempt, i + 1, k);
    }
  }

  /** Where the loop returns at attempt `k`, its result and pauses are those of the model. */
  lemma RetryEnd(job: Job, attempt: nat -> Attempt, k: nat)
    requires 1 <= k <= MaxRetries
    requires forall j :: 1 <= j < k ==> attempt(j).Raise?
    requires !attempt(k).Raise? || k == MaxRetries
    ensures StopAt(attempt, 1) == k
    ensures SleepsFrom(attempt, 1) == DelaysBetween(1, k)
    ensures RunFrom(job, attempt, 1) == if attempt(k).Raise? then Exhausted(job, attempt(k).error) else Finish(job, attempt(k))
  {
    StopFrom(attempt, 1, k);
    RetryShape(job, attempt, 1);
  }

  // ---------------------------------------------------------------------------
  // download and _print_summary

  /** Content-type counts of the URL list: playlists, channels, and all the rest as videos. */
  function CountType(urls: seq<string>, contentType: string -> string, t: string): (n: nat)
    ensures n <= |urls|
  {
    if urls == [] then 0 else (if contentType(urls[0]) == t then 1 else 0) + CountType(urls[1..], contentType, t)
  }

  function VideoCount(urls: seq<string>, contentType: string -> string): int {
    |urls| - CountType(urls, contentType, "playlist") - CountType(urls, contentType, "channel")
  }

  /** The URLs neither a playlist nor a channel. */
  function CountOther(urls: seq<string>, contentType: string -> string): (n: nat) {
    if urls == [] then 0
    else
      (if contentType(urls[0]) != "playlist" && contentType(urls[0]) != "channel" then 1 else 0)
        + CountOther(urls[1..], contentType)
  }

  /** The video count is the number of URLs of any other type, so it is never negative. */
  lemma {:induction false} VideoCountOthers(urls: seq<string>, contentType: string -> string)
    ensures VideoCount(urls, contentType) == CountOther(urls, contentType)
  {
    if urls != [] {
      VideoCountOthers(urls[1..], contentType);
    }
  }

  /** The result of the `i`-th URL, run by worker `i + 1`. */
  function JobResult(urls: seq<string>, i: nat, outputPath: string, audioOnly: bool,
      contentType: string -> string, attempts: nat -> nat -> Attempt): DownloadResult
    requires i < |urls|
  {
    RunFrom(Job(urls[i], outputPath, i + 1, audioOnly, contentType(urls[i])), attempts(i), 1)
  }

  /** The per-URL results in submission order. */
  function PerUrl(urls: seq<string>, outputPath: string, audioOnly: bool,
      contentType: string -> string, attempts: nat -> nat -> Attempt): (r: seq<DownloadResult>)
    ensures |r| == |urls|
    ensures forall i :: 0 <= i < |urls| ==> r[i] == JobResult(urls, i, outputPath, audioOnly, contentType, attempts)
  {
    seq(|urls|, i requires 0 <= i < |urls| => JobResult(urls, i, outputPath, audioOnly, contentType, attempts))
  }

  function Indices(n: nat): (r: seq<nat>)
    ensures |r| == n && forall i :: 0 <= i < n ==> r[i] == i
  {
    seq(n, i requires 0 <= i < n => i)
  }

  /** `order` lists every index below `n` exactly once: the completion order of the workers. */
  predicate IsOrder(order: seq<nat>, n: nat) {
    multiset(order) == multiset(Indices(n))
  }

  lemma OrderBelow(order: seq<nat>, n: nat, j: nat)
    requires IsOrder(order, n) && j < |order|
    ensures order[j] < n
  {
    assert order[j] in multiset(order);
    assert order[j] in Indices(n);
  }

  predicate Below(order: seq<nat>, n: nat) {
    forall j :: 0 <= j < |order| ==> order[j] < n
  }

  /** The results picked out by a list of indices. */
  function Pick<T>(s: seq<T>, order: seq<nat>): (r: seq<T>)
    requires forall j :: 0 <= j < |order| ==> order[j] < |s|
    ensures |r| == |order| && forall j :: 0 <= j < |order| ==> r[j] == s[order[j]]
  {
    seq(|order|, j requires 0 <= j < |order| => s[order[j]])
  }

  /** Dropping position `i` keeps every index in bounds. */
  lemma BelowRemove(b: seq<nat>, n: nat, i: nat)
    requires i < |b| && Below(b, n)
    ensures Below(b[..i] + b[i + 1..], n)
  {
    var rest := b[..i] + b[i + 1..];
    assert forall j :: 0 <= j < |rest| ==> rest[j] == (if j < i then b[j] else b[j + 1]);
  }

  lemma PickSplit<T>(s: seq<T>, b: seq<nat>, i: nat)
    requires i < |b| && Below(b, |s|)
    ensures Below(b[..i] + b[i + 1..], |s|)
    ensures multiset(Pick(s, b)) == multiset(Pick(s, b[..i] + b[i + 1..])) + multiset{s[b[i]]}
  {
    BelowRemove(b, |s|, i);
    var rest := b[..i] + b[i + 1..];
    assert forall j :: 0 <= j < |rest| ==> rest[j] == (if j < i then b[j] else b[j + 1]);
    var pb := Pick(s, b);
    SplitAt(pb, i);
    assert pb[..i] + pb[i + 1..] == Pick(s, rest);
  }

  lemma PickHead<T>(s: seq<T>, a: seq<nat>)
    requires a != [] && Below(a, |s|)
    ensures Below(a[1..], |s|)
    ensures multiset(Pick(s, a)) == multiset(Pick(s, a[1..])) + multiset{s[a[0]]}
  {
    var pa := Pick(s, a);
    assert pa == [pa[0]] + pa[1..];
    assert pa[1..] == Pick(s, a[1..]);
  }

  /** Matching the first index of `a` with the same index at `i` in `b`. */
  lemma PickStep<T>(s: seq<T>, a: seq<nat>, b: seq<nat>, i: nat)
    requires a != [] && i < |b| && b[i] == a[0] && Below(a, |s|) && Below(b, |s|)
    requires Below(a[1..], |s|) && Below(b[..i] + b[i + 1..], |s|)
    requires multiset(Pick(s, a[1..])) == multiset(Pick(s, b[..i] + b[i + 1..]))
    ensures multiset(Pick(s, a)) == multiset(Pick(s, b))
  {
    PickHead(s, a);
    PickSplit(s, b, i);
  }

  /** Picking in any order that lists each index once is a permutation. */
  lemma {:induction false} PickPermutes<T>(s: seq<T>, a: seq<nat>, b: seq<nat>)
    requires multiset(a) == multiset(b)
    requires Below(a, |s|) && Below(b, |s|)
    ensures multiset(Pick(s, a)) == multiset(Pick(s, b))
    decreases |a|
  {
    if a != [] {
      assert a[0] in multiset(b);
      var i :| 0 <= i < |b| && b[i] == a[0];
      PermTail(a, b, i);
      BelowRemove(b, |s|, i);
      PickHead(s, a);
      PickPermutes(s, a[1..], b[..i] + b[i + 1..]);
      PickStep(s, a, b, i);
    } else {
      assert |b| == |multiset(b)| == 0;
    }
  }

  /** The entries `history.add` writes for the successes, in order. */
  function SuccessEntries(results: seq<DownloadResult>, outputPath: string, now: string): (r: seq<Entry>)
    decreases |results|
  {
    if results == [] then []
    else
      var last := results[|results| - 1];
      SuccessEntries(results[..|results| - 1], outputPath, now)
        + (if last.success then [Entry(last.url, last.title.GetOr("Unknown"), outputPath, now)] else [])
  }

  function SuccessCount(results: seq<DownloadResult>): (n: nat)
    ensures n <= |results|
    decreases |results|
  {
    if results == [] then 0
    else SuccessCount(results[..|results| - 1]) + (if results[|results| - 1].success then 1 else 0)
  }

  /** One entry per success and none per failure, with the success's URL and title. */
  lemma {:induction false} SuccessEntriesOnePer(results: seq<DownloadResult>, outputPath: string, now: string)
    ensures |SuccessEntries(results, outputPath, now)| == SuccessCount(results)
    ensures forall e :: e in SuccessEntries(results, outputPath, now) ==>
      exists j :: 0 <= j < |results| && results[j].success && e == Entry(results[j].url, results[j].title.GetOr("Unknown"), outputPath, now)
    decreases |results|
  {
    if results != [] {
      var p := results[..|results| - 1];
      SuccessEntriesOnePer(p, outputPath, now);
      forall e | e in SuccessEntries(p, outputPath, now)
        ensures exists j :: 0 <= j < |results| && results[j].success && e == Entry(results[j].url, results[j].title.GetOr("Unknown"), outputPath, now)
      {
        var j :| 0 <= j < |p| && p[j].success && e == Entry(p[j].url, p[j].title.GetOr("Unknown"), outputPath, now);
        assert results[j] == p[j];
      }
    }
  }

  /** The history after a run of `add` calls for `es` on the same day. */
  function AddAll(h: seq<Partition>, date: string, es: seq<Entry>): seq<Partition>
    decreases |es|
  {
    if es == [] then h else AddEntry(AddAll(h, date, es[..|es| - 1]), date, es[|es| - 1])
  }

  /** The writes land, in order, at the end of that day's downloads; no other day changes. */
  lemma {:induction false} AddAllEffect(h: seq<Partition>, date: string, es: seq<Entry>)
    requires DistinctDates(h)
    ensures DistinctDates(AddAll(h, date, es))
    ensures Downloads(AddAll(h, date, es), date) == Downloads(h, date) + es
    ensures forall d :: d != date ==> Downloads(AddAll(h, date, es), d) == Downloads(h, d)
    decreases |es|
  {
    if es != [] {
      var p, e := es[..|es| - 1], es[|es| - 1];
      AddAllEffect(h, date, p);
      Snoc(es, |es| - 1);
      AddAllStep(h, date, p, e);
    }
  }

  lemma AddAllStep(h: seq<Partition>, date: string, p: seq<Entry>, e: Entry)
    requires DistinctDates(AddAll(h, date, p))
    requires Downloads(AddAll(h, date, p), date) == Downloads(h, date) + p
    requires forall d :: d != date ==> Downloads(AddAll(h, date, p), d) == Downloads(h, d)
    ensures DistinctDates(AddAll(h, date, p + [e]))
    ensures Downloads(AddAll(h, date, p + [e]), date) == Downloads(h, date) + (p + [e])
    ensures forall d :: d != date ==> Downloads(AddAll(h, date, p + [e]), d) == Downloads(h, d)
  {
    var hp := AddAll(h, date, p);
    AddAllSnoc(h, date, p, e);
    AddEntryEffect(hp, date, e);
    assert Downloads(h, date) + (p + [e]) == (Downloads(h, date) + p) + [e];
  }

  /** The history after the collection loop: the `j`-th collected result, when it succeeded, is
    * added with the clock readings `todays[j]` and `nows[j]` taken at that `add` call. */
  function Written(h: seq<Partition>, results: seq<DownloadResult>, outputPath: string,
      todays: seq<string>, nows: seq<string>): seq<Partition>
    requires |results| <= |todays| && |results| <= |nows|
    decreases |results|
  {
    if results == [] then h
    else
      var n := |results| - 1;
      var prev := Written(h, results[..n], outputPath, todays, nows);
      if results[n].success then AddEntry(prev, todays[n], Entry(results[n].url, results[n].title.GetOr("Unknown"), outputPath, nows[n]))
      else prev
  }

  lemma WrittenSnoc(h: seq<Partition>, results: seq<DownloadResult>, r: DownloadResult, outputPath: string,
      todays: seq<string>, nows: seq<string>)
    requires |results| < |todays| && |results| < |nows|
    ensures Written(h, results + [r], outputPath, todays, nows) ==
      if r.success then AddEntry(Written(h, results, outputPath, todays, nows), todays[|results|],
        Entry(r.url, r.title.GetOr("Unknown"), outputPath, nows[|results|]))
      else Written(h, results, outputPath, todays, nows)
  {
    assert (results + [r])[..|results|] == results;
  }

  /** When every write of the batch reads the same day and time, the new history is that day's
    * run of `add` calls for the success entries, so `AddAllEffect` describes it. */
  lemma {:induction false} WrittenOneDay(h: seq<Partition>, results: seq<DownloadResult>, outputPath: string,
      todays: seq<string>, nows: seq<string>, today: string, now: string)
    requires |results| <= |todays| && |results| <= |nows|
    requires forall j :: 0 <= j < |results| ==> todays[j] == today && nows[j] == now
    ensures Written(h, results, outputPath, todays, nows) == AddAll(h, today, SuccessEntries(results, outputPath, now))
    decreases |results|
  {
    if results != [] {
      var n := |results| - 1;
      var p, r := results[..n], results[n];
      WrittenOneDay(h, p, outputPath, todays, nows, today, now);
      assert results == p + [r];
      WrittenSnoc(h, p, r, outputPath, todays, nows);
      SuccessEntriesSnoc(p, r, outputPath, now);
      if r.success {
        AddAllSnoc(h, today, SuccessEntries(p, outputPath, now), Entry(r.url, r.title.GetOr("Unknown"), outputPath, now));
      } else {
        assert SuccessEntries(p, outputPath, now) + [] == SuccessEntries(p, outputPath, now);
      }
    }
  }

  /** Every write keeps the dates distinct, whatever day each one reads. */
  lemma {:induction false} WrittenDistinct(h: seq<Partition>, results: seq<DownloadResult>, outputPath: string,
      todays: seq<string>, nows: seq<string>)
    requires |results| <= |todays| && |results| <= |nows|
    requires DistinctDates(h)
    ensures DistinctDates(Written(h, results, outputPath, todays, nows))
    decreases |results|
  {
    if results != [] {
      var n := |results| - 1;
      WrittenDistinct(h, results[..n], outputPath, todays, nows);
      var prev := Written(h, results[..n], outputPath, todays, nows);
      AddEntryEffect(prev, todays[n], Entry(results[n].url, results[n].title.GetOr("Unknown"), outputPath, nows[n]));
    }
  }

  /** `_print_summary`'s totals and failed list. */
  datatype Summary = Summary(successfulCount: nat, failedCount: nat, failed: seq<DownloadResult>)

  /** The sum of `count` over the results with the given outcome. */
  function CountTotal(results: seq<DownloadResult>, success: bool): nat
    decreases |results|
  {
    if results == [] then 0
    else
      CountTotal(results[..|results| - 1], success)
        + (if results[|results| - 1].success == success then results[|results| - 1].count else 0)
  }

  /** The failed results, in order. */
  function Failed(results: seq<DownloadResult>): seq<DownloadResult>
    decreases |results|
  {
    if results == [] then []
    else
      var last := results[|results| - 1];
      Failed(results[..|results| - 1]) + (if last.success then [] else [last])
  }

  /** The failed list holds exactly the results that did not succeed. */
  lemma {:induction false} FailedMembers(results: seq<DownloadResult>)
    ensures forall x :: x in Failed(results) <==> x in results && !x.success
    decreases |results|
  {
    if results != [] {
      var p := results[..|results| - 1];
      FailedMembers(p);
      assert results == p + [results[|results| - 1]];
    }
  }

  function Summarize(results: seq<DownloadResult>): Summary {
    Summary(CountTotal(results, true), CountTotal(results, false), Failed(results))
  }

  /** Every failure counts zero, so the failed total is zero. */
  predicate CountsConsistent(results: seq<DownloadResult>) {
    forall j :: 0 <= j < |results| ==> (results[j].success ==> results[j].count >= 1) && (!results[j].success ==> results[j].count == 0)
  }

  lemma {:induction false} FailedTotalZero(results: seq<DownloadResult>)
    requires CountsConsistent(results)
    ensures Summarize(results).failedCount == 0
    ensures Summarize(results).successfulCount >= SuccessCount(results)
    decreases |results|
  {
    if results != [] {
      FailedTotalZero(results[..|results| - 1]);
    }
  }

  lemma {:induction false} CountTotalAppend(a: seq<DownloadResult>, b: seq<DownloadResult>, success: bool)
    ensures CountTotal(a + b, success) == CountTotal(a, success) + CountTotal(b, success)
    decreases |b|
  {
    if b == [] {
      assert a + b == a;
    } else {
      assert (a + b)[..|a + b| - 1] == a + b[..|b| - 1];
      assert (a + b)[|a + b| - 1] == b[|b| - 1];
      CountTotalAppend(a, b[..|b| - 1], success);
    }
  }

  lemma CountTotalSplit(b: seq<DownloadResult>, i: nat, success: bool)
    requires i < |b|
    ensures CountTotal(b, success) == CountTotal(b[..i] + b[i + 1..], success) + CountTotal([b[i]], success)
  {
    SplitAt(b, i);
    CountTotalAppend(b[..i] + [b[i]], b[i + 1..], success);
    CountTotalAppend(b[..i], [b[i]], success);
    CountTotalAppend(b[..i], b[i + 1..], success);
  }

  /** The count totals do not depend on the completion order. */
  lemma {:induction false} CountTotalOrderFree(a: seq<DownloadResult>, b: seq<DownloadResult>, success: bool)
    requires multiset(a) == multiset(b)
    ensures CountTotal(a, success) == CountTotal(b, success)
    decreases |a|
  {
    if a != [] {
      assert a[0] in multiset(b);
      var i :| 0 <= i < |b| && b[i] == a[0];
      PermTail(a, b, i);
      CountTotalOrderFree(a[1..], b[..i] + b[i + 1..], success);
      CountTotalSplit(b, i, success);
      assert a == [a[0]] + a[1..];
      CountTotalAppend([a[0]], a[1..], success);
    } else {
      assert |b| == |multiset(b)| == 0;
    }
  }

  /** Each result occurs in the failed list as often as it occurs among the results, if it failed. */
  lemma {:induction false} FailedMultiset(a: seq<DownloadResult>)
    ensures forall x :: multiset(Failed(a))[x] == if x.success then 0 else multiset(a)[x]
    decreases |a|
  {
    if a != [] {
      var p, last := a[..|a| - 1], a[|a| - 1];
      FailedMultiset(p);
      assert a == p + [last];
      assert multiset(a) == multiset(p) + multiset{last};
    }
  }

  /** The failed list does not depend on the completion order, up to its own order. */
  lemma FailedOrderFree(a: seq<DownloadResult>, b: seq<DownloadResult>)
    requires multiset(a) == multiset(b)
    ensures multiset(Failed(a)) == multiset(Failed(b))
  {
    FailedMultiset(a);
    FailedMultiset(b);
    assert forall x :: multiset(Failed(a))[x] == multiset(Failed(b))[x];
  }

  /** The summary does not depend on the completion order: permuted results give the same
    * totals and the same failures. */
  lemma SummaryOrderFree(a: seq<DownloadResult>, b: seq<DownloadResult>)
    requires multiset(a) == multiset(b)
    ensures Summarize(a).successfulCount == Summarize(b).successfulCount
    ensures Summarize(a).failedCount == Summarize(b).failedCount
    ensures multiset(Summarize(a).failed) == multiset(Summarize(b).failed)
  {
    CountTotalOrderFree(a, b, true);
    CountTotalOrderFree(a, b, false);
    FailedOrderFree(a, b);
  }

  /** `DownloadService` with the history it writes to. */
  class DownloadService {
    const history: HistoryManager

    constructor(history: HistoryManager)
      ensures this.history == history
    {
      this.history := history;
    }

    /** `download`: every URL is downloaded by its own worker, the results are collected in the
      * completion order `order`, and each success is written to the history as it arrives.
      * `todays[j]` and `nows[j]` are the clock readings of the `add` call for the `j`-th collected
      * result, `saved` whether the history file is written; the method returns the collected
      * results and the summary it prints. */
    method Download(urls: seq<string>, outputPath: string, audioOnly: bool, useAi: bool,
        contentType: string -> string, aiTitle: string -> Option<string>, attempts: nat -> nat -> Attempt,
        order: seq<nat>, todays: seq<string>, nows: seq<string>, saved: bool)
      returns (results: seq<DownloadResult>, summary: Summary)
      requires history.Valid()
      requires IsOrder(order, |urls|)
      requires |todays| == |urls| && |nows| == |urls|
      modifies history
      ensures history.Valid()
      ensures |results| == |urls|
      ensures multiset(results) == multiset(PerUrl(urls, outputPath, audioOnly, contentType, attempts))
      ensures |order| == |urls|
      ensures forall j :: 0 <= j < |order| ==> (order[j] < |urls| &&
        results[j] == JobResult(urls, order[j], outputPath, audioOnly, contentType, attempts))
      ensures history.history == Written(old(history.history), results, outputPath, todays, nows)
      ensures summary == Summarize(results) && summary.failedCount == 0
    {
      var perUrl := RunAll(urls, outputPath, audioOnly, useAi, contentType, aiTitle, attempts);
      OrderFacts(order, |urls|);
      ghost var h0 := history.history;
      results := [];
      for j := 0 to |order|
        invariant results == Pick(perUrl, order[..j]) && |results| == j
        invariant history.Valid()
        invariant history.history == Written(h0, results, outputPath, todays, nows)
      {
        var r := perUrl[order[j]];
        PickSnoc(perUrl, order, j);
        Record(h0, results, r, outputPath, todays, nows, saved);
        results := results + [r];
      }
      assert order[..|order|] == order;
      FanIn(urls, outputPath, audioOnly, contentType, attempts, order);
      summary := Summarize(results);
    }

    /** One pass of the collection loop: a success is added with the readings of its turn. */
    method Record(ghost h0: seq<Partition>, results: seq<DownloadResult>, r: DownloadResult, outputPath: string,
        todays: seq<string>, nows: seq<string>, saved: bool)
      requires history.Valid() && |results| < |todays| && |results| < |nows|
      requires history.history == Written(h0, results, outputPath, todays, nows)
      modifies history
      ensures history.Valid()
      ensures history.history == Written(h0, results + [r], outputPath, todays, nows)
    {
      WrittenSnoc(h0, results, r, outputPath, todays, nows);
      if r.success {
        var _ := history.Add(r.url, r.title.GetOr("Unknown"), outputPath, todays[|results|], nows[|results|], saved);
      }
    }
  }

  /** The workers' results in submission order (the `executor.submit` comprehension). */
  method RunAll(urls: seq<string>, outputPath: string, audioOnly: bool, useAi: bool,
      contentType: string -> string, aiTitle: string -> Option<string>, attempts: nat -> nat -> Attempt)
    returns (perUrl: seq<DownloadResult>)
    ensures perUrl == PerUrl(urls, outputPath, audioOnly, contentType, attempts)
  {
    ghost var all := PerUrl(urls, outputPath, audioOnly, contentType, attempts);
    perUrl := [];
    for i := 0 to |urls|
      invariant perUrl == all[..i]
    {
      var r := RunOne(urls, i, outputPath, audioOnly, useAi, contentType, aiTitle, attempts);
      Snoc(all, i);
      perUrl := perUrl + [r];
    }
    Snoc(all, |urls|);
  }

  /** The worker for the `i`-th URL, with thread number `i + 1`. */
  method RunOne(urls: seq<string>, i: nat, outputPath: string, audioOnly: bool, useAi: bool,
      contentType: string -> string, aiTitle: string -> Option<string>, attempts: nat -> nat -> Attempt)
    returns (r: DownloadResult)
    requires i < |urls|
    ensures r == JobResult(urls, i, outputPath, audioOnly, contentType, attempts)
  {
    var job := Job(urls[i], outputPath, i + 1, audioOnly, contentType(urls[i]));
    var template; ghost var sleeps, tries;
    r, template, sleeps, tries := DownloadSingleVideo(job, useAi, aiTitle(urls[i]), attempts(i));
  }

  lemma OrderFacts(order: seq<nat>, n: nat)
    requires IsOrder(order, n)
    ensures |order| == n && forall j :: 0 <= j < |order| ==> order[j] < n
  {
    assert |multiset(order)| == |multiset(Indices(n))|;
    forall j | 0 <= j < |order| ensures order[j] < n {
      OrderBelow(order, n, j);
    }
  }

  lemma PickSnoc<T>(s: seq<T>, order: seq<nat>, j: nat)
    requires j < |order| && forall k :: 0 <= k < |order| ==> order[k] < |s|
    ensures Pick(s, order[..j + 1]) == Pick(s, order[..j]) + [s[order[j]]]
  {
  }

  lemma SuccessEntriesSnoc(results: seq<DownloadResult>, r: DownloadResult, outputPath: string, now: string)
    ensures SuccessEntries(results + [r], outputPath, now) ==
      SuccessEntries(results, outputPath, now) + (if r.success then [Entry(r.url, r.title.GetOr("Unknown"), outputPath, now)] else [])
  {
    assert (results + [r])[..|results|] == results;
  }

  lemma AddAllSnoc(h: seq<Partition>, date: string, es: seq<Entry>, e: Entry)
    ensures AddAll(h, date, es + [e]) == AddEntry(AddAll(h, date, es), date, e)
  {
    assert (es + [e])[..|es|] == es;
  }

  /** Collected in a completion order, the results are a permutation of the per-URL results,
    * and every failure counts zero. */
  lemma FanIn(urls: seq<string>, outputPath: string, audioOnly: bool,
      contentType: string -> string, attempts: nat -> nat -> Attempt, order: seq<nat>)
    requires IsOrder(order, |urls|)
    ensures forall j :: 0 <= j < |order| ==> order[j] < |urls|
    ensures multiset(Pick(PerUrl(urls, outputPath, audioOnly, contentType, attempts), order))
      == multiset(PerUrl(urls, outputPath, audioOnly, contentType, attempts))
    ensures CountsConsistent(Pick(PerUrl(urls, outputPath, audioOnly, contentType, attempts), order))
    ensures Summarize(Pick(PerUrl(urls, outputPath, audioOnly, contentType, attempts), order)).failedCount == 0
  {
    var perUrl := PerUrl(urls, outputPath, audioOnly, contentType, attempts);
    OrderFacts(order, |urls|);
    var idx := Indices(|urls|);
    assert Below(order, |perUrl|) && Below(idx, |perUrl|);
    PickPermutes(perUrl, order, idx);
    assert Pick(perUrl, idx) == perUrl;
    var r := Pick(perUrl, order);
    forall j | 0 <= j < |r| ensures (r[j].success ==> r[j].count >= 1) && (!r[j].success ==> r[j].count == 0) {
      assert r[j] == JobResult(urls, order[j], outputPath, audioOnly, contentType, attempts);
    }
    FailedTotalZero(r);
  }
}
