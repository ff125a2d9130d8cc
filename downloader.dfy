/** The two download operations: URL normalisation, argument validation in the
    order the tool runs it, the ffmpeg format map, output and temporary path
    composition, video rendition selection, and the external steps (resolve,
    stream, encode, mux), each of which may fail. */
module Downloader {
  import opened Results
  import opened Text
  import opened Env
  import opened Sanitizer

  const DefaultFormat: string := "mp3"
  const AllowedFormats: seq<string> := ["wav", "ogg", "flac", "aac", "mp3"]
  const AllowedQualities: seq<string> := ["144p", "240p", "360p", "480p", "720p", "1080p", "1440p", "2160p"]

  /** The container ffmpeg is told to write for each audio format. */
  const FfmpegFormats: map<string, string> :=
    map["aac" := "adts", "wav" := "wav", "ogg" := "ogg", "flac" := "flac", "mp3" := "mp3"]

  /** The options a download is started with. */
  datatype DownloadOptions = DownloadOptions(
    outputDir: string,
    filename: Option<string>,
    format: Option<string>,
    quality: Option<string>)

  // ---------------------------------------------------------------------------
  // URL normalisation (stripUrlParams)

  predicate IsNavigationParam(p: Param) {
    p.name == "list" || p.name == "index"
  }

  /** The query with every parameter of the given name removed, the others kept
      in order and as often as they occur. */
  function WithoutName(query: seq<Param>, name: string): (r: seq<Param>)
    ensures forall i :: 0 <= i < |r| ==> r[i].name != name
    ensures IsSubsequence(r, query)
    ensures forall i :: 0 <= i < |query| && query[i].name != name ==> query[i] in r
    ensures forall p: Param :: p.name != name ==> multiset(r)[p] == multiset(query)[p]
  {
    if query == [] then []
    else
      var rest := WithoutName(query[1..], name);
      assert forall i :: 1 <= i < |query| ==> query[i] == query[1..][i - 1];
      assert query == [query[0]] + query[1..];
      if query[0].name == name then rest
      else
        assert ([query[0]] + rest)[1..] == rest;
        [query[0]] + rest
  }

  lemma {:induction false} WithoutNameAppend(a: seq<Param>, b: seq<Param>, name: string)
    ensures WithoutName(a + b, name) == WithoutName(a, name) + WithoutName(b, name)
  {
    if a == [] {
      assert a + b == b;
    } else {
      assert (a + b)[1..] == a[1..] + b;
      WithoutNameAppend(a[1..], b, name);
    }
  }

  /** Deletion over a list extended by one parameter. */
  lemma WithoutNameSnoc(a: seq<Param>, x: Param, name: string)
    ensures WithoutName(a + [x], name) == WithoutName(a, name) + (if x.name != name then [x] else [])
  {
    WithoutNameAppend(a, [x], name);
    assert [x][1..] == [];
  }

  /** The mutable parameter list of a parsed URL (URLSearchParams). */
  class SearchParams {
    var entries: seq<Param>

    constructor (entries: seq<Param>)
      ensures this.entries == entries
    {
      this.entries := entries;
    }

    /** URLSearchParams.delete(name): drops every parameter of that name. */
    method Delete(name: string)
      modifies this
      ensures entries == WithoutName(old(entries), name)
    {
      var all := entries;
      var kept: seq<Param> := [];
      var i := 0;
      while i < |all|
        invariant 0 <= i <= |all|
        invariant kept == WithoutName(all[..i], name)
      {
        assert all[..i + 1] == all[..i] + [all[i]];
        WithoutNameSnoc(all[..i], all[i], name);
        if all[i].name != name {
          kept := kept + [all[i]];
        }
        i := i + 1;
      }
      assert all[..i] == all;
      entries := kept;
    }
  }

  /** What stripUrlParams yields for a raw URL, given what the URL parser made of
      it: the raw text when parsing failed, otherwise the parsed URL with its
      `list` and `index` parameters gone and every other parameter kept in order. */
  function StrippedUrl(raw: string, parsed: Option<ParsedUrl>): (u: Url)
    ensures parsed.None? ==> u == Raw(raw)
    ensures parsed.Some? ==> u.Parsed? && u.url.rest == parsed.value.rest
    ensures parsed.Some? ==> forall i :: 0 <= i < |u.url.query| ==> !IsNavigationParam(u.url.query[i])
    ensures parsed.Some? ==> IsSubsequence(u.url.query, parsed.value.query)
    ensures parsed.Some? ==> forall i :: 0 <= i < |parsed.value.query| && !IsNavigationParam(parsed.value.query[i]) ==>
                               parsed.value.query[i] in u.url.query
    ensures parsed.Some? ==> forall p: Param :: !IsNavigationParam(p) ==> multiset(u.url.query)[p] == multiset(parsed.value.query)[p]
  {
    match parsed
    case None => Raw(raw)
    case Some(p) =>
      var once := WithoutName(p.query, "list");
      var twice := WithoutName(once, "index");
      SubsequenceTrans(twice, once, p.query);
      forall i | 0 <= i < |twice| ensures !IsNavigationParam(twice[i]) {
        SubsequenceElements(twice, once, i);
      }
      Parsed(ParsedUrl(p.rest, twice))
  }

  /** stripUrlParams: parse, delete `list`, delete `index`, or keep the raw text
      when parsing fails. */
  method StripUrlParams(raw: string, parsed: Option<ParsedUrl>) returns (u: Url)
    ensures u == StrippedUrl(raw, parsed)
  {
    if parsed.None? {
      return Raw(raw);
    }
    var params := new SearchParams(parsed.value.query);
    params.Delete("list");
    params.Delete("index");
    u := Parsed(ParsedUrl(parsed.value.rest, params.entries));
  }

  // ---------------------------------------------------------------------------
  // Validation errors

  function FormatError(format: string): Error {
    Error(InvalidArgument, "Unsupported format \"" + format + "\". Supported formats: " + Join(AllowedFormats, ", "))
  }

  function QualityError(quality: string): Error {
    Error(InvalidArgument, "Unsupported quality \"" + quality + "\". Allowed values: " + Join(AllowedQualities, ", "))
  }

  function DirError(dir: string): Error {
    Error(InvalidArgument, "Output directory does not exist: " + dir)
  }

  const UrlError: Error := Error(InvalidArgument, "Invalid YouTube URL.")

  /** The unsupported-format message names every supported format. */
  lemma FormatErrorListsFormats(format: string, k: nat)
    requires k < |AllowedFormats|
    ensures Contains(FormatError(format).message, AllowedFormats[k])
  {
    JoinContains(AllowedFormats, ", ", k);
    ContainsAfter("Unsupported format \"" + format + "\". Supported formats: ", Join(AllowedFormats, ", "), AllowedFormats[k]);
  }

  /** The unsupported-quality message names every allowed quality. */
  lemma QualityErrorListsQualities(quality: string, k: nat)
    requires k < |AllowedQualities|
    ensures Contains(QualityError(quality).message, AllowedQualities[k])
  {
    JoinContains(AllowedQualities, ", ", k);
    ContainsAfter("Unsupported quality \"" + quality + "\". Allowed values: ", Join(AllowedQualities, ", "), AllowedQualities[k]);
  }

  // ---------------------------------------------------------------------------
  // Format, quality and file names

  /** The effective audio format: the requested format in lower case, or mp3
      when none or an empty one is requested. */
  function AudioFormat(requested: Option<string>): (f: string)
    ensures f != []
    ensures requested.None? ==> f == DefaultFormat
    ensures requested.Some? && requested.value == [] ==> f == DefaultFormat
    ensures requested.Some? && requested.value != [] ==> f == ToLower(requested.value)
  {
    if requested.None? then DefaultFormat
    else
      var lower := ToLower(requested.value);
      if lower == [] then DefaultFormat else lower
  }

  /** The ffmpeg output format for an allowed audio format. */
  function FfmpegFormat(format: string): (m: string)
    requires format in AllowedFormats
    ensures format == "aac" ==> m == "adts"
    ensures format != "aac" ==> m == format
  {
    FfmpegFormats[format]
  }

  /** Distinct audio formats are written by distinct ffmpeg formats. */
  lemma FfmpegFormatInjective(a: string, b: string)
    requires a in AllowedFormats && b in AllowedFormats && a != b
    ensures FfmpegFormat(a) != FfmpegFormat(b)
  {
    if a == "aac" { assert b != "adts"; }
    if b == "aac" { assert a != "adts"; }
  }

  /** The requested quality in lower case, where an empty quality counts as none. */
  function RequestedQuality(quality: Option<string>): (q: Option<string>)
    ensures quality.None? ==> q.None?
    ensures quality.Some? && quality.value == [] ==> q.None?
    ensures quality.Some? && quality.value != [] ==> q == Some(ToLower(quality.value))
  {
    if quality.None? then None
    else
      var lower := ToLower(quality.value);
      if lower == [] then None else Some(lower)
  }

  /** The base name of the output: the sanitised custom filename when a non-empty
      one is given, otherwise the sanitised video title. */
  function BaseName(filename: Option<string>, title: string): string {
    if filename.Some? && filename.value != [] then Sanitize(filename.value) else Sanitize(title)
  }

  // ---------------------------------------------------------------------------
  // Audio download

  /** A finished audio download: the normalised URL, the resolved metadata, the
      audio format, the ffmpeg format and the output path. */
  datatype AudioJob = AudioJob(url: Url, info: VideoInfo, format: string, ffmpegFormat: string, output: Path)

  /** downloadAudio. The format is checked first, then the output directory, then
      the URL; each failure is reported before anything is fetched. */
  function DownloadAudio(url: string, opts: DownloadOptions, w: World): (r: Result<AudioJob, Error>)
    ensures AudioFormat(opts.format) !in AllowedFormats ==> r == Failure(FormatError(AudioFormat(opts.format)))
    ensures AudioFormat(opts.format) in AllowedFormats && !w.isDirectory(opts.outputDir) ==>
              r == Failure(DirError(opts.outputDir))
    ensures r.Success? ==>
              && r.value.url == StrippedUrl(url, w.parseUrl(url))
              && w.validateUrl(r.value.url)
              && w.getInfo(r.value.url) == Success(r.value.info)
              && r.value.format == AudioFormat(opts.format)
              && r.value.format in AllowedFormats
              && r.value.ffmpegFormat == FfmpegFormat(r.value.format)
              && r.value.output == Path(opts.outputDir, BaseName(opts.filename, r.value.info.title) + "." + r.value.format)
              && w.transcode(r.value.url, r.value.ffmpegFormat, r.value.output) == Pass
    ensures var u := StrippedUrl(url, w.parseUrl(url));
            var format := AudioFormat(opts.format);
            format in AllowedFormats && w.isDirectory(opts.outputDir) ==>
              && (!w.validateUrl(u) ==> r == Failure(UrlError))
              && (w.validateUrl(u) && w.getInfo(u).Failure? ==> r == Failure(ExternalError(w.getInfo(u).error)))
              && (w.validateUrl(u) && w.getInfo(u).Success? ==>
                    var info := w.getInfo(u).value;
                    var output := Path(opts.outputDir, BaseName(opts.filename, info.title) + "." + format);
                    var encoded := w.transcode(u, FfmpegFormat(format), output);
                    && (encoded.Fail? ==> r == Failure(ExternalError(encoded.error)))
                    && (encoded.Pass? ==> r == Success(AudioJob(u, info, format, FfmpegFormat(format), output))))
  {
    var u := StrippedUrl(url, w.parseUrl(url));
    var format := AudioFormat(opts.format);
    if format !in AllowedFormats then Failure(FormatError(format))
    else if !w.isDirectory(opts.outputDir) then Failure(DirError(opts.outputDir))
    else if !w.validateUrl(u) then Failure(UrlError)
    else
      match w.getInfo(u)
      case Failure(e) => Failure(ExternalError(e))
      case Success(info) =>
        var output := Path(opts.outputDir, BaseName(opts.filename, info.title) + "." + format);
        match w.transcode(u, FfmpegFormat(format), output)
        case Fail(e) => Failure(ExternalError(e))
        case Pass => Success(AudioJob(u, info, format, FfmpegFormat(format), output))
  }

  /** A URL that the resolver rejects fails with the invalid-URL error once the
      format and directory checks have passed. */
  lemma AudioRejectsInvalidUrl(url: string, opts: DownloadOptions, w: World)
    requires AudioFormat(opts.format) in AllowedFormats && w.isDirectory(opts.outputDir)
    requires !w.validateUrl(StrippedUrl(url, w.parseUrl(url)))
    ensures DownloadAudio(url, opts, w) == Failure(UrlError)
  {
  }

  /** The audio output is one file directly inside the output directory whose
      name is a sanitised, non-empty base followed by the format's extension. */
  lemma AudioOutputName(url: string, opts: DownloadOptions, w: World)
    requires DownloadAudio(url, opts, w).Success?
    ensures var job := DownloadAudio(url, opts, w).value;
            && job.output.dir == opts.outputDir
            && job.output.file == BaseName(opts.filename, job.info.title) + "." + job.format
            && '/' !in BaseName(opts.filename, job.info.title)
            && '\\' !in BaseName(opts.filename, job.info.title)
            && BaseName(opts.filename, job.info.title) != []
  {
  }

  // ---------------------------------------------------------------------------
  // Video rendition selection

  /** A rendition the requested quality selects: video, no audio, and a quality
      label equal to the request once lower-cased. */
  predicate Matches(f: Rendition, quality: string) {
    f.hasVideo && !f.hasAudio && f.qualityLabel.Some? && ToLower(f.qualityLabel.value) == quality
  }

  /** formats.find(...): the position of the first matching rendition. */
  function FindRendition(formats: seq<Rendition>, quality: string): (r: Option<nat>)
    ensures r.Some? ==> r.value < |formats| && Matches(formats[r.value], quality)
    ensures r.Some? ==> forall j :: 0 <= j < r.value ==> !Matches(formats[j], quality)
    ensures r.None? ==> forall j :: 0 <= j < |formats| ==> !Matches(formats[j], quality)
  {
    if formats == [] then None
    else if Matches(formats[0], quality) then Some(0)
    else
      match FindRendition(formats[1..], quality)
      case None => None
      case Some(i) => Some(i + 1)
  }

  /** The chosen rendition and whether the quality-not-available warning is shown. */
  datatype Selection = Selection(format: Rendition, warned: bool)

  /** The rendition the video download uses: with a requested quality, the first
      matching rendition in list order; otherwise, and when nothing matches, the
      default, with a warning exactly when a quality was requested. */
  function SelectRendition(formats: seq<Rendition>, default: Rendition, quality: Option<string>): (s: Selection)
    ensures quality.None? ==> s == Selection(default, false)
    ensures quality.Some? && (exists i :: 0 <= i < |formats| && Matches(formats[i], quality.value)) ==>
              && !s.warned
              && exists i :: 0 <= i < |formats| && s.format == formats[i] && Matches(formats[i], quality.value)
                             && forall j :: 0 <= j < i ==> !Matches(formats[j], quality.value)
    ensures quality.Some? && (forall i :: 0 <= i < |formats| ==> !Matches(formats[i], quality.value)) ==>
              s == Selection(default, true)
  {
    if quality.None? then Selection(default, false)
    else
      match FindRendition(formats, quality.value)
      case Some(i) => Selection(formats[i], false)
      case None => Selection(default, true)
  }

  // ---------------------------------------------------------------------------
  // Video download

  /** A finished video download: the normalised URL, the resolved metadata, the
      chosen rendition, the output path and the two temporary files. */
  datatype VideoJob = VideoJob(url: Url, info: VideoInfo, selection: Selection, output: Path, audioTemp: Path, videoTemp: Path)

  /** How the video download ends once the metadata is resolved: the default
      rendition's error, else the video fetch's, the audio fetch's or the mux's
      error, each passed on as it is, and otherwise the finished job. */
  predicate VideoSteps(u: Url, info: VideoInfo, q: Option<string>, outputDir: string, base: string, w: World,
                       r: Result<VideoJob, Error>)
  {
    var output := Path(outputDir, base + ".mp4");
    var audioTemp := Path(w.tempDir, base + "-audio.tmp.mp4");
    var videoTemp := Path(w.tempDir, base + "-video.tmp.mp4");
    && (w.highestVideo(info.formats).Failure? ==> r == Failure(ExternalError(w.highestVideo(info.formats).error)))
    && (w.highestVideo(info.formats).Success? ==>
          var selection := SelectRendition(info.formats, w.highestVideo(info.formats).value, q);
          var fetched := w.fetchVideo(info, selection.format, videoTemp);
          var audio := w.fetchAudio(u, audioTemp);
          var muxed := w.mux(videoTemp, audioTemp, output);
          && (fetched.Fail? ==> r == Failure(ExternalError(fetched.error)))
          && (fetched.Pass? && audio.Fail? ==> r == Failure(ExternalError(audio.error)))
          && (fetched.Pass? && audio.Pass? && muxed.Fail? ==> r == Failure(ExternalError(muxed.error)))
          && (fetched.Pass? && audio.Pass? && muxed.Pass? ==>
                r == Success(VideoJob(u, info, selection, output, audioTemp, videoTemp))))
  }

  /** downloadVideo. The quality is checked first (only when one is given), then
      the output directory, then the URL; then the metadata is resolved, the
      rendition chosen, video and audio fetched to temporary files one after the
      other, and the two muxed into the mp4 output. */
  function DownloadVideo(url: string, opts: DownloadOptions, w: World): (r: Result<VideoJob, Error>)
    ensures var q := RequestedQuality(opts.quality);
            q.Some? && q.value !in AllowedQualities ==> r == Failure(QualityError(q.value))
    ensures var q := RequestedQuality(opts.quality);
            (q.None? || q.value in AllowedQualities) && !w.isDirectory(opts.outputDir) ==>
              r == Failure(DirError(opts.outputDir))
    ensures r.Success? ==>
              var base := BaseName(opts.filename, r.value.info.title);
              && r.value.url == StrippedUrl(url, w.parseUrl(url))
              && w.validateUrl(r.value.url)
              && w.getInfo(r.value.url) == Success(r.value.info)
              && r.value.output == Path(opts.outputDir, base + ".mp4")
              && r.value.videoTemp == Path(w.tempDir, base + "-video.tmp.mp4")
              && r.value.audioTemp == Path(w.tempDir, base + "-audio.tmp.mp4")
              && (exists d :: w.highestVideo(r.value.info.formats) == Success(d) &&
                   r.value.selection == SelectRendition(r.value.info.formats, d, RequestedQuality(opts.quality)))
              && w.fetchVideo(r.value.info, r.value.selection.format, r.value.videoTemp) == Pass
              && w.fetchAudio(r.value.url, r.value.audioTemp) == Pass
              && w.mux(r.value.videoTemp, r.value.audioTemp, r.value.output) == Pass
    ensures var u := StrippedUrl(url, w.parseUrl(url));
            var q := RequestedQuality(opts.quality);
            (q.None? || q.value in AllowedQualities) && w.isDirectory(opts.outputDir) ==>
              && (!w.validateUrl(u) ==> r == Failure(UrlError))
              && (w.validateUrl(u) && w.getInfo(u).Failure? ==> r == Failure(ExternalError(w.getInfo(u).error)))
              && (w.validateUrl(u) && w.getInfo(u).Success? ==>
                    var info := w.getInfo(u).value;
                    var base := BaseName(opts.filename, info.title);
                    VideoSteps(u, info, q, opts.outputDir, base, w, r))
  {
    var u := StrippedUrl(url, w.parseUrl(url));
    var q := RequestedQuality(opts.quality);
    if q.Some? && q.value !in AllowedQualities then Failure(QualityError(q.value))
    else if !w.isDirectory(opts.outputDir) then Failure(DirError(opts.outputDir))
    else if !w.validateUrl(u) then Failure(UrlError)
    else
      match w.getInfo(u)
      case Failure(e) => Failure(ExternalError(e))
      case Success(info) =>
        var base := BaseName(opts.filename, info.title);
        var output := Path(opts.outputDir, base + ".mp4");
        var audioTemp := Path(w.tempDir, base + "-audio.tmp.mp4");
        var videoTemp := Path(w.tempDir, base + "-video.tmp.mp4");
        match w.highestVideo(info.formats)
        case Failure(e) => Failure(ExternalError(e))
        case Success(default) =>
          var selection := SelectRendition(info.formats, default, q);
          match w.fetchVideo(info, selection.format, videoTemp)
          case Fail(e) => Failure(ExternalError(e))
          case Pass =>
            match w.fetchAudio(u, audioTemp)
            case Fail(e) => Failure(ExternalError(e))
            case Pass =>
              match w.mux(videoTemp, audioTemp, output)
              case Fail(e) => Failure(ExternalError(e))
              case Pass => Success(VideoJob(u, info, selection, output, audioTemp, videoTemp))
  }

  /** A URL that the resolver rejects fails with the invalid-URL error once the
      quality and directory checks have passed. */
  lemma VideoRejectsInvalidUrl(url: string, opts: DownloadOptions, w: World)
    requires RequestedQuality(opts.quality).None? || RequestedQuality(opts.quality).value in AllowedQualities
    requires w.isDirectory(opts.outputDir)
    requires !w.validateUrl(StrippedUrl(url, w.parseUrl(url)))
    ensures DownloadVideo(url, opts, w) == Failure(UrlError)
  {
  }

  /** Once the quality is absent or allowed, the video download never fails
      because of the quality: a requested quality that no rendition matches
      falls back to the default rendition, so any error is the directory error,
      the URL error or an external failure. */
  lemma AcceptedQualityNeverRejected(url: string, opts: DownloadOptions, w: World)
    requires RequestedQuality(opts.quality).None? || RequestedQuality(opts.quality).value in AllowedQualities
    ensures var r := DownloadVideo(url, opts, w);
            r.Failure? ==> r.error == DirError(opts.outputDir) || r.error == UrlError || r.error.kind == ExternalFailure
  {
  }

  /** Once the format is allowed, the audio download fails only with the
      directory error, the URL error or an external failure. */
  lemma AcceptedFormatNeverRejected(url: string, opts: DownloadOptions, w: World)
    requires AudioFormat(opts.format) in AllowedFormats
    ensures var r := DownloadAudio(url, opts, w);
            r.Failure? ==> r.error == DirError(opts.outputDir) || r.error == UrlError || r.error.kind == ExternalFailure
  {
  }

  /** The two temporary files and the output are three different paths, whatever
      the output and temporary directories are. */
  lemma VideoPathsDistinct(url: string, opts: DownloadOptions, w: World)
    requires DownloadVideo(url, opts, w).Success?
    ensures var job := DownloadVideo(url, opts, w).value;
            job.audioTemp != job.videoTemp && job.audioTemp != job.output && job.videoTemp != job.output
  {
    var job := DownloadVideo(url, opts, w).value;
    var base := BaseName(opts.filename, job.info.title);
    TempNamesDistinct(base);
  }

  lemma TempNamesDistinct(base: string)
    ensures base + "-audio.tmp.mp4" != base + "-video.tmp.mp4"
    ensures base + "-audio.tmp.mp4" != base + ".mp4"
    ensures base + "-video.tmp.mp4" != base + ".mp4"
  {
    assert (base + "-audio.tmp.mp4")[|base| + 1] == 'a';
    assert (base + "-video.tmp.mp4")[|base| + 1] == 'v';
    assert (base + "-audio.tmp.mp4")[|base|] == '-';
    assert (base + "-video.tmp.mp4")[|base|] == '-';
    assert (base + ".mp4")[|base|] == '.';
  }
}
