/** The values the tool exchanges with the outside world, and the outside world
    itself as a record of deterministic oracles: the URL parser, the file system
    checks, the YouTube resolver and stream downloader, the encoder and muxer, and
    the playlist resolver. */
module Env {
  import opened Results

  /** One query parameter of a parsed URL. */
  datatype Param = Param(name: string, value: string)

  /** A URL as the WHATWG parser yields it, reduced to what the tool touches: the
      ordered query parameter list, and everything else as one opaque part. */
  datatype ParsedUrl = ParsedUrl(rest: string, query: seq<Param>)

  /** The URL a download works with: the raw text when it does not parse as a URL,
      otherwise the parsed URL after parameter removal. */
  datatype Url = Raw(text: string) | Parsed(url: ParsedUrl)

  /** path.join(dir, file). */
  datatype Path = Path(dir: string, file: string)

  /** One entry of the resolver's format list. */
  datatype Rendition = Rendition(itag: int, hasVideo: bool, hasAudio: bool, qualityLabel: Option<string>)

  /** What the resolver reports about a video: its title and its renditions. */
  datatype VideoInfo = VideoInfo(title: string, formats: seq<Rendition>)

  /** The error kinds of the tool: bad arguments, a missing batch file, and
      failures reported by an external capability. */
  datatype ErrorKind = InvalidArgument | NotFound | ExternalFailure

  /** A thrown Error: its kind and its message text. */
  datatype Error = Error(kind: ErrorKind, message: string)

  function ExternalError(message: string): Error {
    Error(ExternalFailure, message)
  }

  datatype World = World(
    /** new URL(raw): None when the text does not parse. */
    parseUrl: string -> Option<ParsedUrl>,
    /** Whether a directory exists at the given path. */
    isDirectory: string -> bool,
    /** Whether the batch file exists. */
    fileExists: string -> bool,
    /** The batch file's text, decoded as UTF-8, or the file system's error
        message when the file cannot be read (a directory, no permission). */
    readFile: string -> Result<string, string>,
    /** The resolver's check that the URL names a YouTube video. */
    validateUrl: Url -> bool,
    /** The resolver's metadata for the video, or its error message. */
    getInfo: Url -> Result<VideoInfo, string>,
    /** The resolver's choice of the highest-quality video rendition. */
    highestVideo: seq<Rendition> -> Result<Rendition, string>,
    /** The highest-quality audio stream piped through ffmpeg at 128 kbps in the
        given ffmpeg format to the given output path. */
    transcode: (Url, string, Path) -> Outcome<string>,
    /** downloadFromInfo(info, { format }) written to the given path. */
    fetchVideo: (VideoInfo, Rendition, Path) -> Outcome<string>,
    /** The highest-quality audio stream written to the given path. */
    fetchAudio: (Url, Path) -> Outcome<string>,
    /** ffmpeg copying the video file's and the audio file's streams into an mp4
        container at the output path. */
    mux: (Path, Path, Path) -> Outcome<string>,
    /** The short URLs of all items of a playlist, over all its pages, or the
        playlist resolver's error message. */
    playlist: string -> Result<seq<string>, string>,
    /** The operating system's temporary directory. */
    tempDir: string)
}
