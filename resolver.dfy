/**
 * The media resolver part of `YTDLSource.from_url`: what the extraction backend
 * returned is narrowed to one entry, a playable target is chosen from it, the
 * decoder is started on that target and the title is read from the entry.
 * The extraction itself and the decoder process are external and arrive as
 * inputs.
 */
module Resolver {
  import opened Wrappers

  /**
   * The information dictionary returned by the extraction backend, reduced to
   * the keys the code looks at. A key that is absent is `None`.
   */
  datatype Info = Info(entries: Option<seq<Info>>, url: Option<string>, title: Option<string>)

  /** What the extraction backend did with the query. */
  datatype Extraction =
    | Extracted(data: Info)   // returned an information dictionary
    | DownloadError           // raised the backend's download error
    | ExtractorFailure        // raised any other exception

  /** What the decoder is asked to read: a remote media URL or a downloaded file. */
  datatype Target = StreamUrl(url: string) | DownloadedFile(of: Info)

  /** A ready audio source: the decoder's input and the metadata it was built from. */
  datatype Player = Player(target: Target, data: Info, title: Option<string>)

  /** Why resolving failed; only `NotFound` is the backend's download error. */
  datatype LoadError =
    | NotFound        // the download error of the extraction backend
    | BackendRaised   // any other exception of the extraction backend
    | NoEntries       // a multi-entry result with an empty entry list (index error)
    | NoUrl           // stream mode and the chosen entry has no `url` key (key error)
    | DecoderFailed   // the decoder process could not be created

  /** A multi-entry result is replaced by its first entry; anything else is used as it is. */
  function SelectEntry(data: Info): (r: Result<Info, LoadError>)
    ensures r.Ok? <==> data.entries.None? || |data.entries.value| > 0
    ensures r.Err? ==> r.error == NoEntries
    ensures data.entries.None? ==> r == Ok(data)
    ensures data.entries.Some? && r.Ok? ==> r.value == data.entries.value[0]
  {
    match data.entries
    case None => Ok(data)
    case Some(es) => if |es| == 0 then Err(NoEntries) else Ok(es[0])
  }

  /**
   * In stream mode the decoder reads the entry's media URL; otherwise it reads
   * the file the backend downloaded for that entry.
   */
  function PlayableTarget(data: Info, stream: bool): (r: Result<Target, LoadError>)
    ensures stream ==> (r.Ok? <==> data.url.Some?)
    ensures stream && r.Ok? ==> r.value.StreamUrl? && Some(r.value.url) == data.url
    ensures stream && r.Err? ==> r.error == NoUrl
    ensures !stream ==> r.Ok? && r.value.DownloadedFile? && r.value.of == data
  {
    if stream then
      match data.url
      case Some(u) => Ok(StreamUrl(u))
      case None => Err(NoUrl)
    else
      Ok(DownloadedFile(data))
  }

  /**
   * `from_url`: the extraction outcome, narrowed to one entry, turned into a
   * decoder source whose title is the entry's title. `decoderStarts` says
   * whether the decoder process could be created.
   */
  function FromUrl(extraction: Extraction, stream: bool, decoderStarts: bool): (r: Result<Player, LoadError>)
    ensures r == Err(NotFound) <==> extraction.DownloadError?
    ensures r.Ok? <==>
      && extraction.Extracted?
      && SelectEntry(extraction.data).Ok?
      && PlayableTarget(SelectEntry(extraction.data).value, stream).Ok?
      && decoderStarts
    ensures r.Ok? ==>
      var entry := SelectEntry(extraction.data).value;
      && r.value.data == entry
      && r.value.title == entry.title
      && (stream ==> r.value.target == StreamUrl(entry.url.value))
  {
    match extraction
    case DownloadError => Err(NotFound)
    case ExtractorFailure => Err(BackendRaised)
    case Extracted(data) =>
      match SelectEntry(data)
      case Err(e) => Err(e)
      case Ok(entry) =>
        match PlayableTarget(entry, stream)
        case Err(e) => Err(e)
        case Ok(target) =>
          if decoderStarts then Ok(Player(target, entry, entry.title)) else Err(DecoderFailed)
  }
}
