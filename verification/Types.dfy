/** The values the link checker works on, and the outside world it consults.
    Everything the engine cannot compute itself (the file system, URL
    validation, path canonicalisation, URL parsing, regular-expression
    matching and the HTTP probe) is a field of `World`, so that every
    operation of the model is a function of its inputs. */
module LinkTypes {

  datatype Option<+T> = None | Some(value: T)

  /** The fatal outcomes of a run. */
  datatype Error =
    | NullStartFile                 // no start file was given
    | StartNotFound(path: string)   // the start file does not exist
    | CannotRead(file: string)      // an existing file could not be read as HTML

  datatype Result<+T> = Ok(value: T) | Fail(error: Error)

  /** A file-system entry. An HTML file is seen through its parser: the raw
      values of its `a/href`, `frame/src` and `img/src` attributes, in the
      order in which the parser hands them out. */
  datatype Node = Dir | Html(raws: seq<string>) | Unreadable

  /** What `java.net.URL` makes of a string. */
  datatype ParsedUrl = Malformed | Url(protocol: string, host: string)

  /** The outcome of one HEAD request. */
  datatype Probe = Status(code: int) | ConnectFail | IoFail

  /** The configuration a run is given. A `None` default file is the
      source's null. */
  datatype Policy = Policy(
    defaultFile: Option<string>,
    failOnLocalHost: bool,
    failOnIgnoredHost: bool,
    failOnBadUrls: bool,
    connectionTimeout: int,
    ignoreHostRegexs: seq<string>)

  datatype World = World(
    fs: map<string, Node>,                 // existing paths
    absolutePath: string -> string,        // File.getAbsolutePath
    isValidUrl: string -> bool,            // UrlValidator(ALLOW_LOCAL_URLS).isValid
    child: (string, string) -> string,     // new File(dir, name)
    parent: string -> string,              // File.getParent
    canonical: (string, string) -> string, // new File(dir, rel).getCanonicalPath()
    parseUrl: string -> ParsedUrl,         // new URL(link)
    matches: (string, string) -> bool,     // host.matches(regex)
    probe: (string, Option<nat>) -> Probe) // HEAD request with an optional connect timeout

  /** The file name used for a link to a directory; a null setting means
      `index.html`. */
  function DefaultName(p: Policy): (name: string)
    ensures p.defaultFile.None? ==> name == "index.html"
    ensures p.defaultFile.Some? ==> name == p.defaultFile.value
  {
    match p.defaultFile
    case None => "index.html"
    case Some(d) => d
  }
}
