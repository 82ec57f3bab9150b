/**
 * `PathSendApp` in config/asgi.py: an ASGI wrapper that answers requests for static
 * files itself, with an `http.response.pathsend` message naming the file, and passes
 * every other HTTP request and every websocket connection to the Django application.
 * The staticfiles finder, the MIME type guess and the file size are parameters.
 */
module PathSend {
  import opened Wrappers
  import Utf8
  import Decimal

  /** The parts of an ASGI scope the wrapper reads: its `type` and its `path`. */
  datatype Scope = Scope(kind: string, path: string)

  /** One `[name, value]` pair of an ASGI header list, both byte strings. */
  datatype Header = Header(name: Utf8.Bytes, value: Utf8.Bytes)

  /** The ASGI messages the wrapper sends itself. */
  datatype Message =
    | ResponseStart(status: nat, headers: seq<Header>)
    | ResponsePathSend(path: string)
    | ResponseBody(body: Utf8.Bytes, moreBody: bool)

  /**
   * What one call of the wrapper does: hand the scope, `receive` and `send` unchanged to
   * the inner application, send its own messages, or raise ValueError with a message.
   */
  datatype Outcome = Delegated(scope: Scope) | Sent(messages: seq<Message>) | Raised(error: string)

  /**
   * The file system as the wrapper sees it: `finders.find`, the content type of
   * `mimetypes.guess_type` (None or "" when unknown), and `os.path.getsize`.
   */
  datatype Files = Files(find: string -> Option<string>, guessType: string -> Option<string>, size: string -> nat)

  predicate IsPrefix(prefix: string, s: string) {
    |prefix| <= |s| && s[..|prefix|] == prefix
  }

  /** `s.removeprefix(prefix)`: `s` without one leading `prefix`, or `s` itself. */
  function RemovePrefix(s: string, prefix: string): (r: string)
    ensures IsPrefix(prefix, s) ==> prefix + r == s
    ensures !IsPrefix(prefix, s) ==> r == s
  {
    if IsPrefix(prefix, s) then s[|prefix|..] else s
  }

  /** The file the finder returned, when it is truthy (a non-empty path). */
  function Found(files: Files, key: string): Option<string> {
    match files.find(key)
    case Some(p) => if p != "" then Some(p) else None
    case None => None
  }

  /** The guessed type, or "text/plain" when the guess is None or empty. */
  function ContentType(files: Files, file: string): (t: string)
    ensures t != ""
    ensures files.guessType(file).Some? && files.guessType(file).value != "" ==> t == files.guessType(file).value
    ensures files.guessType(file).None? || files.guessType(file).value == "" ==> t == "text/plain"
  {
    match files.guessType(file)
    case Some(t) => if t != "" then t else "text/plain"
    case None => "text/plain"
  }

  /** The header list as a client reads it: the first header with this name, decoded as UTF-8. */
  function HeaderValue(headers: seq<Header>, name: Utf8.Bytes): Option<string>
    decreases |headers|
  {
    if |headers| == 0 then None
    else if headers[0].name == name then Utf8.Decode(headers[0].value)
    else HeaderValue(headers[1..], name)
  }

  const ContentTypeName: Utf8.Bytes := Utf8.Ascii("content-type")
  const ContentLengthName: Utf8.Bytes := Utf8.Ascii("content-length")
  const ServedByName: Utf8.Bytes := Utf8.Ascii("x-served-by")

  /** The headers of a found file: its type and size encoded as text, and the server tag. */
  function FileHeaders(contentType: string, contentLength: nat): seq<Header> {
    [ Header(ContentTypeName, Utf8.Encode(contentType)),
      Header(ContentLengthName, Utf8.Encode(Decimal.Show(contentLength))),
      Header(ServedByName, Utf8.Ascii("PathSend")) ]
  }

  const NotFoundBody: string := "404 Not Found"

  /** `_handle_http` */
  function HandleHttp(staticUrl: string, files: Files, scope: Scope): (r: Outcome)
    ensures !IsPrefix(staticUrl, scope.path) <==> r.Delegated?
    ensures r.Delegated? ==> r.scope == scope
    ensures !r.Raised?
  {
    if !IsPrefix(staticUrl, scope.path) then Delegated(scope)
    else
      var key := RemovePrefix(scope.path, staticUrl);
      match Found(files, key)
      case Some(file) =>
        Sent([ResponseStart(200, FileHeaders(ContentType(files, file), files.size(file))), ResponsePathSend(file)])
      case None =>
        Sent([ResponseStart(404, [Header(ContentTypeName, Utf8.Ascii("text/plain"))]),
              ResponseBody(Utf8.Ascii(NotFoundBody), false)])
  }

  /** `PathSendApp.__call__`: dispatch on the scope type. */
  function Handle(staticUrl: string, files: Files, scope: Scope): (r: Outcome)
    ensures scope.kind == "http" ==> r == HandleHttp(staticUrl, files, scope)
    ensures scope.kind == "websocket" ==> r == Delegated(scope)
    ensures r.Raised? <==> scope.kind != "http" && scope.kind != "websocket"
    ensures r.Raised? ==> r.error == "Unhandled ASGI scope " + scope.kind
  {
    if scope.kind == "http" then HandleHttp(staticUrl, files, scope)
    else if scope.kind == "websocket" then Delegated(scope)
    else Raised("Unhandled ASGI scope " + scope.kind)
  }

  /** The three header names differ as bytes. */
  lemma HeaderNames()
    ensures ContentTypeName != ContentLengthName
    ensures ContentTypeName != ServedByName
    ensures ContentLengthName != ServedByName
  {
    assert ContentTypeName[0] != ServedByName[0];
    assert ContentLengthName[0] != ServedByName[0];
  }

  /** The first header holds the content type as UTF-8 text. */
  lemma ReadContentType(contentType: string, contentLength: nat)
    ensures HeaderValue(FileHeaders(contentType, contentLength), ContentTypeName) == Some(contentType)
  {
    Utf8.DecodeEncode(contentType);
  }

  /** The second header holds the size in decimal. */
  lemma ReadContentLength(contentType: string, contentLength: nat)
    ensures var v := HeaderValue(FileHeaders(contentType, contentLength), ContentLengthName);
            v.Some? && Decimal.Parse(v.value) == Some(contentLength)
  {
    var hs := FileHeaders(contentType, contentLength);
    var digits := Decimal.Show(contentLength);
    HeaderNames();
    assert HeaderValue(hs, ContentLengthName) == Utf8.Decode(Utf8.Encode(digits));
    Utf8.DecodeEncode(digits);
    Decimal.ParseShow(contentLength);
  }

  /** The third header names the server. */
  lemma ReadServedBy(contentType: string, contentLength: nat)
    ensures HeaderValue(FileHeaders(contentType, contentLength), ServedByName) == Some("PathSend")
  {
    var hs := FileHeaders(contentType, contentLength);
    var tag := Utf8.Ascii("PathSend");
    HeaderNames();
    assert HeaderValue(hs, ServedByName) == HeaderValue([Header(ServedByName, tag)], ServedByName) by {
      assert hs[1..][1..] == [Header(ServedByName, tag)];
    }
    Utf8.DecodeAscii("PathSend");
  }

  /**
   * A client reading the headers of a found file gets back the content type, the file
   * size as a decimal number, and `PathSend` as the server.
   */
  lemma FileHeadersReadBack(contentType: string, contentLength: nat)
    ensures var hs := FileHeaders(contentType, contentLength);
            && HeaderValue(hs, ContentTypeName) == Some(contentType)
            && HeaderValue(hs, ContentLengthName).Some?
            && Decimal.Parse(HeaderValue(hs, ContentLengthName).value) == Some(contentLength)
            && HeaderValue(hs, ServedByName) == Some("PathSend")
  {
    ReadContentType(contentType, contentLength);
    ReadContentLength(contentType, contentLength);
    ReadServedBy(contentType, contentLength);
  }

  /**
   * A request under the static prefix is answered by the wrapper with exactly two
   * messages, looked up with the prefix removed once: for a file the finder returns, a
   * 200 start whose headers read back as the content type (or "text/plain"), the file
   * size and `PathSend`, followed by a pathsend of that file; otherwise a 404 start with
   * content type "text/plain" and a final body reading "404 Not Found".
   */
  lemma StaticResponse(staticUrl: string, files: Files, scope: Scope)
    requires scope.kind == "http" && IsPrefix(staticUrl, scope.path)
    ensures var r := Handle(staticUrl, files, scope);
            var key := scope.path[|staticUrl|..];
            && staticUrl + key == scope.path
            && r.Sent? && |r.messages| == 2 && r.messages[0].ResponseStart?
            && (Found(files, key).Some? ==>
                  var file := Found(files, key).value;
                  var hs := r.messages[0].headers;
                  && r.messages[0].status == 200
                  && HeaderValue(hs, ContentTypeName) == Some(ContentType(files, file))
                  && HeaderValue(hs, ContentLengthName).Some?
                  && Decimal.Parse(HeaderValue(hs, ContentLengthName).value) == Some(files.size(file))
                  && HeaderValue(hs, ServedByName) == Some("PathSend")
                  && r.messages[1] == ResponsePathSend(file))
            && (Found(files, key).None? ==>
                  && r.messages[0].status == 404
                  && |r.messages[0].headers| == 1
                  && HeaderValue(r.messages[0].headers, ContentTypeName) == Some("text/plain")
                  && r.messages[1].ResponseBody?
                  && Utf8.Decode(r.messages[1].body) == Some(NotFoundBody)
                  && !r.messages[1].moreBody)
  {
    var key := scope.path[|staticUrl|..];
    match Found(files, key)
    case Some(file) =>
      FileHeadersReadBack(ContentType(files, file), files.size(file));
    case None =>
      HeaderNames();
      Utf8.DecodeAscii("text/plain");
      Utf8.DecodeAscii(NotFoundBody);
  }
}
