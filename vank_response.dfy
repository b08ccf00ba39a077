/** The responses of the middle generation: a body held as bytes, a status,
    a media type, and headers derived once from the given ones (a
    Content-Type, and a Content-Length when the body counts), plus the file
    response with its byte range and Content-Disposition, the 405 response
    with its Allow header, and the redirect. */
module VankResponse {
  import opened Wrappers
  import opened Text
  import opened Bytes
  import opened OrderedDicts
  import opened VankDatastructures

  // ---- class defaults ---------------------------------------------------------

  /** The response classes; each differs from `Response` only in its class
      defaults. `StreamResponse` is `Plain`. */
  datatype Kind =
    | Plain | Json | Html | File | Redirect
    | BadRequest | NotAuthorized | Forbidden | NotFound | MethodNotAllowed | InternalServerError

  /** The class attribute `status`. */
  function DefaultStatus(kind: Kind): (s: int)
    ensures 200 <= s < 600
  {
    match kind
    case BadRequest => 400
    case NotAuthorized => 401
    case Forbidden => 403
    case NotFound => 404
    case MethodNotAllowed => 405
    case InternalServerError => 500
    case _ => 200
  }

  /** The class attribute `media_type`. */
  function DefaultMediaType(kind: Kind): (m: string)
    ensures m != ""
  {
    match kind
    case Json => "application/json"
    case Html => "text/html"
    case File => "application/octet-stream"
    case _ => "text/plain"
  }

  /** The error classes carry their own status and the plain media type. */
  lemma ErrorKindsDefaults(kind: Kind)
    ensures kind.BadRequest? ==> DefaultStatus(kind) == 400
    ensures kind.NotFound? ==> DefaultStatus(kind) == 404
    ensures kind.MethodNotAllowed? ==> DefaultStatus(kind) == 405
    ensures DefaultStatus(kind) != 200 ==> DefaultMediaType(kind) == "text/plain"
  {
  }

  /** `status or default`: None and 0 are falsy. */
  function StatusOr(status: Option<int>, default: int): (s: int)
    ensures status.Some? && status.value != 0 ==> s == status.value
    ensures status.None? || status.value == 0 ==> s == default
  {
    if status.Some? && status.value != 0 then status.value else default
  }

  /** `media_type or default`: None and "" are falsy. */
  function TextOr(text: Option<string>, default: string): (s: string)
    ensures text.Some? && text.value != "" ==> s == text.value
    ensures text.None? || text.value == "" ==> s == default
  {
    if text.Some? && text.value != "" then text.value else default
  }

  /** The `content` argument: None, a text, or bytes. */
  datatype Content = NoContent | TextContent(text: string) | ByteContent(data: Bytes)

  /** `content or b""`, then a text encoded with the charset's encoder. */
  function Encoded(content: Content, encode: string -> Bytes): (b: Bytes)
    ensures content.NoContent? ==> b == []
    ensures content.ByteContent? ==> b == content.data
    ensures content.TextContent? && content.text != "" ==> b == encode(content.text)
    ensures content.TextContent? && content.text == "" ==> b == []
  {
    match content
    case NoContent => []
    case TextContent(t) => if t == "" then [] else encode(t)
    case ByteContent(d) => d
  }

  // ---- derived headers --------------------------------------------------------

  /** The Content-Type value: a `text/` type without a charset gets
      `; charset=<charset>` appended; any other type is used as it is. */
  function ContentTypeValue(mediaType: string, charset: string): (v: string)
    ensures v == mediaType || v == mediaType + "; charset=" + charset
    ensures v != mediaType <==> StartsWith(mediaType, "text/") && !Contains(mediaType, "charset")
  {
    if StartsWith(mediaType, "text/") && !Contains(mediaType, "charset") then
      assert |mediaType + "; charset=" + charset| > |mediaType|;
      mediaType + "; charset=" + charset
    else mediaType
  }

  /** Whether the body is announced with a Content-Length: it is not empty
      and the status is at least 200 and neither 204 nor 304. */
  predicate CountsLength(content: Bytes, status: int) {
    content != [] && status >= 200 && status != 204 && status != 304
  }

  /** The given headers, then Content-Type when absent. */
  function Typed(raw: seq<(string, string)>, contentType: string): seq<(string, string)> {
    if Present(raw, "Content-Type") then raw else raw + [("Content-Type", contentType)]
  }

  /** The header list the `headers` property builds: the given headers, then
      Content-Type when absent, then Content-Length when absent and the body
      counts. */
  function DerivedHeaders(raw: seq<(string, string)>, mediaType: string, charset: string,
                          content: Bytes, status: int): seq<(string, string)>
  {
    Derive(raw, ContentTypeValue(mediaType, charset), NatToString(|content|), CountsLength(content, status))
  }

  /** The same, given the two values and whether the body counts. */
  function Derive(raw: seq<(string, string)>, contentType: string, contentLength: string, counts: bool): seq<(string, string)> {
    var typed := Typed(raw, contentType);
    if !Present(typed, "Content-Length") && counts then typed + [("Content-Length", contentLength)] else typed
  }

  lemma NamesDiffer()
    ensures !SameName("Content-Type", "Content-Length")
    ensures !SameName("Content-Type", "Allow") && !SameName("Content-Length", "Allow")
    ensures !SameName("Content-Type", "Location") && !SameName("Content-Length", "Location")
  {
    assert |Lower("Content-Type")| != |Lower("Content-Length")|;
    assert |Lower("Content-Type")| != |Lower("Allow")|;
    assert |Lower("Content-Length")| != |Lower("Allow")|;
    assert Lower("Content-Type")[0] != Lower("Location")[0];
    assert |Lower("Content-Length")| != |Lower("Location")|;
  }

  /** A header appended under a name other than `key` leaves what `get` and
      `in` find for `key` unchanged. */
  lemma OtherAppended(list: seq<(string, string)>, name: string, value: string, key: string)
    requires key != "" && !SameName(name, key)
    ensures FirstMatch(list + [(name, value)], key) == FirstMatch(list, key)
    ensures Present(list + [(name, value)], key) == Present(list, key)
  {
    FirstMatchSnoc(list, name, value, key);
    PresentMatch(list, key);
    PresentMatch(list + [(name, value)], key);
  }

  /** A header appended under `key` when none was present is what `get`
      finds for it. */
  lemma MissingAppended(list: seq<(string, string)>, value: string, key: string)
    requires key != "" && !Present(list, key)
    ensures FirstMatch(list + [(key, value)], key) == Some(value)
  {
    PresentMatch(list, key);
    FirstMatchSnoc(list, key, value, key);
  }

  /** A given Content-Type wins; otherwise the appended one is found. A
      Content-Length is found in the typed list exactly as in the given one. */
  lemma TypedSpec(raw: seq<(string, string)>, contentType: string)
    ensures |raw| <= |Typed(raw, contentType)|
    ensures forall i :: 0 <= i < |raw| ==> Typed(raw, contentType)[i] == raw[i]
    ensures FirstMatch(Typed(raw, contentType), "Content-Type") ==
              if Present(raw, "Content-Type") then FirstMatch(raw, "Content-Type") else Some(contentType)
    ensures FirstMatch(Typed(raw, contentType), "Content-Length") == FirstMatch(raw, "Content-Length")
    ensures Present(Typed(raw, contentType), "Content-Length") == Present(raw, "Content-Length")
  {
    if !Present(raw, "Content-Type") {
      NamesDiffer();
      MissingAppended(raw, contentType, "Content-Type");
      OtherAppended(raw, "Content-Type", contentType, "Content-Length");
    }
  }

  /** The given headers come first and unchanged. */
  lemma DerivePrefix(raw: seq<(string, string)>, contentType: string, contentLength: string, counts: bool)
    ensures |raw| <= |Derive(raw, contentType, contentLength, counts)|
    ensures forall i :: 0 <= i < |raw| ==> Derive(raw, contentType, contentLength, counts)[i] == raw[i]
  {
    TypedSpec(raw, contentType);
  }

  /** Content-Type reads as the given one, else as `contentType`. */
  lemma DeriveType(raw: seq<(string, string)>, contentType: string, contentLength: string, counts: bool)
    ensures FirstMatch(Derive(raw, contentType, contentLength, counts), "Content-Type") ==
              if Present(raw, "Content-Type") then FirstMatch(raw, "Content-Type") else Some(contentType)
  {
    var typed := Typed(raw, contentType);
    TypedSpec(raw, contentType);
    if !Present(typed, "Content-Length") && counts {
      LengthAppended(typed, contentLength);
    }
  }

  /** Content-Length reads as the given one, else as `contentLength` when
      the body counts, else is absent. */
  lemma DeriveLength(raw: seq<(string, string)>, contentType: string, contentLength: string, counts: bool)
    ensures FirstMatch(Derive(raw, contentType, contentLength, counts), "Content-Length") ==
              if Present(raw, "Content-Length") then FirstMatch(raw, "Content-Length")
              else if counts then Some(contentLength) else None
  {
    var typed := Typed(raw, contentType);
    TypedSpec(raw, contentType);
    if !Present(typed, "Content-Length") && counts {
      LengthAppended(typed, contentLength);
    } else if !Present(typed, "Content-Length") {
      PresentMatch(typed, "Content-Length");
    }
  }

  /** Content-Length appended to a list without one: Content-Type reads as
      before and Content-Length reads as the appended value. */
  lemma LengthAppended(typed: seq<(string, string)>, contentLength: string)
    requires !Present(typed, "Content-Length")
    ensures FirstMatch(typed + [("Content-Length", contentLength)], "Content-Type") == FirstMatch(typed, "Content-Type")
    ensures FirstMatch(typed + [("Content-Length", contentLength)], "Content-Length") == Some(contentLength)
  {
    NamesDiffer();
    OtherAppended(typed, "Content-Length", contentLength, "Content-Type");
    MissingAppended(typed, contentLength, "Content-Length");
  }

  /** The derived headers add only Content-Type and Content-Length: for any
      other name, `get` and `in` find what the given headers have. */
  lemma DerivedOther(raw: seq<(string, string)>, mediaType: string, charset: string, content: Bytes, status: int, key: string)
    requires key != "" && !SameName("Content-Type", key) && !SameName("Content-Length", key)
    ensures FirstMatch(DerivedHeaders(raw, mediaType, charset, content, status), key) == FirstMatch(raw, key)
    ensures Present(DerivedHeaders(raw, mediaType, charset, content, status), key) == Present(raw, key)
  {
    var ct := ContentTypeValue(mediaType, charset);
    var typed := Typed(raw, ct);
    if !Present(raw, "Content-Type") {
      OtherAppended(raw, "Content-Type", ct, key);
    }
    assert FirstMatch(typed, key) == FirstMatch(raw, key) && Present(typed, key) == Present(raw, key);
    if !Present(typed, "Content-Length") && CountsLength(content, status) {
      OtherAppended(typed, "Content-Length", NatToString(|content|), key);
    }
  }

  /** What the derived headers say: the given headers come first and
      unchanged; a given Content-Type or Content-Length wins; otherwise
      Content-Type is the media type (with the charset for text), and
      Content-Length is the byte length of the body exactly when it counts. */
  lemma DerivedHeadersSpec(raw: seq<(string, string)>, mediaType: string, charset: string, content: Bytes, status: int)
    ensures |raw| <= |DerivedHeaders(raw, mediaType, charset, content, status)|
    ensures forall i :: 0 <= i < |raw| ==> DerivedHeaders(raw, mediaType, charset, content, status)[i] == raw[i]
    ensures FirstMatch(DerivedHeaders(raw, mediaType, charset, content, status), "Content-Type") ==
              if Present(raw, "Content-Type") then FirstMatch(raw, "Content-Type")
              else Some(ContentTypeValue(mediaType, charset))
    ensures FirstMatch(DerivedHeaders(raw, mediaType, charset, content, status), "Content-Length") ==
              if Present(raw, "Content-Length") then FirstMatch(raw, "Content-Length")
              else if CountsLength(content, status) then Some(NatToString(|content|)) else None
  {
    var ct, cl, counts := ContentTypeValue(mediaType, charset), NatToString(|content|), CountsLength(content, status);
    assert DerivedHeaders(raw, mediaType, charset, content, status) == Derive(raw, ct, cl, counts);
    DerivePrefix(raw, ct, cl, counts);
    DeriveType(raw, ct, cl, counts);
    DeriveLength(raw, ct, cl, counts);
  }

  /** The two steps of the `headers` property give `DerivedHeaders`. */
  lemma DerivedInSteps(raw: seq<(string, string)>, mediaType: string, charset: string, content: Bytes, status: int,
                       typed: seq<(string, string)>, final: seq<(string, string)>)
    requires typed == Typed(raw, ContentTypeValue(mediaType, charset))
    requires Present(typed, "Content-Length") || !CountsLength(content, status) ==> final == typed
    requires !Present(typed, "Content-Length") && CountsLength(content, status) ==>
               final == typed + [("Content-Length", NatToString(|content|))]
    ensures final == DerivedHeaders(raw, mediaType, charset, content, status)
  {
  }

  // ---- Response -----------------------------------------------------------------

  /** A response. Its headers object is built on the first read of
      `headers` and the same object is handed out afterwards, so changes made
      through it stay. Cookies are not part of this model. */
  class Response {
    const status: int
    const mediaType: string
    const charset: string
    const content: Bytes
    const rawHeaders: seq<(string, string)>
    var cached: Headers?

    /** `Response(content, media_type, status, headers)` of class `kind`,
        whose charset is `charset` with encoder `encode`. None and an empty
        dict of headers give the same, empty, list. */
    constructor(kind: Kind, charset: string, encode: string -> Bytes, content: Content,
                mediaType: Option<string>, status: Option<int>, raw: seq<(string, string)>)
      ensures this.status == StatusOr(status, DefaultStatus(kind))
      ensures this.mediaType == TextOr(mediaType, DefaultMediaType(kind))
      ensures this.charset == charset
      ensures this.content == Encoded(content, encode)
      ensures rawHeaders == raw && cached == null
    {
      this.status := StatusOr(status, DefaultStatus(kind));
      this.mediaType := TextOr(mediaType, DefaultMediaType(kind));
      this.charset := charset;
      this.content := Encoded(content, encode);
      rawHeaders := raw;
      cached := null;
    }

    /** The `headers` property: built once, then the cached object. */
    method Headers() returns (h: Headers)
      modifies this
      ensures cached == h
      ensures old(cached) != null ==> h == old(cached)
      ensures old(cached) == null ==> fresh(h) && h.list == DerivedHeaders(rawHeaders, mediaType, charset, content, status)
    {
      if cached != null {
        return cached;
      }
      h := new Headers(rawHeaders);
      var hasType := h.Contains("Content-Type");
      if !hasType {
        h.Add("Content-Type", ContentTypeValue(mediaType, charset));
      }
      ghost var typed := h.list;
      assert typed == Typed(rawHeaders, ContentTypeValue(mediaType, charset));
      var hasLength := h.Contains("Content-Length");
      if !hasLength && content != [] && status >= 200 && status != 204 && status != 304 {
        h.SetDefault("Content-Length", NatToString(|content|));
      }
      DerivedInSteps(rawHeaders, mediaType, charset, content, status, typed, h.list);
      cached := h;
    }
  }

  // ---- MethodNotAllowedResponse ----------------------------------------------------

  /** The headers of a 405 response: the derived ones, then Allow (the
      methods joined by commas) unless the given headers name one. */
  function AllowHeaders(raw: seq<(string, string)>, mediaType: string, charset: string, status: int,
                        allow: seq<string>): seq<(string, string)>
  {
    WithAllow(DerivedHeaders(raw, mediaType, charset, [], status), allow)
  }

  /** `setdefault('Allow', ','.join(allow))` on a header list. */
  function WithAllow(h: seq<(string, string)>, allow: seq<string>): seq<(string, string)> {
    if Present(h, "Allow") then h else h + [("Allow", Join(allow, ","))]
  }

  /** A 405 response announces exactly the allowed methods, comma-joined,
      unless the caller gave an Allow header, and its empty body has no
      Content-Length. */
  lemma AllowHeadersSpec(raw: seq<(string, string)>, mediaType: string, charset: string, status: int, allow: seq<string>)
    ensures var h := AllowHeaders(raw, mediaType, charset, status, allow);
            FirstMatch(h, "Allow") ==
              (if Present(raw, "Allow") then FirstMatch(raw, "Allow") else Some(Join(allow, ","))) &&
            FirstMatch(h, "Content-Length") == FirstMatch(raw, "Content-Length")
  {
    NamesDiffer();
    var d := DerivedHeaders(raw, mediaType, charset, [], status);
    DerivedOther(raw, mediaType, charset, [], status, "Allow");
    DerivedHeadersSpec(raw, mediaType, charset, [], status);
    PresentMatch(raw, "Content-Length");
    if !Present(d, "Allow") {
      MissingAppended(d, Join(allow, ","), "Allow");
      OtherAppended(d, "Allow", Join(allow, ","), "Content-Length");
    }
  }

  /** `MethodNotAllowedResponse(allow, media_type, status, headers)`: an empty
      body, then `setdefault('Allow', ...)` on the headers. */
  method NewMethodNotAllowed(allow: seq<string>, charset: string, encode: string -> Bytes,
                             mediaType: Option<string>, status: Option<int>, raw: seq<(string, string)>)
    returns (r: Response, h: Headers)
    ensures fresh(r) && fresh(h) && r.cached == h
    ensures r.status == StatusOr(status, 405) && r.content == []
    ensures h.list == WithAllow(DerivedHeaders(raw, r.mediaType, charset, [], r.status), allow)
  {
    assert DefaultStatus(MethodNotAllowed) == 405;
    r := new Response(MethodNotAllowed, charset, encode, ByteContent([]), mediaType, status, raw);
    assert r.content == [] && r.status == StatusOr(status, 405);
    h := r.Headers();
    AddAllow(h, allow);
  }

  method AddAllow(h: Headers, allow: seq<string>)
    modifies h
    ensures h.list == WithAllow(old(h.list), allow)
  {
    h.SetDefault("Allow", Join(allow, ","));
  }

  // ---- RedirectResponse -------------------------------------------------------------

  /** `RedirectResponse(url, permanent, status=...)` as written: it sets the
      instance attribute `status_code` to 301 or 302, which no server reads,
      while `status`, which the WSGI and ASGI handlers send, keeps the class
      default of 200. The pair (status, status_code). */
  function RedirectStatusAsWritten(permanent: bool, status: Option<int>): (int, int) {
    (StatusOr(status, DefaultStatus(Redirect)), if permanent then 301 else 302)
  }

  /** The redirect as intended: the status sent is 301 for a permanent
      redirect and 302 otherwise, unless a status is given. */
  function RedirectStatus(permanent: bool, status: Option<int>): (s: int)
    ensures status.None? ==> s == (if permanent then 301 else 302)
    ensures 300 <= s < 400 || (status.Some? && s == status.value)
  {
    StatusOr(status, if permanent then 301 else 302)
  }

  /** Without an explicit status the written redirect is sent as 200 OK,
      which browsers do not follow, while the intended one is a 3xx. */
  lemma RedirectSentAs200(permanent: bool)
    ensures RedirectStatusAsWritten(permanent, None).0 == 200
    ensures RedirectStatusAsWritten(permanent, None).1 == RedirectStatus(permanent, None)
    ensures 300 <= RedirectStatus(permanent, None) < 400
  {
  }

  /** `RedirectResponse(url, permanent, ...)` with the intended status: an
      empty body, and Location (the URL quoted by `quote`) set by
      `setdefault`. */
  method NewRedirect(url: string, permanent: bool, quote: string -> string, charset: string,
                     encode: string -> Bytes, status: Option<int>, raw: seq<(string, string)>)
    returns (r: Response, h: Headers)
    ensures fresh(r) && fresh(h) && r.cached == h
    ensures r.status == RedirectStatus(permanent, status)
    ensures Present(raw, "Location") ==> FirstMatch(h.list, "Location") == FirstMatch(raw, "Location")
    ensures !Present(raw, "Location") ==> FirstMatch(h.list, "Location") == Some(quote(url))
  {
    assert RedirectStatus(permanent, status) != 0;
    r := new Response(Redirect, charset, encode, NoContent, None, Some(RedirectStatus(permanent, status)), raw);
    assert r.status == RedirectStatus(permanent, status);
    h := r.Headers();
    h.SetDefault("Location", quote(url));
    assert r.cached == h;
    LocationDefault(raw, r.mediaType, charset, r.content, r.status, quote(url));
  }

  /** `setdefault('Location', location)` on the derived headers: a given
      Location wins, otherwise `location` is found. */
  lemma LocationDefault(raw: seq<(string, string)>, mediaType: string, charset: string, content: Bytes, status: int, location: string)
    ensures var d := DerivedHeaders(raw, mediaType, charset, content, status);
            var l := if Present(d, "Location") then d else d + [("Location", location)];
            FirstMatch(l, "Location") == if Present(raw, "Location") then FirstMatch(raw, "Location") else Some(location)
  {
    NamesDiffer();
    DerivedOther(raw, mediaType, charset, content, status, "Location");
    var d := DerivedHeaders(raw, mediaType, charset, content, status);
    if !Present(d, "Location") {
      MissingAppended(d, location, "Location");
    }
  }

  // ---- FileResponse -------------------------------------------------------------------

  /** The errors of `FileResponse(...)`. */
  datatype FileError = FileNotFound | NotAFile | StatusNot206 | InvalidRange

  /** What the file system reports about `filepath`; the modification time
      comes already formatted as an HTTP date. */
  datatype FileStat = FileStat(found: bool, isFile: bool, size: nat, lastModified: string)

  /** Content-Disposition: with a non-empty file name, `attachment` or
      `inline` with the name verbatim when quoting leaves it unchanged, and
      otherwise its quoted form as an RFC 8187 `filename*` in UTF-8; with no
      name, plain `attachment`. */
  function Disposition(filename: Option<string>, asAttachment: bool, quote: string -> string): (d: string)
    ensures filename.None? || filename.value == "" ==> d == "attachment"
    ensures filename.Some? && filename.value != "" ==>
              StartsWith(d, if asAttachment then "attachment; " else "inline; ") &&
              (quote(filename.value) == filename.value ==> EndsWith(d, "filename=\"" + filename.value + "\"")) &&
              (quote(filename.value) != filename.value ==> EndsWith(d, "filename*=utf-8''" + quote(filename.value)))
  {
    if filename.None? || filename.value == "" then "attachment"
    else
      var kind := if asAttachment then "attachment" else "inline";
      var name := filename.value;
      var quoted := quote(name);
      if quoted == name then
        var d := kind + "; " + "filename=\"" + name + "\"";
        assert d == (kind + "; ") + ("filename=\"" + name + "\"");
        d
      else
        var d := kind + "; " + "filename*=utf-8''" + quoted;
        assert d == (kind + "; ") + ("filename*=utf-8''" + quoted);
        d
  }

  /** The result of the checks and header assignments of `FileResponse`:
      the headers dict and status handed to `Response`, and the media type. */
  datatype FileSetup = FileSetup(headers: Dict<string, string>, status: Option<int>, mediaType: Option<string>)

  /** The Content-Range value `bytes start-end/size`. */
  function RangeValue(start: int, end: int, size: nat): string {
    "bytes " + IntToString(start) + "-" + IntToString(end) + "/" + NatToString(size)
  }

  /** The body of `FileResponse.__init__` before the call to `Response`:
      the media type guessed (by `guess`) from the file name, else the path,
      when none is given; FileNotFoundError, TypeError for a path that is not
      a file; with a range, ValueError for a given status other than 206 and
      for a range without `end > start >= 0`; then the headers dict is
      assigned Content-Range and Content-Length (or the file size),
      Last-Modified and Content-Disposition. */
  function SetupFile(stat: FileStat, filepath: string, filename: Option<string>, asAttachment: bool,
                     mediaType: Option<string>, guess: string -> Option<string>, status: Option<int>,
                     headers: Dict<string, string>, contentRange: Option<(int, int)>,
                     quote: string -> string): (r: Result<FileSetup, FileError>)
    ensures r.Err? <==> !stat.found || !stat.isFile ||
                        (contentRange.Some? &&
                         ((status.Some? && status.value != 0 && status.value != 206) ||
                          !(contentRange.value.1 > contentRange.value.0 >= 0)))
    ensures !stat.found ==> r == Err(FileNotFound)
    ensures stat.found && !stat.isFile ==> r == Err(NotAFile)
  {
    var media := if mediaType.None? then guess(if filename.Some? && filename.value != "" then filename.value else filepath)
                 else mediaType;
    if !stat.found then Err(FileNotFound)
    else if !stat.isFile then Err(NotAFile)
    else if contentRange.Some? && status.Some? && status.value != 0 && status.value != 206 then Err(StatusNot206)
    else if contentRange.Some? && !(contentRange.value.1 > contentRange.value.0 >= 0) then Err(InvalidRange)
    else
      Ok(FileSetup(FileHeaders(headers, contentRange, stat.size, stat.lastModified, Disposition(filename, asAttachment, quote)),
                   if contentRange.Some? then Some(206) else status, media))
  }

  /** The header assignments of `FileResponse.__init__`, in their order. */
  function FileHeaders(headers: Dict<string, string>, contentRange: Option<(int, int)>, size: nat,
                       lastModified: string, disposition: string): Dict<string, string>
  {
    Set(Set(RangedHeaders(headers, contentRange, size), "Last-Modified", lastModified),
        "Content-Disposition", disposition)
  }

  /** The length headers: Content-Range and Content-Length for a range, the
      file size as Content-Length otherwise. */
  function RangedHeaders(headers: Dict<string, string>, contentRange: Option<(int, int)>, size: nat): Dict<string, string>
  {
    if contentRange.Some? then
      Set(Set(headers, "Content-Range", RangeValue(contentRange.value.0, contentRange.value.1, size)),
          "Content-Length", IntToString(contentRange.value.1 - contentRange.value.0 + 1))
    else Set(headers, "Content-Length", NatToString(size))
  }

  lemma RangedHeadersSpec(headers: Dict<string, string>, contentRange: Option<(int, int)>, size: nat)
    requires Wf(headers)
    ensures Wf(RangedHeaders(headers, contentRange, size))
    ensures contentRange.Some? ==>
              RangedHeaders(headers, contentRange, size).values ==
              headers.values["Content-Range" := RangeValue(contentRange.value.0, contentRange.value.1, size)]
                            ["Content-Length" := IntToString(contentRange.value.1 - contentRange.value.0 + 1)]
    ensures contentRange.None? ==>
              RangedHeaders(headers, contentRange, size).values == headers.values["Content-Length" := NatToString(size)]
  {
    if contentRange.Some? {
      var range := RangeValue(contentRange.value.0, contentRange.value.1, size);
      var length := IntToString(contentRange.value.1 - contentRange.value.0 + 1);
      assert RangedHeaders(headers, contentRange, size) == Set(Set(headers, "Content-Range", range), "Content-Length", length);
      SetTwice(headers, "Content-Range", range, "Content-Length", length);
    } else {
      assert RangedHeaders(headers, contentRange, size) == Set(headers, "Content-Length", NatToString(size));
      SetSpec(headers, "Content-Length", NatToString(size));
    }
  }

  /** The four assignments land, in this order, on the caller's headers,
      and nothing else changes. */
  lemma FileHeadersSpec(headers: Dict<string, string>, contentRange: Option<(int, int)>, size: nat,
                        lastModified: string, disposition: string)
    requires Wf(headers)
    ensures var d := FileHeaders(headers, contentRange, size, lastModified, disposition);
            Wf(d) &&
            (contentRange.Some? ==>
               d.values == headers.values["Content-Range" := RangeValue(contentRange.value.0, contentRange.value.1, size)]
                                         ["Content-Length" := IntToString(contentRange.value.1 - contentRange.value.0 + 1)]
                                         ["Last-Modified" := lastModified]["Content-Disposition" := disposition]) &&
            (contentRange.None? ==>
               d.values == headers.values["Content-Length" := NatToString(size)]
                                         ["Last-Modified" := lastModified]["Content-Disposition" := disposition])
  {
    RangedHeadersSpec(headers, contentRange, size);
    SetTwice(RangedHeaders(headers, contentRange, size), "Last-Modified", lastModified, "Content-Disposition", disposition);
  }

  /** A successful setup: a range sends status 206 with Content-Range and a
      Content-Length of `end - start + 1`; without one the Content-Length is
      the file size and the status is the given one; Last-Modified and
      Content-Disposition are always set, and the caller's other headers
      stay. */
  lemma SetupFileSpec(stat: FileStat, filepath: string, filename: Option<string>, asAttachment: bool,
                      mediaType: Option<string>, guess: string -> Option<string>, status: Option<int>,
                      headers: Dict<string, string>, contentRange: Option<(int, int)>, quote: string -> string)
    requires Wf(headers)
    ensures var r := SetupFile(stat, filepath, filename, asAttachment, mediaType, guess, status, headers, contentRange, quote);
            r.Ok? ==>
              Wf(r.value.headers) &&
              r.value.headers == FileHeaders(headers, contentRange, stat.size, stat.lastModified,
                                             Disposition(filename, asAttachment, quote)) &&
              r.value.status == (if contentRange.Some? then Some(206) else status) &&
              (contentRange.Some? ==> contentRange.value.1 > contentRange.value.0 >= 0)
  {
    FileHeadersSpec(headers, contentRange, stat.size, stat.lastModified, Disposition(filename, asAttachment, quote));
  }

  function Min(a: int, b: int): int {
    if a <= b then a else b
  }

  /** `f.read(n)` at offset `pos` of a file holding `data`: at most `n`
      bytes, fewer at the end of the file. */
  function Read(data: Bytes, pos: nat, n: nat): (piece: Bytes)
    requires pos <= |data|
    ensures |piece| == Min(n, |data| - pos)
    ensures piece == data[pos..pos + |piece|]
  {
    data[pos..pos + Min(n, |data| - pos)]
  }

  /** A file response: the response built with an empty body, the chunk
      size and the byte range. The file itself is read by `Iter`. */
  class FileResponse {
    const base: Response
    const chunkSize: nat
    const contentRange: Option<(int, int)>

    /** What `FileResponse(...)` establishes: a positive chunk size and, with
        a range, `end > start >= 0`. */
    predicate Valid() {
      chunkSize >= 1 && (contentRange.Some? ==> contentRange.value.1 > contentRange.value.0 >= 0)
    }

    constructor(base: Response, chunkSize: nat, contentRange: Option<(int, int)>)
      ensures this.base == base && this.chunkSize == chunkSize && this.contentRange == contentRange
    {
      this.base := base;
      this.chunkSize := chunkSize;
      this.contentRange := contentRange;
    }

    /** `__iter__` over a file holding `data`: the ranged loop with a range,
        the whole-file loop without one. */
    method Iter(data: Bytes) returns (chunks: seq<Bytes>)
      requires Valid()
      ensures forall k :: 0 <= k < |chunks| ==> |chunks[k]| <= chunkSize
      ensures contentRange.Some? ==>
                Concat(chunks) == data[Min(contentRange.value.0, |data|)..Min(contentRange.value.1 + 1, |data|)]
      ensures contentRange.Some? && contentRange.value.1 < |data| ==>
                (forall k :: 0 <= k < |chunks| ==> chunks[k] != []) &&
                |Concat(chunks)| == contentRange.value.1 - contentRange.value.0 + 1
      ensures contentRange.None? ==>
                Concat(chunks) == data && chunks != [] && chunks[|chunks| - 1] == [] &&
                forall k :: 0 <= k < |chunks| - 1 ==> chunks[k] != []
    {
      if contentRange.Some? {
        chunks := ReadRange(data, contentRange.value.0, contentRange.value.1, chunkSize);
      } else {
        chunks := ReadAll(data, chunkSize);
      }
    }
  }

  /** The ranged loop of `__iter__`: seek to `start`, then read chunks of at
      most `chunkSize` until `end - start + 1` bytes were requested, yielding
      `b""` and stopping at an early end of file. The chunks together are the
      bytes from start through end that the file has, and when the file
      reaches `end` none is empty. */
  method ReadRange(data: Bytes, start: nat, end: nat, chunkSize: nat) returns (chunks: seq<Bytes>)
    requires end > start && chunkSize >= 1
    ensures forall k :: 0 <= k < |chunks| ==> |chunks[k]| <= chunkSize
    ensures Concat(chunks) == data[Min(start, |data|)..Min(end + 1, |data|)]
    ensures end < |data| ==> (forall k :: 0 <= k < |chunks| ==> chunks[k] != []) &&
                             |Concat(chunks)| == end - start + 1
  {
    chunks := [];
    var lo := Min(start, |data|);
    var pos: nat := lo;
    var total: int := end - start + 1;
    while total > 0
      invariant lo <= pos <= |data| && pos <= end + 1
      invariant pos + total == end + 1 || pos == |data|
      invariant end < |data| ==> pos + total == end + 1
      invariant Concat(chunks) == data[lo..pos]
      invariant forall k :: 0 <= k < |chunks| ==> |chunks[k]| <= chunkSize
      invariant end < |data| ==> forall k :: 0 <= k < |chunks| ==> chunks[k] != []
      decreases |data| - pos
    {
      var size := Min(chunkSize, total);
      var piece := Read(data, pos, size);
      ConcatSnoc(chunks, piece);
      chunks := chunks + [piece];
      if piece == [] {
        break;
      }
      total := total - size;
      assert data[lo..pos] + piece == data[lo..pos + |piece|];
      pos := pos + |piece|;
    }
  }

  /** The whole-file loop of `__iter__`: chunks of at most `chunkSize`, all
      non-empty, that together are the file, then `b""`. */
  method ReadAll(data: Bytes, chunkSize: nat) returns (chunks: seq<Bytes>)
    requires chunkSize >= 1
    ensures forall k :: 0 <= k < |chunks| ==> |chunks[k]| <= chunkSize
    ensures Concat(chunks) == data && chunks != [] && chunks[|chunks| - 1] == []
    ensures forall k :: 0 <= k < |chunks| - 1 ==> chunks[k] != []
  {
    chunks := [];
    var pos: nat := 0;
    while true
      invariant pos <= |data|
      invariant Concat(chunks) == data[..pos]
      invariant forall k :: 0 <= k < |chunks| ==> chunks[k] != [] && |chunks[k]| <= chunkSize
      decreases |data| - pos
    {
      var piece := Read(data, pos, chunkSize);
      ConcatSnoc(chunks, piece);
      chunks := chunks + [piece];
      if piece == [] {
        break;
      }
      assert data[..pos] + piece == data[..pos + |piece|];
      pos := pos + |piece|;
    }
    assert data[..|data|] == data;
  }

  /** `chunk_size or 128 KiB`. */
  function ChunkSizeOr(chunkSize: Option<nat>): (n: nat)
    ensures n >= 1
    ensures chunkSize.Some? && chunkSize.value != 0 ==> n == chunkSize.value
  {
    if chunkSize.Some? && chunkSize.value != 0 then chunkSize.value else 1024 * 128
  }

  /** `FileResponse(filepath, filename, as_attachment, media_type, status,
      headers, chunk_size, content_range)`: the checks of `SetupFile`, then a
      response with an empty body and the prepared headers. */
  method NewFileResponse(stat: FileStat, filepath: string, filename: Option<string>, asAttachment: bool,
                         mediaType: Option<string>, guess: string -> Option<string>, status: Option<int>,
                         headers: Dict<string, string>, chunkSize: Option<nat>, contentRange: Option<(int, int)>,
                         quote: string -> string, charset: string, encode: string -> Bytes)
    returns (r: Result<FileResponse, FileError>)
    requires Wf(headers)
    ensures var s := SetupFile(stat, filepath, filename, asAttachment, mediaType, guess, status, headers, contentRange, quote);
            (s.Err? ==> r == Err(s.error)) &&
            (s.Ok? ==> r.Ok? && fresh(r.value) && fresh(r.value.base) && r.value.Valid() &&
                       r.value.contentRange == contentRange && Wf(s.value.headers) &&
                       r.value.base.rawHeaders == Items(s.value.headers) &&
                       r.value.base.status == StatusOr(s.value.status, 200) &&
                       r.value.base.content == [])
  {
    var s := SetupFile(stat, filepath, filename, asAttachment, mediaType, guess, status, headers, contentRange, quote);
    if s.Err? {
      return Err(s.error);
    }
    SetupFileSpec(stat, filepath, filename, asAttachment, mediaType, guess, status, headers, contentRange, quote);
    var base := new Response(File, charset, encode, ByteContent([]), s.value.mediaType, s.value.status, Items(s.value.headers));
    var f := new FileResponse(base, ChunkSizeOr(chunkSize), contentRange);
    return Ok(f);
  }
}
