/** The request object of the middle generation: a WSGI environ and the
    body its `wsgi.input` delivers, with properties computed on first use and
    kept (the headers object, the method, the content length and the form),
    the header extraction of `parse_headers`, and the client address taken
    from X-Forwarded-For. The environ is given as its string entries in
    order; `cgi.parse_header` is the one of `LegacyRequest`. */
module VankRequest {
  import opened Wrappers
  import opened Text
  import opened Bytes
  import opened VankDatastructures
  import opened VankParsers
  import LegacyRequest

  // ---- parse_headers -------------------------------------------------------

  /** The header one environ entry gives: an `HTTP_` name without its
      prefix, CONTENT_TYPE and CONTENT_LENGTH as they are, and nothing for
      any other entry. */
  function HeaderOf(entry: (string, string)): (h: Option<(string, string)>)
    ensures h.Some? ==> h.value.1 == entry.1
    ensures h.Some? <==> StartsWith(entry.0, "HTTP_") || entry.0 == "CONTENT_TYPE" || entry.0 == "CONTENT_LENGTH"
  {
    if StartsWith(entry.0, "HTTP_") then Some((entry.0[5..], entry.1))
    else if entry.0 == "CONTENT_TYPE" || entry.0 == "CONTENT_LENGTH" then Some(entry)
    else None
  }

  /** `parse_headers(environ)`: what the generator yields, in environ
      order. */
  function ParseHeaders(environ: seq<(string, string)>): (r: seq<(string, string)>)
    ensures |r| <= |environ|
    decreases |environ|
  {
    if environ == [] then []
    else
      ParseHeaders(environ[..|environ| - 1]) +
      match HeaderOf(environ[|environ| - 1]) case None => [] case Some(h) => [h]
  }

  /** A prefixed name loses exactly its prefix. */
  lemma HttpPrefixRemoved(name: string, value: string)
    ensures HeaderOf(("HTTP_" + name, value)) == Some((name, value))
  {
    assert ("HTTP_" + name)[..5] == "HTTP_";
    assert ("HTTP_" + name)[5..] == name;
  }

  /** The headers of two stretches of environ are those of the first, then
      those of the second: one header per qualifying entry, in order. */
  lemma {:induction false} ParseHeadersAppend(e1: seq<(string, string)>, e2: seq<(string, string)>)
    ensures ParseHeaders(e1 + e2) == ParseHeaders(e1) + ParseHeaders(e2)
    decreases |e2|
  {
    if e2 != [] {
      var front := e2[..|e2| - 1];
      assert (e1 + e2)[..|e1 + e2| - 1] == e1 + front;
      assert (e1 + e2)[|e1 + e2| - 1] == e2[|e2| - 1];
      ParseHeadersAppend(e1, front);
    } else {
      assert e1 + e2 == e1;
    }
  }

  /** One entry gives its header or nothing. */
  lemma ParseHeadersOne(entry: (string, string))
    ensures ParseHeaders([entry]) == match HeaderOf(entry) case None => [] case Some(h) => [h]
  {
    var e := [entry];
    assert e[..0] == [];
  }

  // ---- content length ------------------------------------------------------

  /** `content_length` over a header list: `int()` of the first
      CONTENT_LENGTH header, and 0 when there is none or `int()` refuses
      it. */
  function ContentLengthOf(headers: seq<(string, string)>): (n: int)
    ensures FirstMatch(headers, "CONTENT_LENGTH").None? ==> n == 0
    ensures FirstMatch(headers, "CONTENT_LENGTH").Some? ==>
              n == (match ParseInt(FirstMatch(headers, "CONTENT_LENGTH").value) case Some(v) => v case None => 0)
  {
    match FirstMatch(headers, "CONTENT_LENGTH")
    case None => 0
    case Some(s) =>
      match ParseInt(s)
      case Some(v) => v
      case None => 0
  }

  /** The header list of an environ holding one CONTENT_LENGTH entry. */
  lemma ParseHeadersAround(before: seq<(string, string)>, entry: (string, string), after: seq<(string, string)>)
    requires entry.0 == "CONTENT_LENGTH"
    ensures ParseHeaders(before + [entry] + after) == ParseHeaders(before) + [entry] + ParseHeaders(after)
  {
    assert HeaderOf(entry) == Some(entry) by {
      assert entry.0[..5][0] == 'C';
    }
    ParseHeadersAppend(before + [entry], after);
    ParseHeadersAppend(before, [entry]);
    ParseHeadersOne(entry);
  }

  /** The first header of a name is the one after a stretch without it. */
  lemma FirstMatchAfter(front: seq<(string, string)>, entry: (string, string), rest: seq<(string, string)>)
    requires FirstMatch(front, entry.0).None?
    ensures FirstMatch(front + [entry] + rest, entry.0) == Some(entry.1)
  {
    var list := front + [entry] + rest;
    var i := |front|;
    assert list[i] == entry;
    assert forall k :: 0 <= k < i ==> list[k] == front[k];
    FirstIsFirst(list, entry.0, i);
  }

  /** A length written into the environ as `str(n)` is read back as `n`,
      provided no earlier entry (such as an `HTTP_CONTENT_LENGTH`) gives a
      header of that name. */
  lemma ContentLengthRoundTrip(before: seq<(string, string)>, after: seq<(string, string)>, n: int)
    requires FirstMatch(ParseHeaders(before), "CONTENT_LENGTH").None?
    ensures ContentLengthOf(ParseHeaders(before + [("CONTENT_LENGTH", IntToString(n))] + after)) == n
  {
    var entry := ("CONTENT_LENGTH", IntToString(n));
    ParseHeadersAround(before, entry, after);
    FirstMatchAfter(ParseHeaders(before), entry, ParseHeaders(after));
    ParseIntToString(n);
  }

  /** What `read(n)` on `wsgi.input` returns: at most `n` octets, and all
      of them for a negative `n`. */
  function Read(input: Bytes, n: int): (r: Bytes)
    ensures n < 0 ==> r == input
    ensures 0 <= n ==> |r| == (if n < |input| then n else |input|) && r == input[..|r|]
  {
    if n < 0 then input else if n < |input| then input[..n] else input
  }

  // ---- method --------------------------------------------------------------

  /** What the properties raise: the AttributeError of `None.upper()` for
      a missing REQUEST_METHOD, and the parser's errors. */
  datatype RequestError = MethodMissing | FormError(error: ParseError)

  /** `environ.get(key)`: the entry of that key. */
  function EnvGet(environ: seq<(string, string)>, key: string): (r: Option<string>)
    ensures r.None? <==> forall j :: 0 <= j < |environ| ==> environ[j].0 != key
    ensures r.Some? ==> exists j :: 0 <= j < |environ| && environ[j] == (key, r.value)
    decreases |environ|
  {
    if environ == [] then None
    else if environ[0].0 == key then Some(environ[0].1)
    else
      var r := EnvGet(environ[1..], key);
      assert forall j :: 1 <= j < |environ| ==> environ[j] == environ[1..][j - 1];
      if r.Some? then
        var j :| 0 <= j < |environ[1..]| && environ[1..][j] == (key, r.value);
        assert environ[j + 1] == (key, r.value);
        r
      else r
  }

  /** `method`: REQUEST_METHOD upper-cased, or AttributeError without it. */
  function MethodOf(environ: seq<(string, string)>): (r: Result<string, RequestError>)
    ensures r.Ok? <==> EnvGet(environ, "REQUEST_METHOD").Some?
    ensures r.Ok? ==> r.value == Upper(EnvGet(environ, "REQUEST_METHOD").value) && IsUpper(r.value)
    ensures r.Err? ==> r.error == MethodMissing
  {
    match EnvGet(environ, "REQUEST_METHOD")
    case None => Err(MethodMissing)
    case Some(m) =>
      UpperIsUpper(m);
      Ok(Upper(m))
  }

  // ---- remote_address -------------------------------------------------------

  /** The stripped, non-empty pieces of X-Forwarded-For split on `,`. */
  function Forwarded(pieces: seq<string>): (r: seq<string>)
    ensures |r| <= |pieces|
    ensures forall k :: 0 <= k < |r| ==> r[k] != "" && Strip(r[k]) == r[k]
    decreases |pieces|
  {
    if pieces == [] then []
    else
      var s := Strip(pieces[|pieces| - 1]);
      Forwarded(pieces[..|pieces| - 1]) + (if s != "" then [s] else [])
  }

  /** The address list of an X-Forwarded-For value. */
  function ForwardedList(value: string): seq<string> {
    Forwarded(Split(value, ","))
  }

  /** The fallback: a non-empty X_REMOTE_ADDR header, else the environ's
      REMOTE_ADDR, else None. */
  function Fallback(headers: seq<(string, string)>, environ: seq<(string, string)>): Option<string> {
    var x := FirstMatch(headers, "X_REMOTE_ADDR");
    if x.Some? && x.value != "" then x else EnvGet(environ, "REMOTE_ADDR")
  }

  /** The address list of the X-Forwarded-For header, empty without one. */
  function ForwardedFor(headers: seq<(string, string)>): seq<string> {
    ForwardedList(match FirstMatch(headers, "X_FORWARDED_FOR") case Some(v) => v case None => "")
  }

  /** `remote_address(pre_proxy_number)`: with n = 0 the last forwarded
      address; otherwise, with i = length - n, the fallback when i < 1 and
      else entry i - 1; an index past the end (a negative n) or an empty list
      for n = 0 raises IndexError, which also falls back. */
  function RemoteAddress(headers: seq<(string, string)>, environ: seq<(string, string)>, n: int): Option<string> {
    ClientAt(ForwardedFor(headers), n, Fallback(headers, environ))
  }

  /** The entry of `list` that `remote_address` picks, else `fallback`. */
  function ClientAt(list: seq<string>, n: int, fallback: Option<string>): Option<string> {
    if n == 0 then
      if list != [] then Some(list[|list| - 1]) else fallback
    else
      var i := |list| - n;
      if i < 1 then fallback
      else if i - 1 < |list| then Some(list[i - 1])
      else fallback
  }

  /** The pick behind n proxies: with none the last entry, otherwise the
      entry n places before the last; every other case is the fallback. */
  lemma ClientAtSpec(list: seq<string>, n: int, fallback: Option<string>)
    ensures n == 0 && list != [] ==> ClientAt(list, n, fallback) == Some(list[|list| - 1])
    ensures n > 0 && n < |list| ==> ClientAt(list, n, fallback) == Some(list[|list| - n - 1])
    ensures (n == 0 && list == []) || n < 0 || (n > 0 && n >= |list|) ==> ClientAt(list, n, fallback) == fallback
  {
  }

  /** Behind n proxies the client is the (n+1)-th address from the end;
      with no proxies it is the last one; every other case falls back. */
  lemma RemoteAddressSpec(headers: seq<(string, string)>, environ: seq<(string, string)>, n: int)
    ensures var list := ForwardedFor(headers);
            (n == 0 && list != [] ==> RemoteAddress(headers, environ, n) == Some(list[|list| - 1])) &&
            (n > 0 && n < |list| ==> RemoteAddress(headers, environ, n) == Some(list[|list| - n - 1])) &&
            ((n == 0 && list == []) || n < 0 || (n > 0 && n >= |list|) ==>
               RemoteAddress(headers, environ, n) == Fallback(headers, environ))
  {
    ClientAtSpec(ForwardedFor(headers), n, Fallback(headers, environ));
  }

  /** Non-empty, stripped addresses without `,` are kept as they are. */
  lemma {:induction false} ForwardedKeeps(addresses: seq<string>)
    requires forall k :: 0 <= k < |addresses| ==> addresses[k] != "" && Strip(addresses[k]) == addresses[k]
    ensures Forwarded(addresses) == addresses
    decreases |addresses|
  {
    if addresses != [] {
      var init, last := addresses[..|addresses| - 1], addresses[|addresses| - 1];
      ForwardedKeeps(init);
      assert Strip(last) == last && last != "";
      assert Forwarded(addresses) == Forwarded(init) + [last];
      assert init + [last] == addresses;
    }
  }

  /** The address list is read back from an X-Forwarded-For header written
      as the addresses joined with `,`. */
  lemma ForwardedRoundTrip(addresses: seq<string>)
    requires |addresses| >= 1
    requires forall k :: 0 <= k < |addresses| ==>
               addresses[k] != "" && Strip(addresses[k]) == addresses[k] && ',' !in addresses[k]
    ensures ForwardedList(Join(addresses, ",")) == addresses
  {
    SplitJoin(addresses, ',');
    ForwardedKeeps(addresses);
  }

  /** Pieces made only of whitespace (as `str.isspace` has it, so
      U+001C or U+00A0 as well as the space) are dropped. */
  lemma {:induction false} ForwardedDropsBlank(pieces: seq<string>)
    requires forall k :: 0 <= k < |pieces| ==> forall j :: 0 <= j < |pieces[k]| ==> IsSpace(pieces[k][j])
    ensures Forwarded(pieces) == []
    decreases |pieces|
  {
    if pieces != [] {
      StripEmpty(pieces[|pieces| - 1]);
      ForwardedDropsBlank(pieces[..|pieces| - 1]);
    }
  }

  /** An X-Forwarded-For value that is one information separator gives no
      address. */
  lemma ForwardedSeparatorDropped()
    ensures ForwardedList("\U{001c}") == []
  {
    SplitJoin(["\U{001c}"], ',');
    assert Join(["\U{001c}"], ",") == "\U{001c}";
    ForwardedDropsBlank(["\U{001c}"]);
  }

  // ---- the form ---------------------------------------------------------

  /** The `charset` content-type parameter, utf-8 by default. */
  function Charset(params: map<string, string>): string {
    if "charset" in params then params["charset"] else "utf-8"
  }

  /** The codec of one charset, as the parsers take it. */
  function EncoderFor(encodeWith: (string, string) -> Bytes, charset: string): string -> Bytes {
    s => encodeWith(charset, s)
  }

  function DecoderFor(decodeWith: (string, Bytes) -> string, charset: string): Bytes -> string {
    b => decodeWith(charset, b)
  }

  /** What the form holds for a content type: a multipart body's fields
      (a missing boundary, or the first failing part, is the error), a
      url-encoded body's pairs, and nothing for any other type. */
  function FormContents(contentType: string, params: map<string, string>, stream: Bytes,
                    parseQsl: string -> seq<(string, string)>, encodeWith: (string, string) -> Bytes,
                    decodeWith: (string, Bytes) -> string): (r: Result<map<string, seq<FormValue>>, ParseError>)
    ensures contentType == "multipart/form-data" ==>
              var boundary := Boundary(params, EncoderFor(encodeWith, Charset(params)));
              (boundary.Err? ==> r == Err(BoundaryMissing)) &&
              (boundary.Ok? ==>
                 var fields := Fields(Parts(stream, boundary.value), DecoderFor(decodeWith, Charset(params)));
                 (r.Ok? <==> fields.Ok?) &&
                 (fields.Ok? ==> r.value == AppendAll(map[], fields.value)) &&
                 (fields.Err? ==> r.error == fields.error))
    ensures contentType != "multipart/form-data" ==> r.Ok?
    ensures contentType == "application/x-www-form-urlencoded" ==>
              r.value == AppendAll(map[], TextPairs(parseQsl(Latin1Decode(stream))))
    ensures contentType != "multipart/form-data" && contentType != "application/x-www-form-urlencoded" ==>
              r.value == map[]
  {
    if contentType == "multipart/form-data" then
      var charset := Charset(params);
      var boundary := Boundary(params, EncoderFor(encodeWith, charset));
      if boundary.Err? then Err(BoundaryMissing)
      else
        var fields := Fields(Parts(stream, boundary.value), DecoderFor(decodeWith, charset));
        if fields.Err? then Err(fields.error) else Ok(AppendAll(map[], fields.value))
    else if contentType == "application/x-www-form-urlencoded" then
      Ok(AppendAll(map[], TextPairs(parseQsl(Latin1Decode(stream)))))
    else
      Ok(map[])
  }

  /** A url-encoded body gives each name the values `parse_qsl` found for
      it, in order, as text fields. */
  lemma UrlencodedValues(stream: Bytes, parseQsl: string -> seq<(string, string)>, encodeWith: (string, string) -> Bytes,
                         decodeWith: (string, Bytes) -> string, params: map<string, string>, name: string)
    ensures var data := FormContents("application/x-www-form-urlencoded", params, stream, parseQsl, encodeWith, decodeWith).value;
            var pairs := TextPairs(parseQsl(Latin1Decode(stream)));
            (name in data <==> ValuesOf(pairs, name) != []) &&
            (name in data ==> data[name] == ValuesOf(pairs, name))
  {
    AppendAllSpec(map[], TextPairs(parseQsl(Latin1Decode(stream))), name);
  }

  /** The content type and its parameters, by `cgi.parse_header` of the
      CONTENT_TYPE header ('' when there is none). */
  function ContentType(headers: seq<(string, string)>): (string, map<string, string>) {
    LegacyRequest.ParseHeader(match FirstMatch(headers, "CONTENT_TYPE") case Some(v) => v case None => "")
  }

  /** `_load_form_data`: picks the parser by content type. */
  method ParseForm(contentType: string, params: map<string, string>, stream: Bytes,
                   parseQsl: string -> seq<(string, string)>, encodeWith: (string, string) -> Bytes,
                   decodeWith: (string, Bytes) -> string)
    returns (r: Result<MultiValueDict<string, FormValue>, ParseError>)
    ensures r.Ok? <==> FormContents(contentType, params, stream, parseQsl, encodeWith, decodeWith).Ok?
    ensures r.Ok? ==> fresh(r.value) && r.value.data == FormContents(contentType, params, stream, parseQsl, encodeWith, decodeWith).value
    ensures r.Err? ==> r.error == FormContents(contentType, params, stream, parseQsl, encodeWith, decodeWith).error
  {
    var charset := Charset(params);
    if contentType == "multipart/form-data" {
      var parser := NewMultiPartFormParser(params, stream, EncoderFor(encodeWith, charset), DecoderFor(decodeWith, charset));
      if parser.Err? {
        return Err(parser.error);
      }
      r := parser.value.Run();
    } else if contentType == "application/x-www-form-urlencoded" {
      var p := new FormParser(stream);
      var f := p.Run(parseQsl);
      r := Ok(f);
    } else {
      var f := new MultiValueDict<string, FormValue>();
      r := Ok(f);
    }
  }

  // ---- the request ---------------------------------------------------------

  /** `BaseRequest(environ)`, with the octets `wsgi.input` delivers. */
  class Request {
    const environ: seq<(string, string)>
    const input: Bytes
    var headers: Headers?
    var methodCache: Option<string>
    var contentLength: Option<int>
    var form: MultiValueDict?<string, FormValue>
    /** The upload files `close` has closed. */
    var closed: set<nat>

    constructor(environ: seq<(string, string)>, input: Bytes)
      ensures this.environ == environ && this.input == input
      ensures headers == null && methodCache.None? && contentLength.None? && form == null && closed == {}
    {
      this.environ := environ;
      this.input := input;
      headers := null;
      methodCache := None;
      contentLength := None;
      form := null;
      closed := {};
    }

    /** The `headers` property: built from `parse_headers` once, then the
        same object. */
    method Headers() returns (h: Headers)
      modifies this
      ensures headers == h
      ensures old(headers) != null ==> h == old(headers)
      ensures old(headers) == null ==> fresh(h) && h.list == ParseHeaders(environ)
      ensures methodCache == old(methodCache) && contentLength == old(contentLength) && form == old(form) && closed == old(closed)
    {
      if headers == null {
        headers := new Headers(ParseHeaders(environ));
      }
      h := headers;
    }

    /** The `method` property: kept once read; AttributeError without
        REQUEST_METHOD. */
    method Method() returns (r: Result<string, RequestError>)
      modifies this
      ensures old(methodCache).Some? ==> r == Ok(old(methodCache).value) && methodCache == old(methodCache)
      ensures old(methodCache).None? ==> r == MethodOf(environ) && methodCache == (if r.Ok? then Some(r.value) else None)
      ensures headers == old(headers) && contentLength == old(contentLength) && form == old(form) && closed == old(closed)
    {
      if methodCache.Some? {
        return Ok(methodCache.value);
      }
      r := MethodOf(environ);
      if r.Ok? {
        methodCache := Some(r.value);
      }
    }

    /** The `content_length` property: kept once read; 0 for a missing or
        unparseable CONTENT_LENGTH header. */
    method ContentLength() returns (n: int)
      modifies this
      ensures headers != null && (old(headers) != null ==> headers == old(headers))
      ensures old(headers) == null ==> fresh(headers) && headers.list == ParseHeaders(environ)
      ensures old(contentLength).Some? ==> n == old(contentLength).value
      ensures old(contentLength).None? ==> n == ContentLengthOf(headers.list)
      ensures contentLength == Some(n)
      ensures methodCache == old(methodCache) && form == old(form) && closed == old(closed)
    {
      var h := Headers();
      if contentLength.Some? {
        return contentLength.value;
      }
      var v := h.Get("CONTENT_LENGTH");
      n := match v case None => 0 case Some(s) => (match ParseInt(s) case Some(x) => x case None => 0);
      contentLength := Some(n);
    }

    /** The `form` property: parsed once from the body `content_length`
        octets long, and kept when the parse succeeds. */
    method Form(parseQsl: string -> seq<(string, string)>, encodeWith: (string, string) -> Bytes,
                decodeWith: (string, Bytes) -> string)
      returns (r: Result<MultiValueDict<string, FormValue>, ParseError>)
      modifies this
      ensures old(form) != null ==> r == Ok(old(form)) && form == old(form) && headers == old(headers) && contentLength == old(contentLength)
      ensures old(form) == null ==> headers != null && contentLength.Some? && (old(headers) != null ==> headers == old(headers))
      ensures old(form) == null ==>
                var data := FormContents(ContentType(headers.list).0, ContentType(headers.list).1, Read(input, contentLength.value),
                                         parseQsl, encodeWith, decodeWith);
                (r.Ok? <==> data.Ok?) && (r.Err? ==> r.error == data.error && form == null) &&
                (r.Ok? ==> fresh(r.value) && form == r.value && r.value.data == data.value)
      ensures methodCache == old(methodCache) && closed == old(closed)
    {
      if form != null {
        return Ok(form);
      }
      var length := ContentLength();
      var header := ContentType(headers.list);
      r := LoadForm(header.0, header.1, Read(input, length), parseQsl, encodeWith, decodeWith);
    }

    /** `_load_form_data`: the form parsed from the stream is kept when the
        parse succeeds. */
    method LoadForm(contentType: string, params: map<string, string>, stream: Bytes,
                    parseQsl: string -> seq<(string, string)>, encodeWith: (string, string) -> Bytes,
                    decodeWith: (string, Bytes) -> string)
      returns (r: Result<MultiValueDict<string, FormValue>, ParseError>)
      modifies this
      ensures var data := FormContents(contentType, params, stream, parseQsl, encodeWith, decodeWith);
              (r.Ok? <==> data.Ok?) && (r.Err? ==> r.error == data.error) &&
              (r.Ok? ==> fresh(r.value) && r.value.data == data.value)
      ensures form == (if r.Ok? then r.value else old(form))
      ensures headers == old(headers) && contentLength == old(contentLength)
      ensures methodCache == old(methodCache) && closed == old(closed)
    {
      r := ParseForm(contentType, params, stream, parseQsl, encodeWith, decodeWith);
      if r.Ok? {
        form := r.value;
      }
    }

    /** `close()`: closes the form's upload files, and only when the form
        was parsed. */
    method Close()
      modifies this
      ensures form == null ==> closed == old(closed)
      ensures form != null ==> closed == old(closed) + ClosedByClose(form.data)
      ensures headers == old(headers) && methodCache == old(methodCache) && contentLength == old(contentLength) && form == old(form)
    {
      if form != null {
        closed := closed + ClosedByClose(form.data);
      }
    }

    /** `remote_address(pre_proxy_number)` over the current headers. */
    method RemoteAddr(n: int) returns (r: Option<string>)
      modifies this
      ensures headers != null && (old(headers) != null ==> headers == old(headers))
      ensures r == RemoteAddress(headers.list, environ, n)
      ensures methodCache == old(methodCache) && contentLength == old(contentLength) && form == old(form) && closed == old(closed)
    {
      var h := Headers();
      r := RemoteAddress(h.list, environ, n);
    }
  }
}
