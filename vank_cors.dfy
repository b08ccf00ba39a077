/** The CORS middleware of the middle generation: the response headers it
    fixes from its configuration, the decision which requests it answers
    itself, and the answer to a CORS-preflight request (section 3.2 of the
    WHATWG Fetch Standard). The request's method and header list are
    parameters; the configured values are those of `conf`. */
module VankCors {
  import opened Wrappers
  import opened Text
  import opened OrderedDicts
  import opened VankDatastructures

  const AllowOrigin := "Access-Control-Allow-Origin"
  const AllowMethods := "Access-Control-Allow-Methods"
  const AllowHeaders := "Access-Control-Allow-Headers"
  const AllowCredentials := "Access-Control-Allow-Credentials"
  const MaxAge := "Access-Control-Max-Age"

  /** What a `*` among the configured methods stands for. */
  const StandardMethods := ["DELETE", "GET", "HEAD", "OPTIONS", "PATCH", "POST", "PUT"]

  /** The configuration values: CORS_MAX_AGE, WITH_CREDENTIALS and the
      three lists, None when unset. */
  datatype CorsConfig = CorsConfig(
    maxAge: int, withCredentials: bool,
    origins: Option<seq<string>>, methods: Option<seq<string>>, headers: Option<seq<string>>)

  /** `x or ['*']`: an unset or empty list means everything. */
  function OrStar(xs: Option<seq<string>>): (r: seq<string>)
    ensures xs.None? || xs.value == [] ==> r == ["*"]
    ensures xs.Some? && xs.value != [] ==> r == xs.value
  {
    if xs.None? || xs.value == [] then ["*"] else xs.value
  }

  /** What the constructor leaves on the instance. */
  datatype Settings = Settings(
    allowAllOrigins: bool, allowedOrigins: seq<string>, allowedMethods: seq<string>,
    allowAllHeaders: bool, allowedHeaders: seq<string>, responseHeaders: Dict<string, string>)

  /** The methods after the constructor: a `*` expands to the standard
      seven. */
  function Methods(c: CorsConfig): (r: seq<string>)
    ensures "*" in OrStar(c.methods) ==> r == StandardMethods
    ensures "*" !in OrStar(c.methods) ==> r == c.methods.value
  {
    var m := OrStar(c.methods);
    if "*" in m then StandardMethods else m
  }

  /** The headers the constructor fixes, in insertion order: Allow-Origin
      `*` when all origins are allowed, Allow-Methods, Allow-Headers when the
      headers are restricted, Allow-Credentials when credentials are allowed,
      and Max-Age. */
  function FixedHeaders(allOrigins: bool, methods: string, restricted: Option<string>, credentials: bool,
                        maxAge: string): Dict<string, string> {
    var d0: Dict<string, string> := if allOrigins then Set(Empty(), AllowOrigin, "*") else Empty();
    var d1 := Set(d0, AllowMethods, methods);
    var d2 := if restricted.Some? then Set(d1, AllowHeaders, restricted.value) else d1;
    var d3 := if credentials then Set(d2, AllowCredentials, "true") else d2;
    Set(d3, MaxAge, maxAge)
  }

  function BaseHeaders(c: CorsConfig): Dict<string, string> {
    FixedHeaders("*" in OrStar(c.origins), Join(Methods(c), ", "),
                 if "*" !in OrStar(c.headers) then Some(Join(OrStar(c.headers), ", ")) else None,
                 c.withCredentials, IntToString(c.maxAge))
  }

  /** The constructor's settings. */
  function Configure(c: CorsConfig): (s: Settings)
    ensures s.allowAllOrigins <==> "*" in OrStar(c.origins)
    ensures s.allowAllHeaders <==> "*" in OrStar(c.headers)
  {
    Settings("*" in OrStar(c.origins), OrStar(c.origins), Methods(c),
             "*" in OrStar(c.headers), OrStar(c.headers), BaseHeaders(c))
  }

  /** `m` with `k` mapped to `v` when `put` holds. */
  function PutIf(m: map<string, string>, put: bool, k: string, v: string): map<string, string> {
    if put then m[k := v] else m
  }

  /** The fixed headers hold exactly the entries named above, with those
      values. */
  lemma {:induction false} FixedHeadersSpec(allOrigins: bool, methods: string, restricted: Option<string>, credentials: bool,
                                            maxAge: string)
    ensures var h := FixedHeaders(allOrigins, methods, restricted, credentials, maxAge);
            Wf(h) &&
            h.values == PutIf(PutIf(PutIf(map[], allOrigins, AllowOrigin, "*")[AllowMethods := methods],
                                    restricted.Some?, AllowHeaders, if restricted.Some? then restricted.value else ""),
                              credentials, AllowCredentials, "true")[MaxAge := maxAge]
  {
    var e: Dict<string, string> := Empty();
    var d0 := if allOrigins then Set(e, AllowOrigin, "*") else e;
    SetSpec(e, AllowOrigin, "*");
    assert Wf(d0) && d0.values == PutIf(map[], allOrigins, AllowOrigin, "*");
    var d1 := Set(d0, AllowMethods, methods);
    SetSpec(d0, AllowMethods, methods);
    var d2 := if restricted.Some? then Set(d1, AllowHeaders, restricted.value) else d1;
    if restricted.Some? {
      SetSpec(d1, AllowHeaders, restricted.value);
    }
    assert Wf(d2) && d2.values == PutIf(d1.values, restricted.Some?, AllowHeaders, if restricted.Some? then restricted.value else "");
    var d3 := if credentials then Set(d2, AllowCredentials, "true") else d2;
    SetSpec(d2, AllowCredentials, "true");
    assert Wf(d3) && d3.values == PutIf(d2.values, credentials, AllowCredentials, "true");
    SetSpec(d3, MaxAge, maxAge);
    assert FixedHeaders(allOrigins, methods, restricted, credentials, maxAge) == Set(d3, MaxAge, maxAge);
  }

  /** The five header names are different. */
  lemma NamesDistinct()
    ensures AllowOrigin != AllowMethods && AllowOrigin != AllowHeaders && AllowOrigin != AllowCredentials && AllowOrigin != MaxAge
    ensures AllowMethods != AllowHeaders && AllowMethods != AllowCredentials && AllowMethods != MaxAge
    ensures AllowHeaders != AllowCredentials && AllowHeaders != MaxAge && AllowCredentials != MaxAge
  {
    assert |AllowOrigin| == 27 && |AllowMethods| == 28 && |AllowHeaders| == 28 && |AllowCredentials| == 32 && |MaxAge| == 22;
    assert AllowMethods[21] == 'M' && AllowHeaders[21] == 'H';
  }

  /** Each fixed header is present exactly when its condition holds, with
      its value. */
  lemma FixedHeadersLookup(allOrigins: bool, methods: string, restricted: Option<string>, credentials: bool, maxAge: string)
    ensures var h := FixedHeaders(allOrigins, methods, restricted, credentials, maxAge);
            Wf(h) &&
            (AllowOrigin in h.values <==> allOrigins) && (allOrigins ==> h.values[AllowOrigin] == "*") &&
            AllowMethods in h.values && h.values[AllowMethods] == methods &&
            (AllowHeaders in h.values <==> restricted.Some?) && (restricted.Some? ==> h.values[AllowHeaders] == restricted.value) &&
            (AllowCredentials in h.values <==> credentials) && (credentials ==> h.values[AllowCredentials] == "true") &&
            MaxAge in h.values && h.values[MaxAge] == maxAge
  {
    NamesDistinct();
    FixedHeadersSpec(allOrigins, methods, restricted, credentials, maxAge);
  }

  /** The configured headers: Allow-Origin `*` exactly when all origins are
      allowed, Allow-Methods always, Allow-Headers exactly when the headers
      are restricted, Allow-Credentials exactly with credentials, Max-Age
      always. */
  lemma BaseHeadersSpec(c: CorsConfig)
    ensures var h := BaseHeaders(c);
            Wf(h) &&
            (AllowOrigin in h.values <==> "*" in OrStar(c.origins)) &&
            (AllowOrigin in h.values ==> h.values[AllowOrigin] == "*") &&
            AllowMethods in h.values && h.values[AllowMethods] == Join(Methods(c), ", ") &&
            (AllowHeaders in h.values <==> "*" !in OrStar(c.headers)) &&
            (AllowHeaders in h.values ==> h.values[AllowHeaders] == Join(OrStar(c.headers), ", ")) &&
            (AllowCredentials in h.values <==> c.withCredentials) &&
            (AllowCredentials in h.values ==> h.values[AllowCredentials] == "true") &&
            MaxAge in h.values && h.values[MaxAge] == IntToString(c.maxAge)
  {
    FixedHeadersLookup("*" in OrStar(c.origins), Join(Methods(c), ", "),
                     if "*" !in OrStar(c.headers) then Some(Join(OrStar(c.headers), ", ")) else None,
                     c.withCredentials, IntToString(c.maxAge));
  }

  // ---- preflight -----------------------------------------------------------

  /** The middleware's own answer: Response400 with an empty body, or
      ResponsePlain('OK'), with its headers. */
  datatype Answer = Answer(status: int, body: string, headers: Dict<string, string>)

  /** Each requested header, stripped and lower-cased, is configured. */
  predicate HeadersListed(requested: string, allowed: seq<string>) {
    forall k :: 0 <= k < |Split(requested, ",")| ==> Lower(Strip(Split(requested, ",")[k])) in allowed
  }

  predicate OriginAccepted(s: Settings, origin: string) {
    origin in s.allowedOrigins || s.allowAllOrigins
  }

  predicate MethodAccepted(s: Settings, requestMethod: string) {
    Upper(requestMethod) in s.allowedMethods
  }

  predicate HeadersAccepted(s: Settings, requested: string) {
    s.allowAllHeaders || requested == "" || HeadersListed(requested, s.allowedHeaders)
  }

  /** `handle_preflight_request`: an accepted origin is echoed in
      Allow-Origin, a fully listed header request is echoed in
      Allow-Headers, and any refusal gives 400. */
  function PreflightAnswer(s: Settings, origin: string, requestMethod: string, requested: string): Answer {
    var h0 := if OriginAccepted(s, origin) then Set(s.responseHeaders, AllowOrigin, origin) else s.responseHeaders;
    var h1 := if !s.allowAllHeaders && requested != "" && HeadersListed(requested, s.allowedHeaders)
              then Set(h0, AllowHeaders, requested) else h0;
    if OriginAccepted(s, origin) && MethodAccepted(s, requestMethod) && HeadersAccepted(s, requested)
    then Answer(200, "OK", h1) else Answer(400, "", h1)
  }

  /** The answer is 'OK' exactly when origin, method and headers are all
      accepted; then the origin is echoed, and so is a restricted header
      request. */
  lemma PreflightAnswerSpec(s: Settings, origin: string, requestMethod: string, requested: string)
    requires Wf(s.responseHeaders)
    ensures var a := PreflightAnswer(s, origin, requestMethod, requested);
            (a.status == 200 <==> OriginAccepted(s, origin) && MethodAccepted(s, requestMethod) && HeadersAccepted(s, requested)) &&
            (a.status == 200 ==> a.body == "OK") && (a.status != 200 ==> a.status == 400 && a.body == "") &&
            Wf(a.headers) &&
            (OriginAccepted(s, origin) ==> a.headers.values[AllowOrigin] == origin) &&
            (a.status == 200 && !s.allowAllHeaders && requested != "" ==> a.headers.values[AllowHeaders] == requested) &&
            (forall k :: k != AllowOrigin && k != AllowHeaders ==>
               (k in a.headers.values <==> k in s.responseHeaders.values) &&
               (k in a.headers.values ==> a.headers.values[k] == s.responseHeaders.values[k]))
  {
    SetSpec(s.responseHeaders, AllowOrigin, origin);
    var h0 := if OriginAccepted(s, origin) then Set(s.responseHeaders, AllowOrigin, origin) else s.responseHeaders;
    assert Wf(h0) && h0.values == if OriginAccepted(s, origin) then s.responseHeaders.values[AllowOrigin := origin]
                                  else s.responseHeaders.values;
    SetSpec(h0, AllowHeaders, requested);
    var h1 := if !s.allowAllHeaders && requested != "" && HeadersListed(requested, s.allowedHeaders)
              then Set(h0, AllowHeaders, requested) else h0;
    assert PreflightAnswer(s, origin, requestMethod, requested).headers == h1;
  }

  /** A header request written as listed names joined with `,` is accepted
      exactly when every name, stripped and lower-cased, is configured. */
  lemma HeadersListedJoin(names: seq<string>, allowed: seq<string>)
    requires |names| >= 1
    requires forall k :: 0 <= k < |names| ==> ',' !in names[k]
    ensures HeadersListed(Join(names, ","), allowed) <==> forall k :: 0 <= k < |names| ==> Lower(Strip(names[k])) in allowed
  {
    SplitJoin(names, ',');
    assert [','] == ",";
  }

  /** With nothing configured, every origin is accepted and echoed, and every
      standard method with any header request is answered 'OK'. */
  lemma WildcardAcceptsStandard(maxAge: int, withCredentials: bool, origin: string, requestMethod: string, requested: string)
    requires Upper(requestMethod) in StandardMethods
    ensures var s := Configure(CorsConfig(maxAge, withCredentials, None, None, None));
            var a := PreflightAnswer(s, origin, requestMethod, requested);
            a.status == 200 && a.headers.values[AllowOrigin] == origin
  {
    var c := CorsConfig(maxAge, withCredentials, None, None, None);
    BaseHeadersSpec(c);
    PreflightAnswerSpec(Configure(c), origin, requestMethod, requested);
  }

  // ---- which requests are answered -----------------------------------------

  const RequestMethodHeader := "ACCESS_CONTROL_REQUEST_METHOD"
  const RequestHeadersHeader := "ACCESS_CONTROL_REQUEST_HEADERS"
  const OriginHeader := "ORIGIN"

  /** The requested headers, '' when the request does not name any. */
  function RequestedHeaders(headers: seq<(string, string)>): string {
    match FirstMatch(headers, RequestHeadersHeader)
    case Some(v) => v
    case None => ""
  }

  /** The AttributeError of `None.upper()` for a missing requested method. */
  datatype CorsError = AttributeError

  /** `handle_request` as written: the middleware steps aside only when
      the method is not OPTIONS and neither header is present; otherwise
      it answers (true), which raises when the requested method is missing. */
  function HandleAsWritten(requestMethod: string, headers: seq<(string, string)>): Result<bool, CorsError> {
    if requestMethod != "OPTIONS" && !Present(headers, RequestMethodHeader) && !Present(headers, OriginHeader) then Ok(false)
    else if !Present(headers, RequestMethodHeader) then Err(CorsError.AttributeError)
    else Ok(true)
  }

  /** An ordinary cross-origin GET, which carries Origin, makes the
      middleware raise instead of letting the request through. */
  lemma SimpleCorsRequestRaises(origin: string)
    ensures HandleAsWritten("GET", [(OriginHeader, origin)]) == Err(CorsError.AttributeError)
  {
    var headers := [(OriginHeader, origin)];
    assert SameName(headers[0].0, OriginHeader);
    assert Present(headers, OriginHeader);
    assert |Lower(OriginHeader)| != |Lower(RequestMethodHeader)|;
  }

  /** A CORS-preflight request: OPTIONS with both the requested method and
      the origin. */
  predicate IsPreflight(requestMethod: string, headers: seq<(string, string)>) {
    requestMethod == "OPTIONS" && Present(headers, RequestMethodHeader) && Present(headers, OriginHeader)
  }

  /** The corrected test answers exactly the preflight requests, which the
      written one answers too; what the written one lets through, the
      corrected one lets through; they differ only where the written one
      raises or answers a request that is not a preflight. */
  lemma PreflightTestNarrows(requestMethod: string, headers: seq<(string, string)>)
    ensures IsPreflight(requestMethod, headers) ==> HandleAsWritten(requestMethod, headers) == Ok(true)
    ensures HandleAsWritten(requestMethod, headers) == Ok(false) ==> !IsPreflight(requestMethod, headers)
    ensures HandleAsWritten(requestMethod, headers).Err? ==> !IsPreflight(requestMethod, headers)
  {
  }

  /** `CorsMiddleware`. */
  class CorsMiddleware {
    const allowAllOrigins: bool
    const allowedOrigins: seq<string>
    const allowedMethods: seq<string>
    const allowAllHeaders: bool
    const allowedHeaders: seq<string>
    const responseHeaders: Dict<string, string>

    function State(): Settings {
      Settings(allowAllOrigins, allowedOrigins, allowedMethods, allowAllHeaders, allowedHeaders, responseHeaders)
    }

    /** `__init__`: the settings and the fixed headers, added in order. */
    constructor(c: CorsConfig)
      ensures State() == Configure(c)
    {
      allowedOrigins := OrStar(c.origins);
      allowedHeaders := OrStar(c.headers);
      var h: Dict<string, string> := Empty();
      allowAllOrigins := "*" in OrStar(c.origins);
      if "*" in OrStar(c.origins) {
        h := Set(h, AllowOrigin, "*");
      }
      var methods := OrStar(c.methods);
      if "*" in methods {
        methods := StandardMethods;
      }
      allowedMethods := methods;
      h := Set(h, AllowMethods, Join(methods, ", "));
      allowAllHeaders := "*" in OrStar(c.headers);
      if "*" !in OrStar(c.headers) {
        h := Set(h, AllowHeaders, Join(OrStar(c.headers), ", "));
      }
      if c.withCredentials {
        h := Set(h, AllowCredentials, "true");
      }
      h := Set(h, MaxAge, IntToString(c.maxAge));
      responseHeaders := h;
    }

    /** `handle_preflight_request`, with the header loop. */
    method HandlePreflight(origin: string, requestMethod: string, requested: string) returns (a: Answer)
      ensures a == PreflightAnswer(State(), origin, requestMethod, requested)
    {
      var h := responseHeaders;
      var failed := false;
      if origin !in allowedOrigins && !allowAllOrigins {
        failed := true;
      } else {
        h := Set(h, AllowOrigin, origin);
      }
      if Upper(requestMethod) !in allowedMethods {
        failed := true;
      }
      if !allowAllHeaders && requested != "" {
        var pieces := Split(requested, ",");
        var i := 0;
        var refused := false;
        while i < |pieces|
          invariant i <= |pieces|
          invariant forall k :: 0 <= k < i ==> Lower(Strip(pieces[k])) in allowedHeaders
        {
          if Lower(Strip(pieces[i])) !in allowedHeaders {
            refused := true;
            break;
          }
          i := i + 1;
        }
        if refused {
          failed := true;
        } else {
          h := Set(h, AllowHeaders, requested);
        }
      }
      if failed {
        return Answer(400, "", h);
      }
      return Answer(200, "OK", h);
    }

    /** `handle_request` with the preflight test corrected: None lets the
        request through; a preflight is answered with its Origin, its
        requested method and its requested headers ('' when absent). */
    method HandleRequest(requestMethod: string, headers: seq<(string, string)>) returns (r: Option<Answer>)
      ensures r.None? <==> !IsPreflight(requestMethod, headers)
      ensures r.Some? ==>
                FirstMatch(headers, OriginHeader).Some? && FirstMatch(headers, RequestMethodHeader).Some? &&
                r.value == PreflightAnswer(State(), FirstMatch(headers, OriginHeader).value,
                                           FirstMatch(headers, RequestMethodHeader).value,
                                           RequestedHeaders(headers))
    {
      if !IsPreflight(requestMethod, headers) {
        return None;
      }
      PresentMatch(headers, OriginHeader);
      PresentMatch(headers, RequestMethodHeader);
      var a := HandlePreflight(FirstMatch(headers, OriginHeader).value, FirstMatch(headers, RequestMethodHeader).value,
                               RequestedHeaders(headers));
      return Some(a);
    }
  }
}
