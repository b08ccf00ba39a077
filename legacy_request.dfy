/** The request object of the oldest generation: properties computed from
    the WSGI environ. The query string and the cookie header are split in
    loops that fill a dict; the other properties are expressions over the
    environ. */
module LegacyRequest {
  import opened Wrappers
  import opened Text
  import opened OrderedDicts
  import opened LegacyCore

  // ---- content type -----------------------------------------------------

  /** Surrounding double quotes removed, as `cgi.parse_header` does. */
  function Unquoted(v: string): string {
    if |v| >= 2 && v[0] == '"' && v[|v| - 1] == '"' then v[1..|v| - 1] else v
  }

  /** One `name=value` parameter of a header line: the name stripped and
      lower-cased, the value stripped and unquoted; a piece without `=` is
      not a parameter. */
  function HeaderParam(piece: string): Option<(string, string)> {
    match IndexOf(piece, "=")
    case None => None
    case Some(i) => Some((Lower(Strip(piece[..i])), Unquoted(Strip(piece[i + 1..]))))
  }

  function HeaderParams(pieces: seq<string>): map<string, string>
    decreases |pieces|
  {
    if pieces == [] then map[]
    else
      var rest := HeaderParams(pieces[..|pieces| - 1]);
      match HeaderParam(pieces[|pieces| - 1])
      case None => rest
      case Some((k, v)) => rest[k := v]
  }

  /** `cgi.parse_header(line)`: the stripped value before the first `;` and
      the parameters after it, a later parameter replacing an earlier one of
      the same name. */
  function ParseHeader(line: string): (string, map<string, string>) {
    var pieces := Split(line, ";");
    (Strip(pieces[0]), HeaderParams(pieces[1..]))
  }

  /** A header without `;` has no parameters: its content type is the
      whole stripped line. */
  lemma ParseHeaderPlain(line: string)
    ensures !Contains(line, ";") ==> ParseHeader(line) == (Strip(line), map[])
  {
    if !Contains(line, ";") {
      assert Split(line, ";") == [line];
    }
  }

  // ---- cookies ----------------------------------------------------------

  /** One piece of the cookie header: split once at `=`, or the whole piece
      as the value of the empty key; a piece whose key and value are both
      empty (before stripping) adds nothing; otherwise the stripped key gets
      the stripped value passed through `_unquote` (`unquote`). */
  function CookiePair(piece: string, unquote: string -> string): seq<(string, string)> {
    var eq := IndexOf(piece, "=");
    var key := if eq.Some? then piece[..eq.value] else "";
    var value := if eq.Some? then piece[eq.value + 1..] else piece;
    if key != "" || value != "" then [(Strip(key), unquote(Strip(value)))] else []
  }

  /** The pairs the cookie loop assigns, in order. */
  function CookiePairs(pieces: seq<string>, unquote: string -> string): seq<(string, string)>
    decreases |pieces|
  {
    if pieces == [] then [] else CookiePairs(pieces[..|pieces| - 1], unquote) + CookiePair(pieces[|pieces| - 1], unquote)
  }

  /** The cookie loop at piece `i`: the pairs so far, then that piece's. */
  lemma CookiePairsStep(pieces: seq<string>, i: nat, unquote: string -> string)
    requires i < |pieces|
    ensures CookiePairs(pieces[..i + 1], unquote) == CookiePairs(pieces[..i], unquote) + CookiePair(pieces[i], unquote)
  {
    assert pieces[..i + 1][..i] == pieces[..i];
  }

  /** A piece is skipped exactly when it is empty or a lone `=`. */
  lemma CookiePairSkipped(piece: string, unquote: string -> string)
    ensures CookiePair(piece, unquote) == [] <==> piece == "" || piece == "="
  {
    match IndexOf(piece, "=")
    case None =>
      assert !OccursAt(piece, "=", 0);
    case Some(i) =>
      assert OccursAt(piece, "=", i);
      if piece[..i] == "" && piece[i + 1..] == "" {
        assert piece == piece[..i] + "=" + piece[i + 1..];
      }
  }

  /** Every recorded key is stripped, and the pieces give at most one pair
      each. */
  lemma {:induction false} CookiePairsShape(pieces: seq<string>, unquote: string -> string)
    ensures |CookiePairs(pieces, unquote)| <= |pieces|
    ensures forall j :: 0 <= j < |CookiePairs(pieces, unquote)| ==>
              Strip(CookiePairs(pieces, unquote)[j].0) == CookiePairs(pieces, unquote)[j].0
    decreases |pieces|
  {
    if pieces != [] {
      CookiePairsShape(pieces[..|pieces| - 1], unquote);
      var front: seq<(string, string)> := CookiePairs(pieces[..|pieces| - 1], unquote);
      var last: seq<(string, string)> := CookiePair(pieces[|pieces| - 1], unquote);
      CookiePairStripped(pieces[|pieces| - 1], unquote);
      assert CookiePairs(pieces, unquote) == front + last;
      var all: seq<(string, string)> := front + last;
      forall j | 0 <= j < |all| ensures Strip(all[j].0) == all[j].0 {
        if j < |front| {
          assert all[j] == front[j];
        } else {
          assert all[j] == last[j - |front|];
        }
      }
    }
  }

  /** One piece gives at most one pair, and its key is stripped. */
  lemma CookiePairStripped(piece: string, unquote: string -> string)
    ensures |CookiePair(piece, unquote)| <= 1
    ensures forall j :: 0 <= j < |CookiePair(piece, unquote)| ==>
              Strip(CookiePair(piece, unquote)[j].0) == CookiePair(piece, unquote)[j].0
  {
    var last := CookiePair(piece, unquote);
    if last != [] {
      var k := last[0].0;
      assert k == [] || (!IsSpace(k[0]) && !IsSpace(k[|k| - 1]));
    }
  }

  // ---- query parameters -------------------------------------------------

  /** One item of the query string: without `=` it is skipped; with one `=`
      it is an unquoted pair; with more, unpacking the unlimited `split`
      raises ValueError. */
  function ParamPair(item: string, unquote: string -> string): Result<seq<(string, string)>, Exc> {
    if !Contains(item, "=") then Ok([])
    else
      var parts := Split(item, "=");
      if |parts| != 2 then Err(Raise(ValueErrorKind))
      else Ok([(unquote(parts[0]), unquote(parts[1]))])
  }

  /** The pairs the query loop assigns, in order, or the first error. */
  function ParamPairs(items: seq<string>, unquote: string -> string): Result<seq<(string, string)>, Exc>
    decreases |items|
  {
    if items == [] then Ok([])
    else
      match ParamPairs(items[..|items| - 1], unquote)
      case Err(e) => Err(e)
      case Ok(ps) =>
        match ParamPair(items[|items| - 1], unquote)
        case Err(e) => Err(e)
        case Ok(p) => Ok(ps + p)
  }

  /** One more item extends the pairs by that item's, or fails. */
  lemma ParamPairsStep(items: seq<string>, i: nat, unquote: string -> string)
    requires i < |items|
    ensures ParamPairs(items[..i + 1], unquote) ==
              match ParamPairs(items[..i], unquote)
              case Err(e) => Err(e)
              case Ok(ps) =>
                match ParamPair(items[i], unquote)
                case Err(e) => Err(e)
                case Ok(p) => Ok(ps + p)
  {
    assert items[..i + 1][..i] == items[..i];
  }

  /** An item with `=` fails exactly when it has more than one. */
  lemma ParamPairFails(item: string, unquote: string -> string)
    ensures ParamPair(item, unquote).Err? <==> Contains(item, "=") && |Split(item, "=")| > 2
    ensures ParamPair(item, unquote).Err? ==> ValueErrorKind in ParamPair(item, unquote).error.kinds
  {
    if Contains(item, "=") {
      IndexOfContains(item, "=");
    }
  }

  /** The query fails exactly when one of its items does. */
  lemma {:induction false} ParamPairsFail(items: seq<string>, unquote: string -> string)
    ensures ParamPairs(items, unquote).Err? <==> exists i :: 0 <= i < |items| && ParamPair(items[i], unquote).Err?
    decreases |items|
  {
    if items != [] {
      var n := |items|;
      var init := items[..n - 1];
      ParamPairsFail(init, unquote);
      if exists i :: 0 <= i < |init| && ParamPair(init[i], unquote).Err? {
        var i :| 0 <= i < |init| && ParamPair(init[i], unquote).Err?;
        assert items[i] == init[i];
      }
      if exists i :: 0 <= i < n && ParamPair(items[i], unquote).Err? {
        var i :| 0 <= i < n && ParamPair(items[i], unquote).Err?;
        if i < n - 1 {
          assert init[i] == items[i];
        }
      }
    }
  }

  /** What `files` returns: `{}` or `None`. */
  datatype Files = EmptyDict | NoneValue

  class BaseRequest {
    const environ: map<string, string>

    constructor(environ: map<string, string>)
      ensures this.environ == environ
    {
      this.environ := environ;
    }

    /** `environ.get(key, default)`. */
    function Env(key: string, default: string): string
      reads this
    {
      if key in environ then environ[key] else default
    }

    /** `content_type`: the value part of CONTENT_TYPE (case kept). */
    function ContentType(): string
      reads this
    {
      ParseHeader(Env("CONTENT_TYPE", "")).0
    }

    /** `content_params`: the parameters of CONTENT_TYPE. */
    function ContentParams(): map<string, string>
      reads this
    {
      ParseHeader(Env("CONTENT_TYPE", "")).1
    }

    /** `charset`: the `charset` parameter, utf-8 by default. */
    function Charset(): (r: string)
      reads this
      ensures "charset" in ContentParams() ==> r == ContentParams()["charset"]
      ensures "charset" !in ContentParams() ==> r == "utf-8"
    {
      if "charset" in ContentParams() then ContentParams()["charset"] else "utf-8"
    }

    /** `content_length`: `int()` of CONTENT_LENGTH, and 0 when it is
        missing or `int()` refuses it. */
    function ContentLength(): (r: int)
      reads this
      ensures "CONTENT_LENGTH" !in environ ==> r == 0
      ensures "CONTENT_LENGTH" in environ && ParseInt(environ["CONTENT_LENGTH"]).Some? ==>
                r == ParseInt(environ["CONTENT_LENGTH"]).value
      ensures "CONTENT_LENGTH" in environ && ParseInt(environ["CONTENT_LENGTH"]).None? ==> r == 0
    {
      if "CONTENT_LENGTH" !in environ then 0
      else
        match ParseInt(environ["CONTENT_LENGTH"])
        case Some(n) => n
        case None => 0
    }

    /** `method`: REQUEST_METHOD upper-cased; without it, `None.upper()`
        raises AttributeError. */
    function Method(): (r: Result<string, Exc>)
      reads this
      ensures r.Ok? <==> "REQUEST_METHOD" in environ
      ensures r.Ok? ==> r.value == Upper(environ["REQUEST_METHOD"]) && IsUpper(r.value)
      ensures r.Err? ==> AttributeErrorKind in r.error.kinds
    {
      if "REQUEST_METHOD" in environ then
        UpperIsUpper(environ["REQUEST_METHOD"]);
        Ok(Upper(environ["REQUEST_METHOD"]))
      else Err(Raise(AttributeErrorKind))
    }

    /** `files`: `{}` unless the method is POST; for a multipart body the
        parser runs (its outcome, `parsed`, is an input here) and None is
        returned; None for a url-encoded body; `{}` for any other type. */
    function FilesOf(parsed: Option<Exc>): (r: Result<Files, Exc>)
      reads this
      ensures Method().Err? ==> r == Err(Method().error)
      ensures Method().Ok? && Method().value != "POST" ==> r == Ok(EmptyDict)
      ensures Method() == Ok("POST") && ContentType() == "multipart/form-data" ==>
                r == (if parsed.Some? then Err(parsed.value) else Ok(NoneValue))
      ensures Method() == Ok("POST") && ContentType() == "application/x-www-form-urlencoded" ==> r == Ok(NoneValue)
      ensures r == Ok(NoneValue) ==>
                ContentType() == "multipart/form-data" || ContentType() == "application/x-www-form-urlencoded"
    {
      match Method()
      case Err(e) => Err(e)
      case Ok(m) =>
        if m != "POST" then Ok(EmptyDict)
        else if ContentType() == "multipart/form-data" then
          if parsed.Some? then Err(parsed.value) else Ok(NoneValue)
        else if ContentType() == "application/x-www-form-urlencoded" then Ok(NoneValue)
        else Ok(EmptyDict)
    }

    /** `param`: QUERY_STRING split on `&` and each item handled in turn
        into a dict, later keys overwriting earlier ones. The Latin-1
        re-encoding and charset decoding of the query are taken as the
        identity; `unquote` is `unquote_plus`. */
    method Param(unquote: string -> string) returns (r: Result<Dict<string, string>, Exc>)
      ensures var items := Split(Env("QUERY_STRING", ""), "&");
              match ParamPairs(items, unquote)
              case Err(e) => r == Err(e)
              case Ok(ps) => r == Ok(FromPairs(Empty(), ps))
    {
      var items := Split(Env("QUERY_STRING", ""), "&");
      var d: Dict<string, string> := Empty();
      ghost var ps: seq<(string, string)> := [];
      for i := 0 to |items|
        invariant ParamPairs(items[..i], unquote) == Ok(ps)
        invariant d == FromPairs(Empty(), ps)
      {
        ParamPairsStep(items, i, unquote);
        var item := items[i];
        IndexOfContains(item, "=");
        if IndexOf(item, "=").Some? {
          var parts := Split(item, "=");
          if |parts| != 2 {
            ParamPrefixErr(items, i + 1, unquote);
            return Err(Raise(ValueErrorKind));
          }
          FromPairsSnoc(Empty(), ps, unquote(parts[0]), unquote(parts[1]));
          d := Set(d, unquote(parts[0]), unquote(parts[1]));
          ps := ps + [(unquote(parts[0]), unquote(parts[1]))];
        } else {
          assert ps + [] == ps;
        }
      }
      assert items[..|items|] == items;
      r := Ok(d);
    }

    /** `cookies`: HTTP_COOKIE split on `;`, each piece handled in turn into
        a dict, later keys overwriting earlier ones; `unquote` is the cookie
        module's `_unquote`. */
    method Cookies(unquote: string -> string) returns (d: Dict<string, string>)
      ensures d == FromPairs(Empty(), CookiePairs(Split(Env("HTTP_COOKIE", ""), ";"), unquote))
    {
      var pieces := Split(Env("HTTP_COOKIE", ""), ";");
      d := Empty();
      for i := 0 to |pieces|
        invariant d == FromPairs(Empty(), CookiePairs(pieces[..i], unquote))
      {
        CookiePairsStep(pieces, i, unquote);
        ghost var before := CookiePairs(pieces[..i], unquote);
        var cookie := pieces[i];
        var eq := IndexOf(cookie, "=");
        var key := if eq.Some? then cookie[..eq.value] else "";
        var value := if eq.Some? then cookie[eq.value + 1..] else cookie;
        if key != "" || value != "" {
          assert CookiePair(cookie, unquote) == [(Strip(key), unquote(Strip(value)))];
          FromPairsSnoc(Empty(), before, Strip(key), unquote(Strip(value)));
          d := Set(d, Strip(key), unquote(Strip(value)));
        } else {
          assert CookiePair(cookie, unquote) == [];
          assert before + [] == before;
        }
      }
      assert pieces[..|pieces|] == pieces;
    }
  }

  /** A failing item fails every longer query with the first error. */
  lemma {:induction false} ParamPrefixErr(items: seq<string>, n: nat, unquote: string -> string)
    requires n <= |items| && ParamPairs(items[..n], unquote).Err?
    ensures ParamPairs(items, unquote) == ParamPairs(items[..n], unquote)
    decreases |items| - n
  {
    if n < |items| {
      var m := |items|;
      assert items[..m - 1][..n] == items[..n];
      ParamPrefixErr(items[..m - 1], n, unquote);
    } else {
      assert items[..n] == items;
    }
  }

  /** For the cookie dict: a key is present exactly when some piece gives
      it, and it holds the value of the last such piece. */
  lemma CookiesLastWins(pieces: seq<string>, unquote: string -> string)
    ensures var ps := CookiePairs(pieces, unquote);
            var d := FromPairs(Empty(), ps);
            Wf(d) &&
            (forall k :: k in d.values <==> HasKey(ps, k)) &&
            (forall k :: HasKey(ps, k) ==> d.values[k] == LastValue(ps, k))
  {
    FromPairsSpec(Empty<string, string>(), CookiePairs(pieces, unquote));
  }
}
