/** The body parsers of the middle generation. `MultiPartFormParser` cuts a
    `multipart/form-data` body at its boundary delimiters (section 5.1.1 of
    RFC 2046), reads each part's Content-Disposition `name` (section 4.2 of
    RFC 7578) and `filename`, and appends the fields to a `Form`;
    `FormParser` appends the pairs of a url-encoded body. Decoding with the
    request's charset and `parse_qsl` are parameters. */
module VankParsers {
  import opened Wrappers
  import opened Text
  import opened Bytes
  import opened VankDatastructures

  /** What parsing raises: the KeyError of a missing boundary, the
      ValueError of an unpacking or `dict()` that finds the wrong number of
      pieces, the AttributeError of a part without Content-Disposition
      (`None.split`), and ParseException for a disposition without `name`. */
  datatype ParseError = BoundaryMissing | Unpacking | NoDisposition | NameMissing

  const Crlf: Bytes := Latin1("\r\n")
  const BlankLine: Bytes := Latin1("\r\n\r\n")
  const ColonSpace: Bytes := Latin1(": ")
  const SemiSpace: Bytes := Latin1("; ")
  const Equals: Bytes := Latin1("=")
  const Dashes: Bytes := Latin1("--")
  const DispositionKey: Bytes := Latin1("Content-Disposition")
  const ContentTypeKey: Bytes := Latin1("Content-Type")
  const NameKey: Bytes := Latin1("name")
  const FilenameKey: Bytes := Latin1("filename")

  /** The octets `strip(b'\r\n')` removes, and the one `strip(b'"')` removes. */
  const LineEnds: set<byte> := {13, 10}
  const Quote: set<byte> := {34}

  // ---- the boundary ------------------------------------------------------

  /** A key of the content-parameter dict: a text or a byte string. */
  datatype ParamKey = TextKey(text: string) | BytesKey(data: Bytes)

  /** The content parameters as `cgi.parse_header` gives them: text keys. */
  function TextKeyed(params: map<string, string>): (m: map<ParamKey, string>)
    ensures forall k :: k in m ==> k.TextKey?
    ensures forall k :: k in params ==> TextKey(k) in m && m[TextKey(k)] == params[k]
  {
    map k | k in params :: TextKey(k) := params[k]
  }

  /** The constructor as written: `content_parameter[b'boundary']`, a byte
      key. */
  function BoundaryAsWritten(params: map<ParamKey, string>): Result<string, ParseError> {
    if BytesKey(Latin1("boundary")) in params then Ok(params[BytesKey(Latin1("boundary"))]) else Err(BoundaryMissing)
  }

  /** The request hands over the text-keyed parameters of `parse_header`,
      so the byte key is never found: every multipart body raises KeyError,
      even one whose Content-Type names a boundary. */
  lemma BoundaryNeverFound(params: map<string, string>)
    ensures BoundaryAsWritten(TextKeyed(params)) == Err(BoundaryMissing)
  {
  }

  /** The boundary as intended: the text parameter `boundary`, encoded with
      the request's charset (`encode`); KeyError when it is missing. */
  function Boundary(params: map<string, string>, encode: string -> Bytes): (r: Result<Bytes, ParseError>)
    ensures r.Err? <==> "boundary" !in params
    ensures r.Err? ==> r.error == BoundaryMissing
    ensures r.Ok? ==> r.value == encode(params["boundary"])
  {
    if "boundary" in params then Ok(encode(params["boundary"])) else Err(BoundaryMissing)
  }

  // ---- one part ----------------------------------------------------------

  /** `dict([line.split(b': ', 1) for line in lines])`: a later line wins; a
      line without `: ` makes `dict()` raise ValueError. */
  function HeaderDict(lines: seq<Bytes>): (r: Result<map<Bytes, Bytes>, ParseError>)
    ensures r.Err? ==> r.error == Unpacking
    decreases |lines|
  {
    if lines == [] then Ok(map[])
    else
      match HeaderDict(lines[..|lines| - 1])
      case Err(e) => Err(e)
      case Ok(d) =>
        match SplitOnce(lines[|lines| - 1], ColonSpace)
        case None => Err(Unpacking)
        case Some((k, v)) => Ok(d[k := v])
  }

  /** The disposition parameters: `dict(line.split(b'=') ...)` over the
      `; `-separated pieces, each of which must split into exactly two, a
      later piece winning, then every value stripped of `"`. */
  function ParamDict(pieces: seq<Bytes>): (r: Result<map<Bytes, Bytes>, ParseError>)
    ensures r.Err? ==> r.error == Unpacking
    decreases |pieces|
  {
    if pieces == [] then Ok(map[])
    else
      match ParamDict(pieces[..|pieces| - 1])
      case Err(e) => Err(e)
      case Ok(d) =>
        var kv := Split(pieces[|pieces| - 1], Equals);
        if |kv| != 2 then Err(Unpacking) else Ok(d[kv[0] := Trim(kv[1], Quote)])
  }

  /** What the two parser generations read from every part: its headers,
      its disposition parameters and its content. */
  datatype PartHead = PartHead(headers: map<Bytes, Bytes>, params: map<Bytes, Bytes>, content: Bytes)

  /** A part's head: the headers before the first blank line (the line
      right after the delimiter is skipped), the content after it stripped
      of CR and LF at both ends, and the disposition split at the first `; `
      into its type and its parameters. */
  function ReadPart(part: Bytes): Result<PartHead, ParseError> {
    match SplitOnce(part, BlankLine)
    case None => Err(Unpacking)
    case Some((header, body)) =>
      match HeaderDict(Split(header, Crlf)[1..])
      case Err(e) => Err(e)
      case Ok(headers) =>
        if DispositionKey !in headers then Err(NoDisposition)
        else
          match SplitOnce(headers[DispositionKey], SemiSpace)
          case None => Err(Unpacking)
          case Some((_, rest)) =>
            match ParamDict(Split(rest, SemiSpace))
            case Err(e) => Err(e)
            case Ok(params) => Ok(PartHead(headers, params, Trim(body, LineEnds)))
  }

  /** One part, up to `append_value`: the decoded `name`, and a text value,
      or, with `filename`, an upload file (known as `file`) holding the
      content. */
  function ParsePart(part: Bytes, decode: Bytes -> string, file: nat): Result<(string, FormValue), ParseError> {
    match ReadPart(part)
    case Err(e) => Err(e)
    case Ok(PartHead(headers, params, content)) =>
      if NameKey !in params then Err(NameMissing)
      else if FilenameKey in params then
        var ctype := if ContentTypeKey in headers then headers[ContentTypeKey] else [];
        Ok((decode(params[NameKey]), UploadFile(file, decode(params[FilenameKey]), decode(ctype), content)))
      else Ok((decode(params[NameKey]), TextField(decode(content))))
  }

  /** A part is accepted exactly when its head reads and names the field;
      it is a file exactly when it carries `filename`, which then holds
      the part's content, and otherwise the decoded content is its text. */
  lemma ParsePartSpec(part: Bytes, decode: Bytes -> string, file: nat)
    ensures var r := ParsePart(part, decode, file);
            (r.Ok? <==> ReadPart(part).Ok? && NameKey in ReadPart(part).value.params) &&
            (ReadPart(part).Err? ==> r == Err(ReadPart(part).error)) &&
            (ReadPart(part).Ok? && NameKey !in ReadPart(part).value.params ==> r == Err(NameMissing)) &&
            (r.Ok? ==> var h := ReadPart(part).value;
                       r.value.0 == decode(h.params[NameKey]) &&
                       (r.value.1.UploadFile? <==> FilenameKey in h.params) &&
                       (r.value.1.UploadFile? ==> r.value.1.content == h.content) &&
                       (r.value.1.TextField? ==> r.value.1 == TextField(decode(h.content))))
  {
  }

  // ---- a part built the way a client builds it ---------------------------

  const FormData: Bytes := Latin1("form-data")
  const QuoteMark: Bytes := Latin1("\"")

  /** The Content-Disposition line of a text field named `name`. */
  function DispositionLine(name: Bytes): Bytes {
    DispositionKey + ColonSpace + FormData + SemiSpace + NameKey + Equals + QuoteMark + name + QuoteMark
  }

  /** A text field as a client sends it between two delimiters: CRLF, the
      disposition line, a blank line, the value, CRLF. */
  function TextPart(name: Bytes, value: Bytes): Bytes {
    Crlf + DispositionLine(name) + BlankLine + value + Crlf
  }

  /** A separator cannot occur where its first octet does not. */
  lemma AbsentHead(s: Bytes, sep: Bytes)
    requires |sep| > 0 && sep[0] !in s
    ensures !Contains(s, sep)
  {
  }

  /** Splitting at a separator whose first octet is not in the text before it. */
  lemma SplitOnceAt(a: Bytes, sep: Bytes, b: Bytes)
    requires |sep| > 0 && sep[0] !in a
    ensures SplitOnce(a + sep + b, sep) == Some((a, b))
  {
    var s := a + sep + b;
    assert OccursAt(s, sep, |a|) by { assert s[|a|..|a| + |sep|] == sep; }
    IndexOfContains(s, sep);
    var i := IndexOf(s, sep).value;
    assert OccursAt(s, sep, i);
    assert s[..i] == a;
  }

  /** A text without the separator splits into itself. */
  lemma SplitAbsent(s: Bytes, sep: Bytes)
    requires |sep| > 0 && sep[0] !in s
    ensures Split(s, sep) == [s]
  {
    AbsentHead(s, sep);
    IndexOfContains(s, sep);
  }

  lemma ConstantOctets()
    ensures |DispositionKey| == 19 && |FormData| == 9 && |NameKey| == 4 && QuoteMark == [34] && Quote == {34}
    ensures 13 !in DispositionKey && 13 !in FormData && 13 !in NameKey
    ensures 58 !in DispositionKey && 59 !in FormData && 61 !in NameKey
    ensures ColonSpace == [58, 32] && SemiSpace == [59, 32] && Equals == [61] && Crlf == [13, 10]
    ensures BlankLine == [13, 10, 13, 10] && DispositionKey[0] == 67
  {
  }

  /** Stripping `"` from a quoted text without `"` gives the text. */
  lemma TrimQuoted(name: Bytes)
    requires 34 !in name
    ensures Trim([34] + name + [34], Quote) == name
  {
    var q := [34] + name + [34];
    var inner := name + [34];
    assert q[0] in Quote && q[1..] == inner;
    assert TrimLeft(q, Quote) == TrimLeft(inner, Quote);
    if name == [] {
      assert inner == [34] && inner[1..] == [];
      assert TrimLeft(inner, Quote) == [];
    } else {
      assert inner[0] == name[0] && inner[0] !in Quote;
      assert TrimLeft(inner, Quote) == inner;
      assert inner[|inner| - 1] in Quote && inner[..|inner| - 1] == name;
      assert TrimRight(inner, Quote) == TrimRight(name, Quote);
      assert name[|name| - 1] !in Quote;
    }
  }

  /** The disposition line of a field has no CR, and its header dict holds
      the disposition. */
  lemma DispositionHeader(name: Bytes)
    requires 13 !in name
    ensures 13 !in DispositionLine(name)
    ensures HeaderDict([DispositionLine(name)]) == Ok(map[DispositionKey := DispositionValue(name)])
  {
    ConstantOctets();
    var line := DispositionLine(name);
    assert line == DispositionKey + ColonSpace + DispositionValue(name);
    assert 13 !in DispositionValue(name);
    SplitOnceAt(DispositionKey, ColonSpace, DispositionValue(name));
    var lines: seq<Bytes> := [line];
    assert lines[..0] == [];
  }

  /** `form-data; name="…"`. */
  function DispositionValue(name: Bytes): Bytes {
    FormData + SemiSpace + NameParam(name)
  }

  /** `name="…"`. */
  function NameParam(name: Bytes): Bytes {
    NameKey + Equals + QuoteMark + name + QuoteMark
  }

  /** `name="…"` splits at its one `=`. */
  lemma NameParamSplit(name: Bytes)
    requires 61 !in name
    ensures Split(NameParam(name), Equals) == [NameKey, QuoteMark + name + QuoteMark]
  {
    ConstantOctets();
    var rest := NameParam(name);
    var quoted := QuoteMark + name + QuoteMark;
    assert rest == NameKey + Equals + quoted;
    assert 61 !in quoted;
    SplitAbsent(quoted, Equals);
    SplitOnceAt(NameKey, Equals, quoted);
    assert IndexOf(rest, Equals) == Some(4);
    assert rest[..4] == NameKey && rest[4 + 1..] == quoted;
  }

  lemma NameParamNoSemicolon(name: Bytes)
    requires 59 !in name
    ensures 59 !in NameParam(name)
  {
    ConstantOctets();
  }

  /** The parameters of the disposition hold exactly the name. */
  lemma DispositionParams(name: Bytes)
    requires 59 !in name && 61 !in name && 34 !in name
    ensures SplitOnce(DispositionValue(name), SemiSpace) == Some((FormData, NameParam(name)))
    ensures ParamDict(Split(NameParam(name), SemiSpace)) == Ok(map[NameKey := name])
  {
    ConstantOctets();
    var rest := NameParam(name);
    SplitOnceAt(FormData, SemiSpace, rest);
    NameParamNoSemicolon(name);
    SplitAbsent(rest, SemiSpace);
    NameParamSplit(name);
    TrimQuoted(name);
    var pieces: seq<Bytes> := [rest];
    assert pieces[..0] == [];
    assert ParamDict(pieces) == Ok(map[NameKey := Trim(QuoteMark + name + QuoteMark, Quote)]);
  }

  /** An occurrence with none before it is the one `find` reports. */
  lemma FirstOccurrence(s: Bytes, sub: Bytes, i: nat)
    requires OccursAt(s, sub, i)
    requires forall j: nat :: j < i ==> !OccursAt(s, sub, j)
    ensures IndexOf(s, sub) == Some(i)
  {
    IndexOfContains(s, sub);
  }

  /** After an opening CRLF, the first blank line is the one that follows
      a non-empty line without CR. */
  lemma BlankLineAfter(line: Bytes, rest: Bytes)
    requires |line| > 0 && 13 !in line
    ensures SplitOnce(Crlf + line + BlankLine + rest, BlankLine) == Some((Crlf + line, rest))
  {
    ConstantOctets();
    var header := Crlf + line;
    var part := header + BlankLine + rest;
    assert OccursAt(part, BlankLine, |header|) by {
      assert part[|header|..|header| + 4] == BlankLine;
    }
    forall j: nat | j < |header| ensures !OccursAt(part, BlankLine, j) {
      assert part[j..j + 4][0] == part[j] && part[j..j + 4][2] == part[j + 2];
      if j == 0 {
        assert part[2] == line[0];
      } else if j >= 2 {
        assert part[j] == line[j - 2];
      }
    }
    FirstOccurrence(part, BlankLine, |header|);
    assert part[..|header|] == header;
    assert part[|header| + 4..] == rest;
  }

  /** The value is what stripping CR and LF leaves of value and CRLF. */
  lemma ValueTrim(value: Bytes)
    requires value == [] || (value[0] !in LineEnds && value[|value| - 1] !in LineEnds)
    ensures Trim(value + Crlf, LineEnds) == value
  {
    ConstantOctets();
    var v := value + Crlf;
    if value == [] {
      assert v[0] in LineEnds && v[1..] == [10];
      assert TrimLeft(v, LineEnds) == [];
    } else {
      assert v[0] == value[0];
      assert TrimLeft(v, LineEnds) == v;
      assert v[..|v| - 1] == value + [13];
      assert (value + [13])[..|value|] == value;
      assert TrimRight(v, LineEnds) == TrimRight(value + [13], LineEnds) == TrimRight(value, LineEnds);
    }
  }

  /** The header of a built part is one line after the opening CRLF. */
  lemma TextPartLines(name: Bytes)
    requires 13 !in name
    ensures Split(Crlf + DispositionLine(name), Crlf)[1..] == [DispositionLine(name)]
  {
    ConstantOctets();
    DispositionHeader(name);
    var line := DispositionLine(name);
    var header := Crlf + line;
    assert IndexOf(header, Crlf) == Some(0) by { assert header[..2] == Crlf; }
    assert header[2..] == line;
    SplitAbsent(line, Crlf);
  }

  /** A part whose header is one disposition line with a name reads back
      as that header, that name, and its body stripped of CR and LF. */
  lemma ReadField(name: Bytes, body: Bytes)
    requires 13 !in name && 59 !in name && 61 !in name && 34 !in name
    ensures ReadPart(Crlf + DispositionLine(name) + BlankLine + body) ==
              Ok(PartHead(map[DispositionKey := DispositionValue(name)], map[NameKey := name], Trim(body, LineEnds)))
  {
    DispositionHeader(name);
    BlankLineAfter(DispositionLine(name), body);
    TextPartLines(name);
    DispositionParams(name);
  }

  /** A text field built as a client builds it parses back to its name and
      its value. */
  lemma TextPartRoundTrip(name: Bytes, value: Bytes, decode: Bytes -> string, file: nat)
    requires 13 !in name && 59 !in name && 61 !in name && 34 !in name
    requires value == [] || (value[0] !in LineEnds && value[|value| - 1] !in LineEnds)
    ensures ParsePart(TextPart(name, value), decode, file) == Ok((decode(name), TextField(decode(value))))
  {
    assert TextPart(name, value) == Crlf + DispositionLine(name) + BlankLine + (value + Crlf);
    ReadField(name, value + Crlf);
    ValueTrim(value);
    ConstantOctets();
  }

  // ---- the whole body ----------------------------------------------------

  /** `body.split(b"--" + boundary)[1:-1]`: the pieces between the first
      and the last delimiter; the preamble before the first one and what
      follows the last one (the closing `--` and the epilogue) are dropped. */
  function Parts(body: Bytes, boundary: Bytes): (r: seq<Bytes>)
    ensures var pieces := Split(body, Dashes + boundary);
            |r| == (if |pieces| < 2 then 0 else |pieces| - 2) &&
            forall k :: 0 <= k < |r| ==> r[k] == pieces[k + 1]
  {
    var pieces := Split(body, Dashes + boundary);
    if |pieces| < 2 then [] else pieces[1..|pieces| - 1]
  }

  /** The parts parsed in order by `parse`, which is told each part's
      position; the first part that fails decides the error. */
  function ParseAll<T>(parts: seq<Bytes>, parse: (Bytes, nat) -> Result<T, ParseError>): (r: Result<seq<T>, ParseError>)
    ensures r.Ok? ==> |r.value| == |parts|
    decreases |parts|
  {
    if parts == [] then Ok([])
    else
      match ParseAll(parts[..|parts| - 1], parse)
      case Err(e) => Err(e)
      case Ok(fs) =>
        match parse(parts[|parts| - 1], |parts| - 1)
        case Err(e) => Err(e)
        case Ok(f) => Ok(fs + [f])
  }

  /** The fields of a body's parts, the k-th upload file being file k. */
  function Fields(parts: seq<Bytes>, decode: Bytes -> string): Result<seq<(string, FormValue)>, ParseError> {
    ParseAll(parts, (p: Bytes, k: nat) => ParsePart(p, decode, k))
  }

  /** The parts are parsed one by one. */
  lemma {:induction false} ParseAllOk<T>(parts: seq<Bytes>, parse: (Bytes, nat) -> Result<T, ParseError>)
    ensures ParseAll(parts, parse).Ok? <==> forall k :: 0 <= k < |parts| ==> parse(parts[k], k).Ok?
    ensures ParseAll(parts, parse).Ok? ==>
              forall k :: 0 <= k < |parts| ==> ParseAll(parts, parse).value[k] == parse(parts[k], k).value
    decreases |parts|
  {
    if parts != [] {
      var front := parts[..|parts| - 1];
      ParseAllOk(front, parse);
      assert forall k :: 0 <= k < |front| ==> front[k] == parts[k];
    }
  }

  /** A failure is the failure of the first part that does not parse. */
  lemma {:induction false} ParseAllErr<T>(parts: seq<Bytes>, parse: (Bytes, nat) -> Result<T, ParseError>)
    ensures ParseAll(parts, parse).Err? ==>
              exists k :: 0 <= k < |parts| && parse(parts[k], k).Err? &&
                          ParseAll(parts, parse).error == parse(parts[k], k).error &&
                          forall j :: 0 <= j < k ==> parse(parts[j], j).Ok?
    decreases |parts|
  {
    if parts != [] {
      var front := parts[..|parts| - 1];
      ParseAllErr(front, parse);
      ParseAllOk(front, parse);
      assert forall k :: 0 <= k < |front| ==> front[k] == parts[k];
    }
  }

  /** An error in the first `n` parts is the error of all of them. */
  lemma {:induction false} ParseAllErrSticky<T>(parts: seq<Bytes>, n: nat, parse: (Bytes, nat) -> Result<T, ParseError>)
    requires n <= |parts| && ParseAll(parts[..n], parse).Err?
    ensures ParseAll(parts, parse) == ParseAll(parts[..n], parse)
    decreases |parts| - n
  {
    if n < |parts| {
      assert parts[..n + 1][..n] == parts[..n];
      ParseAllErrSticky(parts, n + 1, parse);
    } else {
      assert parts[..n] == parts;
    }
  }

  /** The fields are the parts parsed one by one, the k-th as file k, and
      a failure is that of the first part that does not parse. */
  lemma FieldsSpec(parts: seq<Bytes>, decode: Bytes -> string)
    ensures Fields(parts, decode).Ok? <==> forall k :: 0 <= k < |parts| ==> ParsePart(parts[k], decode, k).Ok?
    ensures Fields(parts, decode).Ok? ==>
              forall k :: 0 <= k < |parts| ==> Fields(parts, decode).value[k] == ParsePart(parts[k], decode, k).value
    ensures Fields(parts, decode).Err? ==>
              exists k :: 0 <= k < |parts| && ParsePart(parts[k], decode, k).Err? &&
                          Fields(parts, decode).error == ParsePart(parts[k], decode, k).error &&
                          forall j :: 0 <= j < k ==> ParsePart(parts[j], decode, j).Ok?
  {
    ParseAllOk(parts, (p: Bytes, k: nat) => ParsePart(p, decode, k));
    ParseAllErr(parts, (p: Bytes, k: nat) => ParsePart(p, decode, k));
  }

  /** `MultiPartFormParser(content_parameter, body, charset)`, after a
      successful construction. */
  class MultiPartFormParser {
    const boundary: Bytes
    const body: Bytes
    const decode: Bytes -> string

    constructor(boundary: Bytes, body: Bytes, decode: Bytes -> string)
      ensures this.boundary == boundary && this.body == body && this.decode == decode
    {
      this.boundary := boundary;
      this.body := body;
      this.decode := decode;
    }

    /** `run()`: every part appended to a new form with
        `append_value(error=False)`, in order; the first part that fails
        raises. */
    method Run() returns (r: Result<MultiValueDict<string, FormValue>, ParseError>)
      ensures var fields := Fields(Parts(body, boundary), decode);
              (fields.Err? ==> r == Err(fields.error)) &&
              (fields.Ok? ==> r.Ok? && fresh(r.value) && r.value.data == AppendAll(map[], fields.value))
    {
      var parts := Parts(body, boundary);
      var form := new MultiValueDict<string, FormValue>();
      var i := 0;
      while i < |parts|
        invariant i <= |parts|
        invariant fresh(form)
        invariant Fields(parts[..i], decode).Ok?
        invariant form.data == AppendAll(map[], Fields(parts[..i], decode).value)
      {
        FieldsSnoc(parts, i, decode);
        var f := ParsePart(parts[i], decode, i);
        if f.Err? {
          FieldsFailAt(parts, i, decode);
          return Err(f.error);
        }
        AppendAllSnoc(map[], Fields(parts[..i], decode).value, f.value.0, f.value.1);
        var _ := form.AppendValue(f.value.0, f.value.1, false);
        i := i + 1;
      }
      assert parts[..|parts|] == parts;
      return Ok(form);
    }
  }

  /** One more part: its field, or its error. */
  lemma FieldsSnoc(parts: seq<Bytes>, i: nat, decode: Bytes -> string)
    requires i < |parts| && Fields(parts[..i], decode).Ok?
    ensures Fields(parts[..i + 1], decode) ==
              match ParsePart(parts[i], decode, i)
              case Err(e) => Err(e)
              case Ok(f) => Ok(Fields(parts[..i], decode).value + [f])
  {
    assert parts[..i + 1][..i] == parts[..i];
  }

  /** A part that fails fails the whole form with its error. */
  lemma FieldsFailAt(parts: seq<Bytes>, i: nat, decode: Bytes -> string)
    requires i < |parts| && Fields(parts[..i], decode).Ok? && ParsePart(parts[i], decode, i).Err?
    ensures Fields(parts, decode) == Err(ParsePart(parts[i], decode, i).error)
  {
    FieldsSnoc(parts, i, decode);
    ParseAllErrSticky(parts, i + 1, (p: Bytes, k: nat) => ParsePart(p, decode, k));
  }

  /** The parser's constructor: the corrected boundary lookup, then the
      parser. */
  method NewMultiPartFormParser(params: map<string, string>, body: Bytes, encode: string -> Bytes, decode: Bytes -> string)
    returns (r: Result<MultiPartFormParser, ParseError>)
    ensures Boundary(params, encode).Err? ==> r == Err(BoundaryMissing)
    ensures Boundary(params, encode).Ok? ==>
              r.Ok? && fresh(r.value) && r.value.boundary == encode(params["boundary"]) &&
              r.value.body == body && r.value.decode == decode
  {
    var b := Boundary(params, encode);
    if b.Err? {
      return Err(b.error);
    }
    var p := new MultiPartFormParser(b.value, body, decode);
    return Ok(p);
  }

  /** Repeated names accumulate: each name's list holds the values of its
      parts in the order of the body. */
  lemma RepeatedNamesAccumulate(parts: seq<Bytes>, decode: Bytes -> string, name: string)
    requires Fields(parts, decode).Ok?
    ensures var fields := Fields(parts, decode).value;
            (name in AppendAll(map[], fields) <==> ValuesOf(fields, name) != []) &&
            (name in AppendAll(map[], fields) ==> AppendAll(map[], fields)[name] == ValuesOf(fields, name))
  {
    AppendAllSpec(map[], Fields(parts, decode).value, name);
  }

  // ---- url-encoded bodies ------------------------------------------------

  /** The text fields of `parse_qsl`'s pairs. */
  function TextPairs(pairs: seq<(string, string)>): (r: seq<(string, FormValue)>)
    ensures |r| == |pairs|
    ensures forall k :: 0 <= k < |pairs| ==> r[k] == (pairs[k].0, TextField(pairs[k].1))
  {
    seq(|pairs|, k requires 0 <= k < |pairs| => (pairs[k].0, TextField(pairs[k].1)))
  }

  /** `FormParser(stream)`. */
  class FormParser {
    const stream: Bytes

    constructor(stream: Bytes)
      ensures this.stream == stream
    {
      this.stream := stream;
    }

    /** `run()`: the pairs `parse_qsl` finds in the Latin-1 text of the
        stream (blank values dropped), appended in order. */
    method Run(parseQsl: string -> seq<(string, string)>) returns (form: MultiValueDict<string, FormValue>)
      ensures fresh(form)
      ensures form.data == AppendAll(map[], TextPairs(parseQsl(Latin1Decode(stream))))
    {
      var pairs := parseQsl(Latin1Decode(stream));
      form := new MultiValueDict<string, FormValue>();
      var i := 0;
      while i < |pairs|
        invariant i <= |pairs|
        invariant fresh(form)
        invariant form.data == AppendAll(map[], TextPairs(pairs[..i]))
      {
        assert TextPairs(pairs[..i + 1]) == TextPairs(pairs[..i]) + [(pairs[i].0, TextField(pairs[i].1))];
        AppendAllSnoc(map[], TextPairs(pairs[..i]), pairs[i].0, TextField(pairs[i].1));
        var _ := form.AppendValue(pairs[i].0, TextField(pairs[i].1), false);
        i := i + 1;
      }
      assert pairs[..|pairs|] == pairs;
    }
  }
}
