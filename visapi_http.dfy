/** The multipart parser of the newest generation. It reads the body as a
    stream of chunks into a buffer and cuts a part out whenever the buffer
    holds two occurrences of the boundary, so parts are found as the
    chunks arrive. Each part is read like the middle generation's parts;
    in addition the `name` is decoded with the disposition's `charset`
    parameter, and a `filename*` parameter (section 3.2.1 of RFC 8187) is
    percent-decoded with its own charset. Decoding with a named charset
    and `unquote` are parameters. */
module VisapiHttp {
  import opened Wrappers
  import opened Text
  import opened Bytes
  import opened VankParsers
  import opened VisapiDatastructure

  const CharsetKey: Bytes := Latin1("charset")
  const FilenameStarKey: Bytes := Latin1("filename*")
  const Utf8: Bytes := Latin1("utf-8")
  const Apostrophe: Bytes := Latin1("'")

  /** Decoding bytes with a named charset (or percent-decoding them). */
  type Decoder = (Bytes, Bytes) -> string

  /** A form value: decoded text, or a `FormFile` with its name, its
      `headers` attribute and the content written to it. The call
      `FormFile(filename, content_type, disposition_parameters)` passes its
      arguments by position against `FormFile(filename, headers,
      content_type)`, so the part's decoded Content-Type text is what the
      object holds as `headers`; its `content_type` attribute holds the
      disposition parameters. */
  datatype FieldValue = TextValue(text: string) | FileValue(filename: string, headers: string, content: Bytes)

  // ---- one part -------------------------------------------------------------

  /** The file name: a `filename*` of the form `charset'language'value` is
      percent-decoded with its charset; any other `filename*`, or none,
      leaves the plain `filename` decoded as UTF-8. */
  function Filename(params: map<Bytes, Bytes>, decode: Decoder,
                    unquote: Decoder): string
    requires FilenameKey in params
  {
    if FilenameStarKey in params && |Split(params[FilenameStarKey], Apostrophe)| == 3 then
      var pieces := Split(params[FilenameStarKey], Apostrophe);
      unquote(pieces[2], pieces[0])
    else decode(Utf8, params[FilenameKey])
  }

  /** One part, up to `append_value`: the head read as by the middle
      generation, then ParseException without `name`; the name decoded with
      the `charset` parameter (UTF-8 by default); a file exactly when
      `filename` is present, and otherwise the content decoded as UTF-8. */
  function FieldOf(part: Bytes, decode: Decoder, unquote: Decoder): Result<(string, FieldValue), ParseError>
  {
    match ReadPart(part)
    case Err(e) => Err(e)
    case Ok(PartHead(headers, params, content)) =>
      if NameKey !in params then Err(NameMissing)
      else
        var charset := if CharsetKey in params then params[CharsetKey] else Utf8;
        var name := decode(charset, params[NameKey]);
        if FilenameKey in params then
          var ctype := if ContentTypeKey in headers then headers[ContentTypeKey] else [];
          Ok((name, FileValue(Filename(params, decode, unquote), decode(Utf8, ctype), content)))
        else Ok((name, TextValue(decode(Utf8, content))))
  }

  /** What a part yields, in terms of its head. */
  lemma FieldOfSpec(part: Bytes, decode: Decoder, unquote: Decoder)
    ensures var r := FieldOf(part, decode, unquote);
            (ReadPart(part).Err? ==> r == Err(ReadPart(part).error)) &&
            (ReadPart(part).Ok? ==>
               var h := ReadPart(part).value;
               (r.Err? <==> NameKey !in h.params) &&
               (r.Err? ==> r.error == NameMissing) &&
               (r.Ok? ==> r.value.0 == decode(if CharsetKey in h.params then h.params[CharsetKey] else Utf8, h.params[NameKey]) &&
                          (r.value.1.FileValue? <==> FilenameKey in h.params) &&
                          (r.value.1.FileValue? ==> r.value.1.content == h.content &&
                                                    r.value.1.filename == Filename(h.params, decode, unquote)) &&
                          (r.value.1.TextValue? ==> r.value.1.text == decode(Utf8, h.content))))
  {
  }

  lemma KeyOctets()
    ensures |CharsetKey| == 7 && |NameKey| == 4 && |FilenameKey| == 8
  {
  }

  /** A text field built as a client builds it (no charset parameter)
      parses back to its name and value, both decoded as UTF-8. */
  lemma TextPartParsed(name: Bytes, value: Bytes, decode: Decoder, unquote: Decoder)
    requires 13 !in name && 59 !in name && 61 !in name && 34 !in name
    requires value == [] || (value[0] !in LineEnds && value[|value| - 1] !in LineEnds)
    ensures FieldOf(TextPart(name, value), decode, unquote) == Ok((decode(Utf8, name), TextValue(decode(Utf8, value))))
  {
    AppendAssoc(Crlf + DispositionLine(name) + BlankLine, value, Crlf);
    ValueTrim(value);
    FieldReadsBack(name, value + Crlf, decode, unquote);
  }

  /** A part with a plain disposition line reads back as a text field of
      that name whose value is the body without its line ends. */
  lemma FieldReadsBack(name: Bytes, body: Bytes, decode: Decoder, unquote: Decoder)
    requires 13 !in name && 59 !in name && 61 !in name && 34 !in name
    ensures FieldOf(Crlf + DispositionLine(name) + BlankLine + body, decode, unquote) ==
              Ok((decode(Utf8, name), TextValue(decode(Utf8, Trim(body, LineEnds)))))
  {
    ReadField(name, body);
    KeyOctets();
  }

  // ---- cutting the buffer ---------------------------------------------------

  /** One step of the inner loop: the bytes between the first occurrence of
      `b` and the next one, and the buffer cut back to start at that next
      one; None when the buffer holds fewer than two. */
  function NextPart(buffer: Bytes, b: Bytes): (r: Option<(Bytes, Bytes)>)
    requires |b| > 0
    ensures r.Some? ==> |r.value.1| < |buffer| && StartsWith(r.value.1, b)
  {
    match SplitOnce(buffer, b)
    case None => None
    case Some((_, after)) =>
      match SplitOnce(after, b)
      case None => None
      case Some((part, post)) => Some((part, b + post))
  }

  /** Every part the loop cuts from a buffer, in order. */
  function Segments(buffer: Bytes, b: Bytes): seq<Bytes>
    requires |b| > 0
    decreases |buffer|
  {
    match NextPart(buffer, b)
    case None => []
    case Some((part, remaining)) => [part] + Segments(remaining, b)
  }

  /** No occurrence of `sub` starts in `s` before index `n`. */
  predicate NoneBefore(s: Bytes, sub: Bytes, n: nat) {
    forall j: nat :: j < n ==> !OccursAt(s, sub, j)
  }

  /** An occurrence that fits in a buffer is unaffected by what follows. */
  lemma OccursExtend(s: Bytes, rest: Bytes, sub: Bytes, j: nat)
    requires j + |sub| <= |s|
    ensures OccursAt(s + rest, sub, j) <==> OccursAt(s, sub, j)
  {
    assert (s + rest)[j..j + |sub|] == s[j..j + |sub|];
  }

  /** The first occurrence in a buffer stays the first when more bytes
      arrive. */
  lemma IndexOfExtend(buffer: Bytes, rest: Bytes, b: Bytes)
    requires IndexOf(buffer, b).Some?
    ensures IndexOf(buffer + rest, b) == IndexOf(buffer, b)
  {
    var i := IndexOf(buffer, b).value;
    OccursExtend(buffer, rest, b, i);
    forall j: nat | j < i ensures !OccursAt(buffer + rest, b, j) {
      OccursExtend(buffer, rest, b, j);
    }
    FirstOccurrence(buffer + rest, b, i);
  }

  /** `split(sep, 1)` cuts at the first occurrence. */
  lemma SplitOnceIndex(s: Bytes, sep: Bytes)
    requires |sep| > 0
    ensures SplitOnce(s, sep).Some? <==> IndexOf(s, sep).Some?
    ensures SplitOnce(s, sep).Some? ==> |SplitOnce(s, sep).value.0| == IndexOf(s, sep).value
  {
  }

  /** A separator found in a buffer splits it the same way once more bytes
      arrive. */
  lemma SplitOnceExtend(s: Bytes, rest: Bytes, sep: Bytes)
    requires |sep| > 0 && SplitOnce(s, sep).Some?
    ensures SplitOnce(s + rest, sep) == Some((SplitOnce(s, sep).value.0, SplitOnce(s, sep).value.1 + rest))
  {
    var (x, y) := SplitOnce(s, sep).value;
    SplitOnceIndex(s, sep);
    IndexOfExtend(s, rest, sep);
    SplitOnceIndex(s + rest, sep);
    var (x', y') := SplitOnce(s + rest, sep).value;
    assert s + rest == x + sep + (y + rest);
    assert x' == (s + rest)[..|x|] == x;
  }

  /** A part found in a buffer is found the same way once more bytes
      arrive. */
  lemma NextPartExtend(buffer: Bytes, rest: Bytes, b: Bytes)
    requires |b| > 0 && NextPart(buffer, b).Some?
    ensures NextPart(buffer + rest, b) == Some((NextPart(buffer, b).value.0, NextPart(buffer, b).value.1 + rest))
  {
    var after := SplitOnce(buffer, b).value.1;
    var post := SplitOnce(after, b).value.1;
    SplitOnceExtend(buffer, rest, b);
    SplitOnceExtend(after, rest, b);
    AppendAssoc(b, post, rest);
  }

  /** Cutting one part and then the rest of the stream gives what cutting
      the whole stream gives. */
  lemma SegmentsStep(buffer: Bytes, rest: Bytes, b: Bytes)
    requires |b| > 0 && NextPart(buffer, b).Some?
    ensures Segments(buffer + rest, b) ==
              [NextPart(buffer, b).value.0] + Segments(NextPart(buffer, b).value.1 + rest, b)
  {
    NextPartExtend(buffer, rest, b);
  }

  /** With no earlier occurrence, `x + d + y` splits right after `x`. */
  lemma SplitFirst(x: Bytes, d: Bytes, y: Bytes)
    requires |d| > 0 && NoneBefore(x + d, d, |x|)
    ensures SplitOnce(x + d + y, d) == Some((x, y))
  {
    assert (x + d)[|x|..|x| + |d|] == d;
    FirstOccurrence(x + d, d, |x|);
    IndexOfExtend(x + d, y, d);
    SplitOnceIndex(x + d + y, d);
    var (x', y') := SplitOnce(x + d + y, d).value;
    assert x' == (x + d + y)[..|x|] == x;
  }

  /** A part between two delimiters, with no delimiter starting before it
      or inside it, is the first part cut. */
  lemma SegmentsAround(pre: Bytes, d: Bytes, part: Bytes, tail: Bytes)
    requires |d| > 0
    requires NoneBefore(pre + d, d, |pre|)
    requires NoneBefore(part + d, d, |part|)
    ensures Segments(pre + d + part + d + tail, d) == [part] + Segments(d + tail, d)
  {
    assert pre + d + part + d + tail == pre + d + (part + d + tail);
    SplitFirst(pre, d, part + d + tail);
    SplitFirst(part, d, tail);
  }

  // ---- the whole stream -------------------------------------------------------

  /** The parts parsed in order; the first failing part decides the
      error. */
  function ParseParts(parts: seq<Bytes>, decode: Decoder, unquote: Decoder): Result<seq<(string, FieldValue)>, ParseError> {
    ParseAll(parts, (p: Bytes, k: nat) => FieldOf(p, decode, unquote))
  }

  /** One more part. */
  lemma ParsePartsSnoc(parts: seq<Bytes>, part: Bytes, decode: Decoder, unquote: Decoder)
    ensures ParseParts(parts + [part], decode, unquote) ==
              match ParseParts(parts, decode, unquote)
              case Err(e) => Err(e)
              case Ok(fs) =>
                match FieldOf(part, decode, unquote)
                case Err(e) => Err(e)
                case Ok(f) => Ok(fs + [f])
  {
    assert (parts + [part])[..|parts|] == parts;
  }

  /** Parsing fails exactly when some part fails, with the error of the
      first one; otherwise the k-th field is that of the k-th part. */
  lemma ParsePartsSpec(parts: seq<Bytes>, decode: Decoder, unquote: Decoder)
    ensures ParseParts(parts, decode, unquote).Ok? <==> forall k :: 0 <= k < |parts| ==> FieldOf(parts[k], decode, unquote).Ok?
    ensures ParseParts(parts, decode, unquote).Ok? ==>
              |ParseParts(parts, decode, unquote).value| == |parts| &&
              forall k :: 0 <= k < |parts| ==> ParseParts(parts, decode, unquote).value[k] == FieldOf(parts[k], decode, unquote).value
    ensures ParseParts(parts, decode, unquote).Err? ==>
              exists k :: 0 <= k < |parts| && FieldOf(parts[k], decode, unquote).Err? &&
                          ParseParts(parts, decode, unquote).error == FieldOf(parts[k], decode, unquote).error &&
                          forall j :: 0 <= j < k ==> FieldOf(parts[j], decode, unquote).Ok?
  {
    ParseAllOk(parts, (p: Bytes, k: nat) => FieldOf(p, decode, unquote));
    ParseAllErr(parts, (p: Bytes, k: nat) => FieldOf(p, decode, unquote));
  }

  /** Once a prefix of the parts fails, later parts change nothing. */
  lemma ParsePartsSticky(parts: seq<Bytes>, more: seq<Bytes>, decode: Decoder, unquote: Decoder)
    requires ParseParts(parts, decode, unquote).Err?
    ensures ParseParts(parts + more, decode, unquote) == ParseParts(parts, decode, unquote)
  {
    assert (parts + more)[..|parts|] == parts;
    ParseAllErrSticky(parts + more, |parts|, (p: Bytes, k: nat) => FieldOf(p, decode, unquote));
  }

  /** What `parse()` returns for the chunk stream when the buffer is cut
      at `b`: an empty boundary raises ValueError as soon as a chunk
      arrives (the part between two empty matches is empty); otherwise the
      parts of the joined chunks, appended in order. */
  function ParseStream(chunks: seq<Bytes>, b: Bytes, decode: Decoder, unquote: Decoder)
    : Result<map<string, seq<FieldValue>>, ParseError>
  {
    if |b| == 0 then (if chunks == [] then Ok(map[]) else Err(Unpacking))
    else
      match ParseParts(Segments(Concat(chunks), b), decode, unquote)
      case Err(e) => Err(e)
      case Ok(fields) => Ok(Appended(map[], fields))
  }

  /** Names given twice keep all their values, in the order of the
      stream. */
  lemma StreamValues(chunks: seq<Bytes>, b: Bytes, decode: Decoder, unquote: Decoder, name: string)
    requires |b| > 0 && ParseParts(Segments(Concat(chunks), b), decode, unquote).Ok?
    ensures var fields := ParseParts(Segments(Concat(chunks), b), decode, unquote).value;
            var form := ParseStream(chunks, b, decode, unquote).value;
            (name in form <==> ValuesFor(fields, name) != []) &&
            (name in form ==> form[name] == ValuesFor(fields, name))
  {
    AppendedValues(map[], ParseParts(Segments(Concat(chunks), b), decode, unquote).value, name);
  }

  /** The chunks from `i` on: chunk `i`, then those after it. */
  lemma ConcatFrom(chunks: seq<Bytes>, i: nat)
    requires i < |chunks|
    ensures Concat(chunks[i..]) == chunks[i] + Concat(chunks[i + 1..])
  {
    assert chunks[i..][1..] == chunks[i + 1..];
  }

  /** Appending one more field. */
  lemma AppendedSnoc(fields: seq<(string, FieldValue)>, f: (string, FieldValue))
    ensures Appended(map[], fields + [f]) == AppendOne(Appended(map[], fields), f.0, f.1)
  {
    assert (fields + [f])[..|fields|] == fields;
  }

  // ---- the parser -------------------------------------------------------------

  /** The boundary argument: bytes, or a text encoded as Latin-1. */
  datatype BoundaryArg = BytesBoundary(data: Bytes) | TextBoundary(text: string)

  /** The UnicodeEncodeError of a text boundary outside Latin-1. */
  datatype EncodeError = UnicodeEncodeError

  /** `MultiPartFormParser(body, boundary)`, the body being its chunks in
      arrival order. */
  class MultiPartFormParser {
    const body: seq<Bytes>
    const boundary: Bytes

    constructor(body: seq<Bytes>, boundary: Bytes)
      ensures this.body == body && this.boundary == boundary
    {
      this.body := body;
      this.boundary := boundary;
    }

    /** `parse()` with the buffer cut at the delimiter `--boundary`: each
        chunk is appended to the buffer, and while the buffer holds two
        delimiters the part between them is parsed and appended to the form
        and the buffer restarts at the second one. The result depends only
        on the joined chunks, not on how they were split. */
    method Parse(decode: Decoder, unquote: Decoder) returns (r: Result<MultiValueDict<string, FieldValue>, ParseError>)
      ensures var spec := ParseStream(body, Dashes + boundary, decode, unquote);
              (r.Ok? <==> spec.Ok?) && (r.Err? ==> r.error == spec.error) &&
              (r.Ok? ==> fresh(r.value) && r.value.data == spec.value && NonEmptyLists(r.value.data))
    {
      var d := Dashes + boundary;
      assert |Dashes| == 2;
      var none: seq<(string, FieldValue)> := [];
      assert none + none == none;
      var form := new MultiValueDict<string, FieldValue>(none, none);
      var buffer: Bytes := [];
      ghost var done: seq<Bytes> := [];
      ghost var fields: seq<(string, FieldValue)> := [];
      assert body[0..] == body;
      AppendNil(Concat(body));
      AppendNil(Segments(Concat(body), d));
      var i := 0;
      while i < |body|
        invariant i <= |body|
        invariant fresh(form)
        invariant Segments(Concat(body), d) == done + Segments(buffer + Concat(body[i..]), d)
        invariant NextPart(buffer, d).None?
        invariant ParseParts(done, decode, unquote) == Ok(fields)
        invariant form.data == Appended(map[], fields)
      {
        ConcatFrom(body, i);
        AppendAssoc(buffer, body[i], Concat(body[i + 1..]));
        buffer := buffer + body[i];
        while true
          invariant fresh(form)
          invariant Segments(Concat(body), d) == done + Segments(buffer + Concat(body[i + 1..]), d)
          invariant ParseParts(done, decode, unquote) == Ok(fields)
          invariant form.data == Appended(map[], fields)
          decreases |buffer|
        {
          var first := SplitOnce(buffer, d);
          if first.None? {
            break;
          }
          var second := SplitOnce(first.value.1, d);
          if second.None? {
            break;
          }
          var part := second.value.0;
          ghost var rest := Concat(body[i + 1..]);
          SegmentsStep(buffer, rest, d);
          AppendAssoc(done, [part], Segments(d + second.value.1 + rest, d));
          ParsePartsSnoc(done, part, decode, unquote);
          var f := FieldOf(part, decode, unquote);
          if f.Err? {
            ParsePartsSticky(done + [part], Segments(d + second.value.1 + rest, d), decode, unquote);
            return Err(f.error);
          }
          AppendedSnoc(fields, f.value);
          var _ := form.AppendValue(f.value.0, f.value.1, false);
          done := done + [part];
          fields := fields + [f.value];
          buffer := d + second.value.1;
        }
        i := i + 1;
      }
      assert body[|body|..] == [];
      AppendNil(buffer);
      AppendNil(done);
      return Ok(form);
    }
  }

  /** The constructor's boundary: bytes as given, a text encoded as
      Latin-1. */
  method NewMultiPartFormParser(body: seq<Bytes>, arg: BoundaryArg) returns (r: Result<MultiPartFormParser, EncodeError>)
    ensures arg.BytesBoundary? ==> r.Ok? && fresh(r.value) && r.value.boundary == arg.data && r.value.body == body
    ensures arg.TextBoundary? ==> (r.Ok? <==> IsLatin1(arg.text))
    ensures arg.TextBoundary? && r.Ok? ==> fresh(r.value) && r.value.boundary == Latin1(arg.text) && r.value.body == body
  {
    if arg.BytesBoundary? {
      var p := new MultiPartFormParser(body, arg.data);
      return Ok(p);
    }
    if !IsLatin1(arg.text) {
      return Err(UnicodeEncodeError);
    }
    var p := new MultiPartFormParser(body, Latin1(arg.text));
    return Ok(p);
  }

  // ---- the delimiter --------------------------------------------------------

  /** The parse as written: the buffer is cut at the bare boundary, not at
      the `--boundary` delimiter. */
  function ParseStreamAsWritten(chunks: seq<Bytes>, boundary: Bytes, decode: Decoder,
                                unquote: Decoder): Result<map<string, seq<FieldValue>>, ParseError> {
    ParseStream(chunks, boundary, decode, unquote)
  }

  /** Cut at the bare boundary, a field's part keeps the `--` of the next
      delimiter, so its value ends with CR LF `--`. */
  lemma BareBoundaryKeepsDashes(boundary: Bytes, name: Bytes, value: Bytes, tail: Bytes,
                                decode: Decoder, unquote: Decoder)
    requires |boundary| > 0
    requires NoneBefore(Dashes + boundary, boundary, 2)
    requires NoneBefore(TextPart(name, value) + Dashes + boundary, boundary, |TextPart(name, value)| + 2)
    requires 13 !in name && 59 !in name && 61 !in name && 34 !in name
    requires value != [] && value[0] !in LineEnds
    ensures var parts := Segments(Dashes + boundary + TextPart(name, value) + Dashes + boundary + tail, boundary);
            |parts| >= 1 && parts[0] == TextPart(name, value) + Dashes &&
            FieldOf(parts[0], decode, unquote) == Ok((decode(Utf8, name), TextValue(decode(Utf8, value + Crlf + Dashes))))
  {
    var part := TextPart(name, value) + Dashes;
    AppendAssoc(Dashes + boundary, TextPart(name, value), Dashes);
    SegmentsAround(Dashes, boundary, part, tail);
    DashedFieldParsed(name, value, decode, unquote);
  }

  /** Stripping CR and LF leaves a value that ends with `--` as it is. */
  lemma DashedTrim(value: Bytes)
    requires value != [] && value[0] !in LineEnds
    ensures Trim(value + Crlf + Dashes, LineEnds) == value + Crlf + Dashes
  {
    assert Dashes == [45, 45];
    var v := value + Crlf + Dashes;
    assert v[0] == value[0] && v[|v| - 1] == 45;
  }

  /** A field followed by `--` reads as a field whose value ends with
      CR LF `--`. */
  lemma DashedFieldParsed(name: Bytes, value: Bytes, decode: Decoder, unquote: Decoder)
    requires 13 !in name && 59 !in name && 61 !in name && 34 !in name
    requires value != [] && value[0] !in LineEnds
    ensures FieldOf(TextPart(name, value) + Dashes, decode, unquote) == Ok((decode(Utf8, name), TextValue(decode(Utf8, value + Crlf + Dashes))))
  {
    var head := Crlf + DispositionLine(name) + BlankLine;
    AppendAssoc(head, value, Crlf);
    AppendAssoc(head, value + Crlf, Dashes);
    DashedTrim(value);
    FieldReadsBack(name, value + Crlf + Dashes, decode, unquote);
  }

  /** Cut at the `--boundary` delimiter, a field's part is exactly the
      field, which parses back to its name and value. */
  lemma DelimiterGivesField(boundary: Bytes, name: Bytes, value: Bytes, tail: Bytes,
                            decode: Decoder, unquote: Decoder)
    requires NoneBefore(TextPart(name, value) + Dashes + boundary, Dashes + boundary, |TextPart(name, value)|)
    requires 13 !in name && 59 !in name && 61 !in name && 34 !in name
    requires value == [] || (value[0] !in LineEnds && value[|value| - 1] !in LineEnds)
    ensures var parts := Segments(Dashes + boundary + TextPart(name, value) + Dashes + boundary + tail, Dashes + boundary);
            |parts| >= 1 && parts[0] == TextPart(name, value) &&
            FieldOf(parts[0], decode, unquote) == Ok((decode(Utf8, name), TextValue(decode(Utf8, value))))
  {
    var d := Dashes + boundary;
    assert |Dashes| == 2;
    assert Dashes + boundary + TextPart(name, value) + Dashes + boundary + tail == [] + d + TextPart(name, value) + d + tail;
    assert TextPart(name, value) + d == TextPart(name, value) + Dashes + boundary;
    SegmentsAround([], d, TextPart(name, value), tail);
    TextPartParsed(name, value, decode, unquote);
  }
}
