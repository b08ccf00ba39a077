/** Body parsing of the oldest generation. The `multipart` tokenizer calls
    back into the parser, which records (state, bytes) events; `run` then
    folds the recorded events into a `Form`. The tokenizer itself is not
    part of this model: the recorded events are the input. */
module LegacyParsers {
  import opened Wrappers
  import opened Text
  import opened Bytes
  import opened OrderedDicts
  import opened LegacyDatastructures

  // ---- multipart bodies -------------------------------------------------

  /** `MultipartState` with the bytes each callback records. */
  datatype PartEvent =
    | PartBegin | PartData(data: Bytes) | PartEnd
    | HeaderBegin | HeaderField(data: Bytes) | HeaderValue(data: Bytes) | HeaderEnd
    | HeadersFinished | PartsEnd

  /** Python's `data[start:end]` for non-negative bounds: both are clamped
      to the length, and an empty slice results when `end <= start`. */
  function SliceOf(data: Bytes, start: nat, end: nat): (r: Bytes)
    ensures start <= end <= |data| ==> r == data[start..end]
    ensures |r| <= |data|
  {
    var e := if end <= |data| then end else |data|;
    var s := if start <= e then start else e;
    data[s..e]
  }

  /** The outcome of `MultipartParser.run`: the form, or the
      ParseException raised for a part without a `name` parameter. */
  datatype ParseError = MissingName

  /** `self.parameters.get(b'boundary')`: `get` never raises, so the
      KeyError handler that would raise "boundary required" is dead code and
      a missing boundary goes on to the tokenizer as None. */
  function BoundaryOf(parameters: map<Bytes, Bytes>): (r: Result<Option<Bytes>, ParseError>)
    ensures r.Ok?
    ensures r.value.None? <==> Latin1("boundary") !in parameters
  {
    if Latin1("boundary") in parameters then Ok(Some(parameters[Latin1("boundary")])) else Ok(None)
  }

  /** The helpers `run` calls that belong to other libraries:
      `parse_options_header` of the disposition (given None when the part
      had no Content-Disposition) and `bytes.decode(self.charset)`. */
  datatype Codec = Codec(options: Option<Bytes> -> map<Bytes, Bytes>, decode: Bytes -> string)

  /** An upload file the fold has opened, as values. */
  datatype FileState = FileState(filename: string, contentType: string, headers: seq<(Bytes, Bytes)>,
                                 content: Bytes, position: nat)

  /** A form entry: field bytes, or the index of an opened file. */
  datatype Entry = FieldBytes(bytes: Bytes) | FileAt(index: nat)

  /** The accumulators of `run`. `file` is the index of the current upload
      file in `files`, every file opened so far in order. */
  datatype PartState = PartState(
    headerField: Bytes, headerValue: Bytes, disposition: Option<Bytes>, contentType: Bytes,
    fieldName: string, data: Bytes, file: Option<nat>, files: seq<FileState>,
    items: seq<(string, Entry)>, itemHeaders: seq<(Bytes, Bytes)>)

  const PartStart: PartState := PartState([], [], None, [], "", [], None, [], [], [])

  /** The accumulators only ever point at files that exist. */
  predicate PartWf(st: PartState) {
    (st.file.Some? ==> st.file.value < |st.files|) &&
    forall i :: 0 <= i < |st.items| && st.items[i].1.FileAt? ==> st.items[i].1.index < |st.files|
  }

  const ContentDisposition: Bytes := Latin1("content-disposition")
  const ContentType: Bytes := Latin1("content-type")
  const NameKey: Bytes := Latin1("name")
  const FilenameKey: Bytes := Latin1("filename")

  /** One event of the fold. */
  function PartStep(st: PartState, ev: PartEvent, codec: Codec): (r: Result<PartState, ParseError>)
    requires PartWf(st)
    ensures r.Ok? ==> PartWf(r.value) && |r.value.files| >= |st.files|
  {
    match ev
    case PartBegin => Ok(st.(disposition := None, contentType := [], data := [], itemHeaders := []))
    case HeaderField(b) => Ok(st.(headerField := st.headerField + b))
    case HeaderValue(b) => Ok(st.(headerValue := st.headerValue + b))
    case HeaderEnd =>
      var field := LowerBytes(st.headerField);
      var disposition := if field == ContentDisposition then Some(st.headerValue) else st.disposition;
      var contentType := if field != ContentDisposition && field == ContentType then st.headerValue else st.contentType;
      Ok(st.(disposition := disposition, contentType := contentType,
             itemHeaders := st.itemHeaders + [(field, st.headerValue)], headerField := [], headerValue := []))
    case HeadersFinished =>
      var options := codec.options(st.disposition);
      if NameKey !in options then Err(MissingName)
      else
        var name := codec.decode(options[NameKey]);
        if FilenameKey in options then
          var f := FileState(codec.decode(options[FilenameKey]), codec.decode(st.contentType), st.itemHeaders, [], 0);
          Ok(st.(fieldName := name, file := Some(|st.files|), files := st.files + [f]))
        else
          Ok(st.(fieldName := name, file := None))
    case PartData(b) =>
      if st.file.None? then Ok(st.(data := st.data + b))
      else
        var i := st.file.value;
        var f := st.files[i];
        Ok(st.(files := st.files[i := f.(content := Overwrite(f.content, f.position, b), position := f.position + |b|)]))
    case PartEnd =>
      if st.file.None? then Ok(st.(items := st.items + [(st.fieldName, FieldBytes(st.data))]))
      else
        var i := st.file.value;
        Ok(st.(files := st.files[i := st.files[i].(position := 0)], items := st.items + [(st.fieldName, FileAt(i))]))
    case HeaderBegin => Ok(st)
    case PartsEnd => Ok(st)
  }

  /** What each event does: a part start resets the per-part buffers but
      not the current file; a header end records the lower-cased field with
      its value; the end of the headers fails exactly without `name` and
      opens a new, empty file exactly when `filename` is given; a part end
      appends exactly one item. */
  lemma PartStepSpec(st: PartState, ev: PartEvent, codec: Codec)
    requires PartWf(st)
    ensures ev.PartBegin? ==>
              PartStep(st, ev, codec) == Ok(st.(disposition := None, contentType := [], data := [], itemHeaders := []))
    ensures ev.HeaderEnd? ==>
              PartStep(st, ev, codec).Ok? &&
              PartStep(st, ev, codec).value.itemHeaders == st.itemHeaders + [(LowerBytes(st.headerField), st.headerValue)] &&
              PartStep(st, ev, codec).value.headerField == [] && PartStep(st, ev, codec).value.headerValue == []
    ensures ev.HeadersFinished? ==>
              (PartStep(st, ev, codec).Err? <==> NameKey !in codec.options(st.disposition))
    ensures ev.HeadersFinished? && PartStep(st, ev, codec).Ok? ==>
              var st' := PartStep(st, ev, codec).value;
              (st'.file.Some? <==> FilenameKey in codec.options(st.disposition)) &&
              (st'.file.Some? ==> |st'.files| == |st.files| + 1 && st'.files[st'.file.value].content == [] &&
                                  st'.files[..|st.files|] == st.files) &&
              (st'.file.None? ==> st'.files == st.files)
    ensures ev.PartEnd? ==>
              PartStep(st, ev, codec).Ok? &&
              PartStep(st, ev, codec).value.items[..|st.items|] == st.items &&
              |PartStep(st, ev, codec).value.items| == |st.items| + 1
  {
  }

  /** The fold over the remaining events; the first ParseException ends it. */
  function PartFold(st: PartState, evs: seq<PartEvent>, codec: Codec): (r: Result<PartState, ParseError>)
    requires PartWf(st)
    ensures r.Ok? ==> PartWf(r.value) && |r.value.files| >= |st.files|
    decreases |evs|
  {
    if evs == [] then Ok(st)
    else
      match PartStep(st, evs[0], codec)
      case Err(e) => Err(e)
      case Ok(st') => PartFold(st', evs[1..], codec)
  }

  /** The form's pairs, with each file index replaced by its object. */
  function Resolve(items: seq<(string, Entry)>, objs: seq<UploadFile>): (r: seq<(string, Item)>)
    requires forall i :: 0 <= i < |items| && items[i].1.FileAt? ==> items[i].1.index < |objs|
    ensures |r| == |items|
    ensures forall i :: 0 <= i < |items| ==> r[i].0 == items[i].0
    ensures forall i :: 0 <= i < |items| && items[i].1.FieldBytes? ==> r[i].1 == Data(items[i].1.bytes)
    ensures forall i :: 0 <= i < |items| && items[i].1.FileAt? ==> r[i].1 == Upload(objs[items[i].1.index])
  {
    seq(|items|, i requires 0 <= i < |items| =>
      (items[i].0, match items[i].1 case FieldBytes(b) => Data(b) case FileAt(j) => Upload(objs[j])))
  }

  /** The events of a run of data chunks. */
  function DataEvents(chunks: seq<Bytes>): seq<PartEvent>
    decreases |chunks|
  {
    if chunks == [] then [] else [PartData(chunks[0])] + DataEvents(chunks[1..])
  }

  /** Data events of a field part accumulate in arrival order. */
  lemma {:induction false} DataEventsField(st: PartState, chunks: seq<Bytes>, codec: Codec)
    requires PartWf(st) && st.file.None?
    ensures PartFold(st, DataEvents(chunks), codec) == Ok(st.(data := st.data + Concat(chunks)))
    decreases |chunks|
  {
    if chunks != [] {
      var st' := st.(data := st.data + chunks[0]);
      assert DataEvents(chunks)[0] == PartData(chunks[0]);
      assert DataEvents(chunks)[1..] == DataEvents(chunks[1..]);
      DataEventsField(st', chunks[1..], codec);
      assert st.data + chunks[0] + Concat(chunks[1..]) == st.data + Concat(chunks);
    } else {
      assert st.data + [] == st.data;
    }
  }

  /** Folding two event lists in a row is folding their concatenation. */
  lemma {:induction false} PartFoldAppend(st: PartState, xs: seq<PartEvent>, ys: seq<PartEvent>, codec: Codec)
    requires PartWf(st)
    ensures PartFold(st, xs + ys, codec) ==
            match PartFold(st, xs, codec)
            case Err(e) => Err(e)
            case Ok(mid) => PartFold(mid, ys, codec)
    decreases |xs|
  {
    if xs != [] {
      assert (xs + ys)[0] == xs[0] && (xs + ys)[1..] == xs[1..] + ys;
      match PartStep(st, xs[0], codec)
      case Err(_) =>
      case Ok(st') => PartFoldAppend(st', xs[1..], ys, codec);
    } else {
      assert [] + ys == ys;
    }
  }

  /** A part without a `name` parameter in its disposition is refused at
      HeadersFinished, whatever came before. */
  lemma MissingNameRefused(st: PartState, rest: seq<PartEvent>, codec: Codec)
    requires PartWf(st) && NameKey !in codec.options(st.disposition)
    ensures PartFold(st, [HeadersFinished] + rest, codec) == Err(MissingName)
  {
    assert ([HeadersFinished] + rest)[0] == HeadersFinished;
  }

  /** A field part (no `filename`) after its headers appends exactly one item:
      the decoded name with the concatenated data bytes, undecoded. */
  lemma {:induction false} FieldPartItem(st: PartState, chunks: seq<Bytes>, codec: Codec)
    requires PartWf(st)
    requires NameKey in codec.options(st.disposition) && FilenameKey !in codec.options(st.disposition)
    ensures var name := codec.decode(codec.options(st.disposition)[NameKey]);
            PartFold(st.(data := []), [HeadersFinished] + DataEvents(chunks) + [PartEnd], codec).Ok? &&
            PartFold(st.(data := []), [HeadersFinished] + DataEvents(chunks) + [PartEnd], codec).value.items ==
              st.items + [(name, FieldBytes(Concat(chunks)))]
  {
    var s0 := st.(data := []);
    var name := codec.decode(codec.options(st.disposition)[NameKey]);
    var s1 := s0.(fieldName := name, file := None);
    assert PartStep(s0, HeadersFinished, codec) == Ok(s1);
    PartFoldAppend(s0, [HeadersFinished], DataEvents(chunks) + [PartEnd], codec);
    assert [HeadersFinished] + DataEvents(chunks) + [PartEnd] == [HeadersFinished] + (DataEvents(chunks) + [PartEnd]);
    assert PartFold(s0, [HeadersFinished], codec) == Ok(s1) by {
      assert [HeadersFinished][1..] == [];
    }
    PartFoldAppend(s1, DataEvents(chunks), [PartEnd], codec);
    DataEventsField(s1, chunks, codec);
    var s2 := s1.(data := [] + Concat(chunks));
    assert [] + Concat(chunks) == Concat(chunks);
    assert PartFold(s2, [PartEnd], codec) == Ok(s2.(items := s2.items + [(name, FieldBytes(Concat(chunks)))])) by {
      assert [PartEnd][1..] == [];
    }
  }

  /** The upload objects match the file states of the fold. */
  predicate FilesMatch(objs: seq<UploadFile>, files: seq<FileState>)
    reads objs
  {
    |objs| == |files| &&
    forall i :: 0 <= i < |objs| ==>
      objs[i].filename == files[i].filename && objs[i].contentType == files[i].contentType &&
      objs[i].headers == files[i].headers && objs[i].content == files[i].content &&
      objs[i].position == files[i].position && !objs[i].closed
  }

  /** Distinct objects. */
  predicate Injective(objs: seq<UploadFile>) {
    forall i, j :: 0 <= i < j < |objs| ==> objs[i] != objs[j]
  }

  class MultiPartParser {
    /** `parameters` of the content type and the recorded `messages`. */
    const parameters: map<Bytes, Bytes>
    var messages: seq<PartEvent>

    constructor(parameters: map<Bytes, Bytes>)
      ensures this.parameters == parameters && messages == []
    {
      this.parameters := parameters;
      messages := [];
    }

    /** The callbacks: each appends its event, in arrival order; the data
        callbacks record `data[start:end]`. */
    method OnPartBegin()
      modifies this
      ensures messages == old(messages) + [PartBegin]
    {
      messages := messages + [PartBegin];
    }

    method OnPartData(data: Bytes, start: nat, end: nat)
      modifies this
      ensures messages == old(messages) + [PartData(SliceOf(data, start, end))]
    {
      messages := messages + [PartData(SliceOf(data, start, end))];
    }

    method OnPartEnd()
      modifies this
      ensures messages == old(messages) + [PartEnd]
    {
      messages := messages + [PartEnd];
    }

    method OnHeaderBegin()
      modifies this
      ensures messages == old(messages) + [HeaderBegin]
    {
      messages := messages + [HeaderBegin];
    }

    method OnHeaderField(data: Bytes, start: nat, end: nat)
      modifies this
      ensures messages == old(messages) + [HeaderField(SliceOf(data, start, end))]
    {
      messages := messages + [HeaderField(SliceOf(data, start, end))];
    }

    method OnHeaderValue(data: Bytes, start: nat, end: nat)
      modifies this
      ensures messages == old(messages) + [HeaderValue(SliceOf(data, start, end))]
    {
      messages := messages + [HeaderValue(SliceOf(data, start, end))];
    }

    method OnHeaderEnd()
      modifies this
      ensures messages == old(messages) + [HeaderEnd]
    {
      messages := messages + [HeaderEnd];
    }

    method OnHeadersFinished()
      modifies this
      ensures messages == old(messages) + [HeadersFinished]
    {
      messages := messages + [HeadersFinished];
    }

    method OnEnd()
      modifies this
      ensures messages == old(messages) + [PartsEnd]
    {
      messages := messages + [PartsEnd];
    }

    /** The callbacks of one event: a file part's headers open a new
        upload object, its data is written at the current position and its
        end rewinds it; the objects keep following the fold's file states. */
    static method ApplyEvent(st: PartState, ev: PartEvent, codec: Codec, files: seq<UploadFile>)
      returns (files': seq<UploadFile>)
      requires PartWf(st) && PartStep(st, ev, codec).Ok?
      requires FilesMatch(files, st.files) && Injective(files)
      modifies set j | 0 <= j < |files| :: files[j]
      ensures FilesMatch(files', PartStep(st, ev, codec).value.files) && Injective(files')
      ensures |files| <= |files'| && files'[..|files|] == files
      ensures forall j :: |files| <= j < |files'| ==> fresh(files'[j])
    {
      var next := PartStep(st, ev, codec).value;
      files' := files;
      if ev.HeadersFinished? && FilenameKey in codec.options(st.disposition) {
        var f := new UploadFile(next.files[|st.files|].filename, next.files[|st.files|].contentType, st.itemHeaders);
        files' := files + [f];
      } else if ev.PartData? && st.file.Some? {
        files[st.file.value].Write(ev.data);
      } else if ev.PartEnd? && st.file.Some? {
        var _ := files[st.file.value].Seek(0);
      }
    }

    /** `run()` after the tokenizer has recorded the events: the fold, with
        a fresh upload file for each file part. The result is the form of
        the fold's pairs, each file index replaced by its object, and
        `files` lists those objects in the order they were opened. */
    method Run(codec: Codec) returns (r: Result<Form, ParseError>, files: seq<UploadFile>)
      ensures PartFold(PartStart, messages, codec).Err? <==> r.Err?
      ensures r.Err? ==> r.error == PartFold(PartStart, messages, codec).error
      ensures r.Ok? ==>
                var st := PartFold(PartStart, messages, codec).value;
                FilesMatch(files, st.files) && Injective(files) &&
                (forall i :: 0 <= i < |files| ==> fresh(files[i])) &&
                r.value == NewForm(Some(Resolve(st.items, files)))
    {
      var evs := messages;
      var st := PartStart;
      files := [];
      var i := 0;
      while i < |evs|
        invariant 0 <= i <= |evs| && PartWf(st)
        invariant PartFold(PartStart, evs, codec) == PartFold(st, evs[i..], codec)
        invariant FilesMatch(files, st.files) && Injective(files)
        invariant forall j :: 0 <= j < |files| ==> fresh(files[j])
      {
        var ev := evs[i];
        assert evs[i..][0] == ev && evs[i..][1..] == evs[i + 1..];
        var next := PartStep(st, ev, codec);
        if next.Err? {
          return Err(next.error), files;
        }
        files := ApplyEvent(st, ev, codec, files);
        st := next.value;
        i := i + 1;
      }
      r := Ok(NewForm(Some(Resolve(st.items, files))));
    }
  }

  // ---- url-encoded bodies -----------------------------------------------

  /** `FormState` with the bytes each callback records. */
  datatype FieldEvent = FieldStart | FieldName(data: Bytes) | FieldData(data: Bytes) | FieldEnd | FieldsEnd

  /** The accumulators of `FormParser.run`. */
  datatype FieldState = FieldState(name: Bytes, value: Bytes, items: seq<(string, Item)>)

  /** One event: FIELD_START resets both buffers, FIELD_NAME and FIELD_DATA
      append, FIELD_END emits the pair decoded as Latin-1 and passed through
      `unquote_plus` (`unquote`); the end event does nothing. */
  function FieldStep(st: FieldState, ev: FieldEvent, unquote: string -> string): FieldState {
    match ev
    case FieldStart => st.(name := [], value := [])
    case FieldName(b) => st.(name := st.name + b)
    case FieldData(b) => st.(value := st.value + b)
    case FieldEnd => st.(items := st.items + [(unquote(Latin1Decode(st.name)), Text(unquote(Latin1Decode(st.value))))])
    case FieldsEnd => st
  }

  function FieldFold(st: FieldState, evs: seq<FieldEvent>, unquote: string -> string): FieldState
    decreases |evs|
  {
    if evs == [] then st else FieldFold(FieldStep(st, evs[0], unquote), evs[1..], unquote)
  }

  /** Items are only ever appended, one per FIELD_END, in order. */
  lemma {:induction false} FieldFoldItems(st: FieldState, evs: seq<FieldEvent>, unquote: string -> string)
    ensures |FieldFold(st, evs, unquote).items| == |st.items| + Count(evs)
    ensures FieldFold(st, evs, unquote).items[..|st.items|] == st.items
    decreases |evs|
  {
    if evs != [] {
      var st' := FieldStep(st, evs[0], unquote);
      FieldFoldItems(st', evs[1..], unquote);
      assert st'.items[..|st.items|] == st.items;
      assert FieldFold(st, evs, unquote).items[..|st'.items|][..|st.items|] == FieldFold(st, evs, unquote).items[..|st.items|];
    }
  }

  /** The number of FIELD_END events. */
  function Count(evs: seq<FieldEvent>): nat
    decreases |evs|
  {
    if evs == [] then 0 else (if evs[0].FieldEnd? then 1 else 0) + Count(evs[1..])
  }

  /** A complete field, start, name chunks, data chunks, end, yields the
      pair of its whole name and whole value. */
  lemma FieldItem(st: FieldState, name: Bytes, value: Bytes, unquote: string -> string)
    ensures FieldFold(st, [FieldStart, FieldName(name), FieldData(value), FieldEnd], unquote).items ==
            st.items + [(unquote(Latin1Decode(name)), Text(unquote(Latin1Decode(value))))]
  {
    var evs := [FieldStart, FieldName(name), FieldData(value), FieldEnd];
    var s1 := st.(name := [], value := []);
    var s2 := s1.(name := name);
    var s3 := s2.(value := value);
    var s4 := s3.(items := st.items + [(unquote(Latin1Decode(name)), Text(unquote(Latin1Decode(value))))]);
    assert [] + name == name && [] + value == value;
    assert FieldFold(s4, [], unquote) == s4;
    assert FieldFold(s3, [FieldEnd], unquote) == s4 by {
      assert [FieldEnd][1..] == [];
    }
    assert FieldFold(s2, [FieldData(value), FieldEnd], unquote) == s4 by {
      assert [FieldData(value), FieldEnd][1..] == [FieldEnd];
    }
    assert FieldFold(s1, [FieldName(name), FieldData(value), FieldEnd], unquote) == s4 by {
      assert [FieldName(name), FieldData(value), FieldEnd][1..] == [FieldData(value), FieldEnd];
    }
    assert evs[1..] == [FieldName(name), FieldData(value), FieldEnd];
  }

  class FormParser {
    var messages: seq<FieldEvent>

    constructor()
      ensures messages == []
    {
      messages := [];
    }

    method OnFieldStart()
      modifies this
      ensures messages == old(messages) + [FieldStart]
    {
      messages := messages + [FieldStart];
    }

    method OnFieldName(data: Bytes, start: nat, end: nat)
      modifies this
      ensures messages == old(messages) + [FieldName(SliceOf(data, start, end))]
    {
      messages := messages + [FieldName(SliceOf(data, start, end))];
    }

    method OnFieldData(data: Bytes, start: nat, end: nat)
      modifies this
      ensures messages == old(messages) + [FieldData(SliceOf(data, start, end))]
    {
      messages := messages + [FieldData(SliceOf(data, start, end))];
    }

    method OnFieldEnd()
      modifies this
      ensures messages == old(messages) + [FieldEnd]
    {
      messages := messages + [FieldEnd];
    }

    method OnEnd()
      modifies this
      ensures messages == old(messages) + [FieldsEnd]
    {
      messages := messages + [FieldsEnd];
    }

    /** `run()` after the tokenizer: the fold, and `Form(items)`, so for a
        repeated name the last pair wins. */
    method Run(unquote: string -> string) returns (f: Form)
      ensures f == NewForm(Some(FieldFold(FieldState([], [], []), messages, unquote).items))
    {
      var st := FieldState([], [], []);
      for i := 0 to |messages|
        invariant FieldFold(FieldState([], [], []), messages, unquote) == FieldFold(st, messages[i..], unquote)
      {
        assert messages[i..][0] == messages[i] && messages[i..][1..] == messages[i + 1..];
        match messages[i]
        case FieldStart =>
          st := st.(name := [], value := []);
        case FieldName(b) =>
          st := st.(name := st.name + b);
        case FieldData(b) =>
          st := st.(value := st.value + b);
        case FieldEnd =>
          var name := unquote(Latin1Decode(st.name));
          var value := unquote(Latin1Decode(st.value));
          st := st.(items := st.items + [(name, Text(value))]);
        case FieldsEnd =>
      }
      f := NewForm(Some(st.items));
    }
  }
}
