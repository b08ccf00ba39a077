/** The containers of the oldest generation's request parsing: the spooled
    upload file, kept here as an in-memory byte buffer with a position and
    a closed flag, and `Form`, a read-only dict built once from pairs. */
module LegacyDatastructures {
  import opened Wrappers
  import opened Text
  import opened Bytes
  import opened OrderedDicts

  /** The content of a file after writing `data` at `position`: a gap
      before the position is filled with zero bytes, and the file grows
      when the write runs past its end. */
  function Overwrite(content: Bytes, position: nat, data: Bytes): Bytes {
    var base := if position > |content| then content + seq(position - |content|, _ => 0) else content;
    var end := position + |data|;
    base[..position] + data + (if end < |base| then base[end..] else [])
  }

  /** The written bytes are at the position, every other old byte stays,
      and the length is the larger of the old length and the write's end. */
  lemma OverwriteSpec(content: Bytes, position: nat, data: Bytes)
    ensures var r := Overwrite(content, position, data);
            |r| == (if position + |data| > |content| then position + |data| else |content|) &&
            (forall i :: 0 <= i < |data| ==> r[position + i] == data[i]) &&
            (forall i :: 0 <= i < |content| && !(position <= i < position + |data|) ==> r[i] == content[i]) &&
            (forall i :: |content| <= i < position ==> r[i] == 0)
  {
  }

  /** What a read of `size` bytes at `position` returns. */
  function ReadSpan(content: Bytes, position: nat, size: int): Bytes {
    if position >= |content| then []
    else if size < 0 || position + size >= |content| then content[position..]
    else content[position..position + size]
  }

  /** A read returns a run of the bytes at the position: all of them for a
      negative size, otherwise as many as asked for and as there are. */
  lemma ReadSpanSpec(content: Bytes, position: nat, size: int)
    ensures var r := ReadSpan(content, position, size);
            var avail := if position >= |content| then 0 else |content| - position;
            |r| == (if size < 0 || size > avail then avail else size) &&
            forall i :: 0 <= i < |r| ==> r[i] == content[position + i]
  {
  }

  /** Reading back what was just written, from where it was written,
      returns exactly the written bytes. */
  lemma ReadBackWritten(content: Bytes, position: nat, data: Bytes)
    ensures ReadSpan(Overwrite(content, position, data), position, |data|) == data
  {
    OverwriteSpec(content, position, data);
    var r := ReadSpan(Overwrite(content, position, data), position, |data|);
    ReadSpanSpec(Overwrite(content, position, data), position, |data|);
    assert |r| == |data|;
  }

  /** The ValueError ("negative seek value") of seeking an in-memory file
      to a negative offset. */
  datatype SeekError = NegativeSeek

  /** `SpooledUploadFile`: the name, content type and part headers it was
      created with, and the state of its temporary file. */
  class UploadFile {
    const filename: string
    const contentType: string
    const headers: seq<(Bytes, Bytes)>
    var content: Bytes
    var position: nat
    var closed: bool

    constructor(filename: string, contentType: string, headers: seq<(Bytes, Bytes)>)
      ensures this.filename == filename && this.contentType == contentType && this.headers == headers
      ensures content == [] && position == 0 && !closed
    {
      this.filename := filename;
      this.contentType := contentType;
      this.headers := headers;
      content := [];
      position := 0;
      closed := false;
    }

    /** `write(data)` at the current position, which then moves past the
        written bytes. */
    method Write(data: Bytes)
      modifies this
      ensures content == Overwrite(old(content), old(position), data)
      ensures position == old(position) + |data| && closed == old(closed)
    {
      content := Overwrite(content, position, data);
      position := position + |data|;
    }

    /** `seek(offset)`: a non-negative offset becomes the position, even
        past the end; a negative one is refused by the in-memory file with
        ValueError and the position stays. */
    method Seek(offset: int) returns (err: Option<SeekError>)
      modifies this
      ensures offset < 0 ==> err == Some(NegativeSeek) && position == old(position)
      ensures offset >= 0 ==> err.None? && position == offset
      ensures content == old(content) && closed == old(closed)
    {
      if offset < 0 {
        return Some(NegativeSeek);
      }
      position := offset;
      return None;
    }

    /** `read(size)`: the bytes from the position on, at most `size` of
        them unless `size` is negative; the position moves past them. */
    method Read(size: int) returns (r: Bytes)
      modifies this
      ensures r == ReadSpan(old(content), old(position), size)
      ensures position == old(position) + |r| && content == old(content) && closed == old(closed)
    {
      r := ReadSpan(content, position, size);
      ReadSpanSpec(content, position, size);
      position := position + |r|;
    }

    /** `tell()`. */
    method Tell() returns (p: nat)
      ensures p == position
    {
      p := position;
    }

    /** `close()`. */
    method Close()
      modifies this
      ensures closed && content == old(content) && position == old(position)
    {
      closed := true;
    }
  }

  /** A value a form holds: undecoded field bytes (multipart), decoded text
      (url-encoded) or an upload file. */
  datatype Item = Data(bytes: Bytes) | Text(text: string) | Upload(file: UploadFile)

  /** `Form`: a dict from field names to items. */
  datatype Form = Form(dict: Dict<string, Item>)

  /** `Form(*args)`: empty without arguments, else the dict comprehension
      over the pairs of the first argument. */
  function NewForm(args: Option<seq<(string, Item)>>): (f: Form)
    ensures Wf(f.dict)
    ensures args.None? ==> f.dict.values == map[]
    ensures args.Some? ==> forall k :: k in f.dict.values <==> HasKey(args.value, k)
    ensures args.Some? ==> forall k :: HasKey(args.value, k) ==> f.dict.values[k] == LastValue(args.value, k)
  {
    match args
    case None => Form(Empty())
    case Some(pairs) =>
      FromPairsSpec(Empty(), pairs);
      Form(FromPairs(Empty(), pairs))
  }

  /** `get(key, default)`; None stands for Python's `None`. */
  function Get(f: Form, key: string, default: Option<Item>): (r: Option<Item>)
    ensures key in f.dict.values ==> r == Some(f.dict.values[key])
    ensures key !in f.dict.values ==> r == default
  {
    if key in f.dict.values then Some(f.dict.values[key]) else default
  }

  /** The upload files among the values. */
  function Uploads(f: Form): set<UploadFile> {
    set k | k in f.dict.values && f.dict.values[k].Upload? :: f.dict.values[k].file
  }

  /** `close()`: every value that is an upload file is closed; nothing else
      about the files changes. */
  method Close(f: Form)
    requires Wf(f.dict)
    modifies Uploads(f)
    ensures forall u :: u in Uploads(f) ==> u.closed
    ensures forall u :: u in Uploads(f) ==> u.content == old(u.content) && u.position == old(u.position)
  {
    var ks := f.dict.keys;
    for i := 0 to |ks|
      invariant forall j :: 0 <= j < i && f.dict.values[ks[j]].Upload? ==> f.dict.values[ks[j]].file.closed
      invariant forall u :: u in Uploads(f) ==> u.content == old(u.content) && u.position == old(u.position)
    {
      assert ks[i] in Elems(ks);
      var item := f.dict.values[ks[i]];
      if item.Upload? {
        item.file.Close();
      }
    }
    forall u | u in Uploads(f) ensures u.closed {
      var k :| k in f.dict.values && f.dict.values[k].Upload? && f.dict.values[k].file == u;
      assert k in Elems(ks);
      var j :| 0 <= j < |ks| && ks[j] == k;
    }
  }
}
