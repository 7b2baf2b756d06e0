/**
 * The stream records of movie/utils/stream.py: one block of ffprobe -show_streams output,
 * a run of key=value lines, becomes a Stream with an index, a codec type and a tag map;
 * a Stream prints as "{index}: ({language}) {title}" and the media streams are those of
 * type video, audio or subtitle.
 */
module ProbeStream {
  import opened Wrappers
  import opened PyText
  import opened Sequences

  /** The attributes Stream.__init__ fills in; None is Python's None. */
  datatype Fields = Fields(index: Option<int>, codecType: Option<string>, tags: map<string, string>)

  /** index = None, _codec_type = None, tags = {} */
  const NoFields := Fields(None, None, map[])

  /** The lines __init__ visits: stream_data.strip().split('\n'). */
  function Lines(data: string): seq<string> {
    Split(Strip(data), '\n')
  }

  /** The stripped key of a line with '=': the text before the first '='. */
  function Key(line: string): string
    requires '=' in line
  {
    Strip(SplitOnce(line, '=').0)
  }

  /** The stripped value of a line with '=': the text after the first '=', '=' included. */
  function Value(line: string): string
    requires '=' in line
  {
    Strip(SplitOnce(line, '=').1)
  }

  /** "TAG:" + k is the key that stores the tag k. */
  function TagKey(k: string): string {
    "TAG:" + k
  }

  /** What one key=value pair does to the record; None where int(value) raises ValueError. */
  function ApplyField(f: Fields, key: string, value: string): Option<Fields> {
    if key == "index" then
      match ParseInt(value)
      case None => None
      case Some(n) => Some(f.(index := Some(n)))
    else if key == "codec_type" then Some(f.(codecType := Some(value)))
    else if "TAG:" <= key then Some(f.(tags := f.tags[key[4..] := value]))
    else Some(f)
  }

  /** One pass of the loop of __init__: a line without '=' is skipped. */
  function LineStep(f: Fields, line: string): Option<Fields> {
    if '=' in line then ApplyField(f, Key(line), Value(line)) else Some(f)
  }

  /** The loop of __init__ over lines, starting from f; None once a line raises. */
  function FoldLines(f: Fields, lines: seq<string>): Option<Fields>
    decreases |lines|
  {
    if |lines| == 0 then Some(f)
    else
      match LineStep(f, lines[0])
      case None => None
      case Some(g) => FoldLines(g, lines[1..])
  }

  /** The record Stream(stream_data) builds, or None where the constructor raises. */
  function ParseBlock(data: string): Option<Fields> {
    FoldLines(NoFields, Lines(data))
  }

  /** f'{x}' of an optional integer */
  function ShowIndex(index: Option<int>): string {
    match index
    case None => "None"
    case Some(n) => IntToString(n)
  }

  /** Stream.__repr__ of a record. */
  function ReprOf(f: Fields): string {
    var title := if "title" in f.tags then f.tags["title"] else "Track " + ShowIndex(f.index);
    ShowIndex(f.index) + ": (" + LanguageOf(f) + ") " + title
  }

  /** The types filter_media_streams keeps. */
  predicate IsMediaType(t: Option<string>) {
    t == Some("video") || t == Some("audio") || t == Some("subtitle")
  }

  class Stream {
    var index: Option<int>
    var codecType: Option<string>
    var tags: map<string, string>

    function State(): Fields
      reads this
    {
      Fields(index, codecType, tags)
    }

    /** The attributes before the loop of __init__ runs. */
    constructor ()
      ensures State() == NoFields
    {
      index := None;
      codecType := None;
      tags := map[];
    }

    /**
     * The loop of __init__: every line of the stripped block that holds '=' is cut at its
     * first '='; index, codec_type and TAG:k keys set their attribute. ok is false where
     * int() raises.
     */
    method Load(data: string) returns (ok: bool)
      modifies this
      ensures ok <==> FoldLines(old(State()), Lines(data)).Some?
      ensures ok ==> State() == FoldLines(old(State()), Lines(data)).value
    {
      var lines := Lines(data);
      var i := 0;
      while i < |lines|
        invariant 0 <= i <= |lines|
        invariant FoldLines(old(State()), lines) == FoldLines(State(), lines[i..])
      {
        FoldStep(State(), lines[i..]);
        var applied := ApplyLine(lines[i]);
        if !applied {
          return false;
        }
        i := i + 1;
      }
      assert lines[i..] == [];
      return true;
    }

    /** One line of the loop of __init__; false where int(value) raises. */
    method ApplyLine(line: string) returns (ok: bool)
      modifies this
      ensures ok <==> LineStep(old(State()), line).Some?
      ensures ok ==> State() == LineStep(old(State()), line).value
      ensures !ok ==> State() == old(State())
    {
      if '=' in line {
        var key, value := Key(line), Value(line);
        if key == "index" {
          var n := ParseInt(value);
          if n.None? {
            return false;
          }
          index := n;
        } else if key == "codec_type" {
          codecType := Some(value);
        } else if "TAG:" <= key {
          tags := tags[key[4..] := value];
        }
      }
      return true;
    }

    /** Stream.type */
    function Type(): (t: Option<string>)
      reads this
      ensures t == State().codecType
    {
      codecType
    }

    /** Stream.__repr__ */
    function Repr(): (r: string)
      reads this
      ensures r == ReprOf(State())
    {
      ReprOf(Fields(index, codecType, tags))
    }
  }

  lemma FoldStep(f: Fields, lines: seq<string>)
    requires |lines| > 0
    ensures LineStep(f, lines[0]).None? ==> FoldLines(f, lines) == None
    ensures LineStep(f, lines[0]).Some? ==> FoldLines(f, lines) == FoldLines(LineStep(f, lines[0]).value, lines[1..])
  {
  }

  /** Stream(stream_data): None where the constructor raises. */
  method NewStream(data: string) returns (r: Option<Stream>)
    ensures r.None? <==> ParseBlock(data).None?
    ensures r.Some? ==> fresh(r.value) && r.value.State() == ParseBlock(data).value
  {
    var s := new Stream();
    var ok := s.Load(data);
    if ok {
      r := Some(s);
    } else {
      r := None;
    }
  }

  /**
   * parse_ffprobe_output from the blocks the regular expression extracted: one new Stream
   * per block, in block order; None where a block raises, which nothing in the function catches.
   */
  method ParseFfprobeOutput(blocks: seq<string>) returns (r: Option<seq<Stream>>)
    ensures r.Some? <==> forall i :: 0 <= i < |blocks| ==> ParseBlock(blocks[i]).Some?
    ensures r.Some? ==> |r.value| == |blocks|
    ensures r.Some? ==> forall i :: 0 <= i < |blocks| ==>
      fresh(r.value[i]) && r.value[i].State() == ParseBlock(blocks[i]).value
  {
    var streams: seq<Stream> := [];
    var i := 0;
    while i < |blocks|
      invariant 0 <= i <= |blocks|
      invariant |streams| == i
      invariant forall j :: 0 <= j < i ==> ParseBlock(blocks[j]).Some?
      invariant forall j :: 0 <= j < i ==> fresh(streams[j]) && streams[j].State() == ParseBlock(blocks[j]).value
    {
      var s := NewStream(blocks[i]);
      if s.None? {
        return None;
      }
      streams := streams + [s.value];
      i := i + 1;
    }
    return Some(streams);
  }

  /** filter_media_streams: the streams whose type is video, audio or subtitle, in order. */
  function FilterMediaStreams(streams: seq<Stream>): (r: seq<Stream>)
    reads streams
    ensures |r| <= |streams|
    ensures forall k :: 0 <= k < |r| ==> IsMediaType(r[k].Type())
    decreases |streams|
  {
    if |streams| == 0 then []
    else if IsMediaType(streams[0].Type()) then [streams[0]] + FilterMediaStreams(streams[1..])
    else FilterMediaStreams(streams[1..])
  }

  /** A stream survives the filter exactly when it is in the list and is a media stream. */
  lemma {:induction false} FilterMembership(streams: seq<Stream>, s: Stream)
    ensures s in FilterMediaStreams(streams) <==> s in streams && IsMediaType(s.Type())
    decreases |streams|
  {
    if |streams| > 0 {
      FilterMembership(streams[1..], s);
      assert streams == [streams[0]] + streams[1..];
    }
  }

  /** The filter keeps the order of the streams it keeps. */
  lemma {:induction false} FilterSubsequence(streams: seq<Stream>)
    ensures SubsequenceOf(FilterMediaStreams(streams), streams)
    decreases |streams|
  {
    if |streams| > 0 {
      FilterSubsequence(streams[1..]);
      var r := FilterMediaStreams(streams);
      if IsMediaType(streams[0].Type()) {
        assert r[0] == streams[0] && r[1..] == FilterMediaStreams(streams[1..]);
      }
    }
  }

  /** Filtering twice is filtering once. */
  lemma {:induction false} FilterIdempotent(streams: seq<Stream>)
    ensures FilterMediaStreams(FilterMediaStreams(streams)) == FilterMediaStreams(streams)
    decreases |streams|
  {
    if |streams| > 0 {
      FilterIdempotent(streams[1..]);
      var r := FilterMediaStreams(streams);
      if IsMediaType(streams[0].Type()) {
        assert r[0] == streams[0] && r[1..] == FilterMediaStreams(streams[1..]);
      }
    }
  }

  /** A line that sets nothing: it has no '=', or its key is none of index, codec_type and TAG:*. */
  predicate Inert(line: string) {
    '=' !in line || (Key(line) != "index" && Key(line) != "codec_type" && !("TAG:" <= Key(line)))
  }

  /** Lines that set nothing leave the record as it was. */
  lemma {:induction false} FoldInert(f: Fields, lines: seq<string>)
    requires forall i :: 0 <= i < |lines| ==> Inert(lines[i])
    ensures FoldLines(f, lines) == Some(f)
    decreases |lines|
  {
    if |lines| > 0 {
      FoldInert(f, lines[1..]);
    }
  }

  /** A block without index, codec_type or TAG: lines gives index None, type None and no tags. */
  lemma NoFieldBlock(data: string)
    requires forall i :: 0 <= i < |Lines(data)| ==> Inert(Lines(data)[i])
    ensures ParseBlock(data) == Some(NoFields)
  {
    FoldInert(NoFields, Lines(data));
  }

  /**
   * A line is cut at its first '=' and both sides are stripped, so from a key without '='
   * the value keeps every further '='.
   */
  lemma LineParts(line: string, k: string, v: string)
    requires line == k + "=" + v && '=' !in k
    ensures '=' in line && Key(line) == Strip(k) && Value(line) == Strip(v)
  {
    assert line == k + ['='] + v;
    SplitOnceAt(k, '=', v);
  }

  /** The stripped value of the last line of lines whose stripped key is key. */
  function LastValue(lines: seq<string>, key: string): Option<string>
    decreases |lines|
  {
    if |lines| == 0 then None
    else
      var line := lines[|lines| - 1];
      if '=' in line && Key(line) == key then Some(Value(line))
      else LastValue(lines[..|lines| - 1], key)
  }

  /** The loop over lines + [line] is the loop over lines followed by one more pass. */
  lemma {:induction false} FoldSnoc(f: Fields, lines: seq<string>, line: string)
    ensures FoldLines(f, lines + [line]) ==
      match FoldLines(f, lines)
      case None => None
      case Some(g) => LineStep(g, line)
    decreases |lines|
  {
    if |lines| == 0 {
      assert lines + [line] == [line];
    } else {
      assert (lines + [line])[1..] == lines[1..] + [line];
      var g := LineStep(f, lines[0]);
      if g.Some? {
        FoldSnoc(g.value, lines[1..], line);
      }
    }
  }

  lemma LastSplit(lines: seq<string>)
    requires |lines| > 0
    ensures lines == lines[..|lines| - 1] + [lines[|lines| - 1]]
  {
  }

  /** The type is set by the last codec_type line; with none it is what it was. */
  lemma {:induction false} CodecTypeIsLast(f: Fields, lines: seq<string>)
    requires FoldLines(f, lines).Some?
    ensures FoldLines(f, lines).value.codecType ==
      if LastValue(lines, "codec_type").Some? then LastValue(lines, "codec_type") else f.codecType
    decreases |lines|
  {
    if |lines| > 0 {
      var front, line := lines[..|lines| - 1], lines[|lines| - 1];
      LastSplit(lines);
      FoldSnoc(f, front, line);
      CodecTypeIsLast(f, front);
    }
  }

  /** The index is int() of the value of the last index line; with none it is what it was. */
  lemma {:induction false} IndexIsLast(f: Fields, lines: seq<string>)
    requires FoldLines(f, lines).Some?
    ensures LastValue(lines, "index").None? ==> FoldLines(f, lines).value.index == f.index
    ensures LastValue(lines, "index").Some? ==>
      FoldLines(f, lines).value.index == ParseInt(LastValue(lines, "index").value)
    decreases |lines|
  {
    if |lines| > 0 {
      var front, line := lines[..|lines| - 1], lines[|lines| - 1];
      LastSplit(lines);
      FoldSnoc(f, front, line);
      IndexIsLast(f, front);
      IndexStep(FoldLines(f, front).value, line);
    }
  }

  /** One pass sets the index exactly when its line is an index line. */
  lemma IndexStep(g: Fields, line: string)
    requires LineStep(g, line).Some?
    ensures LineStep(g, line).value.index ==
      if '=' in line && Key(line) == "index" then ParseInt(Value(line)) else g.index
  {
  }

  /** key.startswith('TAG:') and key[4:] == k say that key is "TAG:" + k. */
  lemma TagKeyOf(key: string, k: string)
    ensures ("TAG:" <= key && key[4..] == k) <==> key == TagKey(k)
  {
    if key == TagKey(k) {
      assert key[..4] == "TAG:" && key[4..] == k;
    }
    if "TAG:" <= key && key[4..] == k {
      assert key == key[..4] + key[4..];
    }
  }

  /**
   * The tag k is stored by the last TAG:k line, and otherwise keeps what it was; no other
   * line adds or changes it.
   */
  lemma {:induction false} TagIsLast(f: Fields, lines: seq<string>, k: string)
    requires FoldLines(f, lines).Some?
    ensures k in FoldLines(f, lines).value.tags <==> (k in f.tags || LastValue(lines, TagKey(k)).Some?)
    ensures LastValue(lines, TagKey(k)).Some? ==>
      FoldLines(f, lines).value.tags[k] == LastValue(lines, TagKey(k)).value
    ensures LastValue(lines, TagKey(k)).None? && k in f.tags ==>
      FoldLines(f, lines).value.tags[k] == f.tags[k]
    decreases |lines|
  {
    if |lines| > 0 {
      var front, line := lines[..|lines| - 1], lines[|lines| - 1];
      LastSplit(lines);
      FoldSnoc(f, front, line);
      TagIsLast(f, front, k);
      TagStep(FoldLines(f, front).value, line, k);
    }
  }

  lemma TagStep(g: Fields, line: string, k: string)
    requires LineStep(g, line).Some?
    ensures '=' in line && Key(line) == TagKey(k) ==>
      k in LineStep(g, line).value.tags && LineStep(g, line).value.tags[k] == Value(line)
    ensures !('=' in line && Key(line) == TagKey(k)) ==>
      (k in LineStep(g, line).value.tags <==> k in g.tags)
      && (k in g.tags ==> LineStep(g, line).value.tags[k] == g.tags[k])
  {
    if '=' in line {
      TagField(g, Key(line), Value(line), k);
    }
  }

  lemma TagField(g: Fields, key: string, value: string, k: string)
    requires ApplyField(g, key, value).Some?
    ensures key == TagKey(k) ==>
      k in ApplyField(g, key, value).value.tags && ApplyField(g, key, value).value.tags[k] == value
    ensures key != TagKey(k) ==>
      (k in ApplyField(g, key, value).value.tags <==> k in g.tags)
      && (k in g.tags ==> ApplyField(g, key, value).value.tags[k] == g.tags[k])
  {
    TagKeyOf(key, k);
    if key == TagKey(k) {
      assert key[0] == 'T';
      assert key != "index" && key != "codec_type";
    }
  }

  /** int(value) raises on this index line. */
  predicate BadIndexLine(line: string) {
    '=' in line && Key(line) == "index" && ParseInt(Value(line)).None?
  }

  /** The loop raises exactly when some index line has a value int() refuses. */
  lemma {:induction false} RaisesIff(f: Fields, lines: seq<string>)
    ensures FoldLines(f, lines).None? <==> exists i :: 0 <= i < |lines| && BadIndexLine(lines[i])
    decreases |lines|
  {
    if |lines| > 0 {
      var g := LineStep(f, lines[0]);
      if g.None? {
        assert BadIndexLine(lines[0]);
      } else {
        RaisesIff(g.value, lines[1..]);
        if exists i :: 0 <= i < |lines| && BadIndexLine(lines[i]) {
          var i :| 0 <= i < |lines| && BadIndexLine(lines[i]);
          assert i > 0;
          assert BadIndexLine(lines[1..][i - 1]);
        }
        if exists i :: 0 <= i < |lines[1..]| && BadIndexLine(lines[1..][i]) {
          var i :| 0 <= i < |lines[1..]| && BadIndexLine(lines[1..][i]);
          assert BadIndexLine(lines[i + 1]);
        }
      }
    }
  }

  /**
   * A parsed block with an index line n and no TAG:title line prints with the fallback title
   * "Track n"; with a TAG:title line it prints that title.
   */
  lemma ParsedTitle(data: string)
    requires ParseBlock(data).Some?
    ensures LastValue(Lines(data), TagKey("title")).None? ==>
      ReprOf(ParseBlock(data).value) ==
        ShowIndex(ParseBlock(data).value.index) + ": (" + LanguageOf(ParseBlock(data).value) + ") Track "
        + ShowIndex(ParseBlock(data).value.index)
    ensures LastValue(Lines(data), TagKey("title")).Some? ==>
      ReprOf(ParseBlock(data).value) ==
        ShowIndex(ParseBlock(data).value.index) + ": (" + LanguageOf(ParseBlock(data).value) + ") "
        + LastValue(Lines(data), TagKey("title")).value
  {
    TagIsLast(NoFields, Lines(data), "title");
  }

  /** A line key=value whose key has no '=' and whose sides are printable ASCII without blanks. */
  lemma BareLine(line: string, k: string, v: string)
    requires line == k + "=" + v && '=' !in k
    requires Visible(k) && Visible(v)
    ensures '=' in line && Key(line) == k && Value(line) == v
  {
    LineParts(line, k, v);
    VisibleNoSpace(k);
    VisibleNoSpace(v);
    StripNoSpace(k);
    StripNoSpace(v);
  }

  /**
   * The block of the lines index=2, codec_type=audio and TAG:language=jpn gives a Stream with
   * index 2, type audio and the language tag jpn, which prints as "2: (jpn) Track 2".
   */
  lemma ExampleBlock(l1: string, l2: string, l3: string)
    requires l1 == "index=2" && l2 == "codec_type=audio" && l3 == TagKey("language") + "=jpn"
    ensures ParseBlock(l1 + "\n" + l2 + "\n" + l3) == Some(Fields(Some(2), Some("audio"), map["language" := "jpn"]))
    ensures ReprOf(ParseBlock(l1 + "\n" + l2 + "\n" + l3).value) == "2: (jpn) Track 2"
  {
    var data := l1 + "\n" + l2 + "\n" + l3;
    ExampleLines(data, l1, l2, l3);
    var f1 := NoFields.(index := Some(2));
    var f2 := f1.(codecType := Some("audio"));
    var f3 := f2.(tags := map["language" := "jpn"]);
    ExampleIndexLine(l1);
    ExampleCodecLine(f1, l2);
    ExampleTagLine(f2, l3);
    var lines := [l1, l2, l3];
    FoldStep(NoFields, lines);
    FoldStep(f1, lines[1..]);
    FoldStep(f2, lines[2..]);
    assert lines[2..][1..] == [];
    ExampleRepr(f3);
  }

  lemma ExampleLines(data: string, l1: string, l2: string, l3: string)
    requires l1 == "index=2" && l2 == "codec_type=audio" && l3 == TagKey("language") + "=jpn"
    requires data == l1 + "\n" + l2 + "\n" + l3
    ensures Lines(data) == [l1, l2, l3]
  {
    VisibleLines(data, l1, l2, l3);
  }

  /** Three visible lines joined by line breaks split back into those three lines. */
  lemma VisibleLines(data: string, l1: string, l2: string, l3: string)
    requires |l1| > 0 && |l3| > 0 && Visible(l1) && Visible(l2) && Visible(l3)
    requires data == l1 + "\n" + l2 + "\n" + l3
    ensures Lines(data) == [l1, l2, l3]
  {
    VisibleNoSpace(l1);
    VisibleNoSpace(l2);
    VisibleNoSpace(l3);
    assert Strip(data) == data by {
      assert data[0] == l1[0] && data[|data| - 1] == l3[|l3| - 1];
      StripBare(data);
    }
    assert data == l1 + ['\n'] + l2 + ['\n'] + l3;
    SplitThree(l1, l2, l3, '\n');
  }

  lemma ExampleIndexLine(line: string)
    requires line == "index=2"
    ensures LineStep(NoFields, line) == Some(NoFields.(index := Some(2)))
  {
    BareLine(line, "index", "2");
    ParseTwo("2");
    IndexLine(NoFields, line, 2);
  }

  lemma ParseTwo(v: string)
    requires v == "2"
    ensures ParseInt(v) == Some(2)
  {
    DigitsParse(v);
  }

  lemma IndexLine(f: Fields, line: string, n: int)
    requires '=' in line && Key(line) == "index" && ParseInt(Value(line)) == Some(n)
    ensures LineStep(f, line) == Some(f.(index := Some(n)))
  {
  }

  lemma ExampleCodecLine(f: Fields, line: string)
    requires line == "codec_type=audio"
    ensures LineStep(f, line) == Some(f.(codecType := Some("audio")))
  {
    BareLine(line, "codec_type", "audio");
    CodecLine(f, line);
  }

  lemma CodecLine(f: Fields, line: string)
    requires '=' in line && Key(line) == "codec_type"
    ensures LineStep(f, line) == Some(f.(codecType := Some(Value(line))))
  {
    assert |Key(line)| != |"index"|;
  }

  lemma ExampleTagLine(f: Fields, line: string)
    requires line == TagKey("language") + "=jpn" && f.tags == map[]
    ensures LineStep(f, line) == Some(f.(tags := map["language" := "jpn"]))
  {
    var k, v := TagKey("language"), "jpn";
    BareLine(line, k, v);
    TagLine(f, line, "language");
  }

  lemma TagLine(f: Fields, line: string, k: string)
    requires '=' in line && Key(line) == TagKey(k)
    ensures LineStep(f, line) == Some(f.(tags := f.tags[k := Value(line)]))
  {
    var key := Key(line);
    TagKeyOf(key, k);
    assert key[0] == 'T';
    assert key != "index" && key != "codec_type";
  }

  lemma ExampleRepr(f: Fields)
    requires f == Fields(Some(2), Some("audio"), map["language" := "jpn"])
    ensures ReprOf(f) == "2: (jpn) Track 2"
  {
    assert IntToString(2) == "2";
  }

  /** tags.get("language") as printed */
  function LanguageOf(f: Fields): string {
    if "language" in f.tags then f.tags["language"] else "None"
  }
}
