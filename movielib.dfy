/**
 * The pure parts of class Movie (movie/utils/movie.py), which movie.py repeats: the stream
 * table read from ffmpeg's report, the choice of the default subtitle, the ffmpeg argument
 * lists for a selection and for languages, the partition by type, the base-template check and
 * the renaming plan.
 */
module MovieLib {
  import opened Wrappers
  import opened PyText
  import opened Sequences
  import opened Remux

  /** constants.SUBTITLE_TYPE */
  const SubtitleType := "Subtitle"

  /** One entry of self.streams: 'stream', 'language', 'type' and, when found, 'title'. */
  datatype StreamInfo = StreamInfo(number: int, language: string, kind: string, title: Option<string>)

  /** One match of the stream pattern: (stream, language, type) as text. */
  datatype Found = Found(stream: string, language: string, kind: string)

  /** One match of constants.TITLE_STREAMS: (stream, language, type, title) as text. */
  datatype Titled = Titled(stream: string, language: string, kind: string, title: string)

  /** The part of a title match that is used: the stream number and the title. */
  datatype TitleInfo = TitleInfo(number: int, title: string)

  /** One stream of the table: int(stream), the language without its parentheses, the type, no title yet. */
  function ReadStream(f: Found): Option<StreamInfo> {
    var n := ParseInt(f.stream);
    if n.None? then None else Some(StreamInfo(n.value, TrimEnds(f.language), f.kind, None))
  }

  /** The stream table before titles; None when int() raises on some stream number. */
  function ReadStreams(found: seq<Found>): Option<seq<StreamInfo>> {
    ReadAll(found, ReadStream)
  }

  /**
   * The table is read exactly when every stream number is an integer literal, and then its
   * k-th entry is read from the k-th match.
   */
  lemma ReadStreamsSpec(found: seq<Found>)
    ensures ReadStreams(found).Some? <==> forall k :: 0 <= k < |found| ==> ParseInt(found[k].stream).Some?
    ensures ReadStreams(found).Some? ==> |ReadStreams(found).value| == |found|
    ensures ReadStreams(found).Some? ==> forall k :: 0 <= k < |found| ==>
      ReadStreams(found).value[k] == StreamInfo(ParseInt(found[k].stream).value, TrimEnds(found[k].language), found[k].kind, None)
  {
    ReadAllSpec(found, ReadStream);
  }

  /** One title match with its stream number read by int(). */
  function ReadTitle(t: Titled): Option<TitleInfo> {
    var n := ParseInt(t.stream);
    if n.None? then None else Some(TitleInfo(n.value, t.title))
  }

  /** The title matches with their stream numbers; None when int() raises on one of them. */
  function ReadTitles(titled: seq<Titled>): Option<seq<TitleInfo>> {
    ReadAll(titled, ReadTitle)
  }

  lemma ReadTitlesSpec(titled: seq<Titled>)
    ensures ReadTitles(titled).Some? <==> forall k :: 0 <= k < |titled| ==> ParseInt(titled[k].stream).Some?
    ensures ReadTitles(titled).Some? ==> |ReadTitles(titled).value| == |titled|
    ensures ReadTitles(titled).Some? ==> forall k :: 0 <= k < |titled| ==>
      ReadTitles(titled).value[k] == TitleInfo(ParseInt(titled[k].stream).value, titled[k].title)
  {
    ReadAllSpec(titled, ReadTitle);
  }

  predicate IsMedia(s: StreamInfo) {
    s.kind != "Attachment"
  }

  /** media_streams: the streams whose type is not Attachment, in order. */
  function MediaStreams(streams: seq<StreamInfo>): seq<StreamInfo> {
    Filter(streams, IsMedia)
  }

  /** The media streams are exactly the non-attachment streams, in their order. */
  lemma MediaStreamsSpec(streams: seq<StreamInfo>, s: StreamInfo)
    ensures s in MediaStreams(streams) <==> s in streams && s.kind != "Attachment"
    ensures SubsequenceOf(MediaStreams(streams), streams)
  {
    FilterMembership(streams, IsMedia, s);
    FilterSubsequence(streams, IsMedia);
  }

  /** The title of the last title match for stream n, if there is one. */
  function LastTitle(titles: seq<TitleInfo>, n: int): Option<string>
    decreases |titles|
  {
    if |titles| == 0 then None
    else if titles[|titles| - 1].number == n then Some(titles[|titles| - 1].title)
    else LastTitle(titles[..|titles| - 1], n)
  }

  /** LastTitle finds a match for n exactly when there is one, and no later match has another title. */
  lemma LastTitleSpec(titles: seq<TitleInfo>, n: int)
    ensures LastTitle(titles, n).Some? <==> exists k :: 0 <= k < |titles| && titles[k].number == n
    ensures LastTitle(titles, n).Some? ==>
      exists k :: 0 <= k < |titles| && titles[k] == TitleInfo(n, LastTitle(titles, n).value)
        && forall m :: k < m < |titles| ==> titles[m].number != n
  {
    LastTitleFound(titles, n);
    if LastTitle(titles, n).Some? {
      var k := LastTitleAt(titles, n);
    }
  }

  /** LastTitle finds a match for n exactly when some title has the number n. */
  lemma {:induction false} LastTitleFound(titles: seq<TitleInfo>, n: int)
    ensures LastTitle(titles, n).Some? <==> exists k :: 0 <= k < |titles| && titles[k].number == n
    decreases |titles|
  {
    if |titles| > 0 {
      var front := titles[..|titles| - 1];
      LastTitleFound(front, n);
      if exists k :: 0 <= k < |front| && front[k].number == n {
        var k :| 0 <= k < |front| && front[k].number == n;
        assert titles[k] == front[k];
      }
      if exists k :: 0 <= k < |titles| && titles[k].number == n {
        var k :| 0 <= k < |titles| && titles[k].number == n;
        if k < |front| {
          assert front[k] == titles[k];
        }
      }
    }
  }

  /** The position of the match LastTitle finds: no later title has the number n. */
  lemma {:induction false} LastTitleAt(titles: seq<TitleInfo>, n: int) returns (k: nat)
    requires LastTitle(titles, n).Some?
    ensures k < |titles| && titles[k] == TitleInfo(n, LastTitle(titles, n).value)
    ensures forall m :: k < m < |titles| ==> titles[m].number != n
    decreases |titles|
  {
    var last := |titles| - 1;
    if titles[last].number == n {
      k := last;
    } else {
      var front := titles[..last];
      assert LastTitle(titles, n) == LastTitle(front, n);
      k := LastTitleAt(front, n);
      assert titles[k] == front[k];
      forall m | k < m < |titles| ensures titles[m].number != n {
        if m < last {
          assert titles[m] == front[m];
        }
      }
    }
  }

  /** A stream with the title of the last title match that has its number. */
  function Entitled(s: StreamInfo, titles: seq<TitleInfo>): StreamInfo {
    var t := LastTitle(titles, s.number);
    if t.Some? then s.(title := t) else s
  }

  /** Each media stream with the title recorded for its own stream number. */
  function WithTitles(media: seq<StreamInfo>, titles: seq<TitleInfo>): (r: seq<StreamInfo>)
    ensures |r| == |media|
  {
    seq(|media|, k requires 0 <= k < |media| => Entitled(media[k], titles))
  }

  /**
   * The title loop as movie/utils/movie.py and movie.py write it: the idx-th media stream takes
   * the title of the last match whose stream number is idx, its position, not its number.
   */
  function WithTitlesByPosition(media: seq<StreamInfo>, titles: seq<TitleInfo>): (r: seq<StreamInfo>)
    ensures |r| == |media|
  {
    seq(|media|, k requires 0 <= k < |media| =>
      var t := LastTitle(titles, k);
      if t.Some? then media[k].(title := t) else media[k])
  }

  /** Where the media streams are numbered 0, 1, 2, ..., position and number coincide and both loops agree. */
  lemma DenseNumbersAgree(media: seq<StreamInfo>, titles: seq<TitleInfo>)
    requires forall k :: 0 <= k < |media| ==> media[k].number == k
    ensures WithTitlesByPosition(media, titles) == WithTitles(media, titles)
  {
  }

  /**
   * An attachment before an audio stream breaks the positional loop: with streams 0 (Video),
   * 1 (Attachment) and 2 (Audio) and a title for stream 2, the audio stream sits at position 1
   * and loses its title, while matching by number keeps it.
   */
  lemma TitleByPositionLost(v: StreamInfo, a: StreamInfo, att: StreamInfo, titles: seq<TitleInfo>)
    requires v == StreamInfo(0, "", "Video", None)
    requires att == StreamInfo(1, "", "Attachment", None)
    requires a == StreamInfo(2, "eng", "Audio", None)
    requires titles == [TitleInfo(2, "Commentary")]
    ensures MediaStreams([v, att, a]) == [v, a]
    ensures WithTitlesByPosition(MediaStreams([v, att, a]), titles)[1].title == None
    ensures WithTitles(MediaStreams([v, att, a]), titles)[1].title == Some("Commentary")
  {
    assert [v, att, a][1..] == [att, a];
    assert [att, a][1..] == [a];
    assert [a][1..] == [];
    assert Filter([a], IsMedia) == [a];
    assert Filter([att, a], IsMedia) == [a];
    assert MediaStreams([v, att, a]) == [v] + [a];
    assert titles[..0] == [];
    assert LastTitle(titles, 1) == None;
  }

  /** One pass of the corrected title loop over the title matches, for one stream. */
  method TitleFor(s: StreamInfo, titles: seq<TitleInfo>) returns (r: StreamInfo)
    ensures r == Entitled(s, titles)
  {
    r := s;
    var j := 0;
    while j < |titles|
      invariant 0 <= j <= |titles|
      invariant r == Entitled(s, titles[..j])
    {
      assert titles[..j + 1][..j] == titles[..j];
      if titles[j].number == s.number {
        r := s.(title := Some(titles[j].title));
      }
      j := j + 1;
    }
    assert titles[..j] == titles;
  }

  /** The corrected title loop: every media stream gets the title of its own stream number. */
  method AttachTitles(media: seq<StreamInfo>, titles: seq<TitleInfo>) returns (r: seq<StreamInfo>)
    ensures r == WithTitles(media, titles)
  {
    r := media;
    var k := 0;
    while k < |media|
      invariant 0 <= k <= |media| && |r| == |media|
      invariant forall m :: 0 <= m < k ==> r[m] == Entitled(media[m], titles)
      invariant forall m :: k <= m < |media| ==> r[m] == media[m]
    {
      var s := TitleFor(media[k], titles);
      r := r[k := s];
      k := k + 1;
    }
  }

  /** The stream is selected and is a stream of type Subtitle. */
  predicate IsSubtitleStream(n: int, streams: seq<StreamInfo>) {
    exists k :: 0 <= k < |streams| && streams[k].number == n && streams[k].kind == SubtitleType
  }

  /** The first selection entry, in selection order, that is the number of a subtitle stream. */
  function FirstSubtitle(selected: seq<int>, streams: seq<StreamInfo>): Option<int>
    decreases |selected|
  {
    if |selected| == 0 then None
    else if IsSubtitleStream(selected[0], streams) then Some(selected[0])
    else FirstSubtitle(selected[1..], streams)
  }

  /**
   * The default subtitle is None exactly when no selected number is a subtitle stream; otherwise
   * it is a selected subtitle stream that no earlier entry is.
   */
  lemma {:induction false} FirstSubtitleSpec(selected: seq<int>, streams: seq<StreamInfo>)
    ensures FirstSubtitle(selected, streams).None? <==>
      forall i :: 0 <= i < |selected| ==> !IsSubtitleStream(selected[i], streams)
    ensures FirstSubtitle(selected, streams).Some? ==>
      exists i :: 0 <= i < |selected| && selected[i] == FirstSubtitle(selected, streams).value
        && IsSubtitleStream(selected[i], streams)
        && forall j :: 0 <= j < i ==> !IsSubtitleStream(selected[j], streams)
    decreases |selected|
  {
    if |selected| > 0 {
      FirstSubtitleSpec(selected[1..], streams);
      assert forall i :: 0 < i < |selected| ==> selected[i] == selected[1..][i - 1];
      if !IsSubtitleStream(selected[0], streams) && FirstSubtitle(selected[1..], streams).Some? {
        var i :| 0 <= i < |selected[1..]| && selected[1..][i] == FirstSubtitle(selected[1..], streams).value
          && IsSubtitleStream(selected[1..][i], streams)
          && forall j :: 0 <= j < i ==> !IsSubtitleStream(selected[1..][j], streams);
        assert selected[i + 1] == selected[1..][i];
      }
    }
  }

  /** ['-map', '0:n'] */
  function MapArgs(n: int): seq<string> {
    ["-map", "0:" + IntToString(n)]
  }

  /** The tokens one matching stream adds: its map, and for the default subtitle '-disposition:i default'. */
  function StreamMeta(i: nat, n: int, isDefault: bool): seq<string> {
    MapArgs(n) + (if isDefault then ["-disposition:" + IntToString(i), "default"] else [])
  }

  /** The tokens the i-th selection entry sel adds: one group per stream whose number is sel. */
  function EntryArgs(i: nat, sel: int, streams: seq<StreamInfo>, dflt: Option<int>): seq<string>
    decreases |streams|
  {
    if |streams| == 0 then []
    else
      var s := streams[|streams| - 1];
      EntryArgs(i, sel, streams[..|streams| - 1], dflt)
      + (if s.number == sel then StreamMeta(i, s.number, dflt == Some(sel)) else [])
  }

  /** streams_metadata of selected_streams: the entries' tokens in selection order. */
  function SelectionArgs(selected: seq<int>, streams: seq<StreamInfo>, dflt: Option<int>): seq<string>
    decreases |selected|
  {
    if |selected| == 0 then []
    else
      var front := selected[..|selected| - 1];
      SelectionArgs(front, streams, dflt) + EntryArgs(|front|, selected[|selected| - 1], streams, dflt)
  }

  /** An entry that matches no stream adds nothing. */
  lemma {:induction false} EntryUnmatched(i: nat, sel: int, streams: seq<StreamInfo>, dflt: Option<int>)
    requires forall k :: 0 <= k < |streams| ==> streams[k].number != sel
    ensures EntryArgs(i, sel, streams, dflt) == []
    decreases |streams|
  {
    if |streams| > 0 {
      EntryUnmatched(i, sel, streams[..|streams| - 1], dflt);
    }
  }

  /**
   * An entry that matches exactly one stream adds '-map 0:sel', followed by '-disposition:i default'
   * exactly when sel is the default subtitle.
   */
  lemma {:induction false} EntryMatchedOnce(i: nat, sel: int, streams: seq<StreamInfo>, dflt: Option<int>, k: nat)
    requires k < |streams| && streams[k].number == sel
    requires forall m :: 0 <= m < |streams| && m != k ==> streams[m].number != sel
    ensures EntryArgs(i, sel, streams, dflt) == StreamMeta(i, sel, dflt == Some(sel))
    decreases |streams|
  {
    var front := streams[..|streams| - 1];
    if k == |streams| - 1 {
      EntryUnmatched(i, sel, front, dflt);
    } else {
      EntryMatchedOnce(i, sel, front, dflt, k);
    }
  }

  /** How many entries of the selection are the default subtitle. */
  function DefaultCount(selected: seq<int>, dflt: Option<int>): nat
    decreases |selected|
  {
    if |selected| == 0 then 0
    else DefaultCount(selected[..|selected| - 1], dflt) + (if dflt == Some(selected[|selected| - 1]) then 1 else 0)
  }

  /** The numbers of the streams are distinct and every selected number is one of them. */
  predicate Unambiguous(selected: seq<int>, streams: seq<StreamInfo>) {
    (forall a, b :: 0 <= a < b < |streams| ==> streams[a].number != streams[b].number)
    && forall i :: 0 <= i < |selected| ==> exists k :: 0 <= k < |streams| && streams[k].number == selected[i]
  }

  /**
   * With distinct stream numbers and every entry matching, each entry adds two tokens and the
   * entries equal to the default subtitle two more.
   */
  lemma {:induction false} SelectionArgsLength(selected: seq<int>, streams: seq<StreamInfo>, dflt: Option<int>)
    requires Unambiguous(selected, streams)
    ensures |SelectionArgs(selected, streams, dflt)| == 2 * |selected| + 2 * DefaultCount(selected, dflt)
    decreases |selected|
  {
    if |selected| > 0 {
      var front := selected[..|selected| - 1];
      var sel := selected[|selected| - 1];
      assert forall i :: 0 <= i < |front| ==> front[i] == selected[i];
      SelectionArgsLength(front, streams, dflt);
      var k :| 0 <= k < |streams| && streams[k].number == sel;
      EntryMatchedOnce(|front|, sel, streams, dflt, k);
    }
  }

  /** The tokens set_default_and_language_streams adds for the i-th dictionary entry. */
  function LanguageGroup(i: nat, key: int, language: string): seq<string> {
    ["-map", "0:" + IntToString(key), "-metadata:s:" + IntToString(i), "language=" + language,
     "-disposition:" + IntToString(i), "default"]
  }

  function LanguageGroupOf(i: nat, entry: (int, string)): (r: seq<string>)
    ensures |r| == 6
  {
    LanguageGroup(i, entry.0, entry.1)
  }

  /** streams_metadata of set_default_and_language_streams, over the dictionary's items in order. */
  function LanguageArgs(entries: seq<(int, string)>): seq<string> {
    Groups(entries, LanguageGroupOf)
  }

  /** Six tokens per entry, in dictionary order: the i-th six are the i-th entry's group. */
  lemma LanguageArgsGroup(entries: seq<(int, string)>, i: nat)
    requires i < |entries|
    ensures |LanguageArgs(entries)| == 6 * |entries|
    ensures LanguageArgs(entries)[6 * i..6 * i + 6] == LanguageGroup(i, entries[i].0, entries[i].1)
  {
    GroupsAt(entries, LanguageGroupOf, 6, i);
  }

  /** The loop of set_default_and_language_streams: six tokens per entry, i the entry's position. */
  method LanguageArguments(entries: seq<(int, string)>) returns (args: seq<string>)
    ensures args == LanguageArgs(entries)
  {
    args := [];
    var i := 0;
    while i < |entries|
      invariant 0 <= i <= |entries|
      invariant args == LanguageArgs(entries[..i])
    {
      assert entries[..i + 1] == entries[..i] + [entries[i]];
      GroupsSnoc(entries[..i], LanguageGroupOf, entries[i]);
      var (key, language) := entries[i];
      var group := ["-map", "0:" + IntToString(key), "-metadata:s:" + IntToString(i), "language=" + language,
                    "-disposition:" + IntToString(i), "default"];
      args := args + group;
      i := i + 1;
    }
    assert entries[..i] == entries;
  }

  predicate OfKindTest(kind: string, s: StreamInfo) {
    s.kind == kind
  }

  /** [d for d in self.streams if d['type'] == kind] */
  function OfKind(streams: seq<StreamInfo>, kind: string): seq<StreamInfo> {
    Filter(streams, s => OfKindTest(kind, s))
  }

  /** __separate_media_streams__: the video, audio and subtitle streams. */
  function Separate(streams: seq<StreamInfo>): (seq<StreamInfo>, seq<StreamInfo>, seq<StreamInfo>) {
    (OfKind(streams, "Video"), OfKind(streams, "Audio"), OfKind(streams, "Subtitle"))
  }

  /** A stream is in the part of its kind exactly, each part keeps the table's order. */
  lemma SeparateSpec(streams: seq<StreamInfo>, s: StreamInfo)
    ensures s in Separate(streams).0 <==> s in streams && s.kind == "Video"
    ensures s in Separate(streams).1 <==> s in streams && s.kind == "Audio"
    ensures s in Separate(streams).2 <==> s in streams && s.kind == "Subtitle"
    ensures SubsequenceOf(Separate(streams).0, streams)
    ensures SubsequenceOf(Separate(streams).1, streams)
    ensures SubsequenceOf(Separate(streams).2, streams)
  {
    FilterMembership(streams, s => OfKindTest("Video", s), s);
    FilterMembership(streams, s => OfKindTest("Audio", s), s);
    FilterMembership(streams, s => OfKindTest("Subtitle", s), s);
    FilterSubsequence(streams, s => OfKindTest("Video", s));
    FilterSubsequence(streams, s => OfKindTest("Audio", s));
    FilterSubsequence(streams, s => OfKindTest("Subtitle", s));
  }

  /** When every stream is a video, audio or subtitle stream, the three parts together hold all of them. */
  lemma {:induction false} SeparateCovers(streams: seq<StreamInfo>)
    requires forall k :: 0 <= k < |streams| ==> streams[k].kind in {"Video", "Audio", "Subtitle"}
    ensures |Separate(streams).0| + |Separate(streams).1| + |Separate(streams).2| == |streams|
    decreases |streams|
  {
    if |streams| > 0 {
      SeparateCovers(streams[1..]);
    }
  }

  /** The characters the base template may not contain. */
  predicate Forbidden(c: char) {
    c in {'/', '\\', ':', '*', '?', '"', '<', '>', '|'}
  }

  /** r'^[^\/\\\:\*\?\"\<\>\|]+$' matches t. */
  function ValidTemplate(t: string): (ok: bool)
    ensures ok <==> |t| > 0 && forall i :: 0 <= i < |t| ==> !Forbidden(t[i])
  {
    |t| > 0 && NoForbidden(t)
  }

  function NoForbidden(t: string): (ok: bool)
    ensures ok <==> forall i :: 0 <= i < |t| ==> !Forbidden(t[i])
    decreases |t|
  {
    |t| == 0 || (!Forbidden(t[0]) && NoForbidden(t[1..]))
  }

  /** The templates of rename_files: without a number for a single film, with ".E" and a number for a series. */
  function MovieNaming(base: string, single: bool): Naming {
    if single then Naming(Template(base, false, ""), Template(base, false, ".RUS"), Template(base, false, ""))
    else Naming(Template(base + ".E", true, ""), Template(base + ".E", true, ".RUS"), Template(base + ".E", true, ""))
  }

  /** A single film's files are named after the base template, subtitles with ".RUS", whatever their counter. */
  lemma SingleFilmNames(base: string, k: nat)
    ensures Format(MovieNaming(base, true).video, k) == base
    ensures Format(MovieNaming(base, true).subtitle, k) == base + ".RUS"
    ensures Format(MovieNaming(base, true).image, k) == base
  {
  }

  /** The k-th video or image of a series is base + ".E" + two-digit k, the k-th subtitle the same with ".RUS". */
  lemma SeriesNames(base: string, k: nat)
    ensures Format(MovieNaming(base, false).video, k) == base + ".E" + Pad2(k)
    ensures Format(MovieNaming(base, false).subtitle, k) == base + ".E" + Pad2(k) + ".RUS"
    ensures Format(MovieNaming(base, false).image, k) == base + ".E" + Pad2(k)
  {
  }

  /** A valid base template holds no '/', so no new name of a series leaves the directory. */
  lemma {:induction false} ValidTemplateStaysInDirectory(base: string, k: nat)
    requires ValidTemplate(base)
    ensures '/' !in Format(MovieNaming(base, false).subtitle, k)
  {
    var d := Pad2(k);
    assert forall i :: 0 <= i < |d| ==> IsDigit(d[i]);
    var name := base + ".E" + d + ".RUS";
    assert Format(MovieNaming(base, false).subtitle, k) == name;
    forall i | 0 <= i < |name|
      ensures name[i] != '/'
    {
      if i < |base| {
        assert name[i] == base[i] && !Forbidden(base[i]);
      } else if i >= |base| + 2 && i < |base| + 2 + |d| {
        assert name[i] == d[i - |base| - 2];
      }
    }
  }

  /**
   * The Movie object of movie/utils/movie.py (and of movie.py). The configuration and the random
   * filename prefix are given at construction; layout says which extensions rename_files and
   * __is_series__ sort by, remuxed which __run_ffmpeg__ and remove_video touch.
   */
  class Movie {
    const ffmpeg: string
    const moviesPath: string
    const baseTemplate: string
    const filenamePrefix: string
    const layout: Layout
    const remuxed: set<string>
    var streams: seq<StreamInfo>

    constructor(ffmpeg: string, moviesPath: string, baseTemplate: string, filenamePrefix: string,
                layout: Layout, remuxed: set<string>)
      ensures this.ffmpeg == ffmpeg && this.moviesPath == moviesPath && this.baseTemplate == baseTemplate
      ensures this.filenamePrefix == filenamePrefix && this.layout == layout && this.remuxed == remuxed
      ensures streams == []
    {
      this.ffmpeg := ffmpeg;
      this.moviesPath := moviesPath;
      this.baseTemplate := baseTemplate;
      this.filenamePrefix := filenamePrefix;
      this.layout := layout;
      this.remuxed := remuxed;
      streams := [];
    }

    /**
     * The stream post-processing of __get_video_streams_and_log_file__: the table of the media
     * streams with their titles, set only when no int() raised. Titles are matched by stream
     * number, the corrected loop of AttachTitles, not by position as the source's loop does.
     */
    method LoadStreams(found: seq<Found>, titled: seq<Titled>) returns (ok: bool)
      modifies this
      ensures ok <==> ReadStreams(found).Some? && ReadTitles(titled).Some?
      ensures ok ==> streams == WithTitles(MediaStreams(ReadStreams(found).value), ReadTitles(titled).value)
      ensures !ok ==> streams == old(streams)
    {
      var table := ReadStreams(found);
      var titles := ReadTitles(titled);
      if table.None? || titles.None? {
        return false;
      }
      streams := AttachTitles(MediaStreams(table.value), titles.value);
      return true;
    }

    /** __get_first_subtitle_type_stream__: for each entry in order, the first matching stream of type Subtitle. */
    method FirstSubtitleStream(selected: seq<int>) returns (r: Option<int>)
      ensures r == FirstSubtitle(selected, streams)
    {
      var i := 0;
      while i < |selected|
        invariant 0 <= i <= |selected|
        invariant FirstSubtitle(selected, streams) == FirstSubtitle(selected[i..], streams)
      {
        var j := 0;
        while j < |streams|
          invariant 0 <= j <= |streams|
          invariant forall k :: 0 <= k < j ==> !(streams[k].number == selected[i] && streams[k].kind == SubtitleType)
        {
          if streams[j].number == selected[i] && streams[j].kind == SubtitleType {
            assert IsSubtitleStream(selected[i..][0], streams);
            return Some(streams[j].number);
          }
          j := j + 1;
        }
        assert !IsSubtitleStream(selected[i..][0], streams);
        assert selected[i..][1..] == selected[i + 1..];
        i := i + 1;
      }
      return None;
    }

    /** The inner loop of selected_streams for the i-th entry sel. */
    method EntryArguments(i: nat, sel: int, dflt: Option<int>) returns (entry: seq<string>)
      ensures entry == EntryArgs(i, sel, streams, dflt)
    {
      entry := [];
      var j := 0;
      while j < |streams|
        invariant 0 <= j <= |streams|
        invariant entry == EntryArgs(i, sel, streams[..j], dflt)
      {
        assert streams[..j + 1][..j] == streams[..j];
        if streams[j].number == sel {
          if dflt == Some(sel) {
            entry := entry + ["-map", "0:" + IntToString(streams[j].number), "-disposition:" + IntToString(i), "default"];
          } else {
            entry := entry + ["-map", "0:" + IntToString(streams[j].number)];
          }
        }
        j := j + 1;
      }
      assert streams[..j] == streams;
    }

    /** streams_metadata of selected_streams, the default subtitle found first. */
    method SelectionArguments(selected: seq<int>) returns (args: seq<string>)
      ensures args == SelectionArgs(selected, streams, FirstSubtitle(selected, streams))
    {
      var dflt := FirstSubtitleStream(selected);
      args := [];
      var i := 0;
      while i < |selected|
        invariant 0 <= i <= |selected|
        invariant args == SelectionArgs(selected[..i], streams, dflt)
      {
        assert selected[..i + 1][..i] == selected[..i];
        var entry := EntryArguments(i, selected[i], dflt);
        args := args + entry;
        i := i + 1;
      }
      assert selected[..i] == selected;
    }

    /** selected_streams: one stream-copying command per video, writing prefix + "-" + name. */
    method SelectedStreams(listing: seq<string>, selected: seq<int>) returns (commands: seq<seq<string>>)
      ensures commands == CopyCommands(ffmpeg, moviesPath, Kept(listing, remuxed),
        SelectionArgs(selected, streams, FirstSubtitle(selected, streams)), filenamePrefix + "-")
    {
      var args := SelectionArguments(selected);
      commands := RunCopies(ffmpeg, moviesPath, listing, remuxed, args, filenamePrefix + "-");
    }

    /** set_default_and_language_streams over the items of the language dictionary. */
    method SetDefaultAndLanguageStreams(listing: seq<string>, entries: seq<(int, string)>)
      returns (commands: seq<seq<string>>)
      ensures commands == CopyCommands(ffmpeg, moviesPath, Kept(listing, remuxed), LanguageArgs(entries), filenamePrefix + "-")
    {
      var args := LanguageArguments(entries);
      commands := RunCopies(ffmpeg, moviesPath, listing, remuxed, args, filenamePrefix + "-");
    }

    /** __is_series__: the number of videos in the directory. */
    method VideoCount(listing: seq<string>) returns (count: nat)
      ensures count == CountIn(listing, layout.video)
    {
      count := 0;
      var i := 0;
      while i < |listing|
        invariant 0 <= i <= |listing|
        invariant count == CountIn(listing[..i], layout.video)
      {
        assert listing[..i + 1] == listing[..i] + [listing[i]];
        KeptSnoc(listing[..i], layout.video, listing[i]);
        if Ext(listing[i]) in layout.video {
          count := count + 1;
        }
        i := i + 1;
      }
      assert listing[..i] == listing;
    }

    /** rename_files: the renames, with the single-film templates when there is exactly one video. */
    method RenameFiles(listing: seq<string>) returns (plan: seq<Rename>)
      ensures plan == RenamePlan(moviesPath, listing, layout, MovieNaming(baseTemplate, CountIn(listing, layout.video) == 1))
    {
      var count := VideoCount(listing);
      plan := RenameLoop(moviesPath, listing, layout, MovieNaming(baseTemplate, count == 1));
    }

    /** remove_video: the paths removed, none when removal is off. */
    method RemoveVideo(listing: seq<string>, doRemove: bool) returns (removed: seq<string>)
      ensures removed == if doRemove then Paths(moviesPath, Removed(listing, remuxed, filenamePrefix)) else []
    {
      removed := [];
      if doRemove {
        removed := RemoveVideos(moviesPath, listing, remuxed, filenamePrefix);
      }
    }
  }

  /** movie.py's extensions for __is_series__ and rename_files. */
  const ScriptLayout := Layout({".mkv", ".mp4"}, {".ass", ".srt"}, {".png", ".jpg"})

  /** movie.py's __run_ffmpeg__ and remove_video only touch .mkv files. */
  const ScriptRemuxed: set<string> := {".mkv"}
}
