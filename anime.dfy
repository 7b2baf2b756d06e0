/**
 * The ffmpeg and file-naming steps of the anime.py script: the stream maps of
 * save_necessary_metadata, the subtitle metadata of make_default_subs, rename_files and
 * remove_video, all over .mkv videos.
 */
module Anime {
  import opened Wrappers
  import opened PyText
  import opened Sequences
  import opened Remux

  /** The script's only video extension. */
  const AnimeVideo: set<string> := {".mkv"}

  /** The extensions rename_files sorts by. */
  const AnimeLayout := Layout({".mkv"}, {".ass", ".srt"}, {".png", ".jpg"})

  function MapGroup(i: nat, stream: int): (r: seq<string>)
    ensures |r| == 2
  {
    ["-map", "0:" + IntToString(stream)]
  }

  /** The maps comprehension of save_necessary_metadata. */
  function Maps(streams: seq<int>): seq<string> {
    Groups(streams, MapGroup)
  }

  /** Two tokens per stream, in order: the i-th pair maps the i-th stream. */
  lemma MapsSpec(streams: seq<int>, i: nat)
    requires i < |streams|
    ensures |Maps(streams)| == 2 * |streams|
    ensures Maps(streams)[2 * i..2 * i + 2] == ["-map", "0:" + IntToString(streams[i])]
  {
    GroupsAt(streams, MapGroup, 2, i);
  }

  /** What save_necessary_metadata adds after the maps: drop the global metadata and the chapters. */
  const DropMetadata := ["-map_metadata", "-1", "-map_chapters", "-1"]

  /** save_necessary_metadata: one command per .mkv, the maps then DropMetadata, writing "pure-" + name. */
  method SaveNecessaryMetadata(ffmpeg: string, moviesPath: string, listing: seq<string>, streams: seq<int>)
    returns (commands: seq<seq<string>>)
    ensures commands == CopyCommands(ffmpeg, moviesPath, Kept(listing, AnimeVideo), Maps(streams) + DropMetadata, "pure-")
  {
    var maps := Maps(streams);
    commands := RunCopies(ffmpeg, moviesPath, listing, AnimeVideo, maps + DropMetadata, "pure-");
  }

  /**
   * Every command of save_necessary_metadata reads one .mkv of the listing, keeps exactly the
   * chosen streams, drops metadata and chapters, and writes "pure-" + its name.
   */
  lemma SaveCommandShape(ffmpeg: string, moviesPath: string, listing: seq<string>, streams: seq<int>, k: nat)
    requires k < |Kept(listing, AnimeVideo)|
    ensures var c := CopyCommands(ffmpeg, moviesPath, Kept(listing, AnimeVideo), Maps(streams) + DropMetadata, "pure-")[k];
      var f := Kept(listing, AnimeVideo)[k];
      && f in listing && Ext(f) == ".mkv"
      && c == [ffmpeg, "-i", PathJoin(moviesPath, f), "-c", "copy"] + Maps(streams) + DropMetadata
              + [PathJoin(moviesPath, "pure-" + f)]
      && |c| == 2 * |streams| + 10
  {
    var videos := Kept(listing, AnimeVideo);
    var f := videos[k];
    var maps := Maps(streams);
    MapsLength(streams);
    KeptAt(listing, AnimeVideo, k);
    CopyCommandsAt(ffmpeg, moviesPath, videos, maps + DropMetadata, "pure-", k);
    var head := [ffmpeg, "-i", PathJoin(moviesPath, f), "-c", "copy"];
    assert head + (maps + DropMetadata) == head + maps + DropMetadata;
  }

  lemma MapsLength(streams: seq<int>)
    ensures |Maps(streams)| == 2 * |streams|
  {
    GroupsLength(streams, MapGroup, 2);
  }

  /** The six tokens make_default_subs adds for one stream, keyed by the stream number itself. */
  function SubsGroup(stream: int, language: string): seq<string> {
    ["-metadata:s:" + IntToString(stream), "language=" + language, "-default_mode", "infer",
     "-disposition:s:" + IntToString(stream), "-default"]
  }

  function SubsGroupOf(i: nat, pair: (int, string)): (r: seq<string>)
    ensures |r| == 6
  {
    SubsGroup(pair.0, pair.1)
  }

  /** The streams paired with the languages at the same positions. */
  function Zip(streams: seq<int>, languages: seq<string>): (r: seq<(int, string)>)
    requires |languages| >= |streams|
    ensures |r| == |streams|
  {
    seq(|streams|, i requires 0 <= i < |streams| => (streams[i], languages[i]))
  }

  /** default_metadata of make_default_subs. */
  function DefaultSubsArgs(streams: seq<int>, languages: seq<string>): seq<string>
    requires |languages| >= |streams|
  {
    Groups(Zip(streams, languages), SubsGroupOf)
  }

  /** Six tokens per stream, in order: the i-th six give the i-th stream the i-th language. */
  lemma DefaultSubsGroup(streams: seq<int>, languages: seq<string>, i: nat)
    requires |languages| >= |streams| && i < |streams|
    ensures |DefaultSubsArgs(streams, languages)| == 6 * |streams|
    ensures DefaultSubsArgs(streams, languages)[6 * i..6 * i + 6] == SubsGroup(streams[i], languages[i])
  {
    GroupsAt(Zip(streams, languages), SubsGroupOf, 6, i);
  }

  /**
   * make_default_subs: None where languages[idx] raises IndexError, that is when there are fewer
   * languages than streams; otherwise one command per .mkv writing "default_rus_subs-" + name.
   */
  method MakeDefaultSubs(ffmpeg: string, moviesPath: string, listing: seq<string>, languages: seq<string>, streams: seq<int>)
    returns (r: Option<seq<seq<string>>>)
    ensures r.None? <==> |languages| < |streams|
    ensures r.Some? ==> r.value == CopyCommands(ffmpeg, moviesPath, Kept(listing, AnimeVideo),
      DefaultSubsArgs(streams, languages), "default_rus_subs-")
  {
    var metadata: seq<string> := [];
    var idx := 0;
    while idx < |streams|
      invariant 0 <= idx <= |streams| && idx <= |languages|
      invariant metadata == Groups(Zip(streams[..idx], languages[..idx]), SubsGroupOf)
    {
      if idx >= |languages| {
        return None;
      }
      ZipSnoc(streams, languages, idx);
      GroupsSnoc(Zip(streams[..idx], languages[..idx]), SubsGroupOf, (streams[idx], languages[idx]));
      var group := ["-metadata:s:" + IntToString(streams[idx]), "language=" + languages[idx], "-default_mode", "infer",
                    "-disposition:s:" + IntToString(streams[idx]), "-default"];
      metadata := metadata + group;
      idx := idx + 1;
    }
    assert streams[..idx] == streams;
    ZipPrefix(streams, languages);
    var commands := RunCopies(ffmpeg, moviesPath, listing, AnimeVideo, metadata, "default_rus_subs-");
    return Some(commands);
  }

  lemma ZipSnoc(streams: seq<int>, languages: seq<string>, i: nat)
    requires i < |streams| && i < |languages|
    ensures Zip(streams[..i + 1], languages[..i + 1]) == Zip(streams[..i], languages[..i]) + [(streams[i], languages[i])]
  {
  }

  lemma ZipPrefix(streams: seq<int>, languages: seq<string>)
    requires |languages| >= |streams|
    ensures Zip(streams, languages[..|streams|]) == Zip(streams, languages)
  {
  }

  /** The templates of rename_files: the template, the two-digit number, ".RUS" for subtitles. */
  function AnimeNaming(template: string): Naming {
    Naming(Template(template, true, ""), Template(template, true, ".RUS"), Template(template, true, ""))
  }

  /** The k-th video or image is template + two-digit k, the k-th subtitle the same with ".RUS". */
  lemma AnimeNames(template: string, k: nat)
    ensures Format(AnimeNaming(template).video, k) == template + Pad2(k)
    ensures Format(AnimeNaming(template).subtitle, k) == template + Pad2(k) + ".RUS"
    ensures Format(AnimeNaming(template).image, k) == template + Pad2(k)
  {
  }

  /** rename_files: every file of a kind numbered by its own counter; there is no single-film case. */
  method RenameFiles(moviesPath: string, listing: seq<string>, template: string) returns (plan: seq<Rename>)
    ensures plan == RenamePlan(moviesPath, listing, AnimeLayout, AnimeNaming(template))
  {
    plan := RenameLoop(moviesPath, listing, AnimeLayout, AnimeNaming(template));
  }

  /** Two different episodes never get the same new name, for any kind. */
  lemma AnimeNamesDistinct(listing: seq<string>, template: string, k: Kind, i: nat, j: nat)
    requires i < j < |listing| && Ext(listing[i]) in ExtsOf(AnimeLayout, k) && Ext(listing[j]) in ExtsOf(AnimeLayout, k)
    ensures var t := TemplateOf(AnimeNaming(template), k);
      Format(t, CountIn(listing[..i], ExtsOf(AnimeLayout, k)) + 1) + Ext(listing[i])
      != Format(t, CountIn(listing[..j], ExtsOf(AnimeLayout, k)) + 1) + Ext(listing[j])
  {
    NumberedNamesDistinct(listing, ExtsOf(AnimeLayout, k), TemplateOf(AnimeNaming(template), k), i, j);
  }

  /** remove_video: the paths of the .mkv files whose name lacks saveTemplate, none when removal is off. */
  method RemoveVideo(moviesPath: string, listing: seq<string>, saveTemplate: string, doRemove: bool)
    returns (removed: seq<string>)
    ensures removed == if doRemove then Paths(moviesPath, Removed(listing, AnimeVideo, saveTemplate)) else []
  {
    removed := [];
    if doRemove {
      removed := RemoveVideos(moviesPath, listing, AnimeVideo, saveTemplate);
    }
  }
}
