/**
 * What the media tools do over one directory listing, shared by movie/utils/movie.py,
 * movie.py and anime.py: one stream-copying ffmpeg command per video, the removal of the
 * videos that are not results, and the episode-renaming plan with one counter per kind.
 */
module Remux {
  import opened Wrappers
  import opened PyText

  /** The extensions of the three kinds of file (constants.VIDEO, SUBTITLE and IMAGE). */
  datatype Layout = Layout(video: set<string>, subtitle: set<string>, image: set<string>)

  /** [ffmpeg, '-i', source, '-c', 'copy', *args, target] */
  function CopyCommand(ffmpeg: string, source: string, args: seq<string>, target: string): seq<string> {
    [ffmpeg, "-i", source, "-c", "copy"] + args + [target]
  }

  /** The names of the listing whose extension is in exts, in listing order. */
  function Kept(listing: seq<string>, exts: set<string>): (r: seq<string>)
    ensures |r| <= |listing|
    decreases |listing|
  {
    if |listing| == 0 then []
    else
      var f := listing[|listing| - 1];
      Kept(listing[..|listing| - 1], exts) + (if Ext(f) in exts then [f] else [])
  }

  /** Number of names of the listing whose extension is in exts. */
  function CountIn(listing: seq<string>, exts: set<string>): nat {
    |Kept(listing, exts)|
  }

  /** A name is kept exactly when it is in the listing with one of the extensions. */
  lemma {:induction false} KeptMembership(listing: seq<string>, exts: set<string>, f: string)
    ensures f in Kept(listing, exts) <==> f in listing && Ext(f) in exts
    decreases |listing|
  {
    if |listing| > 0 {
      var front := listing[..|listing| - 1];
      KeptMembership(front, exts, f);
      assert listing == front + [listing[|listing| - 1]];
    }
  }

  /** The k-th kept name is a name of the listing with one of the extensions. */
  lemma KeptAt(listing: seq<string>, exts: set<string>, k: nat)
    requires k < |Kept(listing, exts)|
    ensures Kept(listing, exts)[k] in listing && Ext(Kept(listing, exts)[k]) in exts
  {
    KeptMembership(listing, exts, Kept(listing, exts)[k]);
  }

  lemma KeptSnoc(listing: seq<string>, exts: set<string>, f: string)
    ensures Kept(listing + [f], exts) == Kept(listing, exts) + (if Ext(f) in exts then [f] else [])
  {
    assert (listing + [f])[..|listing|] == listing;
  }

  /** The commands of one run over the listing: one per video, in listing order, writing tag + name. */
  function CopyCommands(ffmpeg: string, dir: string, videos: seq<string>, args: seq<string>, tag: string): (r: seq<seq<string>>)
    ensures |r| == |videos|
  {
    seq(|videos|, k requires 0 <= k < |videos| =>
      CopyCommand(ffmpeg, PathJoin(dir, videos[k]), args, PathJoin(dir, tag + videos[k])))
  }

  lemma CopyCommandsAt(ffmpeg: string, dir: string, videos: seq<string>, args: seq<string>, tag: string, k: nat)
    requires k < |videos|
    ensures CopyCommands(ffmpeg, dir, videos, args, tag)[k] ==
      CopyCommand(ffmpeg, PathJoin(dir, videos[k]), args, PathJoin(dir, tag + videos[k]))
  {
  }

  /**
   * The loop of __run_ffmpeg__ and of save_necessary_metadata: for each name of the listing
   * with a video extension, the command that copies the selected streams into tag + name.
   */
  method RunCopies(ffmpeg: string, dir: string, listing: seq<string>, video: set<string>, args: seq<string>, tag: string)
    returns (commands: seq<seq<string>>)
    ensures commands == CopyCommands(ffmpeg, dir, Kept(listing, video), args, tag)
  {
    commands := [];
    var i := 0;
    while i < |listing|
      invariant 0 <= i <= |listing|
      invariant commands == CopyCommands(ffmpeg, dir, Kept(listing[..i], video), args, tag)
    {
      commands := CopyOne(ffmpeg, dir, listing, video, args, tag, i, commands);
      i := i + 1;
    }
    assert listing[..i] == listing;
  }

  /** One turn of the loop of RunCopies, on the i-th name. */
  method CopyOne(ffmpeg: string, dir: string, listing: seq<string>, video: set<string>, args: seq<string>, tag: string,
                 i: nat, commands: seq<seq<string>>)
    returns (next: seq<seq<string>>)
    requires i < |listing| && commands == CopyCommands(ffmpeg, dir, Kept(listing[..i], video), args, tag)
    ensures next == CopyCommands(ffmpeg, dir, Kept(listing[..i + 1], video), args, tag)
  {
    var f := listing[i];
    assert listing[..i + 1] == listing[..i] + [f];
    KeptSnoc(listing[..i], video, f);
    next := commands;
    if Ext(f) in video {
      CopyCommandsSnoc(ffmpeg, dir, Kept(listing[..i], video), f, args, tag);
      next := next + [CopyCommand(ffmpeg, PathJoin(dir, f), args, PathJoin(dir, tag + f))];
    }
  }

  lemma CopyCommandsSnoc(ffmpeg: string, dir: string, videos: seq<string>, f: string, args: seq<string>, tag: string)
    ensures CopyCommands(ffmpeg, dir, videos + [f], args, tag)
         == CopyCommands(ffmpeg, dir, videos, args, tag) + [CopyCommand(ffmpeg, PathJoin(dir, f), args, PathJoin(dir, tag + f))]
  {
    var l := CopyCommands(ffmpeg, dir, videos + [f], args, tag);
    var r := CopyCommands(ffmpeg, dir, videos, args, tag) + [CopyCommand(ffmpeg, PathJoin(dir, f), args, PathJoin(dir, tag + f))];
    forall k | 0 <= k < |l| ensures l[k] == r[k] {
      if k < |videos| {
        assert (videos + [f])[k] == videos[k];
      }
    }
  }

  /**
   * Every command starts [ffmpeg, '-i', source, '-c', 'copy'], carries args unchanged and
   * ends with the target; the k-th command is for the k-th video and writes tag + its name.
   */
  lemma CopyCommandsShape(ffmpeg: string, dir: string, videos: seq<string>, args: seq<string>, tag: string, k: nat)
    requires k < |videos|
    ensures var c := CopyCommands(ffmpeg, dir, videos, args, tag)[k];
      && |c| == |args| + 6
      && c[..5] == [ffmpeg, "-i", PathJoin(dir, videos[k]), "-c", "copy"]
      && c[5..5 + |args|] == args
      && c[|c| - 1] == PathJoin(dir, tag + videos[k])
  {
    var c := CopyCommands(ffmpeg, dir, videos, args, tag)[k];
    assert c == [ffmpeg, "-i", PathJoin(dir, videos[k]), "-c", "copy"] + args + [PathJoin(dir, tag + videos[k])];
  }

  /** remove_video deletes f: a video whose name does not contain mark. */
  predicate Doomed(f: string, video: set<string>, mark: string) {
    Ext(f) in video && !Contains(f, mark)
  }

  /** The videos remove_video deletes: the listing's videos whose name does not contain mark, in listing order. */
  function Removed(listing: seq<string>, video: set<string>, mark: string): (r: seq<string>)
    ensures |r| <= |listing|
    decreases |listing|
  {
    if |listing| == 0 then []
    else
      var f := listing[|listing| - 1];
      Removed(listing[..|listing| - 1], video, mark) + (if Doomed(f, video, mark) then [f] else [])
  }

  /** os.path.join(path, f) for each name. */
  function Paths(dir: string, names: seq<string>): (r: seq<string>)
    ensures |r| == |names|
  {
    if |names| == 0 then [] else Paths(dir, names[..|names| - 1]) + [PathJoin(dir, names[|names| - 1])]
  }

  /** The k-th path is the k-th name joined to the directory. */
  lemma {:induction false} PathsAt(dir: string, names: seq<string>)
    ensures forall k :: 0 <= k < |names| ==> Paths(dir, names)[k] == PathJoin(dir, names[k])
    decreases |names|
  {
    if |names| > 0 {
      var front := names[..|names| - 1];
      PathsAt(dir, front);
      assert forall k :: 0 <= k < |front| ==> front[k] == names[k];
    }
  }

  lemma PathsSnoc(dir: string, names: seq<string>, f: string)
    ensures Paths(dir, names + [f]) == Paths(dir, names) + [PathJoin(dir, f)]
  {
    assert (names + [f])[..|names|] == names;
  }

  /**
   * The loop of remove_video: the paths of the listing's videos whose name lacks mark, which
   * are the ones removed when removal is on.
   */
  method RemoveVideos(dir: string, listing: seq<string>, video: set<string>, mark: string)
    returns (removed: seq<string>)
    ensures removed == Paths(dir, Removed(listing, video, mark))
  {
    removed := [];
    var i := 0;
    while i < |listing|
      invariant 0 <= i <= |listing|
      invariant removed == RemovedPaths(dir, listing[..i], video, mark)
    {
      assert listing[..i + 1][..i] == listing[..i];
      if Doomed(listing[i], video, mark) {
        removed := removed + [PathJoin(dir, listing[i])];
      }
      i := i + 1;
    }
    assert listing[..i] == listing;
    RemovedPathsSpec(dir, listing, video, mark);
  }

  /** The paths the loop of remove_video collects. */
  function RemovedPaths(dir: string, listing: seq<string>, video: set<string>, mark: string): seq<string>
    decreases |listing|
  {
    if |listing| == 0 then []
    else
      var f := listing[|listing| - 1];
      RemovedPaths(dir, listing[..|listing| - 1], video, mark) + (if Doomed(f, video, mark) then [PathJoin(dir, f)] else [])
  }

  lemma {:induction false} RemovedPathsSpec(dir: string, listing: seq<string>, video: set<string>, mark: string)
    ensures RemovedPaths(dir, listing, video, mark) == Paths(dir, Removed(listing, video, mark))
    decreases |listing|
  {
    if |listing| > 0 {
      var front := listing[..|listing| - 1];
      var f := listing[|listing| - 1];
      RemovedPathsSpec(dir, front, video, mark);
      var r := Removed(front, video, mark);
      if Doomed(f, video, mark) {
        assert Removed(listing, video, mark) == r + [f];
        PathsSnoc(dir, r, f);
      } else {
        assert Removed(listing, video, mark) == r;
      }
    }
  }

  /** A file is removed exactly when it is a video of the listing whose name lacks mark. */
  lemma {:induction false} RemovedMembership(listing: seq<string>, video: set<string>, mark: string, f: string)
    ensures f in Removed(listing, video, mark) <==> f in listing && Ext(f) in video && !Contains(f, mark)
    decreases |listing|
  {
    if |listing| > 0 {
      var front := listing[..|listing| - 1];
      RemovedMembership(front, video, mark, f);
      assert listing == front + [listing[|listing| - 1]];
    }
  }

  /** The copies a run writes are named tag + name, so with mark inside tag none of them is ever removed. */
  lemma CopiesSurvive(listing: seq<string>, video: set<string>, mark: string, tag: string, f: string)
    requires Contains(tag, mark)
    ensures tag + f !in Removed(listing, video, mark)
  {
    ContainsPrefix(tag, f, mark);
    RemovedMembership(listing, video, mark, tag + f);
  }

  /** A text contains what its prefix contains. */
  lemma {:induction false} ContainsPrefix(x: string, y: string, sub: string)
    requires Contains(x, sub)
    ensures Contains(x + y, sub)
    decreases |x|
  {
    if !(sub <= x) {
      ContainsPrefix(x[1..], y, sub);
      assert (x + y)[1..] == x[1..] + y;
    } else {
      assert sub <= x + y;
    }
  }

  /**
   * A name template of rename_files: template.format(episode_idx=k) for a template that is
   * stem, then "{episode_idx:02d}" when numbered, then suffix, with no other braces.
   */
  datatype Template = Template(stem: string, numbered: bool, suffix: string)

  function Format(t: Template, k: nat): string {
    t.stem + (if t.numbered then Pad2(k) else "") + t.suffix
  }

  /** The templates of the three kinds. */
  datatype Naming = Naming(video: Template, subtitle: Template, image: Template)

  /** One os.rename(old_path, new_path) call. */
  datatype Rename = Rename(from: string, to: string)

  /** The rename of one file of one kind: the k-th file of that kind gets the name Format(t, k) + its extension. */
  function RenameOne(dir: string, f: string, t: Template, k: nat): Rename {
    Rename(PathJoin(dir, f), PathJoin(dir, Format(t, k) + Ext(f)))
  }

  /**
   * The renames the file f causes when before are the names the loop has visited: one per kind
   * whose extensions hold Ext(f), the three tests made independently, numbered one past the
   * files of that kind before it.
   */
  function FileRenames(dir: string, before: seq<string>, f: string, l: Layout, n: Naming): seq<Rename> {
    (if Ext(f) in l.video then [RenameOne(dir, f, n.video, CountIn(before, l.video) + 1)] else [])
    + (if Ext(f) in l.subtitle then [RenameOne(dir, f, n.subtitle, CountIn(before, l.subtitle) + 1)] else [])
    + (if Ext(f) in l.image then [RenameOne(dir, f, n.image, CountIn(before, l.image) + 1)] else [])
  }

  /** The renames of the whole listing, in listing order. */
  function RenamePlan(dir: string, listing: seq<string>, l: Layout, n: Naming): seq<Rename>
    decreases |listing|
  {
    if |listing| == 0 then []
    else
      var front := listing[..|listing| - 1];
      RenamePlan(dir, front, l, n) + FileRenames(dir, front, listing[|listing| - 1], l, n)
  }

  /**
   * The loop of rename_files: the video, subtitle and image counters start at 1, and each
   * file of a kind is renamed with its counter, which then moves on.
   */
  method RenameLoop(dir: string, listing: seq<string>, l: Layout, n: Naming) returns (plan: seq<Rename>)
    ensures plan == RenamePlan(dir, listing, l, n)
  {
    plan := [];
    var videoIdx, subtitleIdx, pictureIdx := 1, 1, 1;
    var i := 0;
    while i < |listing|
      invariant 0 <= i <= |listing|
      invariant videoIdx == CountIn(listing[..i], l.video) + 1
      invariant subtitleIdx == CountIn(listing[..i], l.subtitle) + 1
      invariant pictureIdx == CountIn(listing[..i], l.image) + 1
      invariant plan == RenamePlan(dir, listing[..i], l, n)
    {
      assert listing[..i + 1][..i] == listing[..i];
      CountStep(listing, l.video, i);
      CountStep(listing, l.subtitle, i);
      CountStep(listing, l.image, i);
      var step;
      step, videoIdx, subtitleIdx, pictureIdx := RenameFile(dir, listing[..i], listing[i], l, n, videoIdx, subtitleIdx, pictureIdx);
      plan := plan + step;
      i := i + 1;
    }
    assert listing[..i] == listing;
  }

  /** One pass of the rename_files loop over the file f, after the files before. */
  method RenameFile(dir: string, before: seq<string>, f: string, l: Layout, n: Naming, videoIdx: nat, subtitleIdx: nat, pictureIdx: nat)
    returns (step: seq<Rename>, videoNext: nat, subtitleNext: nat, pictureNext: nat)
    requires videoIdx == CountIn(before, l.video) + 1
    requires subtitleIdx == CountIn(before, l.subtitle) + 1
    requires pictureIdx == CountIn(before, l.image) + 1
    ensures step == FileRenames(dir, before, f, l, n)
    ensures videoNext == videoIdx + (if Ext(f) in l.video then 1 else 0)
    ensures subtitleNext == subtitleIdx + (if Ext(f) in l.subtitle then 1 else 0)
    ensures pictureNext == pictureIdx + (if Ext(f) in l.image then 1 else 0)
  {
    var e := Ext(f);
    var videoStep, subtitleStep, pictureStep := [], [], [];
    videoNext, subtitleNext, pictureNext := videoIdx, subtitleIdx, pictureIdx;
    if e in l.video {
      videoStep := [RenameOne(dir, f, n.video, videoNext)];
      videoNext := videoNext + 1;
    }
    if e in l.subtitle {
      subtitleStep := [RenameOne(dir, f, n.subtitle, subtitleNext)];
      subtitleNext := subtitleNext + 1;
    }
    if e in l.image {
      pictureStep := [RenameOne(dir, f, n.image, pictureNext)];
      pictureNext := pictureNext + 1;
    }
    step := videoStep + subtitleStep + pictureStep;
  }

  /** The three kinds of file rename_files numbers separately. */
  datatype Kind = VideoKind | SubtitleKind | ImageKind

  function ExtsOf(l: Layout, k: Kind): set<string> {
    match k
    case VideoKind => l.video
    case SubtitleKind => l.subtitle
    case ImageKind => l.image
  }

  function TemplateOf(n: Naming, k: Kind): Template {
    match k
    case VideoKind => n.video
    case SubtitleKind => n.subtitle
    case ImageKind => n.image
  }

  /**
   * Each file of a kind is renamed with the template of that kind and the number one past the
   * files of that kind before it in the listing.
   */
  lemma {:induction false} RenamePlanHas(dir: string, listing: seq<string>, l: Layout, n: Naming, k: Kind, i: nat)
    requires i < |listing| && Ext(listing[i]) in ExtsOf(l, k)
    ensures RenameOne(dir, listing[i], TemplateOf(n, k), CountIn(listing[..i], ExtsOf(l, k)) + 1) in RenamePlan(dir, listing, l, n)
    decreases |listing|
  {
    var front := listing[..|listing| - 1];
    if i < |front| {
      RenamePlanHas(dir, front, l, n, k, i);
      assert front[..i] == listing[..i] && front[i] == listing[i];
    } else {
      FileRenamesHas(dir, front, listing[i], l, n, k);
    }
  }

  lemma FileRenamesHas(dir: string, before: seq<string>, f: string, l: Layout, n: Naming, k: Kind)
    requires Ext(f) in ExtsOf(l, k)
    ensures RenameOne(dir, f, TemplateOf(n, k), CountIn(before, ExtsOf(l, k)) + 1) in FileRenames(dir, before, f, l, n)
  {
  }

  /** Every file causes one rename per kind it belongs to, so the plan has that many renames. */
  lemma {:induction false} RenamePlanLength(dir: string, listing: seq<string>, l: Layout, n: Naming)
    ensures |RenamePlan(dir, listing, l, n)| == CountIn(listing, l.video) + CountIn(listing, l.subtitle) + CountIn(listing, l.image)
    decreases |listing|
  {
    if |listing| > 0 {
      var front := listing[..|listing| - 1];
      RenamePlanLength(dir, front, l, n);
    }
  }

  /** A file of a kind has more files of that kind before it than any file earlier in the listing. */
  lemma {:induction false} CountGrows(listing: seq<string>, exts: set<string>, i: nat, j: nat)
    requires i < j <= |listing| && Ext(listing[i]) in exts
    ensures CountIn(listing[..j], exts) >= CountIn(listing[..i], exts) + 1
  {
    CountStep(listing, exts, i);
    CountMonotone(listing, exts, i + 1, j);
  }

  /** The count over the first i + 1 names adds one for the i-th name when it is of the kind. */
  lemma CountStep(listing: seq<string>, exts: set<string>, i: nat)
    requires i < |listing|
    ensures CountIn(listing[..i + 1], exts) == CountIn(listing[..i], exts) + (if Ext(listing[i]) in exts then 1 else 0)
  {
    assert listing[..i + 1] == listing[..i] + [listing[i]];
    CountSnoc(listing[..i], exts, listing[i]);
  }

  lemma CountSnoc(listing: seq<string>, exts: set<string>, f: string)
    ensures CountIn(listing + [f], exts) == CountIn(listing, exts) + (if Ext(f) in exts then 1 else 0)
  {
    KeptSnoc(listing, exts, f);
  }

  /** Counting over a longer prefix never gives less. */
  lemma {:induction false} CountMonotone(listing: seq<string>, exts: set<string>, a: nat, b: nat)
    requires a <= b <= |listing|
    ensures CountIn(listing[..a], exts) <= CountIn(listing[..b], exts)
    decreases b - a
  {
    if a < b {
      CountMonotone(listing, exts, a, b - 1);
      CountStep(listing, exts, b - 1);
    }
  }

  /** A suffix that cannot be read as more digits of the episode number. */
  predicate SafeSuffix(s: string) {
    s == [] || !IsDigit(s[0])
  }

  /**
   * With a numbered template whose suffix does not start with a digit, the k-th name of a
   * kind tells k apart: two names that agree came from the same number and the same extension.
   */
  lemma FormatInjective(t: Template, a: nat, b: nat, e1: string, e2: string)
    requires t.numbered && SafeSuffix(t.suffix)
    requires e1 == [] || e1[0] == '.'
    requires e2 == [] || e2[0] == '.'
    requires Format(t, a) + e1 == Format(t, b) + e2
    ensures a == b && e1 == e2
  {
    var da, db, ta, tb := Pad2(a), Pad2(b), t.suffix + e1, t.suffix + e2;
    FormatParts(t, a, e1);
    FormatParts(t, b, e2);
    SameAfterStem(t.stem, da + ta, db + tb, Format(t, a) + e1, Format(t, b) + e2);
    DigitsPrefixFree(da, ta, db, tb);
    Pad2Injective(a, b);
    SameAfterStem(da, ta, tb, da + ta, db + tb);
    SameAfterStem(t.suffix, e1, e2, ta, tb);
  }

  /** A numbered name with its extension: stem, the digits, then what cannot continue them. */
  lemma FormatParts(t: Template, k: nat, e: string)
    requires t.numbered && SafeSuffix(t.suffix)
    requires e == [] || e[0] == '.'
    ensures Format(t, k) + e == t.stem + (Pad2(k) + (t.suffix + e))
    ensures SafeSuffix(t.suffix + e)
  {
  }

  /** Two texts that agree and start with the same stem agree after it. */
  lemma SameAfterStem(stem: string, x: string, y: string, u: string, v: string)
    requires u == stem + x && v == stem + y && u == v
    ensures x == y
  {
    assert x == u[|stem|..];
    assert y == v[|stem|..];
  }

  /**
   * With a numbered video template, two different videos of the listing never get the same
   * new name: the later one has the higher episode number.
   */
  lemma NumberedNamesDistinct(listing: seq<string>, exts: set<string>, t: Template, i: nat, j: nat)
    requires t.numbered && SafeSuffix(t.suffix)
    requires i < j < |listing| && Ext(listing[i]) in exts && Ext(listing[j]) in exts
    ensures Format(t, CountIn(listing[..i], exts) + 1) + Ext(listing[i])
         != Format(t, CountIn(listing[..j], exts) + 1) + Ext(listing[j])
  {
    CountGrows(listing, exts, i, j);
    var ei, ej := Ext(listing[i]), Ext(listing[j]);
    if Format(t, CountIn(listing[..i], exts) + 1) + ei == Format(t, CountIn(listing[..j], exts) + 1) + ej {
      FormatInjective(t, CountIn(listing[..i], exts) + 1, CountIn(listing[..j], exts) + 1, ei, ej);
    }
  }
}
