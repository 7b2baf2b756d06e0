/**
 * The Advanced SubStation Alpha style work of movie.py and anime.py (the two copies are the
 * same): the names of the styles declared by "Style: " lines, their scores (how often each
 * name occurs in the whole file), the max_styles best of them, and the rewrite that gives the
 * chosen styles the dialogue look. A Style line holds the fields of the [V4+ Styles] Format
 * line separated by commas: Name (0), Fontname (1), Fontsize (2), PrimaryColour (3),
 * SecondaryColour (4), OutlineColour (5), BackColour (6), Bold (7), Italic (8), Underline (9),
 * StrikeOut (10), ..., Outline (16), Shadow (17), ..., Encoding (22).
 */
module AssStyles {
  import opened Wrappers
  import opened PyText

  /** The prefix of a style declaration line. */
  const StylePrefix := "Style: "

  predicate IsStyleLine(line: string) {
    StylePrefix <= line
  }

  /** line[7:].split(",") */
  function StyleFields(line: string): (fields: seq<string>)
    requires IsStyleLine(line)
    ensures |fields| >= 1
  {
    Split(line[|StylePrefix|..], ',')
  }

  function StyleName(line: string): string
    requires IsStyleLine(line)
  {
    StyleFields(line)[0]
  }

  /** words of __get_max_occur_styles__: the names of the Style lines, in file order. */
  function Words(lines: seq<string>): seq<string>
    decreases |lines|
  {
    if |lines| == 0 then []
    else
      var line := lines[|lines| - 1];
      Words(lines[..|lines| - 1]) + (if IsStyleLine(line) then [StyleName(line)] else [])
  }

  /** The loop that collects words. */
  method StyleWords(lines: seq<string>) returns (words: seq<string>)
    ensures words == Words(lines)
  {
    words := [];
    var i := 0;
    while i < |lines|
      invariant 0 <= i <= |lines|
      invariant words == Words(lines[..i])
    {
      assert lines[..i + 1][..i] == lines[..i];
      var line := lines[i];
      if "Style: " <= line {
        var styleSettingsList := Split(line[7..], ',');
        words := words + [styleSettingsList[0]];
      }
      i := i + 1;
    }
    assert lines[..i] == lines;
  }

  /** The keys of occ in their iteration order: each word once, where it first appears. */
  function Distinct(words: seq<string>): seq<string>
    decreases |words|
  {
    if |words| == 0 then []
    else
      var d := Distinct(words[..|words| - 1]);
      if words[|words| - 1] in d then d else d + [words[|words| - 1]]
  }

  /** The keys are the words, each exactly once. */
  lemma {:induction false} DistinctSpec(words: seq<string>)
    ensures forall w :: w in Distinct(words) <==> w in words
    ensures forall i, j :: 0 <= i < j < |Distinct(words)| ==> Distinct(words)[i] != Distinct(words)[j]
    decreases |words|
  {
    if |words| > 0 {
      var front := words[..|words| - 1];
      DistinctSpec(front);
      assert words == front + [words[|words| - 1]];
    }
  }

  /** occ.items(): each key with its score, in iteration order. */
  function Scores(keys: seq<string>, text: string): (items: seq<(string, nat)>)
    ensures |items| == |keys|
  {
    seq(|keys|, i requires 0 <= i < |keys| => (keys[i], Count(text, keys[i])))
  }

  /** The loop that fills occ: occ[style] = sub_data.count(style) for each word. */
  method Occurrences(words: seq<string>, text: string) returns (keys: seq<string>, occ: map<string, nat>)
    ensures keys == Distinct(words)
    ensures forall w :: w in occ <==> w in words
    ensures forall w :: w in occ ==> occ[w] == Count(text, w)
  {
    keys, occ := [], map[];
    var i := 0;
    while i < |words|
      invariant 0 <= i <= |words|
      invariant keys == Distinct(words[..i])
      invariant forall w :: w in occ <==> w in keys
      invariant forall w :: w in occ ==> occ[w] == Count(text, w)
    {
      assert words[..i + 1][..i] == words[..i];
      var style := words[i];
      if style !in occ {
        keys := keys + [style];
      }
      occ := occ[style := Count(text, style)];
      i := i + 1;
    }
    assert words[..i] == words;
    DistinctSpec(words);
  }

  /** Put x after the leading entries whose score is at least its own. */
  function Insert(sorted: seq<(string, nat)>, x: (string, nat)): (r: seq<(string, nat)>)
    ensures |r| == |sorted| + 1
    decreases |sorted|
  {
    if |sorted| == 0 then [x]
    else if sorted[0].1 < x.1 then [x] + sorted
    else [sorted[0]] + Insert(sorted[1..], x)
  }

  /** sorted(items, key=score, reverse=True): highest score first, ties in their first-seen order. */
  function Ranked(items: seq<(string, nat)>): (r: seq<(string, nat)>)
    ensures |r| == |items|
    decreases |items|
  {
    if |items| == 0 then [] else Insert(Ranked(items[..|items| - 1]), items[|items| - 1])
  }

  predicate Descending(s: seq<(string, nat)>) {
    forall i, j :: 0 <= i < j < |s| ==> s[i].1 >= s[j].1
  }

  /** Inserting adds x to the entries and takes none away. */
  lemma {:induction false} InsertPermutes(sorted: seq<(string, nat)>, x: (string, nat))
    ensures multiset(Insert(sorted, x)) == multiset(sorted) + multiset{x}
    decreases |sorted|
  {
    if |sorted| > 0 && sorted[0].1 >= x.1 {
      InsertPermutes(sorted[1..], x);
      assert sorted == [sorted[0]] + sorted[1..];
    }
  }

  /** Inserting under a bound keeps every score under it. */
  lemma {:induction false} InsertBounded(sorted: seq<(string, nat)>, x: (string, nat), b: nat)
    requires forall i :: 0 <= i < |sorted| ==> sorted[i].1 <= b
    requires x.1 <= b
    ensures forall i :: 0 <= i < |Insert(sorted, x)| ==> Insert(sorted, x)[i].1 <= b
    decreases |sorted|
  {
    if |sorted| > 0 && sorted[0].1 >= x.1 {
      InsertBounded(sorted[1..], x, b);
    }
  }

  /** Inserting into a ranking gives a ranking. */
  lemma {:induction false} InsertDescending(sorted: seq<(string, nat)>, x: (string, nat))
    requires Descending(sorted)
    ensures Descending(Insert(sorted, x))
    decreases |sorted|
  {
    if |sorted| > 0 && sorted[0].1 >= x.1 {
      var rest := sorted[1..];
      InsertDescending(rest, x);
      InsertBounded(rest, x, sorted[0].1);
      var tail := Insert(rest, x);
      assert Insert(sorted, x) == [sorted[0]] + tail;
    }
  }

  lemma InsertSpec(sorted: seq<(string, nat)>, x: (string, nat))
    requires Descending(sorted)
    ensures Descending(Insert(sorted, x))
    ensures multiset(Insert(sorted, x)) == multiset(sorted) + multiset{x}
  {
    InsertDescending(sorted, x);
    InsertPermutes(sorted, x);
  }

  /** The ranking is a permutation of the items, highest score first. */
  lemma {:induction false} RankedSpec(items: seq<(string, nat)>)
    ensures Descending(Ranked(items))
    ensures multiset(Ranked(items)) == multiset(items)
    decreases |items|
  {
    if |items| > 0 {
      var front := items[..|items| - 1];
      RankedSpec(front);
      InsertSpec(Ranked(front), items[|items| - 1]);
      assert items == front + [items[|items| - 1]];
    }
  }

  function Names(items: seq<(string, nat)>): (names: seq<string>)
    ensures |names| == |items|
  {
    seq(|items|, i requires 0 <= i < |items| => items[i].0)
  }

  /** The entries heapq.nlargest(max_styles, occ, key=occ.get) picks, best first. */
  function TopItems(items: seq<(string, nat)>, maxStyles: int): seq<(string, nat)> {
    if maxStyles <= 0 then []
    else if maxStyles >= |items| then Ranked(items)
    else Ranked(items)[..maxStyles]
  }

  /** styleWithMaxOccurrences */
  function TopStyles(items: seq<(string, nat)>, maxStyles: int): seq<string> {
    Names(TopItems(items, maxStyles))
  }

  /** The picked entries are the first ones of the ranking. */
  lemma TopItemsPrefix(items: seq<(string, nat)>, maxStyles: int)
    ensures |TopItems(items, maxStyles)| == if maxStyles <= 0 then 0 else if maxStyles >= |items| then |items| else maxStyles
    ensures TopItems(items, maxStyles) == Ranked(items)[..|TopItems(items, maxStyles)|]
  {
  }

  /** An entry of a ranking that is not among its first n names scores no more than any of them. */
  lemma PrefixThreshold(r: seq<(string, nat)>, n: nat, x: (string, nat))
    requires Descending(r) && n <= |r|
    requires x in r && x.0 !in Names(r[..n])
    ensures forall j :: 0 <= j < n ==> r[j].1 >= x.1
  {
    var m :| 0 <= m < |r| && r[m] == x;
    forall k | 0 <= k < n ensures r[k].0 in Names(r[..n]) {
      assert Names(r[..n])[k] == r[k].0;
    }
    assert m >= n;
  }

  /**
   * At most max_styles entries are picked (all of them when there are fewer), each is an entry of
   * occ, they come best first, and no entry left out scores more than a picked one.
   */
  lemma TopItemsSpec(items: seq<(string, nat)>, maxStyles: int)
    ensures |TopItems(items, maxStyles)| == if maxStyles <= 0 then 0 else if maxStyles >= |items| then |items| else maxStyles
    ensures Descending(TopItems(items, maxStyles))
    ensures forall j :: 0 <= j < |TopItems(items, maxStyles)| ==> TopItems(items, maxStyles)[j] in items
    ensures forall x, j ::
      x in items && x.0 !in TopStyles(items, maxStyles) && 0 <= j < |TopItems(items, maxStyles)| ==>
        TopItems(items, maxStyles)[j].1 >= x.1
  {
    RankedSpec(items);
    TopItemsPrefix(items, maxStyles);
    TopItemsFromItems(items, maxStyles);
    forall x | x in items && x.0 !in TopStyles(items, maxStyles)
      ensures forall j :: 0 <= j < |TopItems(items, maxStyles)| ==> TopItems(items, maxStyles)[j].1 >= x.1
    {
      assert x in multiset(Ranked(items));
      PrefixThreshold(Ranked(items), |TopItems(items, maxStyles)|, x);
    }
  }

  lemma TopItemsFromItems(items: seq<(string, nat)>, maxStyles: int)
    ensures forall j :: 0 <= j < |TopItems(items, maxStyles)| ==> TopItems(items, maxStyles)[j] in items
  {
    var r := Ranked(items);
    RankedSpec(items);
    TopItemsPrefix(items, maxStyles);
    var top := TopItems(items, maxStyles);
    forall j | 0 <= j < |top| ensures top[j] in items {
      assert top[j] == r[j] && r[j] in multiset(items);
    }
  }

  /** Every word comes from a line of the file, so the text of the file contains it. */
  lemma {:induction false} WordsContained(lines: seq<string>, w: string)
    requires w in Words(lines)
    ensures Contains(Concat(lines), w)
    decreases |lines|
  {
    var front := lines[..|lines| - 1];
    var line := lines[|lines| - 1];
    assert Concat(lines) == Concat(front) + line;
    if w in Words(front) {
      WordsContained(front, w);
      ContainedInLonger(Concat(front), Concat(lines), w);
    } else {
      assert w == Split(line[7..], ',')[0];
      FirstPiecePrefix(line[7..], ',');
      var k := |Concat(front)|;
      assert Concat(lines)[k + 7..k + 7 + |w|] == w;
      ContainsSlice(Concat(lines), k + 7, k + 7 + |w|);
    }
  }

  /** Every style named by a Style line scores at least 1. */
  lemma WordsOccur(lines: seq<string>, w: string)
    requires w in Words(lines)
    ensures Count(Concat(lines), w) >= 1
  {
    WordsContained(lines, w);
    CountOfContained(Concat(lines), w);
  }

  /** What a prefix contains, the whole text contains. */
  lemma {:induction false} ContainedInLonger(p: string, s: string, sub: string)
    requires p <= s && Contains(p, sub)
    ensures Contains(s, sub)
    decreases |p|
  {
    if !(sub <= p) {
      assert p[1..] <= s[1..];
      ContainedInLonger(p[1..], s[1..], sub);
    } else {
      assert sub <= s;
    }
  }

  /**
   * __get_max_occur_styles__: the names of the Style lines, each scored by str.count over the
   * whole text, and the max_styles best of them.
   */
  method MaxOccurStyles(lines: seq<string>, maxStyles: int) returns (top: seq<string>)
    ensures top == TopStyles(Scores(Distinct(Words(lines)), Concat(lines)), maxStyles)
  {
    var words := StyleWords(lines);
    var subData := Concat(lines);
    var keys, occ := Occurrences(words, subData);
    DistinctSpec(words);
    var items := seq(|keys|, i requires 0 <= i < |keys| => (keys[i], occ[keys[i]]));
    assert items == Scores(keys, subData);
    top := TopStyles(items, maxStyles);
  }

  /** The dialogue_style keys in dictionary order. */
  const DialogueKeys: seq<nat> := [1, 2, 3, 4, 5, 6, 7, 8, 9, 16, 17]

  /** dialogue_style: field position to its new value. */
  const DialogueFields: map<nat, string> := map[
    1 := "Arial", 2 := "14", 3 := "&H00FFFFFF", 4 := "&H00000000", 5 := "&H00000000",
    6 := "&H00000000", 7 := "-1", 8 := "0", 9 := "0", 16 := "1", 17 := "0"]

  lemma DialogueTable()
    ensures forall k :: k in DialogueKeys <==> k in DialogueFields
    ensures forall k :: k in DialogueFields ==> k <= 17 && ',' !in DialogueFields[k]
    ensures forall t :: 0 <= t < |DialogueKeys| ==> DialogueKeys[t] < 18
    ensures DialogueKeys[|DialogueKeys| - 1] == 17
    ensures forall a, b :: 0 <= a < b < |DialogueKeys| ==> DialogueKeys[a] < DialogueKeys[b]
  {
  }

  /** A selected Style line's fields after the loop over dialogue_style. */
  function Restyled(fields: seq<string>): (r: seq<string>)
    requires |fields| >= 18
    ensures |r| == |fields|
  {
    seq(|fields|, i requires 0 <= i < |fields| => if i in DialogueFields then DialogueFields[i] else fields[i])
  }

  /** The list after the first t keys of dialogue_style have been written into it. */
  function Overwritten(fields: seq<string>, t: nat): (r: seq<string>)
    requires t <= |DialogueKeys|
    requires t > 0 ==> DialogueKeys[t - 1] < |fields|
    ensures |r| == |fields|
  {
    if t == 0 then fields
    else
      DialogueTable();
      var key := DialogueKeys[t - 1];
      Overwritten(fields, t - 1)[key := DialogueFields[key]]
  }

  /** After all the keys, the list is Restyled. */
  lemma OverwrittenAll(fields: seq<string>)
    requires |fields| >= 18
    ensures Overwritten(fields, |DialogueKeys|) == Restyled(fields)
  {
    DialogueTable();
    OverwrittenAt(fields, |DialogueKeys|);
    assert DialogueKeys[..|DialogueKeys|] == DialogueKeys;
  }

  lemma {:induction false} OverwrittenAt(fields: seq<string>, t: nat)
    requires t <= |DialogueKeys| && (t > 0 ==> DialogueKeys[t - 1] < |fields|)
    ensures forall i :: 0 <= i < |fields| ==>
      Overwritten(fields, t)[i] == if i in DialogueKeys[..t] then DialogueFields[i] else fields[i]
  {
    DialogueTable();
    if t > 0 {
      OverwrittenAt(fields, t - 1);
      assert DialogueKeys[..t] == DialogueKeys[..t - 1] + [DialogueKeys[t - 1]];
    }
  }

  /**
   * When the loop stops at the first key past the end, every key inside the list has been
   * written, because the keys come in increasing order.
   */
  lemma OverwrittenUpToEnd(fields: seq<string>, t: nat)
    requires t < |DialogueKeys| && (t > 0 ==> DialogueKeys[t - 1] < |fields|)
    requires DialogueKeys[t] >= |fields|
    ensures forall i :: 0 <= i < |fields| ==>
      Overwritten(fields, t)[i] == if i in DialogueFields then DialogueFields[i] else fields[i]
  {
    DialogueTable();
    OverwrittenAt(fields, t);
    forall i | 0 <= i < |fields| && i in DialogueFields ensures i in DialogueKeys[..t] {
      var j :| 0 <= j < |DialogueKeys| && DialogueKeys[j] == i;
      assert j < t;
    }
  }

  /**
   * The loop `styleSettingsList[key.value] = dialogue_style[key]` in place: it fails with
   * IndexError on the first key past the end, which happens exactly for fewer than 18 fields;
   * otherwise the list is Restyled. Either way every key inside the list has been written and
   * every other position keeps its value.
   */
  method ApplyDialogueStyle(fields: array<string>) returns (ok: bool)
    modifies fields
    ensures ok <==> fields.Length >= 18
    ensures ok ==> fields.Length >= 18 && fields[..] == Restyled(old(fields[..]))
    ensures forall i :: 0 <= i < fields.Length ==>
      fields[i] == if i in DialogueFields then DialogueFields[i] else old(fields[i])
  {
    DialogueTable();
    var t := 0;
    while t < |DialogueKeys|
      invariant 0 <= t <= |DialogueKeys|
      invariant t > 0 ==> DialogueKeys[t - 1] < fields.Length
      invariant fields[..] == Overwritten(old(fields[..]), t)
    {
      var key := DialogueKeys[t];
      if key >= fields.Length {
        OverwrittenUpToEnd(old(fields[..]), t);
        return false;
      }
      fields[key] := DialogueFields[key];
      t := t + 1;
    }
    OverwrittenAll(old(fields[..]));
    return true;
  }

  /** The line written for one line of the file; None where the rewrite raises IndexError. */
  function RewriteLine(line: string, selected: seq<string>): Option<string> {
    if !IsStyleLine(line) then Some(line)
    else
      var fields := StyleFields(line);
      if fields[0] !in selected then Some(StylePrefix + Join(fields, ','))
      else if |fields| < 18 then None
      else Some(StylePrefix + Join(Restyled(fields), ','))
  }

  /** Lines other than Style lines of a selected style are written back exactly as read. */
  lemma RewriteLineUnchanged(line: string, selected: seq<string>)
    requires !IsStyleLine(line) || StyleName(line) !in selected
    ensures RewriteLine(line, selected) == Some(line)
  {
    if IsStyleLine(line) {
      JoinSplit(line[7..], ',');
      assert line == StylePrefix + line[7..];
    }
  }

  /**
   * A Style line of a selected style fails exactly when it has fewer than 18 fields; otherwise the
   * line written is again a Style line of the same style whose fields read back as Restyled.
   */
  lemma RewriteLineSelected(line: string, selected: seq<string>)
    requires IsStyleLine(line) && StyleName(line) in selected
    ensures RewriteLine(line, selected).None? <==> |StyleFields(line)| < 18
    ensures RewriteLine(line, selected).Some? ==>
      var out := RewriteLine(line, selected).value;
      IsStyleLine(out) && StyleFields(out) == Restyled(StyleFields(line)) && StyleName(out) == StyleName(line)
  {
    var fields := StyleFields(line);
    if |fields| >= 18 {
      var r := Restyled(fields);
      DialogueTable();
      assert forall i :: 0 <= i < |r| ==> ',' !in r[i];
      SplitJoin(r, ',');
      var out := StylePrefix + Join(r, ',');
      assert out[|StylePrefix|..] == Join(r, ',');
      assert r[0] == fields[0];
    }
  }

  /** Rewriting a written line again writes it unchanged. */
  lemma RewriteLineIdempotent(line: string, selected: seq<string>)
    requires RewriteLine(line, selected).Some?
    ensures RewriteLine(RewriteLine(line, selected).value, selected) == RewriteLine(line, selected)
  {
    if IsStyleLine(line) && StyleName(line) in selected {
      RewriteLineSelected(line, selected);
      var out := RewriteLine(line, selected).value;
      var fields := StyleFields(line);
      var r := Restyled(fields);
      assert Restyled(r) == r;
    } else {
      RewriteLineUnchanged(line, selected);
    }
  }

  /** The lines written to the file and whether the rewrite got to the end. */
  datatype Rewritten = Rewritten(written: seq<string>, complete: bool)

  /** The write loop: each line's rewrite in order, stopping at the first that raises. */
  function Rewrite(lines: seq<string>, selected: seq<string>): (r: Rewritten)
    ensures |r.written| <= |lines|
    decreases |lines|
  {
    if |lines| == 0 then Rewritten([], true)
    else
      var out := RewriteLine(lines[0], selected);
      if out.None? then Rewritten([], false)
      else
        var rest := Rewrite(lines[1..], selected);
        Rewritten([out.value] + rest.written, rest.complete)
  }

  /**
   * The rewrite gets to the end exactly when no line raises, and then writes one line per line
   * read, in order; otherwise it writes the lines before the first that raises.
   */
  lemma {:induction false} RewriteSpec(lines: seq<string>, selected: seq<string>)
    ensures Rewrite(lines, selected).complete <==> forall k :: 0 <= k < |lines| ==> RewriteLine(lines[k], selected).Some?
    ensures Rewrite(lines, selected).complete ==> |Rewrite(lines, selected).written| == |lines|
    ensures !Rewrite(lines, selected).complete ==>
      var n := |Rewrite(lines, selected).written|;
      n < |lines| && RewriteLine(lines[n], selected).None?
    ensures forall k :: 0 <= k < |Rewrite(lines, selected).written| ==>
      RewriteLine(lines[k], selected) == Some(Rewrite(lines, selected).written[k])
    decreases |lines|
  {
    if |lines| > 0 && RewriteLine(lines[0], selected).Some? {
      var rest := lines[1..];
      RewriteSpec(rest, selected);
      assert forall k :: 0 < k < |lines| ==> lines[k] == rest[k - 1];
    }
  }

  /** With no selected style among the Style lines, the file is written back as it was. */
  lemma {:induction false} RewriteNoneSelected(lines: seq<string>, selected: seq<string>)
    requires forall k :: 0 <= k < |lines| && IsStyleLine(lines[k]) ==> StyleName(lines[k]) !in selected
    ensures Rewrite(lines, selected) == Rewritten(lines, true)
    decreases |lines|
  {
    if |lines| > 0 {
      RewriteLineUnchanged(lines[0], selected);
      assert forall k :: 0 <= k < |lines[1..]| ==> lines[1..][k] == lines[k + 1];
      RewriteNoneSelected(lines[1..], selected);
      assert lines == [lines[0]] + lines[1..];
    }
  }

  /** The Style-line handling of the write loop for one line. */
  method RewriteOne(line: string, selected: seq<string>) returns (out: Option<string>)
    ensures out == RewriteLine(line, selected)
  {
    if !("Style: " <= line) {
      return Some(line);
    }
    var styleSettingsList := Split(line[7..], ',');
    if styleSettingsList[0] in selected {
      var fields := new string[|styleSettingsList|](i requires 0 <= i < |styleSettingsList| => styleSettingsList[i]);
      assert fields[..] == styleSettingsList;
      var ok := ApplyDialogueStyle(fields);
      if !ok {
        return None;
      }
      return Some("Style: " + Join(fields[..], ','));
    }
    return Some("Style: " + Join(styleSettingsList, ','));
  }

  /** change_subs_styles_ass / dialogue_subs_ass for one file: the lines written, in order. */
  method RewriteLines(lines: seq<string>, selected: seq<string>) returns (r: Rewritten)
    ensures r == Rewrite(lines, selected)
  {
    var written: seq<string> := [];
    var i := 0;
    while i < |lines|
      invariant 0 <= i <= |lines|
      invariant Rewrite(lines, selected) == Prepend(written, Rewrite(lines[i..], selected))
    {
      var out := RewriteOne(lines[i], selected);
      assert lines[i..][1..] == lines[i + 1..];
      if out.None? {
        return Rewritten(written, false);
      }
      written := written + [out.value];
      i := i + 1;
    }
    return Rewritten(written, true);
  }

  function Prepend(w: seq<string>, r: Rewritten): Rewritten {
    Rewritten(w + r.written, r.complete)
  }

  /** The whole restyling of one .ass file: rank the styles, then rewrite the lines. */
  method ChangeSubsStyles(lines: seq<string>, maxStyles: int) returns (r: Rewritten)
    ensures r == Rewrite(lines, TopStyles(Scores(Distinct(Words(lines)), Concat(lines)), maxStyles))
  {
    var top := MaxOccurStyles(lines, maxStyles);
    r := RewriteLines(lines, top);
  }
}
