/**
 * The event clean-up of the subtitle purification in movie/utils/movie.py: every override block
 * `{...}` is cut out of an event's text, the rest is stripped, and the event's style is folded
 * into the two styles of the purified document, Main and Signs.
 */
module AssPurify {
  import opened PyText

  /**
   * re.sub(r'{[^}]*}', '', text): scanning left to right, a '{' with some '}' after it is cut
   * out together with everything up to the first such '}'; every other character is kept.
   */
  function RemoveBlocks(text: string): (r: string)
    ensures |r| <= |text|
    ensures forall c :: c in r ==> c in text
    decreases |text|
  {
    if |text| == 0 then ""
    else if text[0] == '{' && '}' in text[1..] then RemoveBlocks(text[1..][IndexOf(text[1..], '}') + 1..])
    else [text[0]] + RemoveBlocks(text[1..])
  }

  /** No '{' is followed, anywhere later, by a '}': the pattern has nothing left to match. */
  predicate BlockFree(s: string) {
    forall i, j :: 0 <= i < j < |s| && s[i] == '{' ==> s[j] != '}'
  }

  lemma BlockFreeTail(s: string)
    requires |s| > 0 && BlockFree(s)
    ensures BlockFree(s[1..])
  {
    forall i, j | 0 <= i < j < |s| - 1 && s[1..][i] == '{' ensures s[1..][j] != '}' {
      assert s[1..][i] == s[i + 1] && s[1..][j] == s[j + 1];
    }
  }

  /** What is left has no block in it. */
  lemma {:induction false} RemoveBlocksBlockFree(text: string)
    ensures BlockFree(RemoveBlocks(text))
    decreases |text|
  {
    if |text| > 0 {
      if text[0] == '{' && '}' in text[1..] {
        RemoveBlocksBlockFree(text[1..][IndexOf(text[1..], '}') + 1..]);
      } else {
        RemoveBlocksBlockFree(text[1..]);
        var r := RemoveBlocks(text);
        var rest := RemoveBlocks(text[1..]);
        assert r == [text[0]] + rest;
        forall i, j | 0 <= i < j < |r| && r[i] == '{' ensures r[j] != '}' {
          if i == 0 {
            assert r[j] == rest[j - 1] && r[j] in text[1..];
          } else {
            assert r[i] == rest[i - 1] && r[j] == rest[j - 1];
          }
        }
      }
    }
  }

  /** A text without a block is left as it is. */
  lemma {:induction false} RemoveBlocksOfBlockFree(text: string)
    requires BlockFree(text)
    ensures RemoveBlocks(text) == text
    decreases |text|
  {
    if |text| > 0 {
      if text[0] == '{' && '}' in text[1..] {
        assert false;
      }
      BlockFreeTail(text);
      RemoveBlocksOfBlockFree(text[1..]);
      assert text == [text[0]] + text[1..];
    }
  }

  lemma RemoveBlocksIdempotent(text: string)
    ensures RemoveBlocks(RemoveBlocks(text)) == RemoveBlocks(text)
  {
    RemoveBlocksBlockFree(text);
    RemoveBlocksOfBlockFree(RemoveBlocks(text));
  }

  /** Text before the first '{' is kept as it is. */
  lemma {:induction false} RemoveBlocksKeepsPlain(plain: string, rest: string)
    requires '{' !in plain
    ensures RemoveBlocks(plain + rest) == plain + RemoveBlocks(rest)
    decreases |plain|
  {
    if |plain| > 0 {
      assert (plain + rest)[1..] == plain[1..] + rest;
      RemoveBlocksKeepsPlain(plain[1..], rest);
    } else {
      assert plain + rest == rest;
    }
  }

  /** A block `{inner}` with no '}' in inner is cut out, and the scan goes on after it. */
  lemma RemoveBlocksCutsBlock(inner: string, rest: string)
    requires '}' !in inner
    ensures RemoveBlocks("{" + inner + "}" + rest) == RemoveBlocks(rest)
  {
    var text := "{" + inner + "}" + rest;
    var tail := text[1..];
    assert tail == inner + "}" + rest;
    assert tail[|inner|] == '}';
    var k := IndexOf(tail, '}');
    assert k == |inner|;
    assert tail[k + 1..] == rest;
  }

  /** A '{' with no '}' anywhere after it is kept, like every other character. */
  lemma RemoveBlocksUnclosed(rest: string)
    requires '}' !in rest
    ensures RemoveBlocks("{" + rest) == "{" + rest
  {
    var text := "{" + rest;
    assert text[1..] == rest;
    assert BlockFree(text);
    RemoveBlocksOfBlockFree(text);
  }

  /** clear_text: the text without its blocks, stripped. */
  function Clear(text: string): string {
    Strip(RemoveBlocks(text))
  }

  /** A slice of a block-free text is block-free. */
  lemma BlockFreeSlice(s: string, a: nat, b: nat)
    requires BlockFree(s) && a <= b <= |s|
    ensures BlockFree(s[a..b])
  {
    forall i, j | 0 <= i < j < b - a && s[a..b][i] == '{' ensures s[a..b][j] != '}' {
      assert s[a..b][i] == s[a + i] && s[a..b][j] == s[a + j];
    }
  }

  /** The cleared text has no block and no surrounding whitespace, so clearing again keeps it. */
  lemma ClearSpec(text: string)
    ensures BlockFree(Clear(text))
    ensures Strip(Clear(text)) == Clear(text)
    ensures Clear(Clear(text)) == Clear(text)
  {
    var r := RemoveBlocks(text);
    RemoveBlocksBlockFree(text);
    BlockFreeSlice(r, LeadingSpaces(r), LeadingSpaces(r) + |Strip(r)|);
    RemoveBlocksOfBlockFree(Clear(text));
    StripIdempotent(r);
  }

  /** Styles named Main... or Default... become Main, all others Signs. */
  function MapStyle(style: string): (r: string)
    ensures r == "Main" || r == "Signs"
    ensures r == "Main" <==> ("Main" <= style || "Default" <= style)
  {
    if "Main" <= style || "Default" <= style then "Main" else "Signs"
  }

  lemma MapStyleIdempotent(style: string)
    ensures MapStyle(MapStyle(style)) == MapStyle(style)
  {
    if MapStyle(style) == "Signs" {
      assert !("Main" <= "Signs") && !("Default" <= "Signs") by {
        assert "Signs"[0] != "Main"[0] && "Signs"[0] != "Default"[0];
      }
    }
  }

  /** An event of the document being purified. */
  class Event {
    var text: string
    var style: string

    constructor (text: string, style: string)
      ensures this.text == text && this.style == style
    {
      this.text := text;
      this.style := style;
    }

    /** One turn of the loop over doc.events. */
    method Purify()
      modifies this
      ensures text == Clear(old(text)) && style == MapStyle(old(style))
    {
      var clearText := Strip(RemoveBlocks(text));
      text := clearText;
      if "Main" <= style || "Default" <= style {
        style := "Main";
      } else {
        style := "Signs";
      }
    }
  }

  /**
   * The first i events hold their cleaned-up values, cleared and mapped, and every later event not
   * among them still holds what it held before the loop, texts and styles.
   */
  ghost predicate PurifiedUpTo(events: seq<Event>, texts: seq<string>, styles: seq<string>,
                               cleared: seq<string>, mapped: seq<string>, i: nat)
    requires i <= |events| == |texts| == |styles| == |cleared| == |mapped|
    reads events
  {
    (forall k :: 0 <= k < i ==> events[k].text == cleared[k] && events[k].style == mapped[k]) &&
    (forall k :: i <= k < |events| && events[k] !in events[..i] ==>
      events[k].text == texts[k] && events[k].style == styles[k])
  }

  /** texts and styles give one value to each event, however often it occurs in the list. */
  predicate Consistent(events: seq<Event>, texts: seq<string>, styles: seq<string>)
    requires |events| == |texts| == |styles|
  {
    forall j, k :: 0 <= j < |events| && 0 <= k < |events| && events[j] == events[k] ==>
      texts[j] == texts[k] && styles[j] == styles[k]
  }

  /**
   * The loop over doc.events: every event ends up with its text cleared and its style mapped,
   * even one that occurs twice in the list, because clearing and mapping are idempotent.
   */
  method PurifyEvents(events: seq<Event>)
    modifies events
    ensures forall k :: 0 <= k < |events| ==>
      events[k].text == Clear(old(events[k].text)) && events[k].style == MapStyle(old(events[k].style))
  {
    ghost var texts := seq(|events|, k requires 0 <= k < |events| reads events => events[k].text);
    ghost var styles := seq(|events|, k requires 0 <= k < |events| reads events => events[k].style);
    ghost var cleared := seq(|events|, k requires 0 <= k < |events| => Clear(texts[k]));
    ghost var mapped := seq(|events|, k requires 0 <= k < |events| => MapStyle(styles[k]));
    var i := 0;
    while i < |events|
      invariant 0 <= i <= |events|
      invariant PurifiedUpTo(events, texts, styles, cleared, mapped, i)
    {
      PurifyNext(events, texts, styles, cleared, mapped, i);
      i := i + 1;
    }
  }

  /** One turn of the loop over doc.events, on the i-th event. */
  method PurifyNext(events: seq<Event>, ghost texts: seq<string>, ghost styles: seq<string>,
                    ghost cleared: seq<string>, ghost mapped: seq<string>, i: nat)
    requires i < |events| == |texts| == |styles| == |cleared| == |mapped|
    requires PurifiedUpTo(events, texts, styles, cleared, mapped, i)
    requires Consistent(events, texts, styles) && Consistent(events, cleared, mapped)
    requires cleared[i] == Clear(texts[i]) && mapped[i] == MapStyle(styles[i])
    modifies events[i]
    ensures PurifiedUpTo(events, texts, styles, cleared, mapped, i + 1)
  {
    var e := events[i];
    PurifyAgain(events, texts, styles, cleared, mapped, i);
    e.Purify();
    assert events[..i + 1] == events[..i] + [e];
  }

  /** Cleaning the i-th event up gives its cleaned-up values, even when it was cleaned up before. */
  lemma PurifyAgain(events: seq<Event>, texts: seq<string>, styles: seq<string>,
                    cleared: seq<string>, mapped: seq<string>, i: nat)
    requires i < |events| == |texts| == |styles| == |cleared| == |mapped|
    requires PurifiedUpTo(events, texts, styles, cleared, mapped, i)
    requires Consistent(events, cleared, mapped)
    requires cleared[i] == Clear(texts[i]) && mapped[i] == MapStyle(styles[i])
    ensures Clear(events[i].text) == cleared[i] && MapStyle(events[i].style) == mapped[i]
  {
    if events[i] in events[..i] {
      var k :| 0 <= k < i && events[k] == events[i];
      ClearSpec(texts[i]);
      MapStyleIdempotent(styles[i]);
    }
  }
}
