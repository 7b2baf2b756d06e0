/**
 * The track-range notation of movie/utils/notation.py (the same code is repeated as
 * Movie.__notation_validation__ / __notation_recognition__ in movie/utils/movie.py):
 * a comma-separated list of stream numbers and inclusive ranges such as "0,2-4,7".
 */
module Notation {
  import opened Wrappers
  import opened PyText

  /** The characters validation lets through: decimal digits, ',' and '-'. */
  predicate Allowed(c: char) {
    IsDigit(c) || c == ',' || c == '-'
  }

  predicate WellFormedInput(s: string) {
    forall i :: 0 <= i < |s| ==> Allowed(s[i])
  }

  /** validation: a character loop that returns False at the first character outside the class. */
  method Validation(input: string) returns (ok: bool)
    ensures ok <==> WellFormedInput(input)
  {
    var i := 0;
    while i < |input|
      invariant 0 <= i <= |input|
      invariant forall j :: 0 <= j < i ==> Allowed(input[j])
    {
      var c := input[i];
      if !IsDigit(c) && c != ',' && c != '-' {
        return false;
      }
      i := i + 1;
    }
    return true;
  }

  /** range(a, b) */
  function Range(a: int, b: int): (r: seq<int>)
    ensures |r| == if a < b then b - a else 0
    ensures forall k :: 0 <= k < |r| ==> r[k] == a + k
    decreases b - a
  {
    if a < b then [a] + Range(a + 1, b) else []
  }

  /**
   * What one comma token contributes, or None where recognition raises: a token with '-'
   * must split into exactly two int() texts a and b and gives a, a+1, ..., b; any other
   * token must be an int() text and gives that one number.
   */
  function Contribution(tok: string): Option<seq<int>> {
    if '-' in tok then RangeOf(Split(tok, '-'))
    else
      match ParseInt(tok)
      case Some(n) => Some([n])
      case None => None
  }

  /** `start, end = parts` followed by range(int(start), int(end) + 1). */
  function RangeOf(parts: seq<string>): Option<seq<int>> {
    if |parts| != 2 || ParseInt(parts[0]).None? || ParseInt(parts[1]).None? then None
    else Some(Range(ParseInt(parts[0]).value, ParseInt(parts[1]).value + 1))
  }

  /** The numbers of the tokens, left to right, up to the first token that raises. */
  function ExpandTokens(tokens: seq<string>): seq<int> {
    if |tokens| == 0 then []
    else
      match Contribution(tokens[0])
      case None => []
      case Some(c) => c + ExpandTokens(tokens[1..])
  }

  /** What recognition returns for the text s. */
  function Expand(s: string): seq<int> {
    ExpandTokens(Split(s, ','))
  }

  /**
   * recognition: appends the numbers of each token in turn; the first token that raises
   * ends the loop (the exception is caught) and the numbers gathered so far are returned.
   */
  method Recognition(input: string) returns (numbers: seq<int>)
    ensures numbers == Expand(input)
  {
    numbers := RecognizeTokens(Split(input, ','));
  }

  /** The loop of recognition over the comma tokens. */
  method RecognizeTokens(tokens: seq<string>) returns (numbers: seq<int>)
    ensures numbers == ExpandTokens(tokens)
  {
    numbers := [];
    var t := 0;
    while t < |tokens|
      invariant 0 <= t <= |tokens|
      invariant ExpandTokens(tokens) == numbers + ExpandTokens(tokens[t..])
    {
      var c := TokenNumbers(tokens[t]);
      if c.None? {
        StopHere(tokens[t..]);
        break;
      }
      Advance(tokens[t..], c.value);
      numbers := numbers + c.value;
      t := t + 1;
    }
    assert t == |tokens| ==> tokens[t..] == [];
  }

  /**
   * The body of recognition's loop for one token num: None where Python raises (and nothing
   * is appended, since the numbers of a range are appended only after both ends parsed),
   * otherwise the numbers the token appends.
   */
  method TokenNumbers(num: string) returns (c: Option<seq<int>>)
    ensures c == Contribution(num)
  {
    if '-' in num {
      var parts := Split(num, '-');
      if |parts| != 2 {
        DashStop(num, parts);
        return None;
      }
      var start := ParseInt(parts[0]);
      if start.None? {
        DashStop(num, parts);
        return None;
      }
      var end := ParseInt(parts[1]);
      if end.None? {
        DashStop(num, parts);
        return None;
      }
      var r := AppendRange([], start.value, end.value + 1);
      assert r == Range(start.value, end.value + 1);
      DashRange(num, parts, start.value, end.value);
      return Some(r);
    } else {
      var n := ParseInt(num);
      if n.None? {
        return None;
      }
      return Some([n.value]);
    }
  }

  /** `for i in range(lo, hi): numbers.append(i)` */
  method AppendRange(numbers0: seq<int>, lo: int, hi: int) returns (numbers: seq<int>)
    ensures numbers == numbers0 + Range(lo, hi)
  {
    numbers := numbers0;
    var i := lo;
    while i < hi
      invariant lo <= i && (i <= hi || i == lo)
      invariant numbers == numbers0 + Range(lo, i)
      decreases hi - i
    {
      RangeSnoc(lo, i);
      numbers := numbers + [i];
      i := i + 1;
    }
    assert Range(lo, i) == Range(lo, hi) by {
      if hi <= lo {
        assert Range(lo, hi) == [];
      }
    }
  }

  lemma StopHere(tokens: seq<string>)
    requires |tokens| > 0 && Contribution(tokens[0]).None?
    ensures ExpandTokens(tokens) == []
  {
  }

  lemma Advance(tokens: seq<string>, c: seq<int>)
    requires |tokens| > 0 && Contribution(tokens[0]) == Some(c)
    ensures ExpandTokens(tokens) == c + ExpandTokens(tokens[1..])
  {
  }

  lemma DashStop(tok: string, parts: seq<string>)
    requires '-' in tok && parts == Split(tok, '-')
    requires |parts| != 2 || ParseInt(parts[0]).None? || ParseInt(parts[1]).None?
    ensures Contribution(tok).None?
  {
    DashContribution(tok);
    RangeOfCases(parts);
  }

  lemma DashRange(tok: string, parts: seq<string>, a: int, b: int)
    requires '-' in tok && parts == Split(tok, '-')
    requires |parts| == 2 && ParseInt(parts[0]) == Some(a) && ParseInt(parts[1]) == Some(b)
    ensures Contribution(tok) == Some(Range(a, b + 1))
  {
    DashContribution(tok);
    RangeOfBoth(parts, a, b);
  }

  lemma RangeOfBoth(parts: seq<string>, a: int, b: int)
    requires |parts| == 2 && ParseInt(parts[0]) == Some(a) && ParseInt(parts[1]) == Some(b)
    ensures RangeOf(parts) == Some(Range(a, b + 1))
  {
  }

  lemma DashContribution(tok: string)
    requires '-' in tok
    ensures Contribution(tok) == RangeOf(Split(tok, '-'))
  {
  }

  lemma RangeOfCases(parts: seq<string>)
    ensures |parts| != 2 ==> RangeOf(parts) == None
    ensures |parts| == 2 && (ParseInt(parts[0]).None? || ParseInt(parts[1]).None?) ==> RangeOf(parts) == None
    ensures |parts| == 2 && ParseInt(parts[0]).Some? && ParseInt(parts[1]).Some? ==>
      RangeOf(parts) == Some(Range(ParseInt(parts[0]).value, ParseInt(parts[1]).value + 1))
  {
  }

  lemma RangeSnoc(a: int, b: int)
    requires a <= b
    ensures Range(a, b + 1) == Range(a, b) + [b]
  {
    var r, q := Range(a, b + 1), Range(a, b) + [b];
    assert |r| == |q|;
    forall k | 0 <= k < |r| ensures r[k] == q[k] {
    }
  }

  /** A token of digits alone contributes exactly the number it denotes. */
  lemma SingleToken(tok: string)
    requires |tok| > 0 && AllDigits(tok)
    ensures Contribution(tok) == Some([DecimalValue(tok)])
  {
    DigitsParse(tok);
  }

  /**
   * A token a-b of two digit runs denoting m and n contributes m, m+1, ..., n in ascending
   * order, and nothing at all when m > n.
   */
  lemma RangeToken(tok: string, a: string, b: string, m: nat, n: nat)
    requires |a| > 0 && AllDigits(a) && |b| > 0 && AllDigits(b) && tok == a + "-" + b
    requires m == DecimalValue(a) && n == DecimalValue(b)
    ensures Contribution(tok) == Some(Range(m, n + 1))
    ensures m > n ==> Contribution(tok) == Some([])
  {
    OneDashSplit(tok, a, b);
    DigitsParse(a);
    DigitsParse(b);
    RangeContribution(tok, a, b, m, n);
  }

  lemma OneDashSplit(tok: string, a: string, b: string)
    requires tok == a + "-" + b && '-' !in a && '-' !in b
    ensures Split(tok, '-') == [a, b]
  {
    assert tok == a + ['-'] + b;
    SplitAfterPiece(a, '-', b);
    SplitNoSep(b, '-');
  }

  lemma RangeContribution(tok: string, x: string, y: string, m: int, n: int)
    requires Split(tok, '-') == [x, y]
    requires ParseInt(x) == Some(m) && ParseInt(y) == Some(n)
    ensures Contribution(tok) == Some(Range(m, n + 1))
  {
    assert '-' in tok by {
      CountCharIn(tok, '-');
    }
    DashRange(tok, [x, y], m, n);
  }

  predicate Malformed(tok: string) {
    Contribution(tok).None?
  }

  /**
   * Over the characters validation accepts, a token raises exactly when it is empty (a leading,
   * trailing or doubled comma), holds more than one '-', or has an empty side of its '-'.
   */
  lemma MalformedToken(tok: string)
    requires forall i :: 0 <= i < |tok| ==> IsDigit(tok[i]) || tok[i] == '-'
    ensures Malformed(tok) <==>
      (tok == ""
       || ('-' in tok && (CountChar(tok, '-') != 1 || SplitOnce(tok, '-').0 == "" || SplitOnce(tok, '-').1 == "")))
  {
    if '-' !in tok {
      if tok != "" {
        assert AllDigits(tok);
        SingleToken(tok);
      } else {
        ParseIntEmpty();
      }
    } else {
      var xy := SplitOnce(tok, '-');
      DashToken(tok, xy.0, xy.1);
    }
  }

  lemma DashToken(tok: string, x: string, y: string)
    requires forall i :: 0 <= i < |tok| ==> IsDigit(tok[i]) || tok[i] == '-'
    requires tok == x + ['-'] + y && '-' !in x
    ensures Malformed(tok) <==> (CountChar(tok, '-') != 1 || x == "" || y == "")
  {
    assert '-' in tok by {
      assert tok[|x|] == '-';
    }
    var parts := Split(tok, '-');
    SplitAfterPiece(x, '-', y);
    assert parts == [x] + Split(y, '-');
    if |parts| != 2 {
      DashStop(tok, parts);
    } else {
      OneDashToken(tok, x, y, parts);
    }
  }

  lemma OneDashToken(tok: string, x: string, y: string, parts: seq<string>)
    requires forall i :: 0 <= i < |tok| ==> IsDigit(tok[i]) || tok[i] == '-'
    requires tok == x + ['-'] + y && '-' in tok
    requires parts == Split(tok, '-') && parts == [x] + Split(y, '-') && |parts| == 2
    ensures Malformed(tok) <==> (x == "" || y == "")
  {
    assert '-' !in parts[0];
    DashSides(tok, x, y, parts);
    if x == "" || y == "" {
      ParseIntEmpty();
      DashStop(tok, parts);
    } else {
      DigitsParse(x);
      DigitsParse(y);
      DashRange(tok, parts, DecimalValue(x), DecimalValue(y));
    }
  }

  /** The two sides of a token with one '-' are its two pieces, both digit runs. */
  lemma DashSides(tok: string, x: string, y: string, parts: seq<string>)
    requires forall i :: 0 <= i < |tok| ==> IsDigit(tok[i]) || tok[i] == '-'
    requires tok == x + ['-'] + y && '-' !in x
    requires parts == [x] + Split(y, '-') && |parts| == 2
    ensures parts == [x, y] && AllDigits(x) && AllDigits(y)
  {
    assert |Split(y, '-')| == 1;
    assert '-' !in y by {
      CountCharIn(y, '-');
    }
    SplitNoSep(y, '-');
    assert AllDigits(x) by {
      forall i | 0 <= i < |x| ensures IsDigit(x[i]) {
        assert x[i] == tok[i];
      }
    }
    assert AllDigits(y) by {
      forall i | 0 <= i < |y| ensures IsDigit(y[i]) {
        assert y[i] == tok[|x| + 1 + i];
      }
    }
  }

  /** The result is the concatenation of the tokens' contributions while none raises. */
  lemma {:induction false} ExpandAppend(good: seq<string>, rest: seq<string>)
    requires forall i :: 0 <= i < |good| ==> !Malformed(good[i])
    ensures ExpandTokens(good + rest) == ExpandTokens(good) + ExpandTokens(rest)
  {
    if |good| > 0 {
      assert (good + rest)[1..] == good[1..] + rest;
      ExpandAppend(good[1..], rest);
    } else {
      assert good + rest == rest;
    }
  }

  /** At the first malformed token the result is exactly the expansion of the tokens before it. */
  lemma StopsAtFirstMalformed(tokens: seq<string>, k: nat)
    requires k < |tokens| && Malformed(tokens[k])
    requires forall i :: 0 <= i < k ==> !Malformed(tokens[i])
    ensures ExpandTokens(tokens) == ExpandTokens(tokens[..k])
  {
    assert tokens == tokens[..k] + tokens[k..];
    ExpandAppend(tokens[..k], tokens[k..]);
  }

  /** Every number recognition can return is non-negative, for any input at all. */
  lemma {:induction false} ExpandNonNegative(tokens: seq<string>)
    ensures forall k :: 0 <= k < |ExpandTokens(tokens)| ==> ExpandTokens(tokens)[k] >= 0
  {
    if |tokens| > 0 {
      ExpandNonNegative(tokens[1..]);
      var tok := tokens[0];
      if '-' in tok {
        var parts := Split(tok, '-');
        if |parts| == 2 {
          assert '-' !in parts[0];
        }
      }
    }
  }

  lemma RecognitionNonNegative(s: string)
    ensures forall k :: 0 <= k < |Expand(s)| ==> Expand(s)[k] >= 0
  {
    ExpandNonNegative(Split(s, ','));
  }

  /** The concatenation of a list of number lists. */
  function Flatten(cs: seq<seq<int>>): seq<int> {
    if |cs| == 0 then [] else cs[0] + Flatten(cs[1..])
  }

  /**
   * When no token raises, the result is the left-to-right concatenation of the tokens'
   * contributions: nothing is sorted and nothing is merged.
   */
  lemma {:induction false} ExpandAllWellFormed(tokens: seq<string>, cs: seq<seq<int>>)
    requires |cs| == |tokens|
    requires forall i :: 0 <= i < |tokens| ==> Contribution(tokens[i]) == Some(cs[i])
    ensures ExpandTokens(tokens) == Flatten(cs)
  {
    if |tokens| > 0 {
      ExpandAllWellFormed(tokens[1..], cs[1..]);
      Advance(tokens, cs[0]);
    }
  }

  /** The example of the notation: "0,2-4,7" stands for streams 0, 2, 3, 4 and 7. */
  lemma ExpandExample(s: string)
    requires s == "0,2-4,7"
    ensures Expand(s) == [0, 2, 3, 4, 7]
  {
    ExampleSplit(s);
    ExampleTokens(Split(s, ','));
  }

  lemma ExampleSplit(s: string)
    requires s == "0,2-4,7"
    ensures Split(s, ',') == ["0", "2-4", "7"]
  {
    var t0, t1, t2 := "0", "2-4", "7";
    assert s == t0 + [','] + t1 + [','] + t2;
    SplitThree(t0, t1, t2, ',');
  }

  lemma ExampleTokens(tokens: seq<string>)
    requires tokens == ["0", "2-4", "7"]
    ensures ExpandTokens(tokens) == [0, 2, 3, 4, 7]
  {
    ExampleZero(tokens[0]);
    ExampleRange(tokens[1]);
    ExampleSeven(tokens[2]);
    ThreeTokens(tokens, [0], [2, 3, 4], [7]);
    ExampleNumbers([0], [2, 3, 4], [7]);
  }

  lemma ExampleNumbers(x: seq<int>, y: seq<int>, z: seq<int>)
    requires x == [0] && y == [2, 3, 4] && z == [7]
    ensures x + (y + z) == [0, 2, 3, 4, 7]
  {
  }

  /** Three tokens that all parse give their numbers one after the other. */
  lemma ThreeTokens(tokens: seq<string>, x: seq<int>, y: seq<int>, z: seq<int>)
    requires |tokens| == 3
    requires Contribution(tokens[0]) == Some(x) && Contribution(tokens[1]) == Some(y)
    requires Contribution(tokens[2]) == Some(z)
    ensures ExpandTokens(tokens) == x + (y + z)
  {
    var r1, r2 := tokens[1..], tokens[2..];
    LastToken(r2, z);
    assert r1[0] == tokens[1] && r1[1..] == r2;
    Advance(r1, y);
    Advance(tokens, x);
  }

  lemma LastToken(tokens: seq<string>, z: seq<int>)
    requires |tokens| == 1 && Contribution(tokens[0]) == Some(z)
    ensures ExpandTokens(tokens) == z
  {
    Advance(tokens, z);
    assert tokens[1..] == [];
  }

  lemma ExampleZero(tok: string)
    requires tok == "0"
    ensures Contribution(tok) == Some([0])
  {
    SingleToken(tok);
  }

  lemma ExampleSeven(tok: string)
    requires tok == "7"
    ensures Contribution(tok) == Some([7])
  {
    SingleToken(tok);
  }

  lemma ExampleRange(tok: string)
    requires tok == "2-4"
    ensures Contribution(tok) == Some([2, 3, 4])
  {
    var a, b := "2", "4";
    RangeToken(tok, a, b, 2, 4);
    assert Range(2, 5) == [2, 3, 4];
  }
}
