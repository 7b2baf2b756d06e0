/**
 * One answer to the "Enter stream numbers to save" prompt of movie/scenarios.py: the
 * answer is stripped, a leading 'q' goes back, an empty answer is refused before
 * validation, and only a validated answer reaches recognition.
 */
module Prompt {
  import opened PyText
  import opened Notation

  datatype Entry =
    | Quit              // the answer starts with 'q'
    | Empty             // "Empty string"
    | Rejected          // "Wrong entered stream numbers"
    | Streams(numbers: seq<int>)

  function ReadEntry(answer: string): (e: Entry)
    ensures e.Quit? <==> (|Strip(answer)| > 0 && Strip(answer)[0] == 'q')
    ensures e.Empty? <==> Strip(answer) == ""
  {
    var input := Strip(answer);
    if |input| > 0 && input[0] == 'q' then Quit
    else if input == "" then Empty
    else if !WellFormedInput(input) then Rejected
    else Streams(Expand(input))
  }

  /**
   * The stream numbers reach the caller exactly when the stripped answer is non-empty and
   * made of digits, ',' and '-' only (no such answer starts with 'q'); they are then the
   * recognised numbers and none is negative.
   */
  lemma ReadEntryStreams(answer: string)
    ensures ReadEntry(answer).Streams? <==> (Strip(answer) != "" && WellFormedInput(Strip(answer)))
    ensures ReadEntry(answer).Streams? ==>
      ReadEntry(answer).numbers == Expand(Strip(answer))
      && forall k :: 0 <= k < |ReadEntry(answer).numbers| ==> ReadEntry(answer).numbers[k] >= 0
  {
    var input := Strip(answer);
    if input != "" && WellFormedInput(input) {
      assert Allowed(input[0]);
      RecognitionNonNegative(input);
    }
  }
}
