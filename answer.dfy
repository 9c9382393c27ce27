/**
 * The answer safeguard of the chat handler (src/app.py): an empty answer, or one
 * that strips to the framework's "Empty Response" placeholder, is replaced by a
 * fixed Polish apology; any other answer is delivered exactly as produced.
 */
module Answer {
  import opened PyStr

  /** The placeholder the retrieval framework emits when it produced no answer. */
  const EMPTY_RESPONSE := "Empty Response"

  /**
   * "Sorry, but I did not find relevant information in the attached report."
   * One sentence, written as two literals so that the prover sees its first character.
   */
  const FALLBACK_MESSAGE := "Przepraszam, ale nie znalazłem " + "odpowiednich informacji w załączonym raporcie."

  /**
   * `not answer or answer.strip() == "Empty Response"`: the answer is empty, or it is
   * the placeholder with nothing but whitespace around it.
   */
  predicate IsPlaceholder(answer: string)
    ensures IsPlaceholder(answer) <==>
      answer == "" || exists a, b :: AllSpace(a) && AllSpace(b) && answer == a + EMPTY_RESPONSE + b
  {
    assert EMPTY_RESPONSE[0] == 'E' && EMPTY_RESPONSE[|EMPTY_RESPONSE| - 1] == 'e';
    StripEquals(answer, EMPTY_RESPONSE);
    answer == "" || Strip(answer) == EMPTY_RESPONSE
  }

  /** The fallback message is itself never taken for a placeholder. */
  lemma FallbackIsNotPlaceholder()
    ensures !IsPlaceholder(FALLBACK_MESSAGE)
  {
    assert FALLBACK_MESSAGE[0] == 'P' && FALLBACK_MESSAGE[|FALLBACK_MESSAGE| - 1] == '.';
    StripTrimmed(FALLBACK_MESSAGE);
  }

  /**
   * The answer delivered to the user: the raw answer is replaced exactly when it
   * is a placeholder, and then by the fallback message; otherwise it is kept
   * unchanged (not stripped).
   */
  function FinalAnswer(raw: string): (answer: string)
    ensures answer == raw || answer == FALLBACK_MESSAGE
    ensures answer != raw <==> IsPlaceholder(raw)
    ensures answer == FALLBACK_MESSAGE <==> IsPlaceholder(raw) || raw == FALLBACK_MESSAGE
  {
    FallbackIsNotPlaceholder();
    if IsPlaceholder(raw) then FALLBACK_MESSAGE else raw
  }

  /** Applying the safeguard to its own output changes nothing. */
  lemma FinalAnswerIdempotent(raw: string)
    ensures FinalAnswer(FinalAnswer(raw)) == FinalAnswer(raw)
  {
  }

  /** A non-empty answer made only of whitespace strips to "", not to the placeholder, so it is delivered as is. */
  lemma WhitespaceOnlyKept(raw: string)
    requires raw != "" && AllSpace(raw)
    ensures FinalAnswer(raw) == raw
  {
  }

  /** The placeholder surrounded by any whitespace is replaced by the fallback message. */
  lemma PaddedPlaceholderReplaced(before: string, after: string)
    requires AllSpace(before) && AllSpace(after)
    ensures FinalAnswer(before + EMPTY_RESPONSE + after) == FALLBACK_MESSAGE
  {
    StripPadded(before, EMPTY_RESPONSE, after);
  }

  /** Replacement happens only for the placeholder itself: anything else that survives stripping is kept. */
  lemma OnlyExactPlaceholderReplaced(before: string, text: string, after: string)
    requires AllSpace(before) && AllSpace(after) && Trimmed(text)
    requires text != "" && text != EMPTY_RESPONSE
    ensures FinalAnswer(before + text + after) == before + text + after
  {
    StripPadded(before, text, after);
  }

  /** The comparison is exact: case is not folded. */
  lemma PlaceholderCaseMatters()
    ensures FinalAnswer("empty response") == "empty response"
  {
    var text := "empty response";
    assert text[0] == 'e' && text[|text| - 1] == 'e';
    StripTrimmed(text);
    assert text[0] != EMPTY_RESPONSE[0];
  }

  /** The comparison is exact: trailing punctuation is not ignored. */
  lemma PlaceholderPunctuationMatters()
    ensures FinalAnswer("Empty Response.") == "Empty Response."
  {
    var text := "Empty Response.";
    assert text[0] == 'E' && text[|text| - 1] == '.';
    StripTrimmed(text);
    assert |text| != |EMPTY_RESPONSE|;
  }
}
