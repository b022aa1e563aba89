/**
 * The message the page shows when anything in the generate flow raises
 * (main.py): a fixed rate-limit notice when the lower-cased error text
 * mentions "rate limit" or "429", and the error text itself otherwise.
 */
module Alerts {
  import opened Text
  import opened Exceptions

  /** The traffic-light and warning-sign emoji that open the two messages. */
  const TrafficLight: char := '\U{1F6A6}'
  const Warning: char := '\U{26A0}'

  const RateLimitNotice: string :=
    [TrafficLight] + " Groq rate limit reached for your org. Please try again later, or switch to a smaller model / separate API key."
  const GenericPrefix: string := [Warning, '\U{FE0F}'] + " An error occurred: "

  /** The error text, lower-cased, mentions a rate limit. */
  predicate IsRateLimited(message: string) {
    Contains(Lower(message), "rate limit") || Contains(Lower(message), "429")
  }

  /** The text of the `st.error` shown for `e`. */
  function AlertText(e: PyError): (text: string)
    ensures text == RateLimitNotice
        <==> Occurs(Lower(e.Message()), "rate limit") || Occurs(Lower(e.Message()), "429")
    ensures text != RateLimitNotice ==> text == GenericPrefix + e.Message()
  {
    var msg := e.Message();
    ContainsIff(Lower(msg), "rate limit");
    ContainsIff(Lower(msg), "429");
    if IsRateLimited(msg) then RateLimitNotice
    else
      assert GenericPrefix[0] == Warning && RateLimitNotice[0] == TrafficLight;
      assert (GenericPrefix + msg)[0] == GenericPrefix[0];
      GenericPrefix + msg
  }

  /** "rate limit" is recognised in any mix of upper and lower case,
      wherever it stands in the message. */
  lemma RateLimitAnyCase(before: string, phrase: string, after: string)
    requires Lower(phrase) == "rate limit"
    ensures IsRateLimited(before + phrase + after)
  {
    var msg := before + phrase + after;
    LowerSlice(msg, |before|, |before| + |phrase|);
    assert msg[|before|..|before| + |phrase|] == phrase;
    assert OccursAt(Lower(msg), "rate limit", |before|);
    ContainsIff(Lower(msg), "rate limit");
  }

  /** A message that mentions status 429 anywhere is a rate-limit error. */
  lemma StatusCodeDetected(before: string, after: string)
    ensures IsRateLimited(before + "429" + after)
  {
    var msg := before + "429" + after;
    LowerSlice(msg, |before|, |before| + 3);
    assert msg[|before|..|before| + 3] == "429";
    assert OccursAt(Lower(msg), "429", |before|);
    ContainsIff(Lower(msg), "429");
  }
}
