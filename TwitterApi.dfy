/**
 * The Twitter wrapper: greeting selection and the post-with-one-retry logic of
 * `sendOutTweet`. The Twit client is not modelled: the outcome of the first
 * `statuses/update` is given, and the statuses posted are returned in order.
 */
module TwitterApi {
  import opened Wrappers

  /** The fixed greetings a tweet may end with. */
  const AdditionalTweetText: seq<string> := [
    "Thank you for your donation!",
    "Can we have a retweet and spread the good word?",
    "What a wonderful way to start the day.",
    "Saving the world. A few XRP at a time.",
    "Good people do good things.",
    "Wow, what a great way to share some XRP!",
    "Time to make it rain!",
    "We love @xrptipbot!",
    "Giving is great, giving XRP is AMAZING!",
    "Thank you for being a Good Soul.",
    "Helping the world, one donation at a time.",
    "Your generosity is appreciated.",
    "Spreading the XRP love."
  ]

  /** Hashtags appended to the greeting of a retried duplicate tweet. */
  const RetryHashtags: string := "#XRPforGood #XRPCommunity #XRP"

  /** Twitter's error code for a status that is too long. */
  const TooLongCode: int := 186

  /** Twitter's error code for a duplicate status. */
  const DuplicateCode: int := 187

  /** How a `statuses/update` call ended; `code` is None when the error has no (truthy) code. */
  datatype PostOutcome = Posted | Rejected(code: Option<int>)

  /** The index picked by `Math.floor(random * length)` for a draw `random` in [0, 1). */
  function GreetingIndex(random: real): (i: nat)
    requires 0.0 <= random < 1.0
    ensures i < |AdditionalTweetText|
  {
    (random * |AdditionalTweetText| as real).Floor
  }

  /** A greeting chosen by the injected draw `random`; it is always one of the fixed greetings. */
  function GetRandomGreetingsText(random: real): (g: string)
    requires 0.0 <= random < 1.0
    ensures g in AdditionalTweetText
  {
    AdditionalTweetText[GreetingIndex(random)]
  }

  /** Every greeting can be drawn: the draw i / 13 picks greeting i. */
  lemma EveryGreetingCanBeDrawn(i: nat)
    requires i < |AdditionalTweetText|
    ensures 0.0 <= i as real / 13.0 < 1.0
    ensures GetRandomGreetingsText(i as real / 13.0) == AdditionalTweetText[i]
  {
    assert |AdditionalTweetText| == 13;
    var r := i as real / 13.0;
    assert r * 13.0 == i as real;
    assert (i as real).Floor == i;
  }

  /** True when the first post failed with a code that is retried. */
  predicate Retries(first: PostOutcome)
  {
    first.Rejected? && first.code.Some? && (first.code.value == TooLongCode || first.code.value == DuplicateCode)
  }

  /**
   * Posts `message + greetingText`; on a too-long rejection retries once with the
   * message alone, on a duplicate rejection retries once with a fresh greeting
   * drawn by `redraw`; any other failure, and a failed retry, is swallowed.
   * Returns the statuses posted, in order.
   */
  method SendOutTweet(message: string, greetingText: string, first: PostOutcome, redraw: real)
    returns (statuses: seq<string>)
    requires 0.0 <= redraw < 1.0
    ensures 1 <= |statuses| <= 2
    ensures statuses[0] == message + greetingText
    ensures |statuses| == 2 <==> Retries(first)
    ensures first == Rejected(Some(TooLongCode)) ==> statuses == [message + greetingText, message]
    ensures first == Rejected(Some(DuplicateCode)) ==>
      statuses == [message + greetingText, message + ("\n" + GetRandomGreetingsText(redraw) + RetryHashtags)]
  {
    var greeting := greetingText;
    statuses := [message + greeting];
    if first.Rejected? {
      if first.code.Some? {
        if first.code.value == TooLongCode {
          statuses := statuses + [message];
        } else if first.code.value == DuplicateCode {
          greeting := "\n" + GetRandomGreetingsText(redraw) + RetryHashtags;
          statuses := statuses + [message + greeting];
        }
      }
    }
  }
}
