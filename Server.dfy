/**
 * The tip splitter of the charity bot: the share arithmetic, the tweet text,
 * and the module state (`tipQueue`, `processingTip`, `processingRemaining`, the
 * persisted queue) driven by the MQTT message handler, the split timer and the
 * remaining-balance timer.
 *
 * Effects are recorded rather than performed: every `sendTip` the bot starts is
 * appended to `payments`, every tweet handed to the post queue to `tweets`, and
 * the persisted copy of the queue is the field `storedQueue`.
 */
module Server {
  import opened Config
  import TipbotApi
  import TwitterApi
  import Format

  /** A tip or deposit as it arrives on the bus; `drops` is its `xrp` amount in drops. */
  datatype Tip = Tip(
    tipType: string,
    drops: nat,
    user: string,
    userId: string,
    network: string,
    userNetwork: string)

  /** One started `sendTip(network, user, drops)`. */
  datatype Payment = Payment(network: string, user: string, drops: int)

  /** One `pushToQueue(tweetString, greetingText)`. */
  datatype QueuedTweet = QueuedTweet(text: string, greeting: string)

  /**
   * What goes wrong in a step: the balance read raises, the promise of the `sendTip`
   * to the friend with the given index rejects after the call was started (the reply
   * is `ok` but its body is not JSON, which `callTipbotApi` returns un-awaited from
   * inside its `try`), or the write of the queue to storage raises. `NoFault`, and a
   * `SendRejects` whose index is past the list, mean nothing goes wrong.
   */
  datatype Fault = NoFault | BalanceThrows | SendRejects(friend: nat) | PersistThrows

  /**
   * How a split step ended; `Stalled` means it never ends: the pay loop waits for
   * good on a rejected `sendTip`.
   */
  datatype SplitOutcome = Paid | TooSmall | InsufficientBalance | Raised | Stalled

  /**
   * How a remaining-balance sweep ended: a balance of at most zero is nothing to
   * split, a positive one that does not divide evenly is left alone.
   */
  datatype SweepOutcome = SweepPaid | NothingToSplit | NotDivisible | TipArrived | SweepRaised | SweepStalled

  /** The network every charity is paid on. */
  const CharityNetwork: string := "twitter"

  // ----- Share arithmetic -----

  /** Each charity's share of `dropsToSplit`: nothing below one drop each, otherwise the floor of the even split. */
  function CalculateDropsForEachCharity(dropsToSplit: int, friendCount: nat): (share: nat)
    requires friendCount > 0
    ensures dropsToSplit < friendCount ==> share == 0
    ensures dropsToSplit >= friendCount ==>
      share > 0 && share * friendCount <= dropsToSplit < (share + 1) * friendCount
  {
    if dropsToSplit < friendCount then 0 else dropsToSplit / friendCount
  }

  /** The `sendTip` calls of one pay-every-charity loop, in list order. */
  function PayEach(friends: seq<string>, share: int): (ps: seq<Payment>)
    ensures |ps| == |friends|
    ensures forall i :: 0 <= i < |friends| ==> ps[i] == Payment(CharityNetwork, friends[i], share)
  {
    if friends == [] then []
    else PayEach(friends[..|friends| - 1], share) + [Payment(CharityNetwork, friends[|friends| - 1], share)]
  }

  /** Total drops of a sequence of payments. */
  function TotalPaid(ps: seq<Payment>): int
  {
    if ps == [] then 0 else TotalPaid(ps[..|ps| - 1]) + ps[|ps| - 1].drops
  }

  /** Paying every charity the same share pays out share times the number of charities. */
  lemma {:induction false} TotalPaidEach(friends: seq<string>, share: int)
    ensures TotalPaid(PayEach(friends, share)) == share * |friends|
  {
    if friends != [] {
      var init := friends[..|friends| - 1];
      TotalPaidEach(init, share);
      var ps := PayEach(friends, share);
      assert ps[..|ps| - 1] == PayEach(init, share);
      assert share * |friends| == share * |init| + share;
    }
  }

  /** A split never pays out more than the tip, and leaves less than one drop per charity behind. */
  lemma SplitPaysAtMostTip(drops: nat, friends: seq<string>)
    requires |friends| > 0
    ensures var paid := TotalPaid(PayEach(friends, CalculateDropsForEachCharity(drops, |friends|)));
      0 <= paid <= drops && drops - paid < |friends|
  {
    TotalPaidEach(friends, CalculateDropsForEachCharity(drops, |friends|));
  }

  /** A sweep of a balance that divides evenly pays out exactly that balance. */
  lemma SweepPaysWholeBalance(balance: int, friends: seq<string>)
    requires |friends| > 0 && balance > 0 && balance % |friends| == 0
    ensures TotalPaid(PayEach(friends, CalculateDropsForEachCharity(balance, |friends|))) == balance
  {
    var share := CalculateDropsForEachCharity(balance, |friends|);
    EvenShare(balance, |friends|);
    TotalPaidEach(friends, share);
  }

  /** When `n` divides a positive amount, the shares add back up to it. */
  lemma EvenShare(amount: int, n: nat)
    requires n > 0 && amount > 0 && amount % n == 0
    ensures CalculateDropsForEachCharity(amount, n) * n == amount
  {
    assert amount == (amount / n) * n + amount % n;
  }

  /** How many `sendTip` calls a pay loop over `friendCount` charities starts under `fault`. */
  function SendsIssued(fault: Fault, friendCount: nat): (k: nat)
    ensures k <= friendCount
  {
    if fault.SendRejects? && fault.friend < friendCount then fault.friend + 1 else friendCount
  }

  /** Whether one of the sends of a pay loop over `friendCount` charities rejects under `fault`. */
  predicate SomeSendRejects(fault: Fault, friendCount: nat)
  {
    fault.SendRejects? && fault.friend < friendCount
  }

  /** The branch `splitTips` takes for the head tip once the balance is known. */
  function SplitBranch(balance: int, tip: Tip, friendCount: nat): SplitOutcome
    requires friendCount > 0
  {
    if balance < tip.drops then InsufficientBalance
    else if CalculateDropsForEachCharity(tip.drops, friendCount) == 0 then TooSmall
    else Paid
  }

  /** A failed balance read never covers a tip, so the tip takes the insufficient-balance branch. */
  lemma FailedBalanceDropsTip(response: TipbotApi.BalanceResponse, tip: Tip, friendCount: nat)
    requires friendCount > 0 && !response.BalanceData?
    ensures SplitBranch(TipbotApi.GetBalance(response), tip, friendCount) == InsufficientBalance
  {
  }

  /** 10.5 XRP among four charities: 2.625 XRP each, written "2.625", nothing left over. */
  lemma TenAndAHalfAmongFour(friends: seq<string>)
    requires |friends| == 4
    ensures CalculateDropsForEachCharity(10500000, 4) == 2625000
    ensures TotalPaid(PayEach(friends, 2625000)) == 10500000
    ensures forall c :: CharityLine(c, 2625000) == "@" + c + " +" + "2.625" + " XRP\n"
  {
    TotalPaidEach(friends, 2625000);
    Format.XrpTextOfTwoPointSixTwoFive();
  }

  /** Three drops among four charities: too small, so no payment and no tweet. */
  lemma ThreeDropsAmongFour(balance: int, tip: Tip)
    requires tip.drops == 3 && balance >= 3
    ensures SplitBranch(balance, tip, 4) == TooSmall
  {
  }

  /**
   * 4 XRP between two charities with 4 XRP in the account, the first send rejecting:
   * the step is on the paid branch, and the pay loop has started the first charity's
   * 2 XRP and no more when it stops.
   */
  lemma FirstSendRejectsBetweenTwo(a: string, b: string, tip: Tip)
    requires tip.drops == 4000000
    ensures SplitBranch(4000000, tip, 2) == Paid && CalculateDropsForEachCharity(tip.drops, 2) == 2000000
    ensures SomeSendRejects(SendRejects(0), 2)
    ensures PayEach([a, b][..SendsIssued(SendRejects(0), 2)], 2000000) == [Payment(CharityNetwork, a, 2000000)]
  {
    assert [a, b][..1] == [a];
  }

  // ----- Shuffle and tweet text -----

  /** `perm` lists each index below `n` exactly once. */
  predicate IsPermutation(perm: seq<nat>, n: nat)
  {
    && |perm| == n
    && (forall i :: 0 <= i < n ==> perm[i] < n)
    && (forall i, j :: 0 <= i < j < n ==> perm[i] != perm[j])
  }

  /** The charities in the order given by the injected permutation. */
  function Shuffled(friends: seq<string>, perm: seq<nat>): (r: seq<string>)
    requires IsPermutation(perm, |friends|)
    ensures |r| == |friends|
    ensures forall i :: 0 <= i < |r| ==> r[i] == friends[perm[i]]
  {
    seq(|friends|, i requires 0 <= i < |friends| => friends[perm[i]])
  }

  /** Shuffling reorders the charities: each appears as often as in the list. */
  lemma {:induction false} ShuffledIsPermutation(friends: seq<string>, perm: seq<nat>)
    requires IsPermutation(perm, |friends|)
    ensures multiset(Shuffled(friends, perm)) == multiset(friends)
    decreases |friends|
  {
    var n := |friends|;
    if n > 0 {
      var m := perm[n - 1];
      var rest := friends[..m] + friends[m + 1..];
      var s := Shuffled(friends, perm);
      ShuffledWithoutLast(friends, perm);
      ShuffledIsPermutation(rest, Reindexed(perm));
      assert multiset(s[..n - 1]) == multiset(rest);
      assert s == s[..n - 1] + [friends[m]];
      MultisetWithout(friends, m);
    }
  }

  /** Taking one entry out of a list and adding it back gives the list's multiset. */
  lemma MultisetWithout(xs: seq<string>, m: nat)
    requires m < |xs|
    ensures multiset(xs[..m] + xs[m + 1..]) + multiset{xs[m]} == multiset(xs)
  {
    assert xs == xs[..m] + [xs[m]] + xs[m + 1..];
  }

  /** The indices of `perm` but the last, renumbered as if the last one's entry had been removed. */
  function Reindexed(perm: seq<nat>): (r: seq<nat>)
    requires |perm| > 0
    ensures |r| == |perm| - 1
  {
    var m := perm[|perm| - 1];
    seq(|perm| - 1, i requires 0 <= i < |perm| - 1 => if perm[i] <= m then perm[i] else perm[i] - 1)
  }

  lemma ReindexedIsPermutation(perm: seq<nat>, n: nat)
    requires n > 0 && IsPermutation(perm, n)
    ensures IsPermutation(Reindexed(perm), n - 1)
  {
    var m := perm[n - 1];
    assert forall i :: 0 <= i < n - 1 ==> perm[i] != m;
  }

  /** Shuffling the list without the last pick gives the shuffle without its last entry. */
  lemma ShuffledWithoutLast(friends: seq<string>, perm: seq<nat>)
    requires |friends| > 0 && IsPermutation(perm, |friends|)
    ensures IsPermutation(Reindexed(perm), |friends| - 1)
    ensures var m := perm[|friends| - 1];
      Shuffled(friends[..m] + friends[m + 1..], Reindexed(perm)) == Shuffled(friends, perm)[..|friends| - 1]
  {
    var n := |friends|;
    var m := perm[n - 1];
    ReindexedIsPermutation(perm, n);
    assert forall i :: 0 <= i < n - 1 ==> perm[i] != m;
  }

  /** The opening of the tweet, chosen by tip type and network. */
  function TweetPrefix(tip: Tip, topicUser: string): string
  {
    if tip.tipType == "deposit" then
      ".@" + topicUser + " just received a direct deposit of " + Format.XrpText(tip.drops) + " XRP.\n\n"
    else if tip.network == "twitter" || tip.userNetwork == "twitter" then
      ".@" + tip.user + " donated " + Format.XrpText(tip.drops) + " XRP to @" + topicUser + ".\n\n"
    else
      (if tip.userNetwork == "discord" then tip.userId else tip.user)
      + " from " + tip.userNetwork + " donated " + Format.XrpText(tip.drops) + " XRP to @" + topicUser + ".\n\n"
  }

  /** The line naming one charity and its share. */
  function CharityLine(charity: string, share: nat): string
  {
    "@" + charity + " +" + Format.XrpText(share) + " XRP\n"
  }

  /** One line per charity, in the given order. */
  function CharityLines(charities: seq<string>, share: nat): string
  {
    if charities == [] then ""
    else CharityLines(charities[..|charities| - 1], share) + CharityLine(charities[|charities| - 1], share)
  }

  /** The greeting handed to the post queue with a tweet. */
  function TweetGreeting(greetingDraw: real, hashtagText: string): string
    requires 0.0 <= greetingDraw < 1.0
  {
    "\n" + TwitterApi.GetRandomGreetingsText(greetingDraw) + "\n" + hashtagText
  }

  /**
   * The tweet for a paid tip: the prefix, then one line per charity in shuffled
   * order; the charities listed are exactly the friend list, reordered.
   */
  method BuildTweetText(tip: Tip, share: nat, friends: seq<string>, perm: seq<nat>, topicUser: string)
    returns (text: string)
    requires IsPermutation(perm, |friends|)
    ensures text == TweetPrefix(tip, topicUser) + CharityLines(Shuffled(friends, perm), share)
    ensures multiset(Shuffled(friends, perm)) == multiset(friends)
  {
    var prefix := TweetPrefix(tip, topicUser);
    var shuffled := Shuffled(friends, perm);
    text := prefix;
    for i := 0 to |shuffled|
      invariant text == prefix + CharityLines(shuffled[..i], share)
    {
      assert shuffled[..i + 1][..i] == shuffled[..i];
      text := text + CharityLine(shuffled[i], share);
    }
    assert shuffled[..|shuffled|] == shuffled;
    ShuffledIsPermutation(friends, perm);
  }

  // ----- The bot's state -----

  class TipBot {
    /** The accounts the bot follows: the charities. */
    const friendList: seq<string>
    /** The bot's own account name (`MQTT_TOPIC_USER`). */
    const topicUser: string

    var tipQueue: seq<Tip>
    /** The copy of the queue in storage under the key `tipQueue`. */
    var storedQueue: seq<Tip>
    var processingTip: bool
    var processingRemaining: bool
    /** Every `sendTip` started, in order. */
    var payments: seq<Payment>
    /** Every tweet pushed to the post queue, in order. */
    var tweets: seq<QueuedTweet>
    /** Whether the one-shot remaining-balance timer is pending. */
    var reconcileArmed: bool
    /**
     * Whether a pay loop waits for good on a `sendTip` whose promise rejected: the
     * promise wrapped around the call is never resolved, so its `await` never returns.
     */
    var stalled: bool

    /**
     * The friend list is not empty (the bot does not start otherwise); the splitter and
     * the sweep are never busy together; while a split is in flight its tip is still
     * at the head of the queue; a stalled pay loop keeps its step busy.
     */
    ghost predicate Valid()
      reads this
    {
      && |friendList| > 0
      && !(processingTip && processingRemaining)
      && (processingTip ==> |tipQueue| > 0)
      && (stalled ==> processingTip || processingRemaining)
    }

    /** Start-up with the queue loaded from storage (empty when nothing was stored). */
    constructor (friends: seq<string>, topic: string, stored: seq<Tip>)
      requires |friends| > 0
      ensures Valid()
      ensures friendList == friends && topicUser == topic
      ensures tipQueue == stored && storedQueue == stored
      ensures !processingTip && !processingRemaining && !reconcileArmed && !stalled
      ensures payments == [] && tweets == []
    {
      friendList := friends;
      topicUser := topic;
      tipQueue := stored;
      storedQueue := stored;
      processingTip := false;
      processingRemaining := false;
      payments := [];
      tweets := [];
      reconcileArmed := false;
      stalled := false;
    }

    /** The MQTT `message` handler: append the tip and persist the queue (`persisted` is false when the write fails). */
    method OnMessage(tip: Tip, persisted: bool)
      requires Valid()
      modifies this
      ensures Valid()
      ensures tipQueue == old(tipQueue) + [tip]
      ensures storedQueue == if persisted then tipQueue else old(storedQueue)
      ensures processingTip == old(processingTip) && processingRemaining == old(processingRemaining)
      ensures payments == old(payments) && tweets == old(tweets) && reconcileArmed == old(reconcileArmed)
      ensures stalled == old(stalled)
    {
      tipQueue := tipQueue + [tip];
      if persisted {
        storedQueue := tipQueue;
      }
    }

    /** Whether the split timer may start on the head tip. */
    predicate CanSplit()
      reads this
    {
      !processingTip && !processingRemaining && |tipQueue| > 0
    }

    /**
     * A tick of the split timer, up to the balance read: when nothing else is being
     * processed and a tip is queued, mark the splitter busy; otherwise change nothing.
     */
    method SplitTips() returns (started: bool)
      requires Valid()
      modifies this
      ensures Valid()
      ensures started == old(CanSplit())
      ensures !started ==> unchanged(this)
      ensures started ==> processingTip
      ensures tipQueue == old(tipQueue) && storedQueue == old(storedQueue)
      ensures processingRemaining == old(processingRemaining)
      ensures payments == old(payments) && tweets == old(tweets) && reconcileArmed == old(reconcileArmed)
      ensures stalled == old(stalled)
    {
      started := !processingTip && !processingRemaining && |tipQueue| > 0;
      if started {
        processingTip := true;
      }
    }

    /**
     * The pay-every-charity loop: start `sendTip` for each friend in order; the loop
     * goes no further than the first send whose promise rejects.
     */
    method PayEachCharity(share: int, fault: Fault) returns (rejected: bool)
      modifies this`payments
      ensures payments == old(payments) + PayEach(friendList[..SendsIssued(fault, |friendList|)], share)
      ensures rejected == SomeSendRejects(fault, |friendList|)
    {
      var i := 0;
      rejected := false;
      while i < |friendList| && !rejected
        invariant 0 <= i <= |friendList|
        invariant payments == old(payments) + PayEach(friendList[..i], share)
        invariant rejected <==> SomeSendRejects(fault, |friendList|) && fault.friend < i
        invariant rejected ==> i == fault.friend + 1
      {
        assert friendList[..i + 1][..i] == friendList[..i];
        payments := payments + [Payment(CharityNetwork, friendList[i], share)];
        if fault == SendRejects(i) {
          rejected := true;
        }
        i := i + 1;
      }
    }

    /** `sendOutTweet`: compose the tweet and push it, with its greeting, to the post queue. */
    method SendOutTweet(tip: Tip, share: nat, perm: seq<nat>, greetingDraw: real, hashtagText: string)
      requires IsPermutation(perm, |friendList|)
      requires 0.0 <= greetingDraw < 1.0
      modifies this`tweets
      ensures tweets == old(tweets) + [QueuedTweet(
        TweetPrefix(tip, topicUser) + CharityLines(Shuffled(friendList, perm), share),
        TweetGreeting(greetingDraw, hashtagText))]
    {
      var text := BuildTweetText(tip, share, friendList, perm, topicUser);
      var greeting := TweetGreeting(greetingDraw, hashtagText);
      tweets := tweets + [QueuedTweet(text, greeting)];
    }

    /**
     * The rest of a split step once the balance read returns, as the code is written:
     * pay every charity its share and tweet, or drop a tip that is too small or not
     * covered by the balance. An exception from the balance read or the storage write
     * reaches the `catch` and releases the splitter. A rejected `sendTip` does not: the
     * step stalls with the splitter busy and the tip queued, and stays so for good.
     * Where no send rejects, the step is `SplitTipsAfterBalanceCaught`.
     */
    method SplitTipsAfterBalance(
      balance: TipbotApi.BalanceResponse, fault: Fault,
      perm: seq<nat>, greetingDraw: real, hashtagText: string)
      returns (outcome: SplitOutcome)
      requires Valid() && processingTip && !stalled
      requires IsPermutation(perm, |friendList|)
      requires 0.0 <= greetingDraw < 1.0
      modifies this
      ensures Valid()
      ensures var tip := old(tipQueue)[0];
        var branch := SplitBranch(TipbotApi.GetBalance(balance), tip, |friendList|);
        outcome == if fault == BalanceThrows || fault == PersistThrows then Raised
                   else if branch == Paid && SomeSendRejects(fault, |friendList|) then Stalled
                   else branch
      // a stalled step keeps the splitter busy; every other step releases it
      ensures stalled == (outcome == Stalled) && processingTip == stalled
      ensures processingRemaining == old(processingRemaining)
      ensures reconcileArmed == (old(reconcileArmed) || (!stalled && tipQueue == []))
      // a balance read that raises changes nothing
      ensures fault == BalanceThrows ==>
        tipQueue == old(tipQueue) && storedQueue == old(storedQueue)
        && payments == old(payments) && tweets == old(tweets)
      // charities are paid only on the paid branch, each the same share, in list order
      ensures var tip := old(tipQueue)[0];
        var share := CalculateDropsForEachCharity(tip.drops, |friendList|);
        fault != BalanceThrows ==>
          payments == old(payments) +
            if SplitBranch(TipbotApi.GetBalance(balance), tip, |friendList|) == Paid
            then PayEach(friendList[..SendsIssued(fault, |friendList|)], share) else []
      // a stalled step leaves the tip queued
      ensures outcome == Stalled ==> tipQueue == old(tipQueue) && storedQueue == old(storedQueue)
      // otherwise exactly the head tip is removed, and stored unless the write raises
      ensures fault != BalanceThrows && outcome != Stalled ==>
        tipQueue == old(tipQueue)[1..]
        && storedQueue == if fault == PersistThrows then old(storedQueue) else tipQueue
      // only a paid tip is tweeted
      ensures var tip := old(tipQueue)[0];
        var share := CalculateDropsForEachCharity(tip.drops, |friendList|);
        tweets == old(tweets) +
          if outcome == Paid
          then [QueuedTweet(TweetPrefix(tip, topicUser) + CharityLines(Shuffled(friendList, perm), share),
                            TweetGreeting(greetingDraw, hashtagText))]
          else []
    {
      var tip := tipQueue[0];
      var n := |friendList|;
      if fault.SendRejects? && SplitBranch(TipbotApi.GetBalance(balance), tip, n) == Paid && SomeSendRejects(fault, n) {
        var rejected := PayEachCharity(CalculateDropsForEachCharity(tip.drops, n), fault);
        stalled := true;
        outcome := Stalled;
      } else {
        outcome := SplitTipsAfterBalanceCaught(balance, fault, perm, greetingDraw, hashtagText);
      }
    }

    /**
     * The split step as its `catch` is meant to work: a rejected `sendTip` ends the pay
     * loop like any other exception, which releases the splitter and keeps the tip at
     * the head of the queue, so the next tick splits it again.
     */
    method SplitTipsAfterBalanceCaught(
      balance: TipbotApi.BalanceResponse, fault: Fault,
      perm: seq<nat>, greetingDraw: real, hashtagText: string)
      returns (outcome: SplitOutcome)
      requires Valid() && processingTip && !stalled
      requires IsPermutation(perm, |friendList|)
      requires 0.0 <= greetingDraw < 1.0
      modifies this
      ensures Valid() && !stalled
      ensures !processingTip && processingRemaining == old(processingRemaining)
      ensures reconcileArmed == (old(reconcileArmed) || tipQueue == [])
      ensures var tip := old(tipQueue)[0];
        var branch := SplitBranch(TipbotApi.GetBalance(balance), tip, |friendList|);
        outcome == if fault == BalanceThrows || fault == PersistThrows
                      || (branch == Paid && SomeSendRejects(fault, |friendList|))
                   then Raised else branch
      // a balance read that raises changes nothing
      ensures fault == BalanceThrows ==>
        tipQueue == old(tipQueue) && storedQueue == old(storedQueue)
        && payments == old(payments) && tweets == old(tweets)
      // charities are paid only on the paid branch, each the same share, in list order
      ensures var tip := old(tipQueue)[0];
        var share := CalculateDropsForEachCharity(tip.drops, |friendList|);
        fault != BalanceThrows ==>
          payments == old(payments) +
            if SplitBranch(TipbotApi.GetBalance(balance), tip, |friendList|) == Paid
            then PayEach(friendList[..SendsIssued(fault, |friendList|)], share) else []
      // a rejected send keeps the tip queued, and the next tick may split it again
      ensures var tip := old(tipQueue)[0];
        SplitBranch(TipbotApi.GetBalance(balance), tip, |friendList|) == Paid && SomeSendRejects(fault, |friendList|) ==>
          tipQueue == old(tipQueue) && storedQueue == old(storedQueue) && CanSplit()
      // otherwise exactly the head tip is removed, and stored unless the write raises
      ensures var tip := old(tipQueue)[0];
        fault != BalanceThrows
        && !(SplitBranch(TipbotApi.GetBalance(balance), tip, |friendList|) == Paid && SomeSendRejects(fault, |friendList|)) ==>
          tipQueue == old(tipQueue)[1..]
          && storedQueue == if fault == PersistThrows then old(storedQueue) else tipQueue
      // only a paid tip is tweeted
      ensures var tip := old(tipQueue)[0];
        var share := CalculateDropsForEachCharity(tip.drops, |friendList|);
        tweets == old(tweets) +
          if outcome == Paid
          then [QueuedTweet(TweetPrefix(tip, topicUser) + CharityLines(Shuffled(friendList, perm), share),
                            TweetGreeting(greetingDraw, hashtagText))]
          else []
    {
      var tip := tipQueue[0];
      outcome := Raised;
      if fault != BalanceThrows {
        var currentBalance := TipbotApi.GetBalance(balance);
        if currentBalance >= tip.drops {
          var share := CalculateDropsForEachCharity(tip.drops, |friendList|);
          if share > 0 {
            var rejected := PayEachCharity(share, fault);
            if !rejected {
              assert friendList[..|friendList|] == friendList;
              tipQueue := tipQueue[1..];
              if fault != PersistThrows {
                storedQueue := tipQueue;
                SendOutTweet(tip, share, perm, greetingDraw, hashtagText);
                outcome := Paid;
              }
            }
          } else {
            tipQueue := tipQueue[1..];
            if fault != PersistThrows {
              storedQueue := tipQueue;
              outcome := TooSmall;
            }
          }
        } else {
          tipQueue := tipQueue[1..];
          if fault != PersistThrows {
            storedQueue := tipQueue;
            outcome := InsufficientBalance;
          }
        }
      }
      processingTip := false;
      if |tipQueue| == 0 {
        reconcileArmed := true;
      }
    }

    /** Whether the remaining-balance check may run. */
    predicate CanSweep()
      reads this
    {
      |tipQueue| == 0 && !processingTip && !processingRemaining
    }

    /**
     * `checkForRemainingBalance` up to its balance read: when the queue is empty and
     * nothing is being processed, mark the sweep busy; otherwise change nothing.
     */
    method CheckForRemainingBalance() returns (started: bool)
      requires Valid()
      modifies this
      ensures Valid()
      ensures started == old(CanSweep())
      ensures !started ==> unchanged(this)
      ensures started ==> processingRemaining
      ensures tipQueue == old(tipQueue) && storedQueue == old(storedQueue)
      ensures processingTip == old(processingTip)
      ensures payments == old(payments) && tweets == old(tweets) && reconcileArmed == old(reconcileArmed)
      ensures stalled == old(stalled)
    {
      started := |tipQueue| == 0 && !processingTip && !processingRemaining;
      if started {
        processingRemaining := true;
      }
    }

    /** The one-shot remaining-balance timer fires. */
    method ReconcileTimerFires() returns (started: bool)
      requires Valid() && reconcileArmed
      modifies this
      ensures Valid() && !reconcileArmed
      ensures started == old(CanSweep())
      ensures processingRemaining == (old(processingRemaining) || started)
      ensures tipQueue == old(tipQueue) && storedQueue == old(storedQueue)
      ensures processingTip == old(processingTip)
      ensures payments == old(payments) && tweets == old(tweets) && stalled == old(stalled)
    {
      reconcileArmed := false;
      started := CheckForRemainingBalance();
    }

    /**
     * The rest of the sweep once the balance read returns, as the code is written: when
     * the balance is positive and divides evenly among the charities, and the queue is
     * still empty, pay it all out; the queue, the stored queue and the tweets are never
     * touched. A rejected `sendTip` stalls the sweep with `processingRemaining` set for
     * good. Where no send rejects, the sweep is `CheckForRemainingBalanceAfterBalanceCaught`.
     */
    method CheckForRemainingBalanceAfterBalance(balance: TipbotApi.BalanceResponse, fault: Fault)
      returns (outcome: SweepOutcome)
      requires Valid() && processingRemaining && !stalled
      modifies this`payments, this`processingRemaining, this`stalled
      ensures Valid()
      ensures var remaining := TipbotApi.GetBalance(balance);
        outcome ==
          if fault == BalanceThrows then SweepRaised
          else if remaining <= 0 then NothingToSplit
          else if remaining % |friendList| != 0 then NotDivisible
          else if tipQueue != [] then TipArrived
          else if SomeSendRejects(fault, |friendList|) then SweepStalled
          else SweepPaid
      // a stalled sweep keeps the sweep busy; every other one releases it
      ensures stalled == (outcome == SweepStalled) && processingRemaining == stalled
      ensures var remaining := TipbotApi.GetBalance(balance);
        payments == old(payments) +
          if fault != BalanceThrows && remaining > 0 && remaining % |friendList| == 0 && tipQueue == []
          then PayEach(friendList[..SendsIssued(fault, |friendList|)],
                       CalculateDropsForEachCharity(remaining, |friendList|))
          else []
      ensures outcome == SweepPaid ==>
        TotalPaid(payments[|old(payments)|..]) == TipbotApi.GetBalance(balance)
    {
      var remaining := TipbotApi.GetBalance(balance);
      var n := |friendList|;
      if fault.SendRejects? && remaining > 0 && remaining % n == 0 && |tipQueue| == 0 && SomeSendRejects(fault, n) {
        var rejected := PayEachCharity(CalculateDropsForEachCharity(remaining, n), fault);
        stalled := true;
        outcome := SweepStalled;
      } else {
        outcome := CheckForRemainingBalanceAfterBalanceCaught(balance, fault);
      }
    }

    /**
     * The sweep as its `catch` is meant to work: a rejected `sendTip` ends the pay loop
     * like any other exception and releases the sweep.
     */
    method CheckForRemainingBalanceAfterBalanceCaught(balance: TipbotApi.BalanceResponse, fault: Fault)
      returns (outcome: SweepOutcome)
      requires Valid() && processingRemaining && !stalled
      modifies this`payments, this`processingRemaining
      ensures Valid() && !processingRemaining
      ensures var remaining := TipbotApi.GetBalance(balance);
        outcome ==
          if fault == BalanceThrows then SweepRaised
          else if remaining <= 0 then NothingToSplit
          else if remaining % |friendList| != 0 then NotDivisible
          else if tipQueue != [] then TipArrived
          else if SomeSendRejects(fault, |friendList|) then SweepRaised
          else SweepPaid
      ensures var remaining := TipbotApi.GetBalance(balance);
        payments == old(payments) +
          if fault != BalanceThrows && remaining > 0 && remaining % |friendList| == 0 && tipQueue == []
          then PayEach(friendList[..SendsIssued(fault, |friendList|)],
                       CalculateDropsForEachCharity(remaining, |friendList|))
          else []
      ensures outcome == SweepPaid ==>
        TotalPaid(payments[|old(payments)|..]) == TipbotApi.GetBalance(balance)
    {
      outcome := SweepRaised;
      if fault != BalanceThrows {
        var remainingDropsToForward := TipbotApi.GetBalance(balance);
        if remainingDropsToForward > 0 && remainingDropsToForward % |friendList| == 0 {
          var remainingDropsEachCharity := CalculateDropsForEachCharity(remainingDropsToForward, |friendList|);
          if |tipQueue| == 0 && !processingTip {
            var rejected := PayEachCharity(remainingDropsEachCharity, fault);
            if !rejected {
              outcome := SweepPaid;
              assert friendList[..|friendList|] == friendList;
              assert payments[|old(payments)|..] == PayEach(friendList, remainingDropsEachCharity);
              SweepPaysWholeBalance(remainingDropsToForward, friendList);
            }
          } else {
            outcome := TipArrived;
          }
        } else if remainingDropsToForward > 0 {
          outcome := NotDivisible;
        } else {
          outcome := NothingToSplit;
        }
      }
      processingRemaining := false;
    }

    /** Once a pay loop has stalled, neither the split timer nor the sweep starts a step. */
    lemma StalledIsBlocked()
      requires Valid() && stalled
      ensures !CanSplit() && !CanSweep()
    {
    }
  }
}
