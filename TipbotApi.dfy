/**
 * The tip-bot payment API wrapper: the chunking done by `sendTip` and the
 * sentinel mapping done by `getBalance`. The HTTP call itself is not modelled:
 * a tip call becomes a recorded `TipCall`, a balance request becomes a given
 * `BalanceResponse`.
 */
module TipbotApi {
  import opened Config

  /** One tip request issued to the API: its destination URI and its amount in drops. */
  datatype TipCall = TipCall(to: string, drops: int)

  /** What the balance request came back with. */
  datatype BalanceResponse =
    | NoResponse                  // the HTTP call failed or was not ok: the wrapper yields null
    | ErrorResponse               // the body carries an `error` field
    | BalanceData(drops: int)     // `data.balance.XRP`, in drops

  /** The balance reported when the request failed: -1 XRP. */
  const FailedBalance: int := -1 * Drops

  /** The destination URI of every call made for one `sendTip`. */
  function Destination(network: string, user: string): string
  {
    "xrptipbot://" + network + "/" + user
  }

  /** Balance in drops, or `FailedBalance` when there is no usable response. */
  function GetBalance(response: BalanceResponse): (balance: int)
    ensures response.BalanceData? ==> balance == response.drops
    ensures !response.BalanceData? ==> balance == FailedBalance && balance < 0
  {
    match response
    case BalanceData(d) => d
    case _ => FailedBalance
  }

  /** Sum of a sequence of amounts. */
  function Sum(s: seq<int>): int
  {
    if s == [] then 0 else s[0] + Sum(s[1..])
  }

  /** The amounts `sendTip` sends for `drops`: full caps while more than a cap is left, then the rest. */
  function Chunks(drops: int): seq<int>
    decreases drops
  {
    if drops > TipCap then [TipCap] + Chunks(drops - TipCap) else [drops]
  }

  /** The amounts of a sequence of calls, in order. */
  function Amounts(calls: seq<TipCall>): (r: seq<int>)
    ensures |r| == |calls|
  {
    if calls == [] then [] else Amounts(calls[..|calls| - 1]) + [calls[|calls| - 1].drops]
  }

  /** Sends `dropsToSend` to `user` on `network`, one capped call at a time. */
  method SendTip(network: string, user: string, dropsToSend: int) returns (calls: seq<TipCall>)
    ensures Amounts(calls) == Chunks(dropsToSend)
    ensures forall i :: 0 <= i < |calls| ==> calls[i].to == Destination(network, user)
    ensures Sum(Amounts(calls)) == dropsToSend
    ensures |calls| >= 1
    ensures forall i :: 0 <= i < |calls| - 1 ==> calls[i].drops == TipCap
    ensures calls[|calls| - 1].drops <= TipCap
    ensures dropsToSend > 0 ==> calls[|calls| - 1].drops > 0
  {
    var dest := Destination(network, user);
    var remaining := dropsToSend;
    calls := [];
    while remaining > TipCap
      invariant Amounts(calls) + Chunks(remaining) == Chunks(dropsToSend)
      invariant forall i :: 0 <= i < |calls| ==> calls[i].to == dest
      decreases remaining
    {
      AppendChunk(calls, TipCall(dest, TipCap), remaining, dropsToSend);
      calls := calls + [TipCall(dest, TipCap)];
      remaining := remaining - TipCap;
    }
    AppendChunk(calls, TipCall(dest, remaining), remaining, dropsToSend);
    calls := calls + [TipCall(dest, remaining)];
    CallsOfChunks(calls, dropsToSend);
  }

  /** One more call for the next chunk keeps the calls made so far a prefix of the chunks. */
  lemma AppendChunk(calls: seq<TipCall>, next: TipCall, remaining: int, drops: int)
    requires Amounts(calls) + Chunks(remaining) == Chunks(drops)
    requires next.drops == if remaining > TipCap then TipCap else remaining
    ensures remaining > TipCap ==> Amounts(calls + [next]) + Chunks(remaining - TipCap) == Chunks(drops)
    ensures remaining <= TipCap ==> Amounts(calls + [next]) == Chunks(drops)
  {
    assert (calls + [next])[..|calls|] == calls;
    assert Amounts(calls + [next]) == Amounts(calls) + [next.drops];
    if remaining > TipCap {
      assert Chunks(remaining) == [TipCap] + Chunks(remaining - TipCap);
      assert Amounts(calls) + [TipCap] + Chunks(remaining - TipCap) == Amounts(calls) + ([TipCap] + Chunks(remaining - TipCap));
    } else {
      assert Chunks(remaining) == [remaining];
    }
  }

  /** Calls whose amounts are the chunks of `drops` add up to it and respect the cap. */
  lemma CallsOfChunks(calls: seq<TipCall>, drops: int)
    requires Amounts(calls) == Chunks(drops)
    ensures Sum(Amounts(calls)) == drops
    ensures |calls| >= 1
    ensures forall i :: 0 <= i < |calls| - 1 ==> calls[i].drops == TipCap
    ensures calls[|calls| - 1].drops <= TipCap
    ensures drops > 0 ==> calls[|calls| - 1].drops > 0
  {
    ChunksSum(drops);
    ChunksShape(drops);
    AmountsAt(calls);
  }

  /** The i-th amount is the amount of the i-th call. */
  lemma {:induction false} AmountsAt(calls: seq<TipCall>)
    ensures forall i :: 0 <= i < |calls| ==> Amounts(calls)[i] == calls[i].drops
  {
    if calls != [] {
      AmountsAt(calls[..|calls| - 1]);
    }
  }

  /** The chunks add up to the amount to send. */
  lemma {:induction false} ChunksSum(drops: int)
    ensures Sum(Chunks(drops)) == drops
    decreases drops
  {
    if drops > TipCap {
      ChunksSum(drops - TipCap);
      assert Chunks(drops)[1..] == Chunks(drops - TipCap);
    }
  }

  /** Every chunk but the last is a full cap; the last is at most a cap, and positive for a positive amount. */
  lemma {:induction false} ChunksShape(drops: int)
    ensures |Chunks(drops)| >= 1
    ensures forall i :: 0 <= i < |Chunks(drops)| - 1 ==> Chunks(drops)[i] == TipCap
    ensures Chunks(drops)[|Chunks(drops)| - 1] <= TipCap
    ensures drops > 0 ==> Chunks(drops)[|Chunks(drops)| - 1] > 0
    decreases drops
  {
    if drops > TipCap {
      ChunksShape(drops - TipCap);
      var rest := Chunks(drops - TipCap);
      assert Chunks(drops) == [TipCap] + rest;
      forall i | 0 <= i < |Chunks(drops)| - 1
        ensures Chunks(drops)[i] == TipCap
      {
        if i > 0 { assert Chunks(drops)[i] == rest[i - 1]; }
      }
    }
  }

  /** Ceiling of `a / b` for positive `b`. */
  function CeilDiv(a: nat, b: nat): nat
    requires b > 0
  {
    (a + b - 1) / b
  }

  /**
   * `sendTip` makes max(1, ceil(drops / cap)) API calls; for a positive amount, k calls
   * are exactly enough: (k - 1) caps fall short of it and k caps cover it.
   */
  lemma {:induction false} ChunkCount(drops: int)
    ensures |Chunks(drops)| == if drops <= 0 then 1 else CeilDiv(drops, TipCap)
    ensures drops > 0 ==> (|Chunks(drops)| - 1) * TipCap < drops <= |Chunks(drops)| * TipCap
    decreases drops
  {
    if drops > TipCap {
      ChunkCount(drops - TipCap);
      assert CeilDiv(drops, TipCap) == CeilDiv(drops - TipCap, TipCap) + 1;
    }
  }
}
