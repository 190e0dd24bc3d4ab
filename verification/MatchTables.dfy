/** The match table all markets share: one row per submitted match, oldest first. */
module MatchTables {
  import opened Orders

  type MarketId = string

  /** `account` is the taker's, `amounts` what each maker's order in the report held. */
  datatype MatchRecord = MatchRecord(market: MarketId, account: Account, taker: OrderId, makers: seq<OrderId>,
                                     amounts: seq<int>, takerSide: Side, finished: bool)

  predicate Pending(r: MatchRecord, market: MarketId) {
    r.market == market && !r.finished
  }

  /** The row a pending-match query for the market returns; the number of rows if there is none. */
  function OldestPending(rows: seq<MatchRecord>, market: MarketId): (k: nat)
    ensures k <= |rows|
    ensures k < |rows| ==> Pending(rows[k], market)
    ensures forall j :: 0 <= j < k ==> !Pending(rows[j], market)
  {
    if rows == [] || Pending(rows[0], market) then 0 else 1 + OldestPending(rows[1..], market)
  }

  /** A confirmation carries no transaction: it finishes whichever row of its market waits longest. */
  function Confirm(rows: seq<MatchRecord>, market: MarketId): seq<MatchRecord> {
    var k := OldestPending(rows, market);
    if k < |rows| then rows[k := rows[k].(finished := true)] else rows
  }

  /** Rows of a market among the first `k`. */
  function Count(rows: seq<MatchRecord>, market: MarketId, k: nat): nat
    requires k <= |rows|
  {
    if k == 0 then 0 else Count(rows, market, k - 1) + (if rows[k - 1].market == market then 1 else 0)
  }

  /** Exactly the `n` oldest rows of the market are finished. */
  ghost predicate FirstFinished(rows: seq<MatchRecord>, market: MarketId, n: nat) {
    && n <= Count(rows, market, |rows|)
    && forall k :: 0 <= k < |rows| && rows[k].market == market ==> (rows[k].finished <==> Count(rows, market, k) < n)
  }

  lemma {:induction false} CountGrows(rows: seq<MatchRecord>, market: MarketId, j: nat, k: nat)
    requires j <= k <= |rows|
    ensures Count(rows, market, j) <= Count(rows, market, k)
    ensures j < k && rows[j].market == market ==> Count(rows, market, j) < Count(rows, market, k)
    decreases k
  {
    if j < k {
      CountGrows(rows, market, j, k - 1);
    }
  }

  lemma {:induction false} CountSame(rows: seq<MatchRecord>, other: seq<MatchRecord>, market: MarketId, k: nat)
    requires k <= |rows| && k <= |other| && forall j :: 0 <= j < k ==> rows[j].market == other[j].market
    ensures Count(rows, market, k) == Count(other, market, k)
  {
    if k > 0 {
      CountSame(rows, other, market, k - 1);
    }
  }

  lemma {:induction false} CountWithin(rows: seq<MatchRecord>, market: MarketId, k: nat, n: nat)
    requires k <= |rows| && forall j :: 0 <= j < k && rows[j].market == market ==> Count(rows, market, j) < n
    ensures Count(rows, market, k) <= n
  {
    if k > 0 {
      CountWithin(rows, market, k - 1, n);
    }
  }

  /** One more of the market's rows is finished, the next in age, unless all were. */
  lemma ConfirmFinishesNext(rows: seq<MatchRecord>, market: MarketId, n: nat)
    requires FirstFinished(rows, market, n)
    ensures FirstFinished(Confirm(rows, market), market, if n < Count(rows, market, |rows|) then n + 1 else n)
  {
    var k := OldestPending(rows, market);
    var after := Confirm(rows, market);
    forall j | 0 <= j < k && rows[j].market == market ensures Count(rows, market, j) < n {
      assert !Pending(rows[j], market);
    }
    CountWithin(rows, market, k, n);
    CountSame(rows, after, market, |rows|);
    if k < |rows| {
      CountGrows(rows, market, k, |rows|);
      forall j | 0 <= j < |rows| && rows[j].market == market
        ensures after[j].finished <==> Count(after, market, j) < n + 1
      {
        CountSame(rows, after, market, j);
        if j < k {
          CountGrows(rows, market, j, k);
        } else {
          CountGrows(rows, market, k, j);
        }
      }
    }
  }

  /** Other markets' rows stay as they are. */
  lemma ConfirmLeavesOthers(rows: seq<MatchRecord>, market: MarketId, other: MarketId, n: nat)
    requires market != other && FirstFinished(rows, other, n)
    ensures FirstFinished(Confirm(rows, market), other, n)
  {
    var after := Confirm(rows, market);
    forall k | 0 <= k <= |rows| ensures Count(rows, other, k) == Count(after, other, k) {
      CountSame(rows, after, other, k);
    }
  }

  lemma AppendKeepsFinished(rows: seq<MatchRecord>, r: MatchRecord, market: MarketId, n: nat)
    requires FirstFinished(rows, market, n) && !r.finished
    ensures FirstFinished(rows + [r], market, n)
  {
    forall k | 0 <= k <= |rows| ensures Count(rows, market, k) == Count(rows + [r], market, k) {
      CountSame(rows, rows + [r], market, k);
    }
  }

  /** No row is finished while an older one of its market is not. */
  lemma FinishedOldestFirst(rows: seq<MatchRecord>, market: MarketId, n: nat, i: nat, j: nat)
    requires FirstFinished(rows, market, n) && i < j < |rows|
    requires rows[i].market == rows[j].market == market && rows[j].finished
    ensures rows[i].finished
  {
    CountGrows(rows, market, i, j);
  }
}
