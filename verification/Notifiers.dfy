/** The notifier's own objects: one mutable wait record per transaction, appended to as events arrive. */
module Notifiers {
  import opened Orders
  import opened MatchTables
  import opened Handshake

  /** A parsed matchOrdersExt event. */
  datatype MatchEvent = MatchEvent(caller: string, epoch: nat, orderType: nat, orderId: OrderId, orderCreator: string)

  function OrderIds(events: seq<MatchEvent>): seq<OrderId> {
    if events == [] then [] else OrderIds(events[..|events| - 1]) + [events[|events| - 1].orderId]
  }

  lemma OrderIdsSnoc(events: seq<MatchEvent>, event: MatchEvent)
    ensures OrderIds(events + [event]) == OrderIds(events) + [event.orderId]
  {
    assert (events + [event])[..|events|] == events;
  }

  lemma {:induction false} OrderIdsLength(events: seq<MatchEvent>)
    ensures |OrderIds(events)| == |events|
  {
    if events != [] {
      OrderIdsLength(events[..|events| - 1]);
    }
  }

  class WaitOrderMatch {
    const numOfEventsNeedsToWait: int
    var receivedEvents: seq<MatchEvent>

    ghost function View(): Wait
      reads this
    {
      Wait(numOfEventsNeedsToWait, OrderIds(receivedEvents))
    }

    constructor (needed: int)
      ensures View() == Wait(needed, [])
    {
      numOfEventsNeedsToWait, receivedEvents := needed, [];
    }

    function AllEventReceived(): bool
      reads this
    {
      numOfEventsNeedsToWait == |receivedEvents|
    }

    method Receive(event: MatchEvent)
      modifies this
      ensures View() == Wait(old(View()).needed, old(View()).received + [event.orderId])
      ensures |View().received| == |receivedEvents|
    {
      OrderIdsSnoc(receivedEvents, event);
      receivedEvents := receivedEvents + [event];
      OrderIdsLength(receivedEvents);
    }

    method GetMatchedOrderIds() returns (orderIds: seq<OrderId>)
      ensures orderIds == View().received && |orderIds| == |receivedEvents|
    {
      orderIds := [];
      for k := 0 to |receivedEvents|
        invariant orderIds == OrderIds(receivedEvents[..k]) && |orderIds| == k
      {
        assert receivedEvents[..k + 1][..k] == receivedEvents[..k];
        orderIds := orderIds + [receivedEvents[k].orderId];
      }
      assert receivedEvents[..|receivedEvents|] == receivedEvents;
    }
  }

  class EventNotifier {
    var waitTxHashList: map<Hash, WaitOrderMatch>
    var pushed: seq<Update>

    /** No two hashes share a record, so an event touches its own transaction only. */
    ghost predicate Valid()
      reads this
    {
      forall g, h :: g in waitTxHashList && h in waitTxHashList && g != h ==> waitTxHashList[g] != waitTxHashList[h]
    }

    ghost function View(): Notifier
      reads this, waitTxHashList.Values
    {
      Notifier(map h | h in waitTxHashList :: waitTxHashList[h].View(), pushed)
    }

    constructor ()
      ensures Valid() && View() == Handshake.INITIAL.notifier
    {
      waitTxHashList, pushed := map[], [];
    }

    method HandleEvent(hash: Hash, needed: int)
      requires Valid()
      modifies this
      ensures Valid() && View() == Register(old(View()), hash, needed)
    {
      hide OrderIds;
      var waitOrderMatch := new WaitOrderMatch(needed);
      waitTxHashList := waitTxHashList[hash := waitOrderMatch];
      assert View().waiting == old(View()).waiting[hash := Wait(needed, [])];
    }

    method HandleMatch(hash: Hash, market: MarketId, event: MatchEvent)
      requires Valid() && hash in waitTxHashList
      modifies this`pushed, waitTxHashList[hash]
      ensures Valid() && View() == Receive(old(View()), hash, market, event.orderId)
    {
      hide OrderIds;
      var wait := waitTxHashList[hash];
      wait.Receive(event);
      if wait.AllEventReceived() {
        var orderIds := wait.GetMatchedOrderIds();
        pushed := pushed + [Update(market, orderIds)];
      }
      OneChanged(old(View()).waiting, View().waiting, hash);
    }

    static lemma OneChanged(before: map<Hash, Wait>, after: map<Hash, Wait>, hash: Hash)
      requires hash in before && before.Keys == after.Keys
      requires forall h :: h in before && h != hash ==> after[h] == before[h]
      ensures after == before[hash := after[hash]]
    {
    }
  }
}
