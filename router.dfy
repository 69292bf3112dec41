/** The connect callback: it marks the page connected and subscribes the
    status and heart-rate characteristics to their handlers. */
module Router {
  import opened Wrappers
  import opened Page

  /** Characteristic that carries the sensor's status code. */
  const StatusUuid: string := "e7ea0fb5-4f46-4241-8825-a3fa60acbb71"
  /** Characteristic that carries the heart-rate reading. */
  const HeartRateUuid: string := "6e4a51f1-859d-4323-b984-0e8968fc8ade"

  /** A characteristic as the transport reports it: its uuid and whether it
      supports notifications. */
  datatype Characteristic = Characteristic(uuid: string, notify: bool)

  /** The two notification handlers a characteristic can be bound to. */
  datatype Handler = Status | HeartRate

  /** A call `startNotifications(characteristics[index], handler)`. */
  datatype Subscription = Subscription(index: nat, handler: Handler)

  /** The handler the routing binds a characteristic to, if any: only a
      notifying characteristic, and only by exact uuid match. */
  function HandlerFor(ch: Characteristic): (h: Option<Handler>)
    ensures h == Some(Status) <==> ch.notify && ch.uuid == StatusUuid
    ensures h == Some(HeartRate) <==> ch.notify && ch.uuid == HeartRateUuid
    ensures h.None? <==> !ch.notify || (ch.uuid != StatusUuid && ch.uuid != HeartRateUuid)
  {
    assert StatusUuid[0] != HeartRateUuid[0];
    if ch.notify then
      if ch.uuid == StatusUuid then Some(Status)
      else if ch.uuid == HeartRateUuid then Some(HeartRate)
      else None
    else None
  }

  /** The subscriptions made for the first n characteristics, in list order. */
  function Routed(chars: seq<Characteristic>, n: nat): (subs: seq<Subscription>)
    requires n <= |chars|
    ensures |subs| <= n
    ensures forall s :: s in subs ==> s.index < n
    decreases n
  {
    if n == 0 then []
    else
      Routed(chars, n - 1) +
      match HandlerFor(chars[n - 1])
      case Some(h) => [Subscription(n - 1, h)]
      case None => []
  }

  /** Indices, among the first n, of the characteristics routing binds. */
  ghost function MatchingIndices(chars: seq<Characteristic>, n: nat): set<nat>
    requires n <= |chars|
  {
    set i: nat | i < n && HandlerFor(chars[i]).Some?
  }

  /** Every subscription is for one of the first n characteristics, with the
      handler its uuid selects. */
  lemma {:induction false} RoutedSound(chars: seq<Characteristic>, n: nat)
    requires n <= |chars|
    ensures forall s :: s in Routed(chars, n) ==>
      s.index < n && HandlerFor(chars[s.index]) == Some(s.handler)
    decreases n
  {
    if n > 0 {
      RoutedSound(chars, n - 1);
    }
  }

  /** Every characteristic routing binds among the first n is subscribed. */
  lemma {:induction false} RoutedComplete(chars: seq<Characteristic>, n: nat, i: nat)
    requires i < n <= |chars|
    requires HandlerFor(chars[i]).Some?
    ensures Subscription(i, HandlerFor(chars[i]).value) in Routed(chars, n)
    decreases n
  {
    if i < n - 1 {
      RoutedComplete(chars, n - 1, i);
    }
  }

  /** Subscriptions follow list order with strictly increasing indices, so no
      characteristic is subscribed twice. */
  lemma {:induction false} RoutedOrdered(chars: seq<Characteristic>, n: nat)
    requires n <= |chars|
    ensures forall k, l :: 0 <= k < l < |Routed(chars, n)| ==>
      Routed(chars, n)[k].index < Routed(chars, n)[l].index
    decreases n
  {
    if n > 0 {
      RoutedOrdered(chars, n - 1);
      RoutedSound(chars, n - 1);
      var prev := Routed(chars, n - 1);
      assert forall k :: 0 <= k < |prev| ==> prev[k] in prev;
    }
  }

  /** There are exactly as many subscriptions as characteristics that are
      notifying and carry one of the two uuids. */
  lemma {:induction false} RoutedCount(chars: seq<Characteristic>, n: nat)
    requires n <= |chars|
    ensures |Routed(chars, n)| == |MatchingIndices(chars, n)|
    decreases n
  {
    if n == 0 {
      assert MatchingIndices(chars, 0) == {};
    } else {
      RoutedCount(chars, n - 1);
      var prev := MatchingIndices(chars, n - 1);
      if HandlerFor(chars[n - 1]).Some? {
        assert MatchingIndices(chars, n) == prev + {n - 1};
        assert n - 1 !in prev;
      } else {
        assert MatchingIndices(chars, n) == prev;
      }
    }
  }

  /** A characteristic that does not notify is never subscribed, whatever its uuid. */
  lemma NonNotifyingNeverSubscribed(chars: seq<Characteristic>, i: nat)
    requires i < |chars| && !chars[i].notify
    ensures forall s :: s in Routed(chars, |chars|) ==> s.index != i
  {
    RoutedSound(chars, |chars|);
  }

  /** The subscriptions the p5ble transport holds. Only `startNotifications`
      is modelled, as recording the subscription. */
  class Transport {
    var subscriptions: seq<Subscription>

    constructor ()
      ensures subscriptions == []
    {
      subscriptions := [];
    }

    method StartNotifications(index: nat, handler: Handler)
      modifies this
      ensures subscriptions == old(subscriptions) + [Subscription(index, handler)]
    {
      subscriptions := subscriptions + [Subscription(index, handler)];
    }
  }

  /** `gotCharacteristics`: an error is only logged, so the page is marked
      connected and every characteristic is routed whether or not there was
      one. The status and rate text are left alone. */
  method GotCharacteristics(ble: Transport, display: Display, error: Option<string>,
                            characteristics: seq<Characteristic>)
    modifies ble, display
    ensures display.connected
    ensures display.status == old(display.status) && display.rate == old(display.rate)
    ensures ble.subscriptions == old(ble.subscriptions) + Routed(characteristics, |characteristics|)
  {
    display.connected := true;
    var i := 0;
    while i < |characteristics|
      invariant 0 <= i <= |characteristics|
      invariant ble.subscriptions == old(ble.subscriptions) + Routed(characteristics, i)
      invariant display.connected
      invariant display.status == old(display.status) && display.rate == old(display.rate)
    {
      var ch := characteristics[i];
      if ch.notify {
        if ch.uuid == StatusUuid {
          ble.StartNotifications(i, Status);
        } else if ch.uuid == HeartRateUuid {
          ble.StartNotifications(i, HeartRate);
        }
      }
      i := i + 1;
    }
  }

  /** Status, heart-rate and an unknown notifying characteristic: two
      subscriptions, the third ignored. */
  lemma ThreeCharacteristicsExample()
    ensures Routed([Characteristic(StatusUuid, true), Characteristic(HeartRateUuid, true),
                    Characteristic("xyz", true)], 3)
         == [Subscription(0, Status), Subscription(1, HeartRate)]
  {
  }
}
