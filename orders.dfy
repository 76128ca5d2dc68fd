/** Orders (`ORDERS`): the record a customer's reply becomes, the admin's review
    of it, the newest-first list the admin sees and the usage statistics. */
module Orders {
  import opened Wrappers

  /** The `status` strings "pending", "approved", "rejected" and "needs_more". */
  datatype Status = Pending | Approved | Rejected | NeedsMore

  /** `info`: the text of the reply, or the file id of the largest photo size. */
  datatype Info = TextInfo(text: string) | PhotoInfo(fileId: string)

  /** One order. `userName` is `user.get("name")`, missing for a user record
      that was created by the currency toggle; `handledAt` is set by approve and
      reject only. */
  datatype Order = Order(
    orderId: string,
    userId: int,
    userName: Option<string>,
    buttonId: string,
    buttonText: string,
    info: Info,
    status: Status,
    createdAt: string,
    handledAt: Option<string>)

  /** `next((o for o in ORDERS if o.get("order_id") == order_id), None)`, as an index. */
  function FindOrder(orders: seq<Order>, orderId: string): (r: Option<nat>)
    ensures r.Some? ==> r.value < |orders| && orders[r.value].orderId == orderId
    ensures r.Some? ==> forall j :: 0 <= j < r.value ==> orders[j].orderId != orderId
    ensures r.None? <==> forall j :: 0 <= j < |orders| ==> orders[j].orderId != orderId
  {
    if orders == [] then None
    else if orders[0].orderId == orderId then Some(0)
    else match FindOrder(orders[1..], orderId)
      case None => None
      case Some(i) => Some(i + 1)
  }

  /** What `admin_order_action` writes into the order it found. */
  function Reviewed(o: Order, action: string, now: string): Order {
    if action == "approve" then o.(status := Approved, handledAt := Some(now))
    else if action == "reject" then o.(status := Rejected, handledAt := Some(now))
    else if action == "askmore" then o.(status := NeedsMore)
    else o
  }

  /** The order list after `admin_order_action(order_id, action)`. */
  function Review(orders: seq<Order>, orderId: string, action: string, now: string): seq<Order> {
    match FindOrder(orders, orderId)
    case None => orders
    case Some(i) => orders[i := Reviewed(orders[i], action, now)]
  }

  /** An unknown id changes nothing; otherwise only the first order with that id
      changes, approve and reject overwrite whatever status it had and stamp
      `handled_at`, askmore sets "needs_more" and leaves `handled_at` alone, and
      any other action ("view") leaves it as it was. The list keeps its length. */
  lemma ReviewTouchesOnlyTheOrder(orders: seq<Order>, orderId: string, action: string, now: string)
    ensures |Review(orders, orderId, action, now)| == |orders|
    ensures (forall j :: 0 <= j < |orders| ==> orders[j].orderId != orderId) ==> Review(orders, orderId, action, now) == orders
    ensures FindOrder(orders, orderId).Some? ==>
      var i := FindOrder(orders, orderId).value;
      var r := Review(orders, orderId, action, now);
      && orders[i].orderId == orderId
      && (forall j :: 0 <= j < |orders| && j != i ==> r[j] == orders[j])
      && r[i].(status := orders[i].status, handledAt := orders[i].handledAt) == orders[i]
      && (action == "approve" ==> r[i].status == Approved && r[i].handledAt == Some(now))
      && (action == "reject" ==> r[i].status == Rejected && r[i].handledAt == Some(now))
      && (action == "askmore" ==> r[i].status == NeedsMore && r[i].handledAt == orders[i].handledAt)
      && (action !in {"approve", "reject", "askmore"} ==> r[i] == orders[i])
  {
  }

  /** Status is not terminal: an approved order can still be rejected. */
  lemma ApprovedCanBeRejected(orders: seq<Order>, orderId: string, now: string, later: string)
    requires FindOrder(orders, orderId).Some?
    ensures var r := Review(Review(orders, orderId, "approve", now), orderId, "reject", later);
      r[FindOrder(orders, orderId).value].status == Rejected
  {
    var i := FindOrder(orders, orderId).value;
    var once := Review(orders, orderId, "approve", now);
    assert forall j :: 0 <= j < |once| ==> once[j].orderId == orders[j].orderId;
    assert FindOrder(once, orderId) == Some(i) by {
      FindOrderSameIds(orders, once, orderId);
    }
  }

  /** The lookup only sees the ids. */
  lemma {:induction false} FindOrderSameIds(a: seq<Order>, b: seq<Order>, orderId: string)
    requires |a| == |b| && forall j :: 0 <= j < |a| ==> a[j].orderId == b[j].orderId
    ensures FindOrder(a, orderId) == FindOrder(b, orderId)
  {
    if a != [] {
      FindOrderSameIds(a[1..], b[1..], orderId);
    }
  }

  function Reverse(s: seq<Order>): (r: seq<Order>)
    ensures |r| == |s|
  {
    if s == [] then [] else Reverse(s[1..]) + [s[0]]
  }

  lemma {:induction false} ReverseAt(s: seq<Order>, k: nat)
    requires k < |s|
    ensures Reverse(s)[k] == s[|s| - 1 - k]
  {
    if k < |s| - 1 {
      ReverseAt(s[1..], k);
    }
  }

  /** `ORDERS[-40:][::-1]`, the list `manage_orders` shows. */
  function Recent(orders: seq<Order>): seq<Order> {
    Reverse(orders[|orders| - (if |orders| < 40 then |orders| else 40)..])
  }

  /** At most forty orders, the newest first, going back one at a time. */
  lemma RecentNewestFirst(orders: seq<Order>)
    ensures |Recent(orders)| == if |orders| < 40 then |orders| else 40
    ensures forall k :: 0 <= k < |Recent(orders)| ==> Recent(orders)[k] == orders[|orders| - 1 - k]
  {
    var n := if |orders| < 40 then |orders| else 40;
    var tail := orders[|orders| - n..];
    forall k | 0 <= k < n
      ensures Recent(orders)[k] == orders[|orders| - 1 - k]
    {
      ReverseAt(tail, k);
    }
  }

  /** The `button_text` of every order, oldest first. */
  function Labels(orders: seq<Order>): (r: seq<string>)
    ensures |r| == |orders|
    ensures forall j :: 0 <= j < |orders| ==> r[j] == orders[j].buttonText
  {
    if orders == [] then [] else [orders[0].buttonText] + Labels(orders[1..])
  }

  /** `counts[key]`: how many orders were placed through the button labelled `t`. */
  function UseCount(orders: seq<Order>, t: string): nat {
    multiset(Labels(orders))[t]
  }

  /** The keys of the `counts` dict in insertion order: each label once, where
      it first occurs. */
  function KeysFrom(labels: seq<string>, seen: seq<string>): (keys: seq<string>)
    ensures forall t :: t in keys <==> t in seen || t in labels
    decreases labels
  {
    if labels == [] then seen
    else
      var t := labels[0];
      assert forall u :: u in labels <==> u == t || u in labels[1..];
      KeysFrom(labels[1..], if t in seen then seen else seen + [t])
  }

  /** Index of the first greatest value, which is the item `max(..., key=...)`
      returns: a later item only wins when it is strictly greater. */
  function FirstMaxIndex(v: seq<nat>): (i: nat)
    requires |v| > 0
    ensures i < |v|
    ensures forall j :: 0 <= j < |v| ==> v[j] <= v[i]
    ensures forall j :: 0 <= j < i ==> v[j] < v[i]
  {
    if |v| == 1 then 0
    else
      var i := FirstMaxIndex(v[..|v| - 1]);
      if v[|v| - 1] > v[i] then |v| - 1 else i
  }

  function Counts(orders: seq<Order>, keys: seq<string>): (v: seq<nat>)
    ensures |v| == |keys|
    ensures forall j :: 0 <= j < |keys| ==> v[j] == UseCount(orders, keys[j])
  {
    if keys == [] then [] else [UseCount(orders, keys[0])] + Counts(orders, keys[1..])
  }

  function Keys(orders: seq<Order>): seq<string> {
    KeysFrom(Labels(orders), [])
  }

  /** The "most used" line of the statistics; `None` is the "nothing yet" text. */
  function MostUsed(orders: seq<Order>): Option<string> {
    var keys := Keys(orders);
    if keys == [] then None else Some(keys[FirstMaxIndex(Counts(orders, keys))])
  }

  /** With no order there is no most used button; otherwise it is the label of
      some order, no label was used more often, and every label that comes
      before it in the dict was used strictly less often. */
  lemma MostUsedIsFirstMaximum(orders: seq<Order>)
    ensures MostUsed(orders).None? <==> orders == []
    ensures MostUsed(orders).Some? ==>
      var t := MostUsed(orders).value;
      && t in Labels(orders)
      && (forall u :: u in Labels(orders) ==> UseCount(orders, u) <= UseCount(orders, t))
      && exists i :: 0 <= i < |Keys(orders)| && Keys(orders)[i] == t
           && forall k :: 0 <= k < i ==> UseCount(orders, Keys(orders)[k]) < UseCount(orders, t)
  {
    var keys := Keys(orders);
    if orders != [] {
      assert Labels(orders)[0] in keys;
      var v := Counts(orders, keys);
      var i := FirstMaxIndex(v);
      forall u | u in Labels(orders)
        ensures UseCount(orders, u) <= UseCount(orders, keys[i])
      {
        var k :| 0 <= k < |keys| && keys[k] == u;
        assert v[k] <= v[i];
      }
    }
  }
}
