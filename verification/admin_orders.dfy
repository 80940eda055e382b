/**
 * The admin order list (src/app/admin/orders/page.jsx): the local effect of
 * a status change, the search filter, and the status badge.
 */
module AdminOrders {
  import opened Options
  import opened Text
  import Seqs
  import OrderRules

  /** The joined `profiles` row; either column may be null. */
  datatype Profile = Profile(fullName: Option<string>, email: Option<string>)

  /** An order row with the fields the page reads; the joined profile may be missing. */
  datatype Order = Order(id: string, status: string, total: int, profile: Option<Profile>)

  /** `orders.map(order => order.id === orderId ? { ...order, status: newStatus } : order)`. */
  function UpdateStatus(orders: seq<Order>, orderId: string, newStatus: string): (r: seq<Order>)
    ensures |r| == |orders|
    ensures forall i :: 0 <= i < |orders| ==> r[i] == (if orders[i].id == orderId then orders[i].(status := newStatus) else orders[i])
  {
    seq(|orders|, i requires 0 <= i < |orders| =>
      if orders[i].id == orderId then orders[i].(status := newStatus) else orders[i])
  }

  /** Only the status of the matching orders changes; applying the same update again changes nothing. */
  lemma UpdateStatusTouchesOnlyStatus(orders: seq<Order>, orderId: string, newStatus: string)
    ensures var r := UpdateStatus(orders, orderId, newStatus);
            forall i :: 0 <= i < |r| ==>
              r[i].id == orders[i].id && r[i].total == orders[i].total && r[i].profile == orders[i].profile
              && (r[i].status != orders[i].status ==> orders[i].id == orderId && r[i].status == newStatus)
    ensures UpdateStatus(UpdateStatus(orders, orderId, newStatus), orderId, newStatus) == UpdateStatus(orders, orderId, newStatus)
  {
  }

  /** The search predicate: the id, the customer's name or e-mail contains the term, case-insensitively. */
  predicate Matches(o: Order, term: string)
  {
    var t := ToLower(term);
    Includes(ToLower(o.id), t)
    || (o.profile.Some? && o.profile.value.fullName.Some? && Includes(ToLower(o.profile.value.fullName.value), t))
    || (o.profile.Some? && o.profile.value.email.Some? && Includes(ToLower(o.profile.value.email.value), t))
  }

  /**
   * The filter callback, evaluated left to right: once the id does not match,
   * reading `full_name` of a missing profile, or lower-casing a missing name
   * or (after the name did not match) a missing e-mail, throws.
   */
  function Test(o: Order, term: string): Outcome<bool>
  {
    var t := ToLower(term);
    if Includes(ToLower(o.id), t) then Returns(true)
    else match o.profile
      case None => TypeError
      case Some(p) =>
        match p.fullName
        case None => TypeError
        case Some(n) =>
          if Includes(ToLower(n), t) then Returns(true)
          else match p.email
            case None => TypeError
            case Some(e) => Returns(Includes(ToLower(e), t))
  }

  /** The orders on which the callback does not throw. */
  predicate Searchable(o: Order, term: string)
  {
    Includes(ToLower(o.id), ToLower(term))
    || (o.profile.Some? && o.profile.value.fullName.Some?
        && (o.profile.value.email.Some? || Includes(ToLower(o.profile.value.fullName.value), ToLower(term))))
  }

  /** `filteredOrders`: the matching orders in list order, or the `TypeError` of the first callback that throws. */
  function Filtered(orders: seq<Order>, term: string): (r: Outcome<seq<Order>>)
    ensures r.Returns? <==> forall i :: 0 <= i < |orders| ==> Searchable(orders[i], term)
    ensures r.Returns? ==> forall i :: 0 <= i < |r.value| ==> r.value[i] in orders && Matches(r.value[i], term)
    ensures r.Returns? ==> forall i :: 0 <= i < |orders| && Matches(orders[i], term) ==> orders[i] in r.value
    ensures r.Returns? ==> Seqs.IsSubsequence(r.value, orders)
    ensures r.Returns? ==> forall o :: Seqs.Count(r.value, o) == if Matches(o, term) then Seqs.Count(orders, o) else 0
  {
    if forall i :: 0 <= i < |orders| ==> Test(orders[i], term).Returns? then
      Seqs.FilterIsSubsequence(orders, (o: Order) => Matches(o, term));
      Seqs.FilterCounts(orders, (o: Order) => Matches(o, term));
      Returns(Seqs.Filter(orders, (o: Order) => Matches(o, term)))
    else
      TypeError
  }

  /** A callback that returns, returns whether the order matches. */
  lemma TestMeaning(o: Order, term: string)
    ensures Test(o, term).Returns? <==> Searchable(o, term)
    ensures Test(o, term).Returns? ==> Test(o, term).value == Matches(o, term)
  {
  }

  /** An empty search term lists every order. */
  lemma EmptySearchKeepsAll(orders: seq<Order>)
    ensures Filtered(orders, "") == Returns(orders)
  {
    forall i | 0 <= i < |orders| ensures Matches(orders[i], "") {
      IncludesEmpty(ToLower(orders[i].id));
    }
    Seqs.FilterKeepsAll(orders, (o: Order) => Matches(o, ""));
  }

  /** The four statuses the badge knows; 'completed' is not one of the order statuses. */
  const BadgeStatuses: set<string> := {"pending", "processing", "completed", "cancelled"}

  const Gray := "bg-gray-100 text-gray-800"

  /** `getStatusColor(status)`. */
  function StatusColor(status: string): (c: string)
    ensures status == "pending" ==> c == "bg-yellow-100 text-yellow-800"
    ensures status == "processing" ==> c == "bg-blue-100 text-blue-800"
    ensures status == "completed" ==> c == "bg-green-100 text-green-800"
    ensures status == "cancelled" ==> c == "bg-red-100 text-red-800"
    ensures c == Gray <==> status !in BadgeStatuses
  {
    if status == "pending" then "bg-yellow-100 text-yellow-800"
    else if status == "processing" then "bg-blue-100 text-blue-800"
    else if status == "completed" then "bg-green-100 text-green-800"
    else if status == "cancelled" then "bg-red-100 text-red-800"
    else Gray
  }

  datatype Icon = Clock | Truck | CheckCircle | XCircle

  /** `getStatusIcon(status)`: `null` (None) for any other status. */
  function StatusIcon(status: string): (icon: Option<Icon>)
    ensures status == "pending" ==> icon == Some(Clock)
    ensures status == "processing" ==> icon == Some(Truck)
    ensures status == "completed" ==> icon == Some(CheckCircle)
    ensures status == "cancelled" ==> icon == Some(XCircle)
    ensures icon.None? <==> status !in BadgeStatuses
  {
    if status == "pending" then Some(Clock)
    else if status == "processing" then Some(Truck)
    else if status == "completed" then Some(CheckCircle)
    else if status == "cancelled" then Some(XCircle)
    else None
  }

  /** The badge text: `status.charAt(0).toUpperCase() + status.slice(1)`. */
  function StatusLabel(status: string): (text: string)
    ensures |text| == |status|
    ensures |status| > 0 ==> text[0] == UpperChar(status[0]) && text[1..] == status[1..]
    ensures ToLower(text) == ToLower(status)
  {
    var text := Capitalize(status);
    assert forall i :: 0 <= i < |status| ==> LowerChar(text[i]) == LowerChar(status[i]) by {
      forall i | 0 <= i < |status| ensures LowerChar(text[i]) == LowerChar(status[i]) {
        if i > 0 {
          assert text[i] == text[1..][i - 1];
        }
      }
    }
    text
  }

  /**
   * The icon and the colour agree on which statuses they know, and three of
   * the order statuses ('shipped', 'delivered', 'refunded') get the gray
   * badge and no icon.
   */
  lemma BadgeCoverage(status: string)
    ensures StatusIcon(status).Some? <==> StatusColor(status) != Gray
    ensures status in {OrderRules.Shipped, OrderRules.Delivered, OrderRules.Refunded} ==>
              StatusColor(status) == Gray && StatusIcon(status).None?
    ensures "completed" !in OrderRules.OrderStatuses
  {
  }

  /** The label of a lower-case status is the status with a capital first letter. */
  lemma LabelExample()
    ensures StatusLabel("pending") == "Pending"
  {
  }
}
