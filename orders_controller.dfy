/**
 * The query rules of the orders API: lookup by id and search by status and
 * date range, over the list the data layer produced.
 */
module OsihApi {
  import opened OsihModel
  import opened Linq
  import opened OsihData

  /** Upper-case mapping used by ordinal case-insensitive comparison (ASCII letters). */
  function ToUpperOrdinal(c: char): char
  {
    if 'a' <= c <= 'z' then (c as int - 32) as char else c
  }

  /**
   * `a.Equals(b, StringComparison.OrdinalIgnoreCase)`: same length and the
   * same character at every position once both are upper-cased.
   */
  function EqualsIgnoreCase(a: string, b: string): (r: bool)
    ensures r <==> |a| == |b| && forall i :: 0 <= i < |a| ==> ToUpperOrdinal(a[i]) == ToUpperOrdinal(b[i])
  {
    if |a| != |b| then false
    else if a == [] then true
    else ToUpperOrdinal(a[0]) == ToUpperOrdinal(b[0]) && EqualsIgnoreCase(a[1..], b[1..])
  }

  /** Case-insensitive equality is an equivalence relation. */
  lemma EqualsIgnoreCaseIsEquivalence(a: string, b: string, c: string)
    ensures EqualsIgnoreCase(a, a)
    ensures EqualsIgnoreCase(a, b) ==> EqualsIgnoreCase(b, a)
    ensures EqualsIgnoreCase(a, b) && EqualsIgnoreCase(b, c) ==> EqualsIgnoreCase(a, c)
  {
  }

  /** No two canonical statuses differ only in letter case. */
  lemma CanonicalStatusesDistinctIgnoringCase(s: string, t: string)
    requires s in CanonicalStatuses && t in CanonicalStatuses
    ensures EqualsIgnoreCase(s, t) <==> s == t
  {
    if EqualsIgnoreCase(s, t) {
      assert |s| == |t| && ToUpperOrdinal(s[0]) == ToUpperOrdinal(t[0]) && ToUpperOrdinal(s[1]) == ToUpperOrdinal(t[1]);
    }
  }

  /** `string.IsNullOrEmpty(s)`. */
  predicate IsNullOrEmpty(s: Option<string>)
  {
    s.None? || s.value == ""
  }

  /** The lifted `OrderDate >= bound`: false when the date is null. */
  predicate AtOrAfter(date: Option<Date>, bound: Date)
  {
    date.Some? && date.value >= bound
  }

  /** The lifted `OrderDate <= bound`: false when the date is null. */
  predicate AtOrBefore(date: Option<Date>, bound: Date)
  {
    date.Some? && date.value <= bound
  }

  /** `OrderDetails`: `Where(o => o.OrderId == orderId).FirstOrDefault()`. */
  function OrderDetails(orders: seq<Order>, orderId: string): Option<Order>
  {
    FirstOrDefault(Where(orders, (o: Order) => o.orderId == Some(orderId)))
  }

  /**
   * The lookup is first-match: null exactly when no order has the id, and
   * otherwise the order at the first index whose id matches.
   */
  lemma OrderDetailsIsFirstMatch(orders: seq<Order>, orderId: string)
    ensures var r := OrderDetails(orders, orderId);
      r.None? <==> forall i :: 0 <= i < |orders| ==> orders[i].orderId != Some(orderId)
    ensures var r := OrderDetails(orders, orderId);
      r.Some? ==>
        exists k :: 0 <= k < |orders| && orders[k] == r.value && orders[k].orderId == Some(orderId) &&
          forall j :: 0 <= j < k ==> orders[j].orderId != Some(orderId)
  {
    var hasId := (o: Order) => o.orderId == Some(orderId);
    if Where(orders, hasId) != [] {
      WhereHead(orders, hasId);
    }
  }

  /**
   * `OrdersStatusSearch`: filter by status (case-insensitively) when one is
   * given, then by the inclusive date range when both bounds are given.
   */
  function OrdersStatusSearch(orders: seq<Order>, status: Option<string>,
                              startDate: Option<Date>, endDate: Option<Date>): (r: seq<Order>)
    ensures |r| <= |orders|
    ensures forall i :: 0 <= i < |r| ==> r[i] in orders && SearchMatches(r[i], status, startDate, endDate)
  {
    var byStatus := if !IsNullOrEmpty(status)
      then Where(orders, (o: Order) => EqualsIgnoreCase(o.status, status.value))
      else orders;
    if startDate.Some? && endDate.Some?
      then Where(byStatus, (o: Order) => AtOrAfter(o.orderDate, startDate.value) && AtOrBefore(o.orderDate, endDate.value))
      else byStatus
  }

  /**
   * The search criteria as one condition on an order: the status matches
   * when one is given, and the order has a date inside [start, end] when both
   * bounds are given.
   */
  predicate SearchMatches(o: Order, status: Option<string>, startDate: Option<Date>, endDate: Option<Date>)
  {
    (status.None? || status.value == "" || EqualsIgnoreCase(o.status, status.value)) &&
    (startDate.None? || endDate.None? ||
      (o.orderDate.Some? && startDate.value <= o.orderDate.value <= endDate.value))
  }

  /** The two filters compose into one filter by the combined condition. */
  lemma SearchIsOneFilter(orders: seq<Order>, status: Option<string>, startDate: Option<Date>, endDate: Option<Date>)
    ensures OrdersStatusSearch(orders, status, startDate, endDate) ==
      Where(orders, (o: Order) => SearchMatches(o, status, startDate, endDate))
  {
    var all := (o: Order) => SearchMatches(o, status, startDate, endDate);
    var dateActive := startDate.Some? && endDate.Some?;
    if !IsNullOrEmpty(status) && dateActive {
      var byStatus := (o: Order) => EqualsIgnoreCase(o.status, status.value);
      var byDate := (o: Order) => AtOrAfter(o.orderDate, startDate.value) && AtOrBefore(o.orderDate, endDate.value);
      WhereWhere(orders, byStatus, byDate, all);
    } else if !IsNullOrEmpty(status) {
      WhereCongruent(orders, (o: Order) => EqualsIgnoreCase(o.status, status.value), all);
    } else if dateActive {
      WhereCongruent(orders, (o: Order) => AtOrAfter(o.orderDate, startDate.value) && AtOrBefore(o.orderDate, endDate.value), all);
    } else {
      WhereKeepsAll(orders, all);
    }
  }

  /**
   * The search result is an order-preserving subsequence of the list holding
   * every matching order exactly as often as the list does, and nothing else.
   */
  lemma SearchResult(orders: seq<Order>, status: Option<string>, startDate: Option<Date>, endDate: Option<Date>)
    ensures var r := OrdersStatusSearch(orders, status, startDate, endDate);
      IsSubsequence(r, orders) &&
      forall o :: multiset(r)[o] == if SearchMatches(o, status, startDate, endDate) then multiset(orders)[o] else 0
  {
    var all := (o: Order) => SearchMatches(o, status, startDate, endDate);
    SearchIsOneFilter(orders, status, startDate, endDate);
    WhereIsSubsequence(orders, all);
    forall o ensures multiset(Where(orders, all))[o] == if all(o) then multiset(orders)[o] else 0 {
      WhereMultiplicity(orders, all, o);
    }
  }

  /** Without a status and without both bounds, the whole list comes back unchanged. */
  lemma SearchWithoutFilters(orders: seq<Order>, status: Option<string>, startDate: Option<Date>, endDate: Option<Date>)
    requires IsNullOrEmpty(status) && (startDate.None? || endDate.None?)
    ensures OrdersStatusSearch(orders, status, startDate, endDate) == orders
  {
    SearchIsOneFilter(orders, status, startDate, endDate);
    WhereKeepsAll(orders, (o: Order) => SearchMatches(o, status, startDate, endDate));
  }

  /** A single bound is ignored: the search is the status-only search. */
  lemma SearchIgnoresSingleBound(orders: seq<Order>, status: Option<string>, startDate: Option<Date>, endDate: Option<Date>)
    requires startDate.None? || endDate.None?
    ensures OrdersStatusSearch(orders, status, startDate, endDate) == OrdersStatusSearch(orders, status, None, None)
  {
  }

  /**
   * With a status given, every returned order's status equals it ignoring
   * case, and every such order of the list is returned.
   */
  lemma SearchByStatus(orders: seq<Order>, status: string, startDate: Option<Date>, endDate: Option<Date>)
    requires status != "" && (startDate.None? || endDate.None?)
    ensures var r := OrdersStatusSearch(orders, Some(status), startDate, endDate);
      (forall i :: 0 <= i < |r| ==> EqualsIgnoreCase(r[i].status, status)) &&
      (forall o :: o in orders && EqualsIgnoreCase(o.status, status) ==> o in r)
  {
  }

  /**
   * With both bounds given, an order is returned exactly when it has a date
   * with start <= date <= end (both ends inclusive) and matches the status
   * filter; orders without a date are never returned.
   */
  lemma SearchByDateRange(orders: seq<Order>, status: Option<string>, startDate: Date, endDate: Date)
    ensures var r := OrdersStatusSearch(orders, status, Some(startDate), Some(endDate));
      (forall i :: 0 <= i < |r| ==> r[i].orderDate.Some? && startDate <= r[i].orderDate.value <= endDate) &&
      (forall o :: o in orders ==> (o in r <==> SearchMatches(o, status, Some(startDate), Some(endDate))))
  {
    var r := OrdersStatusSearch(orders, status, Some(startDate), Some(endDate));
    var all := (o: Order) => SearchMatches(o, status, Some(startDate), Some(endDate));
    SearchIsOneFilter(orders, status, Some(startDate), Some(endDate));
    assert r == Where(orders, all);
  }

  /**
   * A status search never mixes canonical statuses: any two returned orders
   * whose statuses are canonical have the same status.
   */
  lemma SearchByStatusSelectsOneStatus(orders: seq<Order>, status: string, i: nat, j: nat)
    requires status != ""
    requires var r := OrdersStatusSearch(orders, Some(status), None, None);
      i < |r| && j < |r| && r[i].status in CanonicalStatuses && r[j].status in CanonicalStatuses
    ensures var r := OrdersStatusSearch(orders, Some(status), None, None);
      r[i].status == r[j].status
  {
    var r := OrdersStatusSearch(orders, Some(status), None, None);
    EqualsIgnoreCaseIsEquivalence(r[i].status, status, r[j].status);
    EqualsIgnoreCaseIsEquivalence(status, r[j].status, r[i].status);
    CanonicalStatusesDistinctIgnoringCase(r[i].status, r[j].status);
  }
}
