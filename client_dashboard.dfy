/** The order list of frontend/src/pages/ClientDashboard.jsx: the orders the
    API returned, filtered in the browser by owner and by status. */
module ClientDashboard {
  import opened Common
  import opened Users
  import opened AuthController
  import OrderModel
  import opened OrderController

  /** The status selector: `todos`, or one status. */
  datatype StatusFilter = Todos | Only(status: OrderModel.Status)

  /** `r` is `s` with some elements left out, the rest in their order. */
  ghost predicate IsSubsequence<T>(r: seq<T>, s: seq<T>)
    decreases |s|
  {
    r == [] || (s != [] && ((r[0] == s[0] && IsSubsequence(r[1..], s[1..])) || IsSubsequence(r, s[1..])))
  }

  /** `s.filter(p)`: the elements that satisfy `p`, in their order. */
  function Filter<T>(s: seq<T>, p: T -> bool): (r: seq<T>)
    ensures IsSubsequence(r, s)
    ensures forall i :: 0 <= i < |r| ==> p(r[i])
  {
    if s == [] then []
    else if p(s[0]) then [s[0]] + Filter(s[1..], p)
    else Filter(s[1..], p)
  }

  /** An element is kept exactly when it is in `s` and satisfies `p`: none
      other, and none dropped. */
  lemma {:induction false} FilterMembers<T>(s: seq<T>, p: T -> bool)
    ensures forall x :: x in Filter(s, p) <==> x in s && p(x)
  {
    if s != [] {
      FilterMembers(s[1..], p);
      assert s == [s[0]] + s[1..];
    }
  }

  /** Filtering by `p` and then by `q` is filtering once by a condition that
      means both. */
  lemma {:induction false} FilterTwice<T>(s: seq<T>, p: T -> bool, q: T -> bool, pq: T -> bool)
    requires forall i :: 0 <= i < |s| ==> pq(s[i]) == (p(s[i]) && q(s[i]))
    ensures Filter(Filter(s, p), q) == Filter(s, pq)
  {
    if s != [] {
      FilterTwice(s[1..], p, q, pq);
      if p(s[0]) {
        assert Filter(s, p)[1..] == Filter(s[1..], p);
      }
    }
  }

  /** Filtering by a condition every element meets keeps everything. */
  lemma {:induction false} FilterAll<T>(s: seq<T>, p: T -> bool)
    requires forall i :: 0 <= i < |s| ==> p(s[i])
    ensures Filter(s, p) == s
  {
    if s != [] {
      FilterAll(s[1..], p);
    }
  }

  /** `order.client?._id === user.id`: an order whose client was deleted
      belongs to nobody. */
  predicate OwnedBy(o: PopulatedOrder, uid: Id) {
    o.client.Some? && o.client.value.id == uid
  }

  predicate HasStatus(o: PopulatedOrder, f: StatusFilter) {
    f.Todos? || o.status == OrderModel.StatusName(f.status)
  }

  /** Whether a client-role user is signed in; only then is there an
      ownership filter. */
  predicate IsClient(user: Option<UserSummary>) {
    user.Some? && user.value.role == ClientRole
  }

  /** Whether an order passes every filter that applies. */
  predicate Shown(o: PopulatedOrder, user: Option<UserSummary>, f: StatusFilter) {
    (IsClient(user) ==> OwnedBy(o, user.value.id)) && HasStatus(o, f)
  }

  /** `filteredOrders`. */
  function FilteredOrders(orders: seq<PopulatedOrder>, user: Option<UserSummary>, f: StatusFilter): seq<PopulatedOrder> {
    var data := if IsClient(user) then Filter(orders, (o: PopulatedOrder) => OwnedBy(o, user.value.id)) else orders;
    if f.Todos? then data else Filter(data, (o: PopulatedOrder) => HasStatus(o, f))
  }

  /** The filters keep exactly the orders that pass them all, in their
      original order and with their original multiplicity. */
  lemma FilteredIsFilter(orders: seq<PopulatedOrder>, user: Option<UserSummary>, f: StatusFilter)
    ensures FilteredOrders(orders, user, f) == Filter(orders, (o: PopulatedOrder) => Shown(o, user, f))
  {
    var shown := (o: PopulatedOrder) => Shown(o, user, f);
    var st := (o: PopulatedOrder) => HasStatus(o, f);
    var data := FilteredOrders(orders, user, f);
    if IsClient(user) {
      var own := (o: PopulatedOrder) => OwnedBy(o, user.value.id);
      var both := (o: PopulatedOrder) => own(o) && st(o);
      if f.Todos? {
        assert data == Filter(orders, own);
        FilterSame(orders, own, shown);
      } else {
        assert data == Filter(Filter(orders, own), st);
        FilterTwice(orders, own, st, shown);
      }
    } else if f.Todos? {
      assert data == orders;
      FilterAll(orders, shown);
    } else {
      assert data == Filter(orders, st);
      FilterSame(orders, st, shown);
    }
  }

  /** Two conditions that agree on every element filter alike. */
  lemma {:induction false} FilterSame<T>(s: seq<T>, p: T -> bool, q: T -> bool)
    requires forall i :: 0 <= i < |s| ==> p(s[i]) == q(s[i])
    ensures Filter(s, p) == Filter(s, q)
  {
    if s != [] {
      FilterSame(s[1..], p, q);
    }
  }

  /** What the page shows: a subsequence of the loaded orders; for a client
      only their own orders; with `todos` no status filter, otherwise only
      that status; and every order that passes is shown. */
  lemma FilteredOrdersSpec(orders: seq<PopulatedOrder>, user: Option<UserSummary>, f: StatusFilter)
    ensures IsSubsequence(FilteredOrders(orders, user, f), orders)
    ensures forall o :: o in FilteredOrders(orders, user, f) <==> o in orders && Shown(o, user, f)
    ensures IsClient(user) ==>
              forall o :: o in FilteredOrders(orders, user, f) ==> OwnedBy(o, user.value.id)
    ensures f.Only? ==>
              forall o :: o in FilteredOrders(orders, user, f) ==> o.status == OrderModel.StatusName(f.status)
    ensures !IsClient(user) && f.Todos? ==> FilteredOrders(orders, user, f) == orders
  {
    FilteredIsFilter(orders, user, f);
    FilterMembers(orders, (o: PopulatedOrder) => Shown(o, user, f));
  }
}
