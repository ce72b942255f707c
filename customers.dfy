/** The customers screen (src/components/dashboard/CustomerManagement.tsx):
    reservations grouped by customer key (email, else phone, else name)
    into an insertion-ordered map, each customer carrying its reservations,
    the money spent and the last visit; then the search filter, the four
    sort modes and the repeat-customer count. */
module Customers {
  import opened Common
  import opened Schema
  import opened Analytics

  datatype Customer = Customer(
    key: string, name: string, email: Option<string>, phone: Option<string>,
    reservations: seq<Reservation>, totalSpent: int, lastVisit: string)

  // ---------------------------------------------------------------------
  // Grouping
  // ---------------------------------------------------------------------

  /** The entry made for a key's first reservation, before it is counted. */
  function NewCustomer(r: Reservation): Customer {
    Customer(CustomerKey(r), r.customerName, r.customerEmail, r.customerPhone, [], 0, r.date)
  }

  /** Counting one reservation into its customer: it is pushed, the price
      of a known service is added for a confirmed or completed
      reservation, and a later date replaces the last visit. */
  function Absorb(c: Customer, r: Reservation, services: seq<Service>): Customer {
    var service := FindService(services, r.serviceId);
    c.(reservations := c.reservations + [r],
       totalSpent := if service.Some? && IsPaid(r) then c.totalSpent + service.value.price else c.totalSpent,
       lastVisit := if LexLess(c.lastVisit, r.date) then r.date else c.lastVisit)
  }

  /** The position of the customer with that key. */
  function KeyIndex(cs: seq<Customer>, key: string): (r: Option<nat>)
    ensures r.Some? ==> r.value < |cs| && cs[r.value].key == key
    ensures r.None? ==> forall i :: 0 <= i < |cs| ==> cs[i].key != key
  {
    if cs == [] then None
    else if cs[|cs| - 1].key == key then Some(|cs| - 1)
    else KeyIndex(cs[..|cs| - 1], key)
  }

  /** One turn of the `forEach`: an existing customer absorbs the
      reservation, or a new one is added at the end. */
  function AddReservation(cs: seq<Customer>, r: Reservation, services: seq<Service>): seq<Customer> {
    match KeyIndex(cs, CustomerKey(r))
    case Some(i) => cs[i := Absorb(cs[i], r, services)]
    case None => cs + [Absorb(NewCustomer(r), r, services)]
  }

  /** The customers of a reservation list, in the map's insertion order. */
  function Group(rs: seq<Reservation>, services: seq<Service>): seq<Customer>
    decreases |rs|
  {
    if rs == [] then []
    else AddReservation(Group(rs[..|rs| - 1], services), rs[|rs| - 1], services)
  }

  predicate UniqueKeys(cs: seq<Customer>) {
    forall i, j :: 0 <= i < j < |cs| ==> cs[i].key != cs[j].key
  }

  /** `index` maps every customer's key to its position. */
  predicate Indexes(index: map<string, nat>, cs: seq<Customer>) {
    && (forall k :: k in index ==> index[k] < |cs| && cs[index[k]].key == k)
    && (forall i :: 0 <= i < |cs| ==> cs[i].key in index)
  }

  /** The `useMemo` that builds `customerMap`: one pass over the
      reservations, looking each key up in a map from key to position. */
  method GroupCustomers(rs: seq<Reservation>, services: seq<Service>) returns (customers: seq<Customer>)
    ensures customers == Group(rs, services)
  {
    customers := [];
    var index: map<string, nat> := map[];
    for i := 0 to |rs|
      invariant customers == Group(rs[..i], services)
      invariant Indexes(index, customers)
    {
      GroupPrefixStep(rs, i, services);
      GroupUnique(rs[..i], services);
      customers, index := CountReservation(customers, index, rs[i], services);
    }
    assert rs[..|rs|] == rs;
  }

  /** One turn of the `forEach`: look the key up in the map, add a new
      customer at the end when it is missing, then count the reservation
      into the customer found. */
  method CountReservation(cs: seq<Customer>, index: map<string, nat>, r: Reservation, services: seq<Service>)
    returns (customers: seq<Customer>, index': map<string, nat>)
    requires Indexes(index, cs) && UniqueKeys(cs)
    ensures customers == AddReservation(cs, r, services)
    ensures Indexes(index', customers)
  {
    var key := CustomerKey(r);
    customers, index' := cs, index;
    var j: nat;
    if key in index {
      j := index[key];
      KeyAt(cs, key, j);
    } else {
      assert KeyIndex(cs, key).None?;
      j := |cs|;
      IndexesAppend(index, cs, NewCustomer(r));
      index' := index[key := j];
      customers := cs + [NewCustomer(r)];
    }
    var counted := CountInto(customers[j], r, services);
    IndexesUpdate(index', customers, j, counted);
    customers := customers[j := counted];
    if j == |cs| {
      assert customers == cs + [counted];
    }
  }

  /** A new customer at the end gets its position in the index. */
  lemma IndexesAppend(index: map<string, nat>, cs: seq<Customer>, c: Customer)
    requires Indexes(index, cs) && c.key !in index
    ensures Indexes(index[c.key := |cs|], cs + [c])
  {
  }

  /** Replacing a customer by one with the same key keeps the index. */
  lemma IndexesUpdate(index: map<string, nat>, cs: seq<Customer>, j: nat, c: Customer)
    requires Indexes(index, cs) && j < |cs| && c.key == cs[j].key
    ensures Indexes(index, cs[j := c])
  {
  }

  /** One more reservation of the pass is one more turn of the grouping. */
  lemma GroupPrefixStep(rs: seq<Reservation>, i: nat, services: seq<Service>)
    requires i < |rs|
    ensures Group(rs[..i + 1], services) == AddReservation(Group(rs[..i], services), rs[i], services)
  {
    assert rs[..i + 1][..i] == rs[..i];
  }

  /** The body of the `forEach` once the customer is found: push the
      reservation, add the price, move the last visit. */
  method CountInto(c: Customer, r: Reservation, services: seq<Service>) returns (counted: Customer)
    ensures counted == Absorb(c, r, services)
  {
    var service := FindService(services, r.serviceId);
    var spent := c.totalSpent;
    if service.Some? && IsPaid(r) {
      spent := spent + service.value.price;
    }
    var last := c.lastVisit;
    if LexLess(last, r.date) {
      last := r.date;
    }
    counted := c.(reservations := c.reservations + [r], totalSpent := spent, lastVisit := last);
  }

  /** Customers have distinct keys. */
  lemma {:induction false} GroupUnique(rs: seq<Reservation>, services: seq<Service>)
    ensures UniqueKeys(Group(rs, services))
    decreases |rs|
  {
    if rs != [] {
      var init, r := rs[..|rs| - 1], rs[|rs| - 1];
      GroupUnique(init, services);
      var cs := Group(init, services);
      var after := Group(rs, services);
      assert after == AddReservation(cs, r, services);
      match KeyIndex(cs, CustomerKey(r))
      case Some(i) =>
        assert forall m :: 0 <= m < |after| ==> after[m].key == cs[m].key;
      case None =>
        assert forall m :: 0 <= m < |cs| ==> after[m] == cs[m];
        assert after[|cs|].key == CustomerKey(r);
    }
  }

  /** With distinct keys, the position a key is found at is the one
      `KeyIndex` gives. */
  lemma KeyAt(cs: seq<Customer>, key: string, j: nat)
    requires UniqueKeys(cs) && j < |cs| && cs[j].key == key
    ensures KeyIndex(cs, key) == Some(j)
  {
  }

  // ---------------------------------------------------------------------
  // What the grouping computes
  // ---------------------------------------------------------------------

  /** A key has a customer exactly when some reservation has it. */
  lemma {:induction false} GroupKeyIndex(rs: seq<Reservation>, services: seq<Service>)
    ensures forall k :: KeyIndex(Group(rs, services), k).Some? <==> k in KeySet(rs)
    decreases |rs|
  {
    if rs != [] {
      var init, r := rs[..|rs| - 1], rs[|rs| - 1];
      GroupKeyIndex(init, services);
      KeySetLast(rs);
      assert Group(rs, services) == AddReservation(Group(init, services), r, services);
      KeysStep(Group(init, services), r, services);
    }
  }

  /** There are as many customers as distinct keys: the customers screen
      and the analytics screen's `totalCustomers` agree. */
  lemma {:induction false} GroupCount(rs: seq<Reservation>, services: seq<Service>)
    ensures |Group(rs, services)| == TotalCustomers(rs)
    decreases |rs|
  {
    if rs != [] {
      var init, r := rs[..|rs| - 1], rs[|rs| - 1];
      GroupCount(init, services);
      GroupKeyIndex(init, services);
      var cs := Group(init, services);
      var key := CustomerKey(r);
      var added := if key in KeySet(init) then 0 else 1;
      KeySetLast(rs);
      AddToSet(KeySet(init), key);
      assert |KeySet(rs)| == |KeySet(init)| + added;
      assert Group(rs, services) == AddReservation(cs, r, services);
      KeysStep(cs, r, services);
      assert KeyIndex(cs, key).Some? <==> key in KeySet(init);
      assert |Group(rs, services)| == |cs| + added;
    }
  }

  lemma AddToSet(a: set<string>, key: string)
    ensures |a + {key}| == |a| + (if key in a then 0 else 1)
  {
    if key in a {
      assert a + {key} == a;
    }
  }

  /** The keys of a non-empty list are those of all but its last element
      and the last element's key. */
  lemma KeySetLast(rs: seq<Reservation>)
    requires rs != []
    ensures KeySet(rs) == KeySet(rs[..|rs| - 1]) + {CustomerKey(rs[|rs| - 1])}
  {
    assert rs == rs[..|rs| - 1] + [rs[|rs| - 1]];
  }

  /** Adding a reservation adds its key, and one customer exactly when the
      key is new. */
  lemma KeysStep(cs: seq<Customer>, r: Reservation, services: seq<Service>)
    ensures forall k :: KeyIndex(AddReservation(cs, r, services), k).Some? <==> KeyIndex(cs, k).Some? || k == CustomerKey(r)
    ensures |AddReservation(cs, r, services)| == |cs| + (if KeyIndex(cs, CustomerKey(r)).Some? then 0 else 1)
  {
    var key := CustomerKey(r);
    var after := AddReservation(cs, r, services);
    match KeyIndex(cs, key)
    case Some(i) =>
      assert after == cs[i := Absorb(cs[i], r, services)];
      forall k ensures KeyIndex(after, k).Some? <==> KeyIndex(cs, k).Some? || k == key {
        SameKeysIndex(cs, after, k);
      }
    case None =>
      assert after == cs + [Absorb(NewCustomer(r), r, services)];
      forall k ensures KeyIndex(after, k).Some? <==> KeyIndex(cs, k).Some? || k == key {
        assert after[..|after| - 1] == cs;
      }
  }

  /** Two lists with the same keys position them alike. */
  lemma SameKeysIndex(a: seq<Customer>, b: seq<Customer>, k: string)
    requires |a| == |b| && forall i :: 0 <= i < |a| ==> a[i].key == b[i].key
    ensures KeyIndex(a, k).Some? <==> KeyIndex(b, k).Some?
  {
    if KeyIndex(a, k).Some? {
      assert b[KeyIndex(a, k).value].key == k;
    }
    if KeyIndex(b, k).Some? {
      assert a[KeyIndex(b, k).value].key == k;
    }
  }

  function HasKey(key: string): Reservation -> bool {
    (r: Reservation) => CustomerKey(r) == key
  }

  /** A customer's list is exactly the reservations with its key, in
      their order; name, email and phone come from the first of them. */
  predicate ListAt(c: Customer, rs: seq<Reservation>) {
    && c.reservations == Filter(rs, HasKey(c.key))
    && c.reservations != []
    && c.name == c.reservations[0].customerName
    && c.email == c.reservations[0].customerEmail
    && c.phone == c.reservations[0].customerPhone
  }

  predicate AllListed(cs: seq<Customer>, rs: seq<Reservation>) {
    forall i :: 0 <= i < |cs| ==> ListAt(cs[i], rs)
  }

  /** Every customer's list is exactly the reservations with its key, in
      their order, and its name, email and phone are the first one's. */
  lemma {:induction false} GroupLists(rs: seq<Reservation>, services: seq<Service>)
    ensures AllListed(Group(rs, services), rs)
    decreases |rs|
  {
    if rs != [] {
      var init, r := rs[..|rs| - 1], rs[|rs| - 1];
      GroupLists(init, services);
      SplitLast(rs);
      var after := Group(rs, services);
      assert after == AddReservation(Group(init, services), r, services);
      forall i | 0 <= i < |after| ensures ListAt(after[i], rs) {
        ListStep(init, r, services, i);
      }
    }
  }

  lemma ListStep(init: seq<Reservation>, r: Reservation, services: seq<Service>, i: nat)
    requires AllListed(Group(init, services), init)
    requires i < |AddReservation(Group(init, services), r, services)|
    ensures ListAt(AddReservation(Group(init, services), r, services)[i], init + [r])
  {
    var cs := Group(init, services);
    GroupUnique(init, services);
    match KeyIndex(cs, CustomerKey(r))
    case Some(j) =>
      if i == j {
        ListAbsorbs(cs[j], init, r, services);
      } else {
        assert cs[i].key != cs[j].key;
        ListKeeps(cs[i], init, r);
      }
    case None =>
      if i < |cs| {
        ListKeeps(cs[i], init, r);
      } else {
        FilterNone(init, CustomerKey(r), services);
        ListStarts(init, r, services);
      }
  }

  /** A customer of another key keeps its list when a reservation is added. */
  lemma ListKeeps(c: Customer, init: seq<Reservation>, r: Reservation)
    requires ListAt(c, init) && c.key != CustomerKey(r)
    ensures ListAt(c, init + [r])
  {
    FilterConcat(init, [r], HasKey(c.key));
    assert Filter([r], HasKey(c.key)) == [];
  }

  /** The customer of the reservation's key gets it at the end of its list. */
  lemma ListAbsorbs(c: Customer, init: seq<Reservation>, r: Reservation, services: seq<Service>)
    requires ListAt(c, init) && c.key == CustomerKey(r)
    ensures ListAt(Absorb(c, r, services), init + [r])
  {
    FilterConcat(init, [r], HasKey(c.key));
    assert Filter([r], HasKey(c.key)) == [r];
  }

  /** A reservation of a new key starts a customer listing only it. */
  lemma ListStarts(init: seq<Reservation>, r: Reservation, services: seq<Service>)
    requires Filter(init, HasKey(CustomerKey(r))) == []
    ensures ListAt(Absorb(NewCustomer(r), r, services), init + [r])
  {
    FilterConcat(init, [r], HasKey(CustomerKey(r)));
    assert Filter([r], HasKey(CustomerKey(r))) == [r];
  }

  /** A key no customer has occurs in no reservation. */
  lemma FilterNone(rs: seq<Reservation>, key: string, services: seq<Service>)
    requires KeyIndex(Group(rs, services), key).None?
    ensures Filter(rs, HasKey(key)) == []
  {
    GroupKeyIndex(rs, services);
    if Filter(rs, HasKey(key)) != [] {
      var x := Filter(rs, HasKey(key))[0];
      FilterMembers(rs, HasKey(key), x);
    }
  }

  /** The latest of the reservations' dates, in the order `new Date(a) >
      new Date(b)` gives on 'YYYY-MM-DD' text: it is one of the dates and
      no date is later. */
  function LatestDate(xs: seq<Reservation>): (d: string)
    requires xs != []
    ensures exists i :: 0 <= i < |xs| && xs[i].date == d
    ensures forall i :: 0 <= i < |xs| ==> !LexLess(d, xs[i].date)
    decreases |xs|
  {
    if |xs| == 1 then
      LexLessIrreflexive(xs[0].date);
      xs[0].date
    else
      var m := LatestDate(xs[..|xs| - 1]);
      var d := xs[|xs| - 1].date;
      LatestStep(xs, m);
      if LexLess(m, d) then d else m
  }

  lemma LatestStep(xs: seq<Reservation>, m: string)
    requires |xs| > 1
    requires forall i :: 0 <= i < |xs| - 1 ==> !LexLess(m, xs[i].date)
    ensures var d := xs[|xs| - 1].date;
            var n := if LexLess(m, d) then d else m;
            forall i :: 0 <= i < |xs| ==> !LexLess(n, xs[i].date)
  {
    var d := xs[|xs| - 1].date;
    if LexLess(m, d) {
      LexLessAsymmetric(m, d);
      LexLessIrreflexive(d);
      forall i | 0 <= i < |xs| - 1 ensures !LexLess(d, xs[i].date) {
        LexLessNegTransitive(xs[i].date, m, d);
      }
    }
  }

  /** A customer's spending is the revenue of its own reservations, and
      its last visit is their latest date. */
  predicate TotalsAt(c: Customer, services: seq<Service>) {
    && c.reservations != []
    && c.totalSpent == PaidTotal(c.reservations, services)
    && c.lastVisit == LatestDate(c.reservations)
  }

  /** Each customer's spending is the revenue of its own reservations, and
      its last visit is their latest date. */
  lemma {:induction false} GroupTotals(rs: seq<Reservation>, services: seq<Service>)
    ensures forall i :: 0 <= i < |Group(rs, services)| ==> TotalsAt(Group(rs, services)[i], services)
    decreases |rs|
  {
    if rs != [] {
      var init, r := rs[..|rs| - 1], rs[|rs| - 1];
      GroupTotals(init, services);
      TotalsStep(Group(init, services), r, services);
    }
  }

  lemma TotalsStep(cs: seq<Customer>, r: Reservation, services: seq<Service>)
    requires forall i :: 0 <= i < |cs| ==> TotalsAt(cs[i], services)
    ensures forall i :: 0 <= i < |AddReservation(cs, r, services)| ==> TotalsAt(AddReservation(cs, r, services)[i], services)
  {
    var after := AddReservation(cs, r, services);
    match KeyIndex(cs, CustomerKey(r))
    case Some(j) =>
      assert TotalsAt(cs[j], services);
      AbsorbTotals(cs[j], r, services);
      assert after == cs[j := Absorb(cs[j], r, services)];
    case None =>
      var c := NewCustomer(r);
      LexLessIrreflexive(r.date);
      var added := Absorb(c, r, services);
      assert added.reservations == [r];
      assert [r][..0] == [];
      assert PaidTotal([r], services) == PaidTotal([], services) + Share(r, services);
      assert TotalsAt(added, services);
      assert after == cs + [added];
  }

  lemma AbsorbTotals(c: Customer, r: Reservation, services: seq<Service>)
    requires c.reservations != []
    requires c.totalSpent == PaidTotal(c.reservations, services)
    requires c.lastVisit == LatestDate(c.reservations)
    ensures Absorb(c, r, services).totalSpent == PaidTotal(c.reservations + [r], services)
    ensures Absorb(c, r, services).lastVisit == LatestDate(c.reservations + [r])
  {
    var xs := c.reservations + [r];
    assert xs[..|xs| - 1] == c.reservations;
  }

  /** Every reservation lands in some customer's list ... */
  lemma ReservationListed(rs: seq<Reservation>, services: seq<Service>, x: Reservation)
    requires x in rs
    ensures exists i :: 0 <= i < |Group(rs, services)| && x in Group(rs, services)[i].reservations
  {
    var cs := Group(rs, services);
    GroupKeyIndex(rs, services);
    GroupLists(rs, services);
    var key := CustomerKey(x);
    assert key in KeySet(rs);
    var i := KeyIndex(cs, key).value;
    assert ListAt(cs[i], rs);
    FilterMembers(rs, HasKey(key), x);
  }

  /** ... and in no other, so the lists' lengths add up to the number of
      reservations (`GroupPartition`). */
  lemma ReservationListedOnce(rs: seq<Reservation>, services: seq<Service>, x: Reservation, a: nat, b: nat)
    requires a < |Group(rs, services)| && b < |Group(rs, services)|
    requires x in Group(rs, services)[a].reservations && x in Group(rs, services)[b].reservations
    ensures a == b
  {
    var cs := Group(rs, services);
    GroupUnique(rs, services);
    GroupLists(rs, services);
    assert ListAt(cs[a], rs) && ListAt(cs[b], rs);
    FilterMembers(rs, HasKey(cs[a].key), x);
    FilterMembers(rs, HasKey(cs[b].key), x);
  }

  /** The number of reservations over all customers. */
  function Visits(cs: seq<Customer>): nat {
    if cs == [] then 0 else Visits(cs[..|cs| - 1]) + |cs[|cs| - 1].reservations|
  }

  lemma {:induction false} VisitsUpdate(cs: seq<Customer>, i: nat, c: Customer)
    requires i < |cs|
    ensures Visits(cs[i := c]) == Visits(cs) - |cs[i].reservations| + |c.reservations|
    decreases |cs|
  {
    var u := cs[i := c];
    if i < |cs| - 1 {
      assert u[..|u| - 1] == cs[..|cs| - 1][i := c];
      VisitsUpdate(cs[..|cs| - 1], i, c);
    } else {
      assert u[..|u| - 1] == cs[..|cs| - 1];
    }
  }

  lemma {:induction false} GroupPartition(rs: seq<Reservation>, services: seq<Service>)
    ensures Visits(Group(rs, services)) == |rs|
    decreases |rs|
  {
    if rs != [] {
      var init, r := rs[..|rs| - 1], rs[|rs| - 1];
      GroupPartition(init, services);
      var cs := Group(init, services);
      match KeyIndex(cs, CustomerKey(r))
      case Some(j) =>
        VisitsUpdate(cs, j, Absorb(cs[j], r, services));
      case None =>
        var after := cs + [Absorb(NewCustomer(r), r, services)];
        assert after[..|after| - 1] == cs;
    }
  }

  // ---------------------------------------------------------------------
  // Search, sort and the repeat count
  // ---------------------------------------------------------------------

  /** The search predicate: name or email contain the term ignoring case,
      or the phone contains it as typed. */
  predicate Matches(c: Customer, term: string) {
    TextMatches(c, term) || (c.phone.Some? && Contains(c.phone.value, term))
  }

  /** The name and e-mail parts of the search, both lower-cased. */
  predicate TextMatches(c: Customer, term: string) {
    || Contains(Lower(c.name), Lower(term))
    || (c.email.Some? && Contains(Lower(c.email.value), Lower(term)))
  }

  function SearchCustomers(cs: seq<Customer>, term: string): seq<Customer> {
    Filter(cs, (c: Customer) => Matches(c, term))
  }

  /** Search keeps order and keeps exactly the matching customers; an empty
      term keeps everyone. */
  lemma SearchKeeps(cs: seq<Customer>, term: string, c: Customer)
    ensures c in SearchCustomers(cs, term) <==> c in cs && Matches(c, term)
    ensures term == "" ==> SearchCustomers(cs, term) == cs
  {
    FilterMembers(cs, (c: Customer) => Matches(c, term), c);
    if term == "" {
      forall x | x in cs ensures Matches(x, term) {
        ContainsEmpty(Lower(x.name));
      }
      FilterAll(cs, (c: Customer) => Matches(c, term));
    }
  }

  /** The name and e-mail parts of the search do not depend on the case
      of the term; the phone part compares the term as typed, so only a
      customer without a phone is matched the same under every case. */
  lemma SearchIgnoresCase(c: Customer, term: string)
    ensures TextMatches(c, Lower(term)) <==> TextMatches(c, term)
    ensures c.phone.None? ==> (Matches(c, Lower(term)) <==> Matches(c, term))
  {
    LowerIdempotent(term);
  }

  /** The sort select: 'name', 'spent', 'visits', and anything else sorts
      by recent activity. */
  datatype SortMode = ByName | BySpent | ByVisits | ByRecent

  function SortModeOf(value: string): SortMode {
    if value == "name" then ByName
    else if value == "spent" then BySpent
    else if value == "visits" then ByVisits
    else ByRecent
  }

  /** `comparator(a, b) < 0`: `a` sorts before `b`. Names in code-unit
      order, spending and visits descending, last visit latest first. */
  function Before(mode: SortMode): (Customer, Customer) -> bool {
    match mode
    case ByName => (a: Customer, b: Customer) => LexLess(a.name, b.name)
    case BySpent => (a: Customer, b: Customer) => a.totalSpent > b.totalSpent
    case ByVisits => (a: Customer, b: Customer) => |a.reservations| > |b.reservations|
    case ByRecent => (a: Customer, b: Customer) => LexLess(b.lastVisit, a.lastVisit)
  }

  /** `[...filtered].sort(...)`. */
  function SortCustomers(cs: seq<Customer>, mode: SortMode): seq<Customer> {
    SortBy(cs, Before(mode))
  }

  lemma BeforeIsWeakOrder(cs: seq<Customer>, mode: SortMode)
    ensures WeakOrderOn(cs, Before(mode))
  {
    var lt := Before(mode);
    match mode
    case ByName =>
      forall a, b | a in cs && b in cs && lt(a, b) ensures !lt(b, a) {
        LexLessAsymmetric(a.name, b.name);
      }
      forall a, b, c | a in cs && b in cs && c in cs && !lt(b, a) && !lt(c, b) ensures !lt(c, a) {
        LexLessNegTransitive(a.name, b.name, c.name);
      }
    case ByRecent =>
      forall a, b | a in cs && b in cs && lt(a, b) ensures !lt(b, a) {
        LexLessAsymmetric(b.lastVisit, a.lastVisit);
      }
      forall a, b, c | a in cs && b in cs && c in cs && !lt(b, a) && !lt(c, b) ensures !lt(c, a) {
        LexLessNegTransitive(c.lastVisit, b.lastVisit, a.lastVisit);
      }
    case BySpent =>
    case ByVisits =>
  }

  /** The sorted list holds the same customers, ordered as the mode asks. */
  lemma SortCustomersOrdered(cs: seq<Customer>, mode: SortMode)
    ensures var s := SortCustomers(cs, mode);
            && multiset(s) == multiset(cs)
            && (mode == ByName ==> forall i, j :: 0 <= i < j < |s| ==> !LexLess(s[j].name, s[i].name))
            && (mode == BySpent ==> forall i, j :: 0 <= i < j < |s| ==> s[i].totalSpent >= s[j].totalSpent)
            && (mode == ByVisits ==> forall i, j :: 0 <= i < j < |s| ==> |s[i].reservations| >= |s[j].reservations|)
            && (mode == ByRecent ==> forall i, j :: 0 <= i < j < |s| ==> !LexLess(s[i].lastVisit, s[j].lastVisit))
  {
    BeforeIsWeakOrder(cs, mode);
    SortBySorted(cs, Before(mode));
  }

  /** Customers with more than one reservation. */
  function RepeatCustomers(cs: seq<Customer>): seq<Customer> {
    Filter(cs, (c: Customer) => |c.reservations| > 1)
  }

  /** A customer is a repeat customer exactly when at least two
      reservations carry its key. */
  lemma RepeatExactly(rs: seq<Reservation>, services: seq<Service>, c: Customer)
    ensures c in RepeatCustomers(Group(rs, services)) <==>
              c in Group(rs, services) && |Filter(rs, HasKey(c.key))| > 1
  {
    var cs := Group(rs, services);
    FilterMembers(cs, (c: Customer) => |c.reservations| > 1, c);
    GroupLists(rs, services);
  }
}
