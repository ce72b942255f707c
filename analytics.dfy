/** The figures of the analytics screen (src/components/dashboard/Analytics.tsx):
    revenue of a reservation list, the per-status breakdown, per-service
    bookings and revenue ordered by bookings, the number of distinct
    customers and the growth rate with its zero-base cases. The month
    windows are given as the already selected reservation lists. */
module Analytics {
  import opened Common
  import opened Schema

  // ---------------------------------------------------------------------
  // Revenue
  // ---------------------------------------------------------------------

  /** `reduce((sum, r) => sum + (service?.price || 0), acc)`: a left fold
      over the list. */
  function SumPrices(xs: seq<Reservation>, services: seq<Service>, acc: int): int
    decreases |xs|
  {
    if xs == [] then acc else SumPrices(xs[1..], services, acc + PriceOf(services, xs[0].serviceId))
  }

  /** `calculateRevenue`: the prices of the confirmed or completed
      reservations, an unknown service counting 0. */
  function CalculateRevenue(rs: seq<Reservation>, services: seq<Service>): int {
    SumPrices(Filter(rs, IsPaid), services, 0)
  }

  /** What revenue means: each reservation adds its service's price when
      it is paid and nothing otherwise (summed from the back, so that
      appending a reservation adds exactly its share). */
  function PaidTotal(rs: seq<Reservation>, services: seq<Service>): int {
    if rs == [] then 0
    else PaidTotal(rs[..|rs| - 1], services) + Share(rs[|rs| - 1], services)
  }

  /** One reservation's share of the revenue. */
  function Share(r: Reservation, services: seq<Service>): int {
    if IsPaid(r) then PriceOf(services, r.serviceId) else 0
  }

  lemma {:induction false} SumPricesConcat(a: seq<Reservation>, b: seq<Reservation>, services: seq<Service>, acc: int)
    ensures SumPrices(a + b, services, acc) == SumPrices(b, services, SumPrices(a, services, acc))
    decreases |a|
  {
    if a != [] {
      assert (a + b)[1..] == a[1..] + b;
      SumPricesConcat(a[1..], b, services, acc + PriceOf(services, a[0].serviceId));
    } else {
      assert a + b == b;
    }
  }

  /** The fold of `calculateRevenue` computes the paid total. */
  lemma {:induction false} RevenueIsPaidTotal(rs: seq<Reservation>, services: seq<Service>)
    ensures CalculateRevenue(rs, services) == PaidTotal(rs, services)
    decreases |rs|
  {
    if rs != [] {
      var init, last := rs[..|rs| - 1], rs[|rs| - 1];
      assert rs == init + [last];
      RevenueIsPaidTotal(init, services);
      FilterConcat(init, [last], IsPaid);
      SumPricesConcat(Filter(init, IsPaid), Filter([last], IsPaid), services, 0);
      assert Filter([last], IsPaid) == (if IsPaid(last) then [last] else []);
    }
  }

  /** Revenue of a joined list is the sum of the revenues. */
  lemma {:induction false} RevenueConcat(a: seq<Reservation>, b: seq<Reservation>, services: seq<Service>)
    ensures CalculateRevenue(a + b, services) == CalculateRevenue(a, services) + CalculateRevenue(b, services)
    decreases |b|
  {
    RevenueIsPaidTotal(a + b, services);
    RevenueIsPaidTotal(a, services);
    RevenueIsPaidTotal(b, services);
    PaidTotalConcat(a, b, services);
  }

  lemma {:induction false} PaidTotalConcat(a: seq<Reservation>, b: seq<Reservation>, services: seq<Service>)
    ensures PaidTotal(a + b, services) == PaidTotal(a, services) + PaidTotal(b, services)
    decreases |b|
  {
    if b == [] {
      assert a + b == a;
    } else {
      assert (a + b)[..|a + b| - 1] == a + b[..|b| - 1];
      PaidTotalConcat(a, b[..|b| - 1], services);
    }
  }

  /** Pending and cancelled reservations never count: with none paid the
      revenue is 0, and with non-negative prices revenue is never negative. */
  lemma {:induction false} RevenueOnlyFromPaid(rs: seq<Reservation>, services: seq<Service>)
    ensures (forall r :: r in rs ==> !IsPaid(r)) ==> CalculateRevenue(rs, services) == 0
    ensures (forall s :: s in services ==> s.price >= 0) ==> CalculateRevenue(rs, services) >= 0
  {
    RevenueIsPaidTotal(rs, services);
    PaidTotalSigns(rs, services);
  }

  lemma {:induction false} PaidTotalSigns(rs: seq<Reservation>, services: seq<Service>)
    ensures (forall r :: r in rs ==> !IsPaid(r)) ==> PaidTotal(rs, services) == 0
    ensures (forall s :: s in services ==> s.price >= 0) ==> PaidTotal(rs, services) >= 0
    decreases |rs|
  {
    if rs != [] {
      var init := rs[..|rs| - 1];
      assert forall r :: r in init ==> r in rs;
      PaidTotalSigns(init, services);
      var f := FindService(services, rs[|rs| - 1].serviceId);
    }
  }

  // ---------------------------------------------------------------------
  // Status breakdown
  // ---------------------------------------------------------------------

  function HasStatus(s: ReservationStatus): Reservation -> bool {
    (r: Reservation) => r.status == s
  }

  /** The number of reservations with status `s`. */
  function StatusCount(rs: seq<Reservation>, s: ReservationStatus): nat {
    Count(rs, HasStatus(s))
  }

  /** `statusBreakdown`: the reduce fills a dictionary keyed by status, one
      increment per reservation. A status is a key exactly when some
      reservation has it, and its value is that status's count. */
  method StatusBreakdown(rs: seq<Reservation>) returns (acc: map<ReservationStatus, nat>)
    ensures forall s :: s in acc <==> StatusCount(rs, s) > 0
    ensures forall s :: s in acc ==> acc[s] == StatusCount(rs, s)
  {
    acc := map[];
    for i := 0 to |rs|
      invariant Tallies(acc, rs[..i])
    {
      var r := rs[i];
      assert rs[..i + 1] == rs[..i] + [r];
      TallyStep(acc, rs[..i], r);
      var previous := if r.status in acc then acc[r.status] else 0;
      acc := acc[r.status := previous + 1];
    }
    assert rs[..|rs|] == rs;
  }

  /** `acc` holds the status counts of `xs`, with no key for an absent
      status. */
  predicate Tallies(acc: map<ReservationStatus, nat>, xs: seq<Reservation>) {
    && (forall s :: s in acc <==> StatusCount(xs, s) > 0)
    && (forall s :: s in acc ==> acc[s] == StatusCount(xs, s))
  }

  lemma TallyStep(acc: map<ReservationStatus, nat>, xs: seq<Reservation>, r: Reservation)
    requires Tallies(acc, xs)
    ensures Tallies(acc[r.status := (if r.status in acc then acc[r.status] else 0) + 1], xs + [r])
  {
    var next := acc[r.status := (if r.status in acc then acc[r.status] else 0) + 1];
    var ys := xs + [r];
    forall s
      ensures (s in next <==> StatusCount(ys, s) > 0) && (s in next ==> next[s] == StatusCount(ys, s))
    {
      TallyAt(acc, xs, r, s);
    }
  }

  lemma TallyAt(acc: map<ReservationStatus, nat>, xs: seq<Reservation>, r: Reservation, s: ReservationStatus)
    requires Tallies(acc, xs)
    ensures var next := acc[r.status := (if r.status in acc then acc[r.status] else 0) + 1];
            (s in next <==> StatusCount(xs + [r], s) > 0) && (s in next ==> next[s] == StatusCount(xs + [r], s))
  {
    CountStep(xs, r, s);
    var before := StatusCount(xs, s);
    assert s in acc <==> before > 0;
    assert s in acc ==> acc[s] == before;
  }

  lemma CountStep(xs: seq<Reservation>, r: Reservation, s: ReservationStatus)
    ensures StatusCount(xs + [r], s) == StatusCount(xs, s) + (if r.status == s then 1 else 0)
  {
    FilterConcat(xs, [r], HasStatus(s));
    assert Filter([r], HasStatus(s)) == (if r.status == s then [r] else []);
  }

  /** Every reservation has exactly one status, so the four counts add up
      to the number of reservations. */
  lemma {:induction false} BreakdownTotal(rs: seq<Reservation>)
    ensures StatusCount(rs, Pending) + StatusCount(rs, Confirmed)
          + StatusCount(rs, Cancelled) + StatusCount(rs, Completed) == |rs|
  {
    if rs != [] {
      BreakdownTotal(rs[1..]);
      assert rs == [rs[0]] + rs[1..];
    }
  }

  // ---------------------------------------------------------------------
  // Service popularity
  // ---------------------------------------------------------------------

  /** A service with its number of bookings and its revenue. */
  datatype ServiceStat = ServiceStat(service: Service, bookings: nat, revenue: int)

  function ForService(id: string): Reservation -> bool {
    (r: Reservation) => r.serviceId == Some(id)
  }

  /** The reservations of one service (`r.service_id === service.id`). */
  function BookingsOf(rs: seq<Reservation>, id: string): seq<Reservation> {
    Filter(rs, ForService(id))
  }

  /** One service's figures: its reservations, and its paid reservations
      times its price. */
  function StatOf(service: Service, rs: seq<Reservation>): ServiceStat {
    var booked := BookingsOf(rs, service.id);
    ServiceStat(service, |booked|, Count(booked, IsPaid) * service.price)
  }

  function UnsortedStats(services: seq<Service>, rs: seq<Reservation>): (r: seq<ServiceStat>)
    ensures |r| == |services|
  {
    seq(|services|, i requires 0 <= i < |services| => StatOf(services[i], rs))
  }

  /** The comparator `b.bookings - a.bookings`: more bookings first. */
  predicate MoreBookings(a: ServiceStat, b: ServiceStat) {
    a.bookings > b.bookings
  }

  /** `serviceStats`: one entry per service, ordered by bookings. */
  function ServiceStats(services: seq<Service>, rs: seq<Reservation>): seq<ServiceStat> {
    SortBy(UnsortedStats(services, rs), MoreBookings)
  }

  /** Service stats hold one entry per service, each with its own
      bookings and revenue, in descending order of bookings. */
  lemma ServiceStatsOrdered(services: seq<Service>, rs: seq<Reservation>)
    ensures var stats := ServiceStats(services, rs);
            && multiset(stats) == multiset(UnsortedStats(services, rs))
            && |stats| == |services|
            && (forall i, j :: 0 <= i < j < |stats| ==> stats[i].bookings >= stats[j].bookings)
            && (forall st :: st in stats ==>
                  st.service in services && st.bookings == |BookingsOf(rs, st.service.id)|)
  {
    var unsorted := UnsortedStats(services, rs);
    SortBySorted(unsorted, MoreBookings);
    var stats := ServiceStats(services, rs);
    assert |stats| == |multiset(stats)| == |multiset(unsorted)| == |unsorted|;
    forall st | st in stats
      ensures st.service in services && st.bookings == |BookingsOf(rs, st.service.id)|
    {
      assert st in multiset(unsorted);
    }
  }

  /** A service's stat revenue is the revenue of its own reservations, as
      long as it is the service its id resolves to. */
  lemma ServiceRevenueAgrees(service: Service, services: seq<Service>, rs: seq<Reservation>)
    requires FindService(services, Some(service.id)) == Some(service)
    ensures StatOf(service, rs).revenue == CalculateRevenue(BookingsOf(rs, service.id), services)
  {
    var booked := BookingsOf(rs, service.id);
    RevenueIsPaidTotal(booked, services);
    UniformPaidTotal(booked, services, service);
  }

  lemma {:induction false} UniformPaidTotal(xs: seq<Reservation>, services: seq<Service>, service: Service)
    requires FindService(services, Some(service.id)) == Some(service)
    requires forall i :: 0 <= i < |xs| ==> ForService(service.id)(xs[i])
    ensures PaidTotal(xs, services) == Count(xs, IsPaid) * service.price
    decreases |xs|
  {
    if xs != [] {
      var init, last := xs[..|xs| - 1], xs[|xs| - 1];
      assert xs == init + [last];
      UniformPaidTotal(init, services, service);
      assert last.serviceId == Some(service.id);
      assert Share(last, services) == (if IsPaid(last) then service.price else 0);
      FilterConcat(init, [last], IsPaid);
      assert Filter([last], IsPaid) == (if IsPaid(last) then [last] else []);
      var c := Count(init, IsPaid);
      assert Count(xs, IsPaid) == c + (if IsPaid(last) then 1 else 0);
      MulSucc(c, service.price);
    }
  }

  lemma MulSucc(c: int, p: int)
    ensures (c + 1) * p == c * p + p
  {
  }

  // ---------------------------------------------------------------------
  // Customers and growth
  // ---------------------------------------------------------------------

  /** The distinct customer keys of a list. */
  function KeySet(rs: seq<Reservation>): set<string> {
    set r | r in rs :: CustomerKey(r)
  }

  /** `totalCustomers`: the size of the set of customer keys. */
  function TotalCustomers(rs: seq<Reservation>): nat {
    |KeySet(rs)|
  }

  /** There are never more customers than reservations, and at least one
      when there is a reservation. */
  lemma {:induction false} TotalCustomersBounds(rs: seq<Reservation>)
    ensures TotalCustomers(rs) <= |rs|
    ensures rs != [] ==> TotalCustomers(rs) >= 1
    decreases |rs|
  {
    if rs != [] {
      var init := rs[..|rs| - 1];
      assert rs == init + [rs[|rs| - 1]];
      assert KeySet(rs) == KeySet(init) + {CustomerKey(rs[|rs| - 1])};
      TotalCustomersBounds(init);
    }
  }

  /** The growth rate in percent, on exact numbers: the relative change
      when the base is positive, otherwise 100 for any positive current
      value and 0 for none. */
  function Growth(current: int, previous: int): real {
    if previous > 0 then ((current - previous) as real / previous as real) * 100.0
    else if current > 0 then 100.0
    else 0.0
  }

  /** For non-negative figures, growth is positive exactly when the figure
      rose, zero exactly when it stayed, and negative exactly when it fell. */
  lemma GrowthSign(current: int, previous: int)
    requires current >= 0 && previous >= 0
    ensures Growth(current, previous) > 0.0 <==> current > previous
    ensures Growth(current, previous) == 0.0 <==> current == previous
    ensures Growth(current, previous) < 0.0 <==> current < previous
  {
    if previous > 0 {
      var q := (current - previous) as real / previous as real;
      assert q * previous as real == (current - previous) as real;
    }
  }

  /** From a zero base any positive figure is a 100 % rise. */
  lemma ZeroBaseGrowth(current: int)
    ensures current > 0 ==> Growth(current, 0) == 100.0
    ensures current <= 0 ==> Growth(current, 0) == 0.0
  {
  }
}
