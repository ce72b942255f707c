/** The dashboard's first page (src/components/dashboard/Overview.tsx):
    the headline counts, the revenue figure and the short list of
    reservations under "Recent Reservations". */
module Overview {
  import opened Common
  import opened Schema
  import opened Analytics

  /** The four headline figures. */
  datatype Stats = Stats(total: nat, confirmed: nat, pending: nat, revenue: int)

  /** The headline figures over the loaded reservations. The revenue figure
      is the same filter-and-reduce as the analytics page's
      `calculateRevenue`, so it is that function's value. */
  function OverviewStats(rs: seq<Reservation>, services: seq<Service>): (s: Stats)
    ensures s.total == |rs|
    ensures s.confirmed == StatusCount(rs, Confirmed) && s.pending == StatusCount(rs, Pending)
    ensures s.confirmed + s.pending + StatusCount(rs, Cancelled) + StatusCount(rs, Completed) == s.total
    ensures s.confirmed + s.pending <= s.total
    ensures s.revenue == PaidTotal(rs, services)
  {
    BreakdownTotal(rs);
    RevenueIsPaidTotal(rs, services);
    Stats(|rs|, Count(rs, HasStatus(Confirmed)), Count(rs, HasStatus(Pending)), CalculateRevenue(rs, services))
  }

  /** A headline count is zero exactly when no reservation has that status. */
  lemma StatusCountZero(rs: seq<Reservation>, st: ReservationStatus)
    ensures StatusCount(rs, st) == 0 <==> forall r :: r in rs ==> r.status != st
  {
    forall r | r in rs
      ensures r.status == st ==> r in Filter(rs, HasStatus(st))
    {
      FilterMembers(rs, HasStatus(st), r);
    }
    if StatusCount(rs, st) != 0 {
      var f := Filter(rs, HasStatus(st));
      assert f[0] in f;
      FilterMembers(rs, HasStatus(st), f[0]);
    }
  }

  // ---------------------------------------------------------------------
  // The "Recent Reservations" list
  // ---------------------------------------------------------------------

  /** `reservations.slice(0, 4)`: the first four loaded reservations. */
  function Recent(rs: seq<Reservation>): (r: seq<Reservation>)
    ensures |r| <= 4 && (|rs| <= 4 ==> r == rs) && (|rs| >= 4 ==> |r| == 4)
    ensures forall i :: 0 <= i < |r| ==> r[i] == rs[i]
  {
    if |rs| <= 4 then rs else rs[..4]
  }

  /** The order reservations are loaded in: by date, earliest first (the
      query orders by `reservation_date`, then `reservation_time`,
      ascending). */
  predicate FetchedOrder(rs: seq<Reservation>) {
    forall i, j :: 0 <= i < j < |rs| ==> !LexLess(rs[j].date, rs[i].date)
  }

  /** As written, the list shows the earliest four dates: once the loaded
      list holds a reservation dated after the fourth one, the latest
      reservation is not shown. */
  lemma RecentOmitsLatest(rs: seq<Reservation>)
    requires FetchedOrder(rs) && |rs| > 4
    requires LexLess(rs[3].date, rs[|rs| - 1].date)
    ensures rs[|rs| - 1] !in Recent(rs)
  {
    var last := rs[|rs| - 1];
    forall i | 0 <= i < 4
      ensures rs[i] != last
    {
      if i == 3 {
        LexLessIrreflexive(rs[3].date);
      } else {
        assert !LexLess(rs[3].date, rs[i].date);
      }
    }
  }

  /** A later date sorts first. */
  predicate LaterDate(a: Reservation, b: Reservation) {
    LexLess(b.date, a.date)
  }

  lemma LaterDateIsWeakOrder(rs: seq<Reservation>)
    ensures WeakOrderOn(rs, LaterDate)
  {
    forall a, b | a in rs && b in rs && LaterDate(a, b) ensures !LaterDate(b, a) {
      LexLessAsymmetric(b.date, a.date);
    }
    forall a, b, c | a in rs && b in rs && c in rs && !LaterDate(b, a) && !LaterDate(c, b)
      ensures !LaterDate(c, a)
    {
      LexLessNegTransitive(c.date, b.date, a.date);
    }
  }

  /** The list the heading promises: the four latest reservations, latest
      first, whatever order they were loaded in. */
  function LatestFour(rs: seq<Reservation>): (r: seq<Reservation>)
    ensures |r| == if |rs| < 4 then |rs| else 4
    ensures r == SortBy(rs, LaterDate)[..|r|]
  {
    var sorted := SortBy(rs, LaterDate);
    assert |sorted| == |multiset(sorted)| == |multiset(rs)| == |rs|;
    if |sorted| <= 4 then sorted else sorted[..4]
  }

  /** The corrected list shows only loaded reservations, starts with one
      dated no earlier than any loaded reservation, and no reservation
      left out is later than one shown. */
  lemma LatestFourShowsLatest(rs: seq<Reservation>)
    ensures forall x :: x in LatestFour(rs) ==> x in rs
    ensures rs != [] ==> forall y :: y in rs ==> !LexLess(LatestFour(rs)[0].date, y.date)
    ensures var s := SortBy(rs, LaterDate);
            forall i, j :: 0 <= i < |LatestFour(rs)| <= j < |s| ==> !LexLess(s[i].date, s[j].date)
  {
    var s := SortBy(rs, LaterDate);
    LaterDateIsWeakOrder(rs);
    SortBySorted(rs, LaterDate);
    forall x | x in LatestFour(rs) ensures x in rs {
      assert x in s;
      assert x in multiset(s);
    }
    if rs != [] {
      forall y | y in rs ensures !LexLess(s[0].date, y.date) {
        assert y in multiset(s);
        var j :| 0 <= j < |s| && s[j] == y;
        if j == 0 {
          LexLessIrreflexive(y.date);
        }
      }
    }
  }
}
