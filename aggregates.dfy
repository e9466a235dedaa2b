/**
 * The read-only statistics of the store: the per-user analytics summary
 * (getAnalytics) and the administrator's rollup (getAdminStats).
 */
module Aggregates {
  import opened Types
  import opened Records
  import opened Listing

  /** One entry of `linkStats`. */
  datatype LinkStat = LinkStat(linkId: int, title: string, clicks: int, url: string)

  /**
   * One entry of `clicksOverTime`. The calendar date is derived from the
   * clock; the model keeps how many days before today it is.
   */
  datatype DailyClicks = DailyClicks(daysAgo: int, clicks: int)

  /**
   * A uniform draw `random` in [0, 1) scaled to fifty values, rounded down and
   * shifted by ten: a daily value between 10 and 59.
   */
  function MockDailyClicks(random: real): (c: int)
    requires 0.0 <= random < 1.0
    ensures 10 <= c <= 59
  {
    (random * 50.0).Floor + 10
  }

  /**
   * The synthetic series of getAnalytics: for i from 6 down to 0, the day i
   * days before today with a fresh draw of `MockDailyClicks`, so seven days,
   * oldest first. The random source is a nondeterministic `random`.
   */
  method MockClicksOverTime() returns (series: seq<DailyClicks>)
    ensures |series| == 7
    ensures forall j :: 0 <= j < |series| ==> series[j].daysAgo == 6 - j && 10 <= series[j].clicks <= 59
  {
    series := [];
    var i := 6;
    while i >= 0
      invariant -1 <= i <= 6
      invariant |series| == 6 - i
      invariant forall j :: 0 <= j < |series| ==> series[j].daysAgo == 6 - j && 10 <= series[j].clicks <= 59
    {
      var random: real :| 0.0 <= random < 1.0;
      series := series + [DailyClicks(i, MockDailyClicks(random))];
      i := i - 1;
    }
  }

  /** The summary getAnalytics returns. */
  datatype Analytics = Analytics(
    totalClicks: int,
    totalLinks: int,
    linkStats: seq<LinkStat>,
    clicksOverTime: seq<DailyClicks>)

  /** One entry per link of the listing, in its order: id, title, click counter and url. */
  function LinkStats(ls: seq<Link>): (r: seq<LinkStat>)
    ensures |r| == |ls|
    ensures forall j :: 0 <= j < |ls| ==>
              r[j].linkId == ls[j].id && r[j].title == ls[j].title &&
              r[j].clicks == ls[j].clickCount && r[j].url == ls[j].url
  {
    seq(|ls|, j requires 0 <= j < |ls| => LinkStat(ls[j].id, ls[j].title, ls[j].clickCount, ls[j].url))
  }

  function StatClicks(st: seq<LinkStat>): int {
    if st == [] then 0 else st[0].clicks + StatClicks(st[1..])
  }

  /** The per-link entries add up to the listing's click total. */
  lemma {:induction false} LinkStatsAddUp(ls: seq<Link>)
    ensures StatClicks(LinkStats(ls)) == TotalClicks(ls)
  {
    if ls != [] {
      LinkStatsAddUp(ls[1..]);
      assert LinkStats(ls)[1..] == LinkStats(ls[1..]);
    }
  }

  /** A user record together with the two numbers the rollup adds to it. */
  datatype UserStats = UserStats(user: User, linkCount: int, totalClicks: int)

  /** The rollup getAdminStats returns. */
  datatype AdminStats = AdminStats(
    totalUsers: int,
    totalLinks: int,
    totalClicks: int,
    users: seq<UserStats>)

  /** The per-user breakdown, re-scanning the whole link collection for each user. */
  function UserBreakdown(us: seq<User>, ls: seq<Link>): (r: seq<UserStats>)
    ensures |r| == |us|
  {
    if us == [] then []
    else
      [UserStats(us[0], |OwnedBy(ls, us[0].id)|, TotalClicks(OwnedBy(ls, us[0].id)))]
      + UserBreakdown(us[1..], ls)
  }

  /** getAdminStats over the two collections. */
  function AdminStatsOf(us: seq<User>, ls: seq<Link>): (r: AdminStats)
    ensures r.totalUsers == |us| && r.totalLinks == |ls| && |r.users| == |us|
    ensures r.totalClicks == TotalClicks(ls)
  {
    AdminStats(|us|, |ls|, TotalClicks(ls), UserBreakdown(us, ls))
  }

  /**
   * The i-th entry of the rollup is the i-th user, with the number of links
   * and the click total that user's own listing (and analytics) shows.
   */
  lemma {:induction false} BreakdownMatchesListing(us: seq<User>, ls: seq<Link>, i: nat)
    requires i < |us|
    ensures var e := AdminStatsOf(us, ls).users[i];
            e.user == us[i] &&
            e.linkCount == |LinksOf(ls, us[i].id)| &&
            e.totalClicks == TotalClicks(LinksOf(ls, us[i].id))
  {
    if i > 0 {
      BreakdownMatchesListing(us[1..], ls, i - 1);
    }
    ListingClicks(ls, us[i].id);
  }

  function SumLinkCounts(st: seq<UserStats>): int {
    if st == [] then 0 else st[0].linkCount + SumLinkCounts(st[1..])
  }

  function SumUserClicks(st: seq<UserStats>): int {
    if st == [] then 0 else st[0].totalClicks + SumUserClicks(st[1..])
  }

  /** `c` for every user whose id is `x`. */
  function Hits(us: seq<User>, x: int, c: int): int {
    if us == [] then 0 else (if us[0].id == x then c else 0) + Hits(us[1..], x, c)
  }

  predicate HasUser(us: seq<User>, x: int) {
    exists i :: 0 <= i < |us| && us[i].id == x
  }

  lemma {:induction false} HitsOnce(us: seq<User>, x: int, c: int)
    requires DistinctUserIds(us)
    ensures Hits(us, x, c) == if HasUser(us, x) then c else 0
  {
    if us != [] {
      HitsOnce(us[1..], x, c);
      if us[0].id != x && HasUser(us, x) {
        var i :| 0 <= i < |us| && us[i].id == x;
        assert us[1..][i - 1].id == x;
      }
    }
  }

  /** One more link in front adds, to every user it belongs to, one link and its clicks. */
  lemma {:induction false} BreakdownCons(us: seq<User>, l: Link, rest: seq<Link>)
    ensures SumLinkCounts(UserBreakdown(us, [l] + rest)) == SumLinkCounts(UserBreakdown(us, rest)) + Hits(us, l.userId, 1)
    ensures SumUserClicks(UserBreakdown(us, [l] + rest)) == SumUserClicks(UserBreakdown(us, rest)) + Hits(us, l.userId, l.clickCount)
  {
    if us != [] {
      BreakdownCons(us[1..], l, rest);
      assert ([l] + rest)[1..] == rest;
      var mine := OwnedBy([l] + rest, us[0].id);
      if l.userId == us[0].id {
        assert mine == [l] + OwnedBy(rest, us[0].id);
        assert mine[1..] == OwnedBy(rest, us[0].id);
      } else {
        assert mine == OwnedBy(rest, us[0].id);
      }
    }
  }

  /**
   * When every link belongs to a user and user ids are distinct, the
   * per-user link counts add up to totalLinks and the per-user click totals
   * add up to totalClicks.
   */
  lemma {:induction false} AdminPartition(us: seq<User>, ls: seq<Link>)
    requires DistinctUserIds(us)
    requires forall k :: 0 <= k < |ls| ==> HasUser(us, ls[k].userId)
    ensures var r := AdminStatsOf(us, ls);
            SumLinkCounts(r.users) == r.totalLinks && SumUserClicks(r.users) == r.totalClicks
  {
    if ls == [] {
      EmptyBreakdown(us);
    } else {
      AdminPartition(us, ls[1..]);
      assert [ls[0]] + ls[1..] == ls;
      BreakdownCons(us, ls[0], ls[1..]);
      HitsOnce(us, ls[0].userId, 1);
      HitsOnce(us, ls[0].userId, ls[0].clickCount);
    }
  }

  lemma {:induction false} EmptyBreakdown(us: seq<User>)
    ensures SumLinkCounts(UserBreakdown(us, [])) == 0 && SumUserClicks(UserBreakdown(us, [])) == 0
  {
    if us != [] {
      EmptyBreakdown(us[1..]);
    }
  }
}
