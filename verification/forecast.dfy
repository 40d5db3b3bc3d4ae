/**
 The daily-forecast reducer of the weather component.

 The provider's forecast feed is a chronological list of 3-hour entries. The
 reducer walks it in order, keeps the first entry seen for each calendar day
 and drops the later ones, then keeps at most the first five days.

 The calendar day of a timestamp is the host's locale/time-zone date string;
 it is abstracted here as an arbitrary function `day` from Unix seconds to a
 key type `K`. Nothing below depends on what that function is.
 */
module DailyForecast {

  /** One raw entry of the forecast feed: Unix seconds, temperature, description, icon. */
  datatype Entry = Entry(dt: int, temp: real, desc: string, icon: string)

  /** How many days the forecast strip shows. */
  const Horizon: nat := 5

  function Min(a: int, b: int): int {
    if a <= b then a else b
  }

  /** The set of calendar days that the entries of `list` fall on. */
  ghost function Days<K>(list: seq<Entry>, day: int -> K): set<K>
  {
    set i | 0 <= i < |list| :: day(list[i].dt)
  }

  /** Position of the first entry of `list` on day `k`, or `|list|` if there is none. */
  function FirstIndex<K(==)>(list: seq<Entry>, day: int -> K, k: K): (i: nat)
    ensures i <= |list|
    ensures i < |list| ==> day(list[i].dt) == k
    ensures forall m :: 0 <= m < i ==> day(list[m].dt) != k
    ensures i < |list| <==> k in Days(list, day)
  {
    if |list| == 0 then 0
    else if day(list[0].dt) == k then 0
    else
      var i := 1 + FirstIndex(list[1..], day, k);
      assert forall m :: 1 <= m < i ==> list[m] == list[1..][m - 1];
      i
  }

  /** True when `list[i]` is the first entry of its day. */
  predicate IsFirstOfDay<K(==)>(list: seq<Entry>, day: int -> K, i: nat)
    requires i < |list|
  {
    FirstIndex(list, day, day(list[i].dt)) == i
  }

  lemma DaysCons<K>(list: seq<Entry>, day: int -> K)
    requires |list| > 0
    ensures Days(list, day) == {day(list[0].dt)} + Days(list[1..], day)
  {
  }

  lemma DaysSnoc<K>(list: seq<Entry>, day: int -> K, i: nat)
    requires i < |list|
    ensures Days(list[..i + 1], day) == Days(list[..i], day) + {day(list[i].dt)}
  {
  }

  lemma FirstIndexTail<K>(list: seq<Entry>, day: int -> K, k: K)
    requires |list| > 0 && day(list[0].dt) != k
    ensures FirstIndex(list, day, k) == 1 + FirstIndex(list[1..], day, k)
  {
  }

  /**
   The seen-set walk of the reducer, before truncation: `seen` holds the days
   already collected. It keeps exactly the days of `list` not yet seen, each
   once.
   */
  function Collect<K(==)>(list: seq<Entry>, day: int -> K, seen: set<K>): (r: seq<Entry>)
    ensures forall j :: 0 <= j < |r| ==> day(r[j].dt) !in seen
    ensures DistinctDays(r, day)
    ensures Days(r, day) == Days(list, day) - seen
  {
    if |list| == 0 then []
    else
      var k := day(list[0].dt);
      DaysCons(list, day);
      if k in seen then Collect(list[1..], day, seen)
      else
        var rest := Collect(list[1..], day, seen + {k});
        var r := [list[0]] + rest;
        assert r[1..] == rest;
        DaysCons(r, day);
        r
  }

  /**
   Every entry the walk keeps is the first entry of its day in `list`, and
   the kept days appear in order of first appearance.
   */
  lemma {:induction false} CollectKeepsFirsts<K>(list: seq<Entry>, day: int -> K, seen: set<K>)
    ensures forall j :: 0 <= j < |Collect(list, day, seen)| ==>
              var e := Collect(list, day, seen)[j];
              FirstIndex(list, day, day(e.dt)) < |list| && list[FirstIndex(list, day, day(e.dt))] == e
    ensures forall i, j :: 0 <= i < j < |Collect(list, day, seen)| ==>
              FirstIndex(list, day, day(Collect(list, day, seen)[i].dt))
                < FirstIndex(list, day, day(Collect(list, day, seen)[j].dt))
    decreases |list|
  {
    if |list| > 0 {
      var k := day(list[0].dt);
      var tail := list[1..];
      if k in seen {
        var r := Collect(tail, day, seen);
        CollectKeepsFirsts(tail, day, seen);
        forall j | 0 <= j < |r|
          ensures FirstIndex(list, day, day(r[j].dt)) == 1 + FirstIndex(tail, day, day(r[j].dt))
        {
          FirstIndexTail(list, day, day(r[j].dt));
        }
        assert forall m :: 0 <= m < |tail| ==> list[m + 1] == tail[m];
      } else {
        var rest := Collect(tail, day, seen + {k});
        CollectKeepsFirsts(tail, day, seen + {k});
        forall j | 0 <= j < |rest|
          ensures FirstIndex(list, day, day(rest[j].dt)) == 1 + FirstIndex(tail, day, day(rest[j].dt))
        {
          FirstIndexTail(list, day, day(rest[j].dt));
        }
        assert forall m :: 0 <= m < |tail| ==> list[m + 1] == tail[m];
        var r := [list[0]] + rest;
        assert forall j :: 1 <= j < |r| ==> r[j] == rest[j - 1];
      }
    }
  }

  /** Pairwise-distinct days. */
  ghost predicate DistinctDays<K>(r: seq<Entry>, day: int -> K)
  {
    forall i, j :: 0 <= i < j < |r| ==> day(r[i].dt) != day(r[j].dt)
  }

  lemma {:induction false} DistinctDaysCount<K>(r: seq<Entry>, day: int -> K)
    requires DistinctDays(r, day)
    ensures |Days(r, day)| == |r|
    decreases |r|
  {
    if |r| > 0 {
      DaysCons(r, day);
      var tail := r[1..];
      assert DistinctDays(tail, day) by {
        forall i, j | 0 <= i < j < |tail|
          ensures day(tail[i].dt) != day(tail[j].dt)
        {
          assert tail[i] == r[i + 1] && tail[j] == r[j + 1];
        }
      }
      DistinctDaysCount(tail, day);
      assert forall j :: 0 <= j < |tail| ==> tail[j] == r[j + 1];
    }
  }

  /**
   The reducer as the component calls it: the seen-set walk from an empty
   set, then the first `Horizon` entries.
   */
  function Daily<K(==)>(list: seq<Entry>, day: int -> K): (r: seq<Entry>)
    ensures |r| <= Horizon
    ensures |r| == Min(|Days(list, day)|, Horizon)
    ensures r <= Collect(list, day, {})
  {
    var all := Collect(list, day, {});
    DistinctDaysCount(all, day);
    all[..Min(|all|, Horizon)]
  }

  /**
   An independent reference for the untruncated walk: keep `list[i]`
   exactly when it is the first entry of its day, for `i` from `from` on.
   It needs no seen-set.
   */
  ghost function FirstsFrom<K>(list: seq<Entry>, day: int -> K, from: nat): seq<Entry>
    requires from <= |list|
    decreases |list| - from
  {
    if from == |list| then []
    else (if IsFirstOfDay(list, day, from) then [list[from]] else []) + FirstsFrom(list, day, from + 1)
  }

  /**
   The seen-set walk on a suffix, with the days of the prefix as the seen
   set, keeps exactly the first-of-day entries of that suffix.
   */
  lemma {:induction false} CollectIsFirsts<K>(list: seq<Entry>, day: int -> K, from: nat)
    requires from <= |list|
    ensures Collect(list[from..], day, Days(list[..from], day)) == FirstsFrom(list, day, from)
    decreases |list| - from
  {
    if from < |list| {
      var k := day(list[from].dt);
      var suffix := list[from..];
      assert suffix[0] == list[from];
      assert suffix[1..] == list[from + 1..];
      DaysSnoc(list, day, from);
      CollectIsFirsts(list, day, from + 1);
      var f := FirstIndex(list, day, k);
      assert f <= from;
      if f < from {
        assert list[..from][f] == list[f];
        assert k in Days(list[..from], day);
        assert Days(list[..from + 1], day) == Days(list[..from], day);
      } else {
        assert forall j :: 0 <= j < from ==> list[..from][j] == list[j];
      }
    } else {
      assert list[from..] == [];
    }
  }

  /** The reducer is the first `Horizon` first-of-day entries of the feed, in feed order. */
  lemma DailyIsFirstsOfDay<K>(list: seq<Entry>, day: int -> K)
    ensures Daily(list, day) <= FirstsFrom(list, day, 0)
    ensures |Daily(list, day)| == Min(|FirstsFrom(list, day, 0)|, Horizon)
  {
    CollectIsFirsts(list, day, 0);
    assert list[0..] == list;
    assert list[..0] == [];
    assert Days(list[..0], day) == {};
  }

  /** `idx` maps each position of `a` to a position of `b` holding the same entry, strictly increasing. */
  ghost predicate Embeds(a: seq<Entry>, b: seq<Entry>, idx: seq<int>)
  {
    && |idx| == |a|
    && (forall j :: 0 <= j < |idx| ==> 0 <= idx[j] < |b| && b[idx[j]] == a[j])
    && (forall i, j :: 0 <= i < j < |idx| ==> idx[i] < idx[j])
  }

  /** `a` is a subsequence of `b`: its entries occur in `b` in the same order. */
  ghost predicate IsSubsequence(a: seq<Entry>, b: seq<Entry>)
  {
    exists idx :: Embeds(a, b, idx)
  }

  /** Every entry the reducer returns is a feed entry, and feed order is kept. */
  lemma DailyIsSubsequence<K>(list: seq<Entry>, day: int -> K)
    ensures IsSubsequence(Daily(list, day), list)
  {
    var r := Daily(list, day);
    var all := Collect(list, day, {});
    CollectKeepsFirsts(list, day, {});
    assert forall j :: 0 <= j < |r| ==> r[j] == all[j];
    var idx := seq(|r|, j requires 0 <= j < |r| => FirstIndex(list, day, day(r[j].dt)));
    assert Embeds(r, list, idx);
  }

  /**
   No two returned entries share a day, each is the first feed entry of its
   day, and no feed entry before it falls on that day.
   */
  lemma DailyFirstOfEachDay<K>(list: seq<Entry>, day: int -> K)
    ensures DistinctDays(Daily(list, day), day)
    ensures forall j :: 0 <= j < |Daily(list, day)| ==>
              exists i :: 0 <= i < |list| && list[i] == Daily(list, day)[j] &&
                forall m :: 0 <= m < i ==> day(list[m].dt) != day(list[i].dt)
  {
    var r := Daily(list, day);
    var all := Collect(list, day, {});
    CollectKeepsFirsts(list, day, {});
    assert forall j :: 0 <= j < |r| ==> r[j] == all[j];
    forall j | 0 <= j < |r|
      ensures exists i :: 0 <= i < |list| && list[i] == r[j] &&
                forall m :: 0 <= m < i ==> day(list[m].dt) != day(list[i].dt)
    {
      var i := FirstIndex(list, day, day(r[j].dt));
      assert list[i] == r[j];
    }
  }

  /**
   Coverage: the reducer returns the earliest-appearing days. Every day of
   the feed that it leaves out first appears after every day it keeps, and
   it leaves a day out only when it has already returned `Horizon` entries.
   */
  lemma DailyKeepsEarliestDays<K>(list: seq<Entry>, day: int -> K)
    ensures forall k :: k in Days(list, day) && k !in Days(Daily(list, day), day) ==>
              |Daily(list, day)| == Horizon &&
              forall j :: 0 <= j < |Daily(list, day)| ==>
                FirstIndex(list, day, day(Daily(list, day)[j].dt)) < FirstIndex(list, day, k)
  {
    var r := Daily(list, day);
    var all := Collect(list, day, {});
    CollectKeepsFirsts(list, day, {});
    assert forall j :: 0 <= j < |r| ==> r[j] == all[j];
    forall k | k in Days(list, day) && k !in Days(r, day)
      ensures |r| == Horizon
      ensures forall j :: 0 <= j < |r| ==> FirstIndex(list, day, day(r[j].dt)) < FirstIndex(list, day, k)
    {
      assert k in Days(all, day);
      var m :| 0 <= m < |all| && day(all[m].dt) == k;
      assert forall j :: 0 <= j < |r| ==> day(r[j].dt) in Days(r, day);
      assert m >= |r|;
    }
  }

  /**
   The component's loop: `forEach` over the feed, pushing an entry when its
   day is not yet in the seen map, then `slice(0, 5)`.
   */
  method GetDailyForecasts<K(==)>(list: seq<Entry>, day: int -> K) returns (r: seq<Entry>)
    ensures r == Daily(list, day)
  {
    var daily: seq<Entry> := [];
    var seen: set<K> := {};
    var i := 0;
    assert list[0..] == list;
    while i < |list|
      invariant 0 <= i <= |list|
      invariant seen == Days(list[..i], day)
      invariant daily + Collect(list[i..], day, seen) == Collect(list, day, {})
    {
      var k := day(list[i].dt);
      var suffix := list[i..];
      assert suffix[0] == list[i] && suffix[1..] == list[i + 1..];
      DaysSnoc(list, day, i);
      if k !in seen {
        daily := daily + [list[i]];
        seen := seen + {k};
      }
      i := i + 1;
    }
    assert list[i..] == [];
    r := daily[..Min(|daily|, Horizon)];
  }

  /**
   Entries at 00:00, 03:00 and 06:00 of one day and at 00:00 of the next
   reduce to the two midnight entries, with UTC days as the calendar.
   */
  lemma FirstOfDayWinsExample()
    ensures
      var d1a := Entry(0, 10.0, "clear sky", "01d");
      var d1b := Entry(10800, 11.0, "few clouds", "02d");
      var d1c := Entry(21600, 12.0, "rain", "10d");
      var d2 := Entry(86400, 9.0, "snow", "13d");
      Daily([d1a, d1b, d1c, d2], (t: int) => t / 86400) == [d1a, d2]
  {
    var d1a := Entry(0, 10.0, "clear sky", "01d");
    var d1b := Entry(10800, 11.0, "few clouds", "02d");
    var d1c := Entry(21600, 12.0, "rain", "10d");
    var d2 := Entry(86400, 9.0, "snow", "13d");
    var day := (t: int) => t / 86400;
    var list := [d1a, d1b, d1c, d2];
    assert day(d1a.dt) == 0 && day(d1b.dt) == 0 && day(d1c.dt) == 0 && day(d2.dt) == 1;
    assert list[1..] == [d1b, d1c, d2];
    assert list[1..][1..] == [d1c, d2];
    assert list[1..][1..][1..] == [d2];
    assert [d2][1..] == [];
    assert Collect([d2], day, {0}) == [d2];
    assert Collect([d1c, d2], day, {0}) == [d2];
    assert Collect([d1b, d1c, d2], day, {0}) == [d2];
    assert {} + {day(d1a.dt)} == {0};
    assert Collect(list, day, {}) == [d1a] + Collect(list[1..], day, {0});
  }
}
