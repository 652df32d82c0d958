/**
 * The seller's analytics page for one product: the favorites per calendar
 * day for the timeline chart, the number of distinct users who favorited the
 * product, and the total. Turning a timestamp into its local date string is
 * an input (`toLocaleDateString` depends on the locale and time zone).
 */
module ProductAnalytics {

  datatype Favorite = Favorite(createdAt: int, userId: int)

  /** The accumulator object of the `reduce`: its keys in insertion order (the
      order `Object.entries` lists non-numeric keys in) and the count per key. */
  datatype Grouped = Grouped(order: seq<string>, counts: map<string, int>)

  /** The date key of every favorite, in list order. */
  function DateKeys(favorites: seq<Favorite>, dateKey: int -> string): (r: seq<string>)
    ensures |r| == |favorites|
    ensures forall i :: 0 <= i < |favorites| ==> r[i] == dateKey(favorites[i].createdAt)
  {
    seq(|favorites|, i requires 0 <= i < |favorites| => dateKey(favorites[i].createdAt))
  }

  /** One step of the `reduce`: `acc[date] = (acc[date] || 0) + 1`. */
  function Step(g: Grouped, d: string): Grouped {
    if d in g.counts then Grouped(g.order, g.counts[d := g.counts[d] + 1])
    else Grouped(g.order + [d], g.counts[d := 1])
  }

  /** The accumulator after folding `keys` in. */
  function Group(keys: seq<string>): Grouped {
    if keys == [] then Grouped([], map[])
    else Step(Group(keys[..|keys| - 1]), keys[|keys| - 1])
  }

  predicate Distinct(s: seq<string>) {
    forall i, j :: 0 <= i < j < |s| ==> s[i] != s[j]
  }

  /** The sum of the counts of `order`. */
  function Sum(order: seq<string>, counts: map<string, int>): int
    requires forall i :: 0 <= i < |order| ==> order[i] in counts
  {
    if order == [] then 0 else Sum(order[..|order| - 1], counts) + counts[order[|order| - 1]]
  }

  /** Counts that agree on `order` give the same sum. */
  lemma {:induction false} SumFrame(order: seq<string>, c1: map<string, int>, c2: map<string, int>)
    requires forall i :: 0 <= i < |order| ==> order[i] in c1 && order[i] in c2 && c1[order[i]] == c2[order[i]]
    ensures Sum(order, c1) == Sum(order, c2)
  {
    if order != [] {
      SumFrame(order[..|order| - 1], c1, c2);
    }
  }

  /** Raising the count of one key that occurs once in `order` raises the sum by one. */
  lemma {:induction false} SumBump(order: seq<string>, counts: map<string, int>, d: string)
    requires forall i :: 0 <= i < |order| ==> order[i] in counts
    requires Distinct(order) && d in order && d in counts
    ensures Sum(order, counts[d := counts[d] + 1]) == Sum(order, counts) + 1
  {
    var c2 := counts[d := counts[d] + 1];
    var init := order[..|order| - 1];
    if order[|order| - 1] == d {
      assert d !in init;
      SumFrame(init, counts, c2);
    } else {
      assert d in init;
      SumBump(init, counts, d);
    }
  }

  /** The order lists each key of the accumulator exactly once. */
  lemma {:induction false} GroupWellFormed(keys: seq<string>)
    ensures var g := Group(keys);
      Distinct(g.order)
      && (forall i :: 0 <= i < |g.order| ==> g.order[i] in g.counts)
      && (forall d :: d in g.counts ==> d in g.order)
  {
    if keys != [] {
      GroupWellFormed(keys[..|keys| - 1]);
    }
  }

  /** The keys are exactly the dates seen, and each count is the number of
      favorites on that date. */
  lemma {:induction false} GroupCounts(keys: seq<string>)
    ensures var g := Group(keys);
      (forall d :: d in g.counts <==> d in keys)
      && (forall d :: d in g.counts ==> g.counts[d] == multiset(keys)[d])
  {
    if keys != [] {
      var init := keys[..|keys| - 1];
      assert keys == init + [keys[|keys| - 1]];
      GroupCounts(init);
    }
  }

  /** Every key in the order has a count. */
  predicate OrderCounted(g: Grouped) {
    forall i :: 0 <= i < |g.order| ==> g.order[i] in g.counts
  }

  /** Appending a key not counted yet, with count one, raises the sum by one. */
  lemma SumAppendNew(order: seq<string>, counts: map<string, int>, d: string)
    requires forall i :: 0 <= i < |order| ==> order[i] in counts
    requires d !in counts
    ensures Sum(order + [d], counts[d := 1]) == Sum(order, counts) + 1
  {
    var c2 := counts[d := 1];
    var o2 := order + [d];
    assert forall i :: 0 <= i < |order| ==> order[i] != d;
    SumFrame(order, counts, c2);
    assert o2[..|o2| - 1] == order;
  }

  /** A step raises the sum of the counts by one. */
  lemma StepSum(g: Grouped, d: string)
    requires OrderCounted(g) && Distinct(g.order)
    requires forall x :: x in g.counts ==> x in g.order
    ensures OrderCounted(Step(g, d))
    ensures Sum(Step(g, d).order, Step(g, d).counts) == Sum(g.order, g.counts) + 1
  {
    if d in g.counts {
      assert Step(g, d) == Grouped(g.order, g.counts[d := g.counts[d] + 1]);
      SumBump(g.order, g.counts, d);
    } else {
      assert Step(g, d) == Grouped(g.order + [d], g.counts[d := 1]);
      SumAppendNew(g.order, g.counts, d);
    }
  }

  /** The counts add up to the number of favorites. */
  lemma {:induction false} GroupSum(keys: seq<string>)
    ensures OrderCounted(Group(keys))
    ensures Sum(Group(keys).order, Group(keys).counts) == |keys|
  {
    if keys != [] {
      var init := keys[..|keys| - 1];
      GroupWellFormed(init);
      GroupSum(init);
      StepSum(Group(init), keys[|keys| - 1]);
    }
  }

  /** The chart's data points: one `{date, favorites}` per date, in first-seen order. */
  function Entries(g: Grouped): (r: seq<(string, int)>)
    requires forall i :: 0 <= i < |g.order| ==> g.order[i] in g.counts
    ensures |r| == |g.order|
  {
    seq(|g.order|, i requires 0 <= i < |g.order| => (g.order[i], g.counts[g.order[i]]))
  }

  /** `getFavoritesByDate`, as a value. */
  function FavoritesByDate(favorites: seq<Favorite>, dateKey: int -> string): seq<(string, int)> {
    var keys := DateKeys(favorites, dateKey);
    GroupWellFormed(keys);
    Entries(Group(keys))
  }

  function EntrySum(entries: seq<(string, int)>): int {
    if entries == [] then 0 else EntrySum(entries[..|entries| - 1]) + entries[|entries| - 1].1
  }

  lemma {:induction false} EntrySumIsSum(g: Grouped, n: nat)
    requires forall i :: 0 <= i < |g.order| ==> g.order[i] in g.counts
    requires n <= |g.order|
    ensures EntrySum(Entries(g)[..n]) == Sum(g.order[..n], g.counts)
  {
    if n > 0 {
      EntrySumIsSum(g, n - 1);
      assert Entries(g)[..n][..n - 1] == Entries(g)[..n - 1];
      assert g.order[..n][..n - 1] == g.order[..n - 1];
    }
  }

  /** Some occurrence of `d` comes before every occurrence of `e`. */
  predicate SeenBefore(keys: seq<string>, d: string, e: string) {
    exists a :: 0 <= a < |keys| && keys[a] == d && e !in keys[..a + 1]
  }

  /** The accumulator lists its keys in the order they are first seen. */
  lemma {:induction false} GroupFirstSeenOrder(keys: seq<string>)
    ensures forall i, j :: 0 <= i < j < |Group(keys).order| ==>
      SeenBefore(keys, Group(keys).order[i], Group(keys).order[j])
  {
    if keys != [] {
      var init := keys[..|keys| - 1];
      var d := keys[|keys| - 1];
      GroupFirstSeenOrder(init);
      GroupCounts(init);
      GroupWellFormed(init);
      var g0 := Group(init);
      var g := Group(keys);
      forall i, j | 0 <= i < j < |g.order| ensures SeenBefore(keys, g.order[i], g.order[j]) {
        if j < |g0.order| {
          var a :| 0 <= a < |init| && init[a] == g0.order[i] && g0.order[j] !in init[..a + 1];
          assert keys[..a + 1] == init[..a + 1];
        } else {
          assert g.order[j] == d && d !in init;
          var a :| 0 <= a < |init| && init[a] == g0.order[i];
          assert keys[..a + 1] == init[..a + 1];
        }
      }
    }
  }

  /** One entry per distinct date, each with a positive count that is the number
      of favorites on that date. */
  lemma FavoritesByDateEntries(favorites: seq<Favorite>, dateKey: int -> string)
    ensures var r := FavoritesByDate(favorites, dateKey);
      (forall i, j :: 0 <= i < j < |r| ==> r[i].0 != r[j].0)
      && (forall i :: 0 <= i < |favorites| ==> exists j :: 0 <= j < |r| && r[j].0 == dateKey(favorites[i].createdAt))
      && (forall j :: 0 <= j < |r| ==>
            r[j].1 >= 1 && r[j].1 == multiset(DateKeys(favorites, dateKey))[r[j].0])
  {
    var keys := DateKeys(favorites, dateKey);
    GroupWellFormed(keys);
    GroupCounts(keys);
    var g := Group(keys);
    var r := FavoritesByDate(favorites, dateKey);
    assert r == Entries(g);
    assert forall j :: 0 <= j < |r| ==> r[j].0 == g.order[j] && r[j].1 == g.counts[g.order[j]];
    assert forall j :: 0 <= j < |r| ==> r[j].1 >= 1 by {
      forall j | 0 <= j < |r| ensures r[j].1 >= 1 {
        assert g.order[j] in keys;
      }
    }
    forall i | 0 <= i < |favorites|
      ensures exists j :: 0 <= j < |r| && r[j].0 == dateKey(favorites[i].createdAt)
    {
      assert keys[i] in g.counts;
      var j :| 0 <= j < |g.order| && g.order[j] == keys[i];
      assert r[j].0 == keys[i];
    }
  }

  /** The entries come in the order their dates are first seen in the list, the
      order `Object.entries` gives for the accumulator's keys. */
  lemma FavoritesByDateFirstSeen(favorites: seq<Favorite>, dateKey: int -> string)
    ensures var r := FavoritesByDate(favorites, dateKey);
      forall i, j :: 0 <= i < j < |r| ==> SeenBefore(DateKeys(favorites, dateKey), r[i].0, r[j].0)
  {
    var keys := DateKeys(favorites, dateKey);
    GroupWellFormed(keys);
    GroupFirstSeenOrder(keys);
  }

  /** The counts of the chart add up to the "Total Favorites" card. */
  lemma FavoritesByDateSum(favorites: seq<Favorite>, dateKey: int -> string)
    ensures EntrySum(FavoritesByDate(favorites, dateKey)) == TotalFavorites(favorites)
  {
    var keys := DateKeys(favorites, dateKey);
    GroupSum(keys);
    var g := Group(keys);
    var r := FavoritesByDate(favorites, dateKey);
    EntrySumIsSum(g, |g.order|);
    assert Entries(g)[..|g.order|] == r;
    assert g.order[..|g.order|] == g.order;
  }

  /** The `reduce` with its mutated accumulator, then the pure `Object.entries(...).map(...)`. */
  method GetFavoritesByDate(favorites: seq<Favorite>, dateKey: int -> string) returns (entries: seq<(string, int)>)
    ensures entries == FavoritesByDate(favorites, dateKey)
  {
    var keys := DateKeys(favorites, dateKey);
    var order: seq<string> := [];
    var acc: map<string, int> := map[];
    var i := 0;
    while i < |favorites|
      invariant 0 <= i <= |favorites|
      invariant Grouped(order, acc) == Group(keys[..i])
    {
      var date := dateKey(favorites[i].createdAt);
      assert keys[..i + 1][..i] == keys[..i];
      assert Group(keys[..i + 1]) == Step(Grouped(order, acc), date);
      if date in acc {
        acc := acc[date := acc[date] + 1];
      } else {
        order := order + [date];
        acc := acc[date := 1];
      }
      i := i + 1;
    }
    assert keys[..i] == keys;
    GroupWellFormed(keys);
    entries := Entries(Grouped(order, acc));
  }

  /** The "Total Favorites" card. */
  function TotalFavorites(favorites: seq<Favorite>): nat {
    |favorites|
  }

  /** `new Set(favorites.map(f => f.user_id))`. */
  function UserIds(favorites: seq<Favorite>): (r: set<int>)
    ensures forall i :: 0 <= i < |favorites| ==> favorites[i].userId in r
    ensures forall u :: u in r ==> exists i :: 0 <= i < |favorites| && favorites[i].userId == u
  {
    if favorites == [] then {}
    else UserIds(favorites[..|favorites| - 1]) + {favorites[|favorites| - 1].userId}
  }

  /** The "Unique Users" card. */
  function UniqueUsers(favorites: seq<Favorite>): nat {
    |UserIds(favorites)|
  }

  /** Unique users never exceed the total, are at least one once there is a
      favorite, and equal the total when no user appears twice. */
  lemma {:induction false} UniqueUsersBounds(favorites: seq<Favorite>)
    ensures UniqueUsers(favorites) <= TotalFavorites(favorites)
    ensures favorites != [] ==> UniqueUsers(favorites) >= 1
    ensures (forall i, j :: 0 <= i < j < |favorites| ==> favorites[i].userId != favorites[j].userId) ==>
      UniqueUsers(favorites) == TotalFavorites(favorites)
  {
    if favorites != [] {
      var init := favorites[..|favorites| - 1];
      var u := favorites[|favorites| - 1].userId;
      UniqueUsersBounds(init);
      if forall i, j :: 0 <= i < j < |favorites| ==> favorites[i].userId != favorites[j].userId {
        assert u !in UserIds(init);
      }
    }
  }
}
