/**
 * The public profile page: the recent-activity feed merged from the user's
 * chats and favorites, the order status badge, and the header name. Dates
 * are milliseconds since the epoch.
 */
module UserProfile {
  import opened Wrappers
  import opened Text
  import StableSort

  const UnknownProduct := "Unknown Product"
  const Uncategorized := "Uncategorized"
  const MaxActivities := 5

  /** A chat as the profile receives it; `productName` is absent with the product. */
  datatype ChatRecord = ChatRecord(id: int, createdAt: int, productName: Option<string>, otherParticipant: int)

  /** A favorite; `categories` holds the category names, when present. */
  datatype FavoriteRecord = FavoriteRecord(id: int, createdAt: int, name: string, categories: Option<seq<string>>)

  datatype Activity =
    | ChatActivity(date: int, id: int, productName: string, otherParticipant: int)
    | FavoriteActivity(date: int, id: int, productName: string, category: string)

  /** `x || fallback` for an optional string: absent and empty both fall back. */
  function OrElse(x: Option<string>, fallback: string): (r: string)
    ensures x.Some? && x.value != [] ==> r == x.value
    ensures x.None? || x.value == [] ==> r == fallback
  {
    if x.Some? && x.value != [] then x.value else fallback
  }

  function ChatToActivity(c: ChatRecord): Activity {
    ChatActivity(c.createdAt, c.id, OrElse(c.productName, UnknownProduct), c.otherParticipant)
  }

  /** The name of the first category, if the favorite has one. */
  function FirstCategory(f: FavoriteRecord): Option<string> {
    if f.categories.Some? && |f.categories.value| > 0 then Some(f.categories.value[0]) else None
  }

  function FavoriteToActivity(f: FavoriteRecord): Activity {
    FavoriteActivity(f.createdAt, f.id, f.name, OrElse(FirstCategory(f), Uncategorized))
  }

  /** Chats first, then favorites; a missing list counts as empty. */
  function AllActivities(chats: Option<seq<ChatRecord>>, favorites: Option<seq<FavoriteRecord>>): (r: seq<Activity>)
    ensures |r| == |chats.GetOr([])| + |favorites.GetOr([])|
  {
    var cs, fs := chats.GetOr([]), favorites.GetOr([]);
    seq(|cs|, i requires 0 <= i < |cs| => ChatToActivity(cs[i]))
      + seq(|fs|, i requires 0 <= i < |fs| => FavoriteToActivity(fs[i]))
  }

  function NewestFirst(a: Activity): int {
    -a.date
  }

  /** `getRecentActivities(orders, favorites, chats)`; the orders are not used. */
  function RecentActivities(chats: Option<seq<ChatRecord>>, favorites: Option<seq<FavoriteRecord>>): seq<Activity> {
    StableSort.Take(StableSort.Sort(AllActivities(chats, favorites), NewestFirst), MaxActivities)
  }

  /** The newest five of any activity list: newest first, taken from the list,
      and nothing left out is newer than what is shown. */
  lemma NewestFive(all: seq<Activity>)
    ensures var r := StableSort.Take(StableSort.Sort(all, NewestFirst), MaxActivities);
      |r| == StableSort.Min(MaxActivities, |all|)
      && (forall i, j :: 0 <= i < j < |r| ==> r[i].date >= r[j].date)
      && multiset(r) <= multiset(all)
      && forall x :: x in multiset(all) - multiset(r) ==> forall i :: 0 <= i < |r| ==> r[i].date >= x.date
  {
    var sorted := StableSort.Sort(all, NewestFirst);
    var r := StableSort.Take(sorted, MaxActivities);
    NewestFirstDates(sorted);
    StableSort.TakeSmallest(all, NewestFirst, MaxActivities);
    LeftOutNotNewer(r, multiset(all) - multiset(r));
  }

  /** A list sorted by `NewestFirst` has non-increasing dates. */
  lemma NewestFirstDates(s: seq<Activity>)
    requires StableSort.SortedBy(s, NewestFirst)
    ensures forall i, j :: 0 <= i < j < |s| ==> s[i].date >= s[j].date
  {
    forall i, j | 0 <= i < j < |s| ensures s[i].date >= s[j].date {
      assert NewestFirst(s[i]) <= NewestFirst(s[j]);
    }
  }

  /** No key smaller than a shown one means no date newer than it. */
  lemma LeftOutNotNewer(r: seq<Activity>, rest: multiset<Activity>)
    requires forall x, i :: x in rest && 0 <= i < |r| ==> NewestFirst(r[i]) <= NewestFirst(x)
    ensures forall x :: x in rest ==> forall i :: 0 <= i < |r| ==> r[i].date >= x.date
  {
    forall x, i | x in rest && 0 <= i < |r| ensures r[i].date >= x.date {
      assert NewestFirst(r[i]) <= NewestFirst(x);
    }
  }

  /** At most five entries, newest first, all taken from the input, and none of
      the activities left out is newer than any entry shown. */
  lemma RecentActivitiesAreNewest(chats: Option<seq<ChatRecord>>, favorites: Option<seq<FavoriteRecord>>)
    ensures var r := RecentActivities(chats, favorites);
      |r| == StableSort.Min(MaxActivities, |chats.GetOr([])| + |favorites.GetOr([])|)
      && (forall i, j :: 0 <= i < j < |r| ==> r[i].date >= r[j].date)
      && multiset(r) <= multiset(AllActivities(chats, favorites))
      && forall x :: x in multiset(AllActivities(chats, favorites)) - multiset(r) ==>
           forall i :: 0 <= i < |r| ==> r[i].date >= x.date
  {
    NewestFive(AllActivities(chats, favorites));
  }

  /** Every chat entry names a product and every favorite entry a category. */
  lemma ActivityLabelsNonEmpty(chats: Option<seq<ChatRecord>>, favorites: Option<seq<FavoriteRecord>>)
    ensures forall i :: 0 <= i < |AllActivities(chats, favorites)| ==>
      var a := AllActivities(chats, favorites)[i];
      (a.ChatActivity? ==> a.productName != []) && (a.FavoriteActivity? ==> a.category != [])
  {
  }

  // ---------------------------------------------------------------------
  // Status badge and header
  // ---------------------------------------------------------------------

  /** `status.charAt(0).toUpperCase() + status.slice(1)`. */
  function Capitalize(status: string): (r: string)
    ensures |r| == |status|
    ensures |status| > 0 ==> r[0] == UpperChar(status[0]) && r[1..] == status[1..]
  {
    if status == [] then [] else [UpperChar(status[0])] + status[1..]
  }

  /** The label differs from the status only in the case of its first letter. */
  lemma CapitalizeOnlyFirst(status: string)
    ensures Lower(Capitalize(status)) == Lower(status)
    ensures forall i :: 1 <= i < |status| ==> Capitalize(status)[i] == status[i]
  {
    if status != [] {
      var c := status[0];
      assert LowerChar(UpperChar(c)) == LowerChar(c);
      assert Capitalize(status)[0] == UpperChar(c);
      forall i | 1 <= i < |status| ensures Capitalize(status)[i] == status[i] {
        assert Capitalize(status)[i] == Capitalize(status)[1..][i - 1];
      }
    }
  }

  const KnownStatuses: seq<string> := ["pending", "processing", "shipped", "delivered", "completed", "cancelled"]

  const GrayStyle := "bg-gray-100 text-gray-800"

  function StatusStyle(status: string): string {
    if status == "pending" then "bg-yellow-100 text-yellow-800"
    else if status == "processing" then "bg-blue-100 text-blue-800"
    else if status == "shipped" then "bg-purple-100 text-purple-800"
    else if status == "delivered" || status == "completed" then "bg-green-100 text-green-800"
    else if status == "cancelled" then "bg-red-100 text-red-800"
    else GrayStyle
  }

  /** Exactly the statuses outside the table get the gray style. */
  lemma StatusStyleGrayIff(status: string)
    ensures StatusStyle(status) == GrayStyle <==> status !in KnownStatuses
  {
  }

  /** The trimmed "first last", or the username when that is blank. */
  function HeaderName(firstName: string, lastName: string, username: string): (r: string)
    ensures Trim(firstName + " " + lastName) != [] ==> r == Trim(firstName + " " + lastName)
  {
    var full := Trim(firstName + " " + lastName);
    if full != [] then full else username
  }

  /** Blank first and last names show the username. */
  lemma HeaderNameFallback(firstName: string, lastName: string, username: string)
    requires AllSpace(Ecma, firstName) && AllSpace(Ecma, lastName)
    ensures HeaderName(firstName, lastName, username) == username
  {
    AllSpaceJoined(Ecma, firstName, lastName);
    TrimEmptyIff(Ecma, firstName + " " + lastName);
  }
}
