/**
 * The notification feed of the marketplace front end: how a user profile
 * (orders and unread chat messages) becomes a newest-first list of
 * notifications, and the store whose reducers mark, add, clear and reload
 * them while keeping an unread counter.
 */
module NotificationSlice {
  import opened Wrappers
  import opened Text
  import Lists
  import StableSort

  /** An order as the profile endpoint reports it (creation time in ms). */
  datatype Order = Order(id: nat, status: string, createdAt: int)

  /** An unread chat message as the profile endpoint reports it. */
  datatype UnreadMessage = UnreadMessage(
    id: nat, chatId: nat, senderId: int, senderName: string, content: string, timestamp: int)

  /** The two lists of the profile payload; a list the payload omits is `None`. */
  datatype Profile = Profile(userOrders: Option<seq<Order>>, unreadMessages: Option<seq<UnreadMessage>>)

  /** The `data` attached to a notification. */
  datatype Payload =
    | OrderPayload(order: Order)
    | ChatPayload(chatId: nat, messageId: nat, senderId: int, senderName: string)
    | PushedPayload

  datatype Notification = Notification(
    id: string, kind: string, title: string, message: string,
    referenceId: int, createdAt: int, read: bool, data: Payload)

  // ---------------------------------------------------------------------
  // Notification identifiers
  // ---------------------------------------------------------------------

  /** What a generated notification id stands for. */
  datatype Origin = FromOrder(orderId: nat) | FromMessage(chatId: nat, messageId: nat)

  /** `order-<id>` or `chat-<chat id>-<message id>`. */
  function OriginId(o: Origin): string {
    match o
    case FromOrder(id) => "order-" + NatToString(id)
    case FromMessage(c, m) => "chat-" + NatToString(c) + "-" + NatToString(m)
  }

  /** Reads a generated id back; any other string gives `None`. */
  function ParseOriginId(id: string): Option<Origin> {
    if StartsWith(id, "order-") then
      var rest := id[6..];
      if rest != [] && AllDigits(rest) then Some(FromOrder(ParseDigits(rest))) else None
    else if StartsWith(id, "chat-") then
      var rest := id[5..];
      var k := IndexOf(rest, "-", 0);
      if 0 < k && AllDigits(rest[..k]) && rest[k + 1..] != [] && AllDigits(rest[k + 1..]) then
        Some(FromMessage(ParseDigits(rest[..k]), ParseDigits(rest[k + 1..])))
      else None
    else None
  }

  lemma OrderIdRoundTrip(id: nat)
    ensures ParseOriginId(OriginId(FromOrder(id))) == Some(FromOrder(id))
  {
    var s := OriginId(FromOrder(id));
    assert s[..6] == "order-";
    assert s[6..] == NatToString(id);
    ParseNatToString(id);
  }

  /** The first dash after `chat-` is the one before the message id. */
  lemma MessageIdSplit(c: nat, m: nat)
    ensures var rest := OriginId(FromMessage(c, m))[5..];
      var k := IndexOf(rest, "-", 0);
      k == |NatToString(c)| && rest[..k] == NatToString(c) && rest[k + 1..] == NatToString(m)
  {
    var s := OriginId(FromMessage(c, m));
    var a, b := NatToString(c), NatToString(m);
    var rest := s[5..];
    assert rest == a + "-" + b;
    assert MatchAt(rest, "-", |a|) by { assert rest[|a|..|a| + 1] == "-"; }
    forall i | 0 <= i < |a| ensures !MatchAt(rest, "-", i) {
      assert rest[i] == a[i];
      assert rest[i..i + 1] == [a[i]];
    }
    var k := IndexOf(rest, "-", 0);
    assert k == |a|;
    assert rest[..k] == a;
    assert rest[k + 1..] == b;
  }

  lemma MessageIdRoundTrip(c: nat, m: nat)
    ensures ParseOriginId(OriginId(FromMessage(c, m))) == Some(FromMessage(c, m))
  {
    var s := OriginId(FromMessage(c, m));
    assert s[..6] != "order-" by { assert s[0] == 'c'; }
    assert s[..5] == "chat-";
    MessageIdSplit(c, m);
    ParseNatToString(c);
    ParseNatToString(m);
  }

  /** Every generated id reads back as what it was generated from. */
  lemma ParseOriginIdRoundTrip(o: Origin)
    ensures ParseOriginId(OriginId(o)) == Some(o)
  {
    match o
    case FromOrder(id) => OrderIdRoundTrip(id);
    case FromMessage(c, m) => MessageIdRoundTrip(c, m);
  }

  /** Different orders and messages never share a notification id. */
  lemma OriginIdInjective(o1: Origin, o2: Origin)
    ensures OriginId(o1) == OriginId(o2) ==> o1 == o2
  {
    if OriginId(o1) == OriginId(o2) {
      ParseOriginIdRoundTrip(o1);
      ParseOriginIdRoundTrip(o2);
    }
  }

  // ---------------------------------------------------------------------
  // transformToNotifications
  // ---------------------------------------------------------------------

  /** An order is unread exactly while it is pending. */
  function FromOrderRecord(o: Order): (n: Notification)
    ensures n.id == OriginId(FromOrder(o.id))
    ensures n.read <==> o.status != "pending"
    ensures n.createdAt == o.createdAt && n.referenceId == o.id
  {
    Notification(OriginId(FromOrder(o.id)), "order", "Order #" + NatToString(o.id),
                 "Order " + o.status, o.id, o.createdAt, o.status != "pending", OrderPayload(o))
  }

  /** A chat message is always unread and refers to its chat. */
  function FromUnreadMessage(m: UnreadMessage): (n: Notification)
    ensures n.id == OriginId(FromMessage(m.chatId, m.id))
    ensures !n.read
    ensures n.createdAt == m.timestamp && n.referenceId == m.chatId
  {
    Notification(OriginId(FromMessage(m.chatId, m.id)), "chat", "Message from " + m.senderName,
                 m.content, m.chatId, m.timestamp, false,
                 ChatPayload(m.chatId, m.id, m.senderId, m.senderName))
  }

  function OrderNotifications(os: seq<Order>): (r: seq<Notification>)
    ensures |r| == |os|
    ensures forall i :: 0 <= i < |os| ==> r[i] == FromOrderRecord(os[i])
  {
    if os == [] then [] else [FromOrderRecord(os[0])] + OrderNotifications(os[1..])
  }

  function MessageNotifications(ms: seq<UnreadMessage>): (r: seq<Notification>)
    ensures |r| == |ms|
    ensures forall i :: 0 <= i < |ms| ==> r[i] == FromUnreadMessage(ms[i])
  {
    if ms == [] then [] else [FromUnreadMessage(ms[0])] + MessageNotifications(ms[1..])
  }

  /** Orders first, then messages, before sorting. */
  function Unsorted(p: Profile): seq<Notification> {
    OrderNotifications(p.userOrders.GetOr([])) + MessageNotifications(p.unreadMessages.GetOr([]))
  }

  /** Sort key: a larger creation time comes first. */
  function NewestFirst(n: Notification): int {
    -n.createdAt
  }

  /** The profile as a newest-first notification list (ties keep their order). */
  function TransformToNotifications(p: Profile): (r: seq<Notification>)
    ensures |r| == |p.userOrders.GetOr([])| + |p.unreadMessages.GetOr([])|
    ensures multiset(r) == multiset(Unsorted(p))
    ensures forall i, j :: 0 <= i < j < |r| ==> r[i].createdAt >= r[j].createdAt
  {
    var r := StableSort.Sort(Unsorted(p), NewestFirst);
    NewestFirstSorted(r);
    r
  }

  lemma NewestFirstSorted(r: seq<Notification>)
    requires StableSort.SortedBy(r, NewestFirst)
    ensures forall i, j :: 0 <= i < j < |r| ==> r[i].createdAt >= r[j].createdAt
  {
    assert forall i, j :: 0 <= i < j < |r| ==> NewestFirst(r[i]) <= NewestFirst(r[j]);
  }

  /** Notifications created at the same moment (same key `k`) keep their order from the payload. */
  lemma TransformIsStable(p: Profile, k: int)
    ensures StableSort.WithKey(TransformToNotifications(p), NewestFirst, k)
         == StableSort.WithKey(Unsorted(p), NewestFirst, k)
  {
    StableSort.SortStable(Unsorted(p), NewestFirst, k);
  }

  predicate IsUnread(n: Notification) {
    !n.read
  }

  predicate IsPending(o: Order) {
    o.status == "pending"
  }

  /** The number of unread notifications, as the fulfilled reducer computes it. */
  function UnreadCount(s: seq<Notification>): nat {
    Lists.Count(s, IsUnread)
  }

  lemma {:induction false} OrderNotificationsUnread(os: seq<Order>)
    ensures UnreadCount(OrderNotifications(os)) == Lists.Count(os, IsPending)
  {
    if os != [] {
      OrderNotificationsUnread(os[1..]);
      assert OrderNotifications(os) == [FromOrderRecord(os[0])] + OrderNotifications(os[1..]);
      Lists.CountAppend([FromOrderRecord(os[0])], OrderNotifications(os[1..]), IsUnread);
      assert os == [os[0]] + os[1..];
      Lists.CountAppend([os[0]], os[1..], IsPending);
    }
  }

  lemma {:induction false} MessageNotificationsUnread(ms: seq<UnreadMessage>)
    ensures UnreadCount(MessageNotifications(ms)) == |ms|
  {
    if ms != [] {
      MessageNotificationsUnread(ms[1..]);
      assert MessageNotifications(ms) == [FromUnreadMessage(ms[0])] + MessageNotifications(ms[1..]);
      Lists.CountAppend([FromUnreadMessage(ms[0])], MessageNotifications(ms[1..]), IsUnread);
    }
  }

  /** After a fetch the badge shows the pending orders plus every unread message. */
  lemma TransformUnreadCount(p: Profile)
    ensures UnreadCount(TransformToNotifications(p))
         == Lists.Count(p.userOrders.GetOr([]), IsPending) + |p.unreadMessages.GetOr([])|
  {
    var os, ms := p.userOrders.GetOr([]), p.unreadMessages.GetOr([]);
    StableSort.SortCount(Unsorted(p), NewestFirst, IsUnread);
    Lists.CountAppend(OrderNotifications(os), MessageNotifications(ms), IsUnread);
    OrderNotificationsUnread(os);
    MessageNotificationsUnread(ms);
  }

  function IdOf(n: Notification): string {
    n.id
  }

  predicate DistinctIds(s: seq<Notification>) {
    StableSort.DistinctBy(s, IdOf)
  }

  predicate DistinctOrderIds(os: seq<Order>) {
    forall i, j :: 0 <= i < j < |os| ==> os[i].id != os[j].id
  }

  predicate DistinctMessageKeys(ms: seq<UnreadMessage>) {
    forall i, j :: 0 <= i < j < |ms| ==> (ms[i].chatId, ms[i].id) != (ms[j].chatId, ms[j].id)
  }

  /** What the `i`-th notification before sorting was generated from. */
  function OriginAt(os: seq<Order>, ms: seq<UnreadMessage>, i: nat): Origin
    requires i < |os| + |ms|
  {
    if i < |os| then FromOrder(os[i].id) else FromMessage(ms[i - |os|].chatId, ms[i - |os|].id)
  }

  lemma UnsortedIdAt(os: seq<Order>, ms: seq<UnreadMessage>, i: nat)
    requires i < |os| + |ms|
    ensures IdOf((OrderNotifications(os) + MessageNotifications(ms))[i]) == OriginId(OriginAt(os, ms, i))
  {
    var a, b := OrderNotifications(os), MessageNotifications(ms);
    if i < |a| {
      assert (a + b)[i] == a[i];
    } else {
      assert (a + b)[i] == b[i - |a|];
    }
  }

  lemma UnsortedDistinctIds(os: seq<Order>, ms: seq<UnreadMessage>)
    requires DistinctOrderIds(os)
    requires DistinctMessageKeys(ms)
    ensures DistinctIds(OrderNotifications(os) + MessageNotifications(ms))
  {
    var u := OrderNotifications(os) + MessageNotifications(ms);
    forall i, j | 0 <= i < j < |u| ensures IdOf(u[i]) != IdOf(u[j]) {
      var oi, oj := OriginAt(os, ms, i), OriginAt(os, ms, j);
      assert oi != oj;
      UnsortedIdAt(os, ms, i);
      UnsortedIdAt(os, ms, j);
      OriginIdInjective(oi, oj);
    }
  }

  /** Distinct orders and messages give notifications with distinct ids. */
  lemma TransformDistinctIds(p: Profile)
    requires DistinctOrderIds(p.userOrders.GetOr([]))
    requires DistinctMessageKeys(p.unreadMessages.GetOr([]))
    ensures DistinctIds(TransformToNotifications(p))
  {
    UnsortedDistinctIds(p.userOrders.GetOr([]), p.unreadMessages.GetOr([]));
    StableSort.SortDistinctBy(Unsorted(p), NewestFirst, IdOf);
  }

  // ---------------------------------------------------------------------
  // Reducer specifications
  // ---------------------------------------------------------------------

  /** Index of the first notification with this id (`Array.find`), or -1. */
  function FindById(s: seq<Notification>, id: string): (r: int)
    ensures -1 <= r < |s|
    ensures r == -1 <==> forall i :: 0 <= i < |s| ==> s[i].id != id
    ensures r != -1 ==> s[r].id == id && forall i :: 0 <= i < r ==> s[i].id != id
  {
    if s == [] then -1
    else if s[0].id == id then 0
    else
      var k := FindById(s[1..], id);
      if k == -1 then -1 else k + 1
  }

  /** The first notification with the id exists and is unread. */
  predicate MarksSomething(s: seq<Notification>, id: string) {
    var k := FindById(s, id);
    k != -1 && !s[k].read
  }

  /** The list after `markAsRead`: only the first match is touched. */
  function MarkFirstRead(s: seq<Notification>, id: string): seq<Notification> {
    if MarksSomething(s, id) then
      var k := FindById(s, id);
      s[k := s[k].(read := true)]
    else s
  }

  /** Every notification read, nothing else changed. */
  function AllRead(s: seq<Notification>): (r: seq<Notification>)
    ensures |r| == |s|
    ensures forall i :: 0 <= i < |s| ==> r[i] == s[i].(read := true)
  {
    seq(|s|, i requires 0 <= i < |s| => s[i].(read := true))
  }

  predicate HasId(s: seq<Notification>, id: string) {
    exists i :: 0 <= i < |s| && s[i].id == id
  }

  /** The list after `addNotification`: prepended unless the id is already there. */
  function AddIfNew(s: seq<Notification>, n: Notification): (r: seq<Notification>) {
    if HasId(s, n.id) then s else [n] + s
  }

  lemma {:induction false} CountUpdate(s: seq<Notification>, k: nat, n: Notification)
    requires k < |s|
    ensures UnreadCount(s[k := n]) + (if IsUnread(s[k]) then 1 else 0)
         == UnreadCount(s) + (if IsUnread(n) then 1 else 0)
  {
    var t := s[k := n];
    assert s == s[..k] + [s[k]] + s[k + 1..];
    assert t == s[..k] + [n] + s[k + 1..];
    Lists.CountAppend(s[..k] + [s[k]], s[k + 1..], IsUnread);
    Lists.CountAppend(s[..k], [s[k]], IsUnread);
    Lists.CountAppend(s[..k] + [n], s[k + 1..], IsUnread);
    Lists.CountAppend(s[..k], [n], IsUnread);
  }

  /** Marking one notification lowers the unread count by exactly the one it read. */
  lemma MarkFirstReadCount(s: seq<Notification>, id: string)
    ensures UnreadCount(MarkFirstRead(s, id)) == UnreadCount(s) - (if MarksSomething(s, id) then 1 else 0)
  {
    if MarksSomething(s, id) {
      var k := FindById(s, id);
      CountUpdate(s, k, s[k].(read := true));
    }
  }

  /** Marking the same id twice is the same as marking it once. */
  lemma MarkFirstReadIdempotent(s: seq<Notification>, id: string)
    ensures MarkFirstRead(MarkFirstRead(s, id), id) == MarkFirstRead(s, id)
  {
    if MarksSomething(s, id) {
      var k := FindById(s, id);
      var t := MarkFirstRead(s, id);
      assert forall i :: 0 <= i < |t| ==> t[i].id == s[i].id;
      assert FindById(t, id) == k;
    }
  }

  /** Marking keeps every id in place and reads at most the first match. */
  lemma MarkFirstReadFrame(s: seq<Notification>, id: string)
    ensures |MarkFirstRead(s, id)| == |s|
    ensures forall i :: 0 <= i < |s| ==> MarkFirstRead(s, id)[i].id == s[i].id
    ensures forall i :: 0 <= i < |s| && i != FindById(s, id) ==> MarkFirstRead(s, id)[i] == s[i]
  {
  }

  lemma {:induction false} AllReadCount(s: seq<Notification>)
    ensures UnreadCount(AllRead(s)) == 0
  {
    Lists.FilterNone(AllRead(s), IsUnread);
  }

  /** Marking everything read a second time changes nothing. */
  lemma AllReadIdempotent(s: seq<Notification>)
    ensures AllRead(AllRead(s)) == AllRead(s)
  {
  }

  /** A notification with a fresh id is added in front; distinct ids stay distinct. */
  lemma AddIfNewKeepsDistinct(s: seq<Notification>, n: Notification)
    requires DistinctIds(s)
    ensures DistinctIds(AddIfNew(s, n))
    ensures HasId(AddIfNew(s, n), n.id)
  {
    if !HasId(s, n.id) {
      var r := [n] + s;
      forall i, j | 0 <= i < j < |r| ensures IdOf(r[i]) != IdOf(r[j]) {
        assert r[j] == s[j - 1];
        if i > 0 { assert r[i] == s[i - 1]; }
      }
      assert r[0] == n;
    }
  }

  /** Adding counts the new notification iff it is unread and its id is fresh. */
  lemma AddIfNewCount(s: seq<Notification>, n: Notification)
    ensures UnreadCount(AddIfNew(s, n)) == UnreadCount(s) + (if !HasId(s, n.id) && !n.read then 1 else 0)
  {
    if !HasId(s, n.id) {
      Lists.CountAppend([n], s, IsUnread);
    }
  }

  // ---------------------------------------------------------------------
  // The store
  // ---------------------------------------------------------------------

  /** The `notifications` slice of the Redux store; the reducers update it in place. */
  class NotificationStore {
    var items: seq<Notification>
    var loading: bool
    var error: Option<string>
    var unreadCount: nat

    /** The counter agrees with the list. */
    predicate CountAgrees()
      reads this
    {
      unreadCount == UnreadCount(items)
    }

    constructor ()
      ensures items == [] && !loading && error == None && unreadCount == 0
      ensures CountAgrees()
    {
      items := [];
      loading := false;
      error := None;
      unreadCount := 0;
    }

    method ClearNotifications()
      modifies this
      ensures items == [] && unreadCount == 0
      ensures loading == old(loading) && error == old(error)
      ensures CountAgrees()
    {
      items := [];
      unreadCount := 0;
    }

    /** `markAsRead` and `markNotificationAsRead.fulfilled`. */
    method MarkAsRead(id: string)
      modifies this
      ensures items == MarkFirstRead(old(items), id)
      ensures unreadCount == if MarksSomething(old(items), id) && old(unreadCount) > 0
                             then old(unreadCount) - 1 else old(unreadCount)
      ensures loading == old(loading) && error == old(error)
      ensures old(CountAgrees()) ==> CountAgrees()
    {
      var k := FindById(items, id);
      MarkFirstReadCount(items, id);
      if k != -1 && !items[k].read {
        items := items[k := items[k].(read := true)];
        unreadCount := if unreadCount > 0 then unreadCount - 1 else 0;
      }
    }

    /** `markAllAsRead`: one pass over the items. */
    method MarkAllAsRead()
      modifies this
      ensures items == AllRead(old(items))
      ensures unreadCount == 0
      ensures loading == old(loading) && error == old(error)
      ensures CountAgrees()
    {
      var i := 0;
      while i < |items|
        invariant 0 <= i <= |items| == |old(items)|
        invariant forall j :: 0 <= j < i ==> items[j] == old(items)[j].(read := true)
        invariant forall j :: i <= j < |items| ==> items[j] == old(items)[j]
        invariant loading == old(loading) && error == old(error)
      {
        items := items[i := items[i].(read := true)];
        i := i + 1;
      }
      unreadCount := 0;
      AllReadCount(old(items));
    }

    method AddNotification(n: Notification)
      modifies this
      ensures items == AddIfNew(old(items), n)
      ensures unreadCount == old(unreadCount) + (if !HasId(old(items), n.id) && !n.read then 1 else 0)
      ensures loading == old(loading) && error == old(error)
      ensures old(CountAgrees()) ==> CountAgrees()
    {
      AddIfNewCount(items, n);
      if !HasId(items, n.id) {
        items := [n] + items;
        if !n.read {
          unreadCount := unreadCount + 1;
        }
      }
    }

    method FetchPending()
      modifies this
      ensures loading && error == None
      ensures items == old(items) && unreadCount == old(unreadCount)
    {
      loading := true;
      error := None;
    }

    /** The payload replaces the list and the counter is recomputed from it. */
    method FetchFulfilled(payload: seq<Notification>)
      modifies this
      ensures !loading && error == None && items == payload
      ensures CountAgrees()
    {
      loading := false;
      items := payload;
      unreadCount := UnreadCount(payload);
      error := None;
    }

    method FetchRejected(reason: string)
      modifies this
      ensures !loading && error == Some(reason)
      ensures items == old(items) && unreadCount == old(unreadCount)
    {
      loading := false;
      error := Some(reason);
    }
  }
}
