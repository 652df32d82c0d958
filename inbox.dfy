/**
 * The inbox: the search and filter over the user's chats, the relative time
 * label of the last message, and the pending-responses count. Times are
 * milliseconds since the epoch; the clock is an input.
 */
module Inbox {
  import opened Text
  import Lists

  /** A chat as the inbox lists it. */
  datatype InboxChat = InboxChat(
    productName: string,
    sellerId: int,
    currentUserId: int,
    otherFirstName: string,
    otherLastName: string,
    unreadCount: int)

  /** The product name or the other participant's first or last name contains
      the query, ignoring case. */
  predicate MatchesSearch(chat: InboxChat, query: string) {
    ContainsIgnoringCase(chat.productName, query)
    || ContainsIgnoringCase(chat.otherFirstName, query)
    || ContainsIgnoringCase(chat.otherLastName, query)
  }

  predicate IsSelling(chat: InboxChat) {
    chat.sellerId == chat.currentUserId
  }

  predicate HasUnread(chat: InboxChat) {
    chat.unreadCount > 0
  }

  /** The filter test for the selected mode; an unknown mode acts like "all". */
  predicate Keep(chat: InboxChat, mode: string, query: string) {
    if mode == "all" then MatchesSearch(chat, query)
    else if mode == "unread" then MatchesSearch(chat, query) && HasUnread(chat)
    else if mode == "selling" then MatchesSearch(chat, query) && IsSelling(chat)
    else if mode == "buying" then MatchesSearch(chat, query) && !IsSelling(chat)
    else MatchesSearch(chat, query)
  }

  function FilteredChats(chats: seq<InboxChat>, mode: string, query: string): (r: seq<InboxChat>)
    ensures forall i :: 0 <= i < |r| ==> Keep(r[i], mode, query) && r[i] in chats
    ensures forall i :: 0 <= i < |chats| && Keep(chats[i], mode, query) ==> chats[i] in r
  {
    Lists.Filter(chats, (c: InboxChat) => Keep(c, mode, query))
  }

  /** The shown chats keep the inbox order; every mode shows search matches only. */
  lemma FilteredChatsOrder(chats: seq<InboxChat>, mode: string, query: string)
    ensures Lists.IsSubsequence(FilteredChats(chats, mode, query), chats)
    ensures forall i :: 0 <= i < |FilteredChats(chats, mode, query)| ==>
      MatchesSearch(FilteredChats(chats, mode, query)[i], query)
  {
    Lists.FilterIsSubsequence(chats, (c: InboxChat) => Keep(c, mode, query));
  }

  /** An unknown mode shows the same chats as "all". */
  lemma UnknownModeIsAll(chats: seq<InboxChat>, mode: string, query: string)
    requires mode !in {"all", "unread", "selling", "buying"}
    ensures FilteredChats(chats, mode, query) == FilteredChats(chats, "all", query)
  {
    Lists.FilterCongruent(chats, (c: InboxChat) => Keep(c, mode, query), (c: InboxChat) => Keep(c, "all", query));
  }

  /** "selling" and "buying" split the matches of "all" between them. */
  lemma SellingBuyingPartition(chats: seq<InboxChat>, query: string)
    ensures |FilteredChats(chats, "selling", query)| + |FilteredChats(chats, "buying", query)|
            == |FilteredChats(chats, "all", query)|
    ensures forall c :: c in FilteredChats(chats, "all", query) ==>
      (c in FilteredChats(chats, "selling", query) <==> c !in FilteredChats(chats, "buying", query))
  {
    Lists.CountSplit(chats, (c: InboxChat) => Keep(c, "all", query),
      (c: InboxChat) => Keep(c, "selling", query), (c: InboxChat) => Keep(c, "buying", query));
    var all := FilteredChats(chats, "all", query);
    forall c | c in all
      ensures c in FilteredChats(chats, "selling", query) <==> c !in FilteredChats(chats, "buying", query)
    {
      var k :| 0 <= k < |chats| && chats[k] == c;
      assert Keep(c, "selling", query) || Keep(c, "buying", query);
    }
  }

  /** The Pending Responses figure: chats with unread messages. */
  function PendingResponses(chats: seq<InboxChat>): nat {
    Lists.Count(chats, HasUnread)
  }

  /** With an empty search, the "unread" mode lists exactly the chats counted as
      pending. */
  lemma PendingResponsesIsUnreadFilter(chats: seq<InboxChat>)
    ensures PendingResponses(chats) == |FilteredChats(chats, "unread", "")|
    ensures PendingResponses(chats) <= |chats|
  {
    forall i | 0 <= i < |chats| ensures MatchesSearch(chats[i], "") {
      ContainsIgnoringCaseEmpty(chats[i].productName);
    }
    Lists.FilterCongruent(chats, (c: InboxChat) => Keep(c, "unread", ""), HasUnread);
  }

  // ---------------------------------------------------------------------
  // Relative time
  // ---------------------------------------------------------------------

  const MsPerHour := 3600000

  /** Which of the three renderings `getRelativeTime` picks. */
  datatype RelativeTime = ClockTime | Yesterday | CalendarDate

  /** The elapsed time in (fractional) hours decides the label. */
  function RelativeTimeOf(now: int, timestamp: int): RelativeTime {
    var diffInHours := (now - timestamp) as real / MsPerHour as real;
    if diffInHours < 24.0 then ClockTime
    else if diffInHours < 48.0 then Yesterday
    else CalendarDate
  }

  /** Under 24 hours shows the clock time, under 48 hours "Yesterday", and later
      the date; a timestamp in the future also shows the clock time. */
  lemma RelativeTimeThresholds(now: int, timestamp: int)
    ensures RelativeTimeOf(now, timestamp) == ClockTime <==> now - timestamp < 24 * MsPerHour
    ensures RelativeTimeOf(now, timestamp) == Yesterday <==>
      24 * MsPerHour <= now - timestamp < 48 * MsPerHour
    ensures RelativeTimeOf(now, timestamp) == CalendarDate <==> now - timestamp >= 48 * MsPerHour
  {
    var d := now - timestamp;
    var h := d as real / MsPerHour as real;
    assert h * MsPerHour as real == d as real;
    assert h < 24.0 <==> d < 24 * MsPerHour;
    assert h < 48.0 <==> d < 48 * MsPerHour;
  }

  /** An older message never gets a more recent label. */
  lemma RelativeTimeMonotone(now: int, t1: int, t2: int)
    requires t1 <= t2
    ensures RelativeTimeOf(now, t2) == CalendarDate ==> RelativeTimeOf(now, t1) == CalendarDate
    ensures RelativeTimeOf(now, t1) == ClockTime ==> RelativeTimeOf(now, t2) == ClockTime
  {
    RelativeTimeThresholds(now, t1);
    RelativeTimeThresholds(now, t2);
  }
}
