/**
 * The chat room of a trade: the message list kept in step with the chat
 * socket (history, live messages, typing indicator) and the guarded send of
 * the draft. The socket is an abstract ready state plus the queue of frames
 * the client has sent on it.
 */
module ChatRoom {
  import opened Wrappers
  import opened Text
  import StableSort

  /** A chat message; `timestamp` is in ms since the epoch. */
  datatype Message = Message(id: int, senderId: int, content: string, timestamp: int)

  /** What the server pushes on the chat socket. */
  datatype ServerEvent =
    | ChatHistory(messages: seq<Message>)
    | ChatMessage(message: Message)
    | TypingIndicator(isTyping: bool)
    | OtherEvent

  /** What the client sends on the chat socket. */
  datatype Frame = ChatFrame(content: string) | TypingFrame(isTyping: bool)

  /** The `readyState` of a WebSocket. */
  datatype ReadyState = Connecting | Open | Closing | Closed

  // ---------------------------------------------------------------------
  // Message list updates
  // ---------------------------------------------------------------------

  function Timestamp(m: Message): int {
    m.timestamp
  }

  /** The list a history event (or the initial fetch) installs: oldest first. */
  function SortByTimestamp(ms: seq<Message>): (r: seq<Message>)
    ensures |r| == |ms| && multiset(r) == multiset(ms)
    ensures forall i, j :: 0 <= i < j < |r| ==> r[i].timestamp <= r[j].timestamp
  {
    StableSort.Sort(ms, Timestamp)
  }

  /** Messages with the same timestamp keep the order the server gave them. */
  lemma SortByTimestampStable(ms: seq<Message>, t: int)
    ensures StableSort.WithKey(SortByTimestamp(ms), Timestamp, t) == StableSort.WithKey(ms, Timestamp, t)
  {
    StableSort.SortStable(ms, Timestamp, t);
  }

  /** A list that is already in order is installed as it is. */
  lemma SortByTimestampOfSorted(ms: seq<Message>)
    requires forall i, j :: 0 <= i < j < |ms| ==> ms[i].timestamp <= ms[j].timestamp
    ensures SortByTimestamp(ms) == ms
  {
    StableSort.SortOfSorted(ms, Timestamp);
  }

  predicate HasMessage(ms: seq<Message>, id: int) {
    exists i :: 0 <= i < |ms| && ms[i].id == id
  }

  predicate DistinctIds(ms: seq<Message>) {
    forall i, j :: 0 <= i < j < |ms| ==> ms[i].id != ms[j].id
  }

  /** A live message goes to the end unless its id is already listed. */
  function AppendIfNew(ms: seq<Message>, m: Message): seq<Message> {
    if HasMessage(ms, m.id) then ms else ms + [m]
  }

  /** The old list is kept as a prefix, the message is listed afterwards,
      and at most one entry is added. */
  lemma AppendIfNewShape(ms: seq<Message>, m: Message)
    ensures |ms| <= |AppendIfNew(ms, m)| <= |ms| + 1
    ensures AppendIfNew(ms, m)[..|ms|] == ms
    ensures HasMessage(AppendIfNew(ms, m), m.id)
    ensures |AppendIfNew(ms, m)| == |ms| + 1 <==> !HasMessage(ms, m.id)
  {
    if !HasMessage(ms, m.id) {
      assert AppendIfNew(ms, m)[|ms|] == m;
    }
  }

  /** Distinct ids stay distinct. */
  lemma AppendIfNewKeepsDistinct(ms: seq<Message>, m: Message)
    requires DistinctIds(ms)
    ensures DistinctIds(AppendIfNew(ms, m))
  {
  }

  /** Delivering the same message twice has the effect of delivering it once. */
  lemma AppendIfNewIdempotent(ms: seq<Message>, m: Message)
    ensures AppendIfNew(AppendIfNew(ms, m), m) == AppendIfNew(ms, m)
  {
    AppendIfNewShape(ms, m);
  }

  /** The sound is played for a message unless the signed-in user sent it. */
  predicate PlaysSound(m: Message, currentUser: Option<int>) {
    currentUser != Some(m.senderId)
  }

  /** The send guard: a non-blank draft, no send in flight, an open socket. */
  predicate CanSend(draft: string, isSending: bool, socket: Option<ReadyState>) {
    Trim(draft) != [] && !isSending && socket == Some(Open)
  }

  lemma CanSendExactly(draft: string, isSending: bool, socket: Option<ReadyState>)
    ensures CanSend(draft, isSending, socket)
        <==> !AllSpace(Ecma, draft) && !isSending && socket == Some(Open)
  {
    TrimEmptyIff(Ecma, draft);
  }

  /** The frames one send puts on the socket: the trimmed text, then a
      "stopped typing" frame when a typing timer was pending. */
  function SentFrames(draft: string, typingTimerSet: bool): (r: seq<Frame>)
    ensures |r| >= 1 && r[0] == ChatFrame(Trim(draft))
    ensures |r| == 1 <==> !typingTimerSet
  {
    [ChatFrame(Trim(draft))] + (if typingTimerSet then [TypingFrame(false)] else [])
  }

  // ---------------------------------------------------------------------
  // The component state
  // ---------------------------------------------------------------------

  class ChatSession {
    var messages: seq<Message>
    var draft: string
    var isTyping: bool
    var isSending: bool
    var isLoading: bool
    var isConnected: bool
    var currentUser: Option<int>
    /** The socket held in the socket ref, by its ready state. */
    var socket: Option<ReadyState>
    /** Every frame sent on the socket, oldest first. */
    var outbox: seq<Frame>
    /** Whether the typing-timeout ref holds a timer. */
    var typingTimerSet: bool
    /** How many times the notification sound was started. */
    var soundsPlayed: nat

    /** This component never stores a typing timer in its ref. */
    predicate NoTypingTimer()
      reads this
    {
      !typingTimerSet
    }

    constructor ()
      ensures messages == [] && draft == [] && !isTyping && !isSending && isLoading
      ensures !isConnected && currentUser == None && socket == None
      ensures outbox == [] && soundsPlayed == 0
      ensures NoTypingTimer()
    {
      messages := [];
      draft := [];
      isTyping := false;
      isSending := false;
      isLoading := true;
      isConnected := false;
      currentUser := None;
      socket := None;
      outbox := [];
      typingTimerSet := false;
      soundsPlayed := 0;
    }

    method SetCurrentUser(id: Option<int>)
      modifies this
      ensures currentUser == id
      ensures messages == old(messages) && draft == old(draft) && isTyping == old(isTyping)
      ensures isSending == old(isSending) && isLoading == old(isLoading) && isConnected == old(isConnected)
      ensures socket == old(socket) && outbox == old(outbox) && typingTimerSet == old(typingTimerSet)
      ensures soundsPlayed == old(soundsPlayed)
    {
      currentUser := id;
    }

    method HandleMessageChange(text: string)
      modifies this
      ensures draft == text
      ensures messages == old(messages) && isTyping == old(isTyping) && isSending == old(isSending)
      ensures isLoading == old(isLoading) && isConnected == old(isConnected) && currentUser == old(currentUser)
      ensures socket == old(socket) && outbox == old(outbox) && typingTimerSet == old(typingTimerSet)
      ensures soundsPlayed == old(soundsPlayed)
    {
      draft := text;
    }

    /** The initial REST fetch of the chat and its messages ended: on success
        the sorted history replaces the list, on failure the list is kept;
        loading ends either way. */
    method OnHistoryFetched(ok: bool, ms: seq<Message>)
      modifies this
      ensures ok ==> messages == SortByTimestamp(ms)
      ensures !ok ==> messages == old(messages)
      ensures !isLoading
      ensures draft == old(draft) && isTyping == old(isTyping) && isSending == old(isSending)
      ensures isConnected == old(isConnected) && currentUser == old(currentUser) && socket == old(socket)
      ensures outbox == old(outbox) && typingTimerSet == old(typingTimerSet) && soundsPlayed == old(soundsPlayed)
    {
      if ok {
        messages := SortByTimestamp(ms);
      }
      isLoading := false;
    }

    /** A new socket is created and stored in the socket ref. */
    method Connect()
      modifies this
      ensures socket == Some(Connecting)
      ensures messages == old(messages) && draft == old(draft) && isTyping == old(isTyping)
      ensures isSending == old(isSending) && isLoading == old(isLoading) && isConnected == old(isConnected)
      ensures currentUser == old(currentUser) && outbox == old(outbox) && typingTimerSet == old(typingTimerSet)
      ensures soundsPlayed == old(soundsPlayed)
    {
      socket := Some(Connecting);
    }

    method OnOpen()
      modifies this
      ensures socket == Some(Open) && isConnected
      ensures messages == old(messages) && draft == old(draft) && isTyping == old(isTyping)
      ensures isSending == old(isSending) && isLoading == old(isLoading) && currentUser == old(currentUser)
      ensures outbox == old(outbox) && typingTimerSet == old(typingTimerSet) && soundsPlayed == old(soundsPlayed)
    {
      socket := Some(Open);
      isConnected := true;
    }

    method OnClose()
      modifies this
      ensures socket == Some(Closed) && !isConnected
      ensures messages == old(messages) && draft == old(draft) && isTyping == old(isTyping)
      ensures isSending == old(isSending) && isLoading == old(isLoading) && currentUser == old(currentUser)
      ensures outbox == old(outbox) && typingTimerSet == old(typingTimerSet) && soundsPlayed == old(soundsPlayed)
    {
      socket := Some(Closed);
      isConnected := false;
    }

    /** The socket's `onmessage` handler. */
    method OnMessage(e: ServerEvent)
      modifies this
      ensures e.ChatHistory? ==> messages == SortByTimestamp(e.messages)
      ensures e.ChatMessage? ==> messages == AppendIfNew(old(messages), e.message)
      ensures !e.ChatHistory? && !e.ChatMessage? ==> messages == old(messages)
      ensures soundsPlayed == old(soundsPlayed)
                + (if e.ChatMessage? && PlaysSound(e.message, currentUser) then 1 else 0)
      ensures isTyping == (if e.TypingIndicator? then e.isTyping else old(isTyping))
      ensures draft == old(draft) && isSending == old(isSending) && isLoading == old(isLoading)
      ensures isConnected == old(isConnected) && currentUser == old(currentUser) && socket == old(socket)
      ensures outbox == old(outbox) && typingTimerSet == old(typingTimerSet)
    {
      match e
      case ChatHistory(ms) =>
        messages := SortByTimestamp(ms);
      case ChatMessage(m) =>
        messages := AppendIfNew(messages, m);
        if PlaysSound(m, currentUser) {
          soundsPlayed := soundsPlayed + 1;
        }
      case TypingIndicator(b) =>
        isTyping := b;
      case OtherEvent =>
    }

    /** `sendMessage`: the trimmed draft goes out as one chat frame. */
    method SendMessage()
      modifies this
      ensures !CanSend(old(draft), old(isSending), old(socket)) ==>
                outbox == old(outbox) && draft == old(draft) && isSending == old(isSending)
      ensures CanSend(old(draft), old(isSending), old(socket)) ==>
                outbox == old(outbox) + SentFrames(old(draft), old(typingTimerSet))
                && draft == [] && !isSending
      ensures messages == old(messages) && isTyping == old(isTyping) && isLoading == old(isLoading)
      ensures isConnected == old(isConnected) && currentUser == old(currentUser) && socket == old(socket)
      ensures typingTimerSet == old(typingTimerSet) && soundsPlayed == old(soundsPlayed)
    {
      var canSend := CanSend(draft, isSending, socket);
      if canSend {
        // `isSending` is raised for the duration of the send and lowered in the
        // `finally`; with the socket write synchronous, only the lowered value is seen.
        var frames := SentFrames(draft, typingTimerSet);
        outbox, draft, isSending := outbox + frames, [], false;
      }
    }
  }
}
