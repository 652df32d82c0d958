/**
 * The earlier chat room component. Its socket handling of history, live
 * messages and typing events is the same as the current one's; it adds a
 * typing indicator that the client sends while the user edits the draft,
 * switched off again by a 2000 ms timer, and it derives the other party of
 * the trade from the product's seller.
 */
module LegacyChatRoom {
  import opened Wrappers
  import opened Text
  import opened ChatRoom

  /** How long after the last keystroke the "stopped typing" frame is sent. */
  const TypingTimeoutMs := 2000

  /** A user taking part in a chat. */
  datatype Participant = Participant(id: int, name: string)

  /** The product a chat is about, reduced to its seller. */
  datatype ChatProduct = ChatProduct(seller: Participant)

  datatype Chat = Chat(product: ChatProduct, otherParticipant: Participant)

  /** The signed-in user is the seller iff their id is the product seller's id. */
  predicate IsSeller(currentUser: Option<int>, chat: Chat) {
    currentUser == Some(chat.product.seller.id)
  }

  /** The person on the other side of the trade. */
  function OtherParty(currentUser: Option<int>, chat: Chat): (p: Participant)
    ensures IsSeller(currentUser, chat) ==> p == chat.otherParticipant
    ensures !IsSeller(currentUser, chat) ==> p == chat.product.seller
  {
    if IsSeller(currentUser, chat) then chat.otherParticipant else chat.product.seller
  }

  /** A buyer never sees themself as the other party; a seller sees the buyer. */
  lemma OtherPartyIsNotSelfForBuyer(currentUser: Option<int>, chat: Chat)
    requires currentUser.Some? && !IsSeller(currentUser, chat)
    ensures Some(OtherParty(currentUser, chat).id) != currentUser
  {
  }

  /** The two sides of a chat between different users see each other: the
      other party's other party is the user themself, whether that user is the
      seller or the other participant. */
  lemma OtherPartyInvolution(chat: Chat, user: Participant)
    requires chat.otherParticipant.id != chat.product.seller.id
    requires user == chat.product.seller || user == chat.otherParticipant
    ensures OtherParty(Some(OtherParty(Some(user.id), chat).id), chat) == user
    ensures OtherParty(Some(user.id), chat) != user
  {
  }

  class LegacyChatSession {
    var messages: seq<Message>
    var draft: string
    var isTyping: bool
    var isSending: bool
    var currentUser: Option<int>
    /** The socket held in component state, by its ready state. */
    var socket: Option<ReadyState>
    var outbox: seq<Frame>
    /** Whether the typing-timeout ref holds a timer id (it is never reset to null). */
    var typingTimerSet: bool
    /** Timers scheduled and neither fired nor cleared. */
    var pendingTimers: nat
    var soundsPlayed: nat

    /** At most one typing timer is scheduled, and only while the ref holds one. */
    predicate Valid()
      reads this
    {
      pendingTimers <= 1 && (pendingTimers == 1 ==> typingTimerSet)
    }

    constructor ()
      ensures messages == [] && draft == [] && !isTyping && !isSending
      ensures currentUser == None && socket == None && outbox == []
      ensures !typingTimerSet && pendingTimers == 0 && soundsPlayed == 0
      ensures Valid()
    {
      messages := [];
      draft := [];
      isTyping := false;
      isSending := false;
      currentUser := None;
      socket := None;
      outbox := [];
      typingTimerSet := false;
      pendingTimers := 0;
      soundsPlayed := 0;
    }

    method SetCurrentUser(id: Option<int>)
      modifies this
      ensures currentUser == id
      ensures messages == old(messages) && draft == old(draft) && isTyping == old(isTyping)
      ensures isSending == old(isSending) && socket == old(socket) && outbox == old(outbox)
      ensures typingTimerSet == old(typingTimerSet) && pendingTimers == old(pendingTimers) && soundsPlayed == old(soundsPlayed)
    {
      currentUser := id;
    }

    method SetSocket(state: ReadyState)
      modifies this
      ensures socket == Some(state)
      ensures messages == old(messages) && draft == old(draft) && isTyping == old(isTyping)
      ensures isSending == old(isSending) && currentUser == old(currentUser) && outbox == old(outbox)
      ensures typingTimerSet == old(typingTimerSet) && pendingTimers == old(pendingTimers) && soundsPlayed == old(soundsPlayed)
    {
      socket := Some(state);
    }

    /** The same `onmessage` handling as the current chat room. */
    method OnMessage(e: ServerEvent)
      modifies this
      ensures e.ChatHistory? ==> messages == SortByTimestamp(e.messages)
      ensures e.ChatMessage? ==> messages == AppendIfNew(old(messages), e.message)
      ensures !e.ChatHistory? && !e.ChatMessage? ==> messages == old(messages)
      ensures soundsPlayed == old(soundsPlayed)
                + (if e.ChatMessage? && PlaysSound(e.message, currentUser) then 1 else 0)
      ensures isTyping == (if e.TypingIndicator? then e.isTyping else old(isTyping))
      ensures draft == old(draft) && isSending == old(isSending) && currentUser == old(currentUser)
      ensures socket == old(socket) && outbox == old(outbox) && typingTimerSet == old(typingTimerSet)
      ensures pendingTimers == old(pendingTimers)
    {
      match e
      case ChatHistory(ms) =>
        messages := SortByTimestamp(ms);
      case ChatMessage(m) =>
        messages := AppendIfNew(messages, m);
        if PlaysSound(m, currentUser) {
          soundsPlayed := soundsPlayed + 1;
        }
      case TypingIndicator(b) =>
        isTyping := b;
      case OtherEvent =>
    }

    /** `sendTypingIndicator`: announce typing and restart the stop timer. */
    method SendTypingIndicator()
      modifies this
      requires Valid()
      ensures Valid()
      ensures socket != Some(Open) ==>
                outbox == old(outbox) && pendingTimers == old(pendingTimers)
                && typingTimerSet == old(typingTimerSet)
      ensures socket == Some(Open) ==>
                outbox == old(outbox) + [TypingFrame(true)] && pendingTimers == 1 && typingTimerSet
      ensures messages == old(messages) && draft == old(draft) && isTyping == old(isTyping)
      ensures isSending == old(isSending) && currentUser == old(currentUser) && socket == old(socket)
      ensures soundsPlayed == old(soundsPlayed)
    {
      if socket == Some(Open) {
        outbox := outbox + [TypingFrame(true)];
        if typingTimerSet {
          pendingTimers := 0;
        }
        pendingTimers := pendingTimers + 1;
        typingTimerSet := true;
      }
    }

    /** `handleMessageChange`: the draft is replaced and typing is announced. */
    method HandleMessageChange(text: string)
      modifies this
      requires Valid()
      ensures Valid()
      ensures draft == text
      ensures socket == Some(Open) ==> outbox == old(outbox) + [TypingFrame(true)] && pendingTimers == 1
      ensures socket != Some(Open) ==> outbox == old(outbox) && pendingTimers == old(pendingTimers)
      ensures typingTimerSet == (old(typingTimerSet) || socket == Some(Open))
      ensures messages == old(messages) && isTyping == old(isTyping) && isSending == old(isSending)
      ensures currentUser == old(currentUser) && socket == old(socket) && soundsPlayed == old(soundsPlayed)
    {
      draft := text;
      SendTypingIndicator();
    }

    /** The 2000 ms timer fires and sends "stopped typing" (the ref keeps its stale id). */
    method TypingTimerFires()
      modifies this
      requires Valid()
      ensures Valid()
      ensures old(pendingTimers) == 1 ==> outbox == old(outbox) + [TypingFrame(false)] && pendingTimers == 0
      ensures old(pendingTimers) == 0 ==> outbox == old(outbox) && pendingTimers == 0
      ensures messages == old(messages) && draft == old(draft) && isTyping == old(isTyping)
      ensures isSending == old(isSending) && currentUser == old(currentUser) && socket == old(socket)
      ensures typingTimerSet == old(typingTimerSet) && soundsPlayed == old(soundsPlayed)
    {
      if pendingTimers == 1 {
        outbox := outbox + [TypingFrame(false)];
        pendingTimers := 0;
      }
    }

    /** `sendMessage`: the trimmed draft goes out; a set typing ref adds "stopped typing". */
    method SendMessage()
      modifies this
      requires Valid()
      ensures Valid()
      ensures !CanSend(old(draft), old(isSending), old(socket)) ==>
                outbox == old(outbox) && draft == old(draft) && pendingTimers == old(pendingTimers)
                && isSending == old(isSending)
      ensures CanSend(old(draft), old(isSending), old(socket)) ==>
                outbox == old(outbox) + SentFrames(old(draft), old(typingTimerSet))
                && draft == [] && !isSending
                && pendingTimers == 0
      ensures messages == old(messages) && isTyping == old(isTyping) && currentUser == old(currentUser)
      ensures socket == old(socket) && typingTimerSet == old(typingTimerSet) && soundsPlayed == old(soundsPlayed)
    {
      var canSend := CanSend(draft, isSending, socket);
      if canSend {
        // The send clears the typing timer when its ref is set; `isSending` is
        // lowered again in the `finally`.
        var frames := SentFrames(draft, typingTimerSet);
        outbox, draft, isSending, pendingTimers :=
          outbox + frames, [], false, if typingTimerSet then 0 else pendingTimers;
      }
    }
  }
}
