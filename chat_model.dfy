/**
 * The two Mongoose schemas of src/models/chat.model.ts: a chat message and a
 * conversation between users, with the defaults, required fields and the
 * pre-save hook that keeps a conversation's participant list canonical.
 */
module ChatModel {
  import opened Wrappers
  import opened Sequences
  import opened JsBuiltins
  import opened ChatTypes

  /** messageType: enum ['text', 'image', 'file']. */
  datatype MessageType = Text | Image | File

  /** The enum validator: the member a string names, if any. */
  function MessageTypeOf(s: string): (r: Option<MessageType>)
    ensures r == Some(Text) <==> s == "text"
    ensures r == Some(Image) <==> s == "image"
    ensures r == Some(File) <==> s == "file"
  {
    if s == "text" then Some(Text)
    else if s == "image" then Some(Image)
    else if s == "file" then Some(File)
    else None
  }

  /** A stored chat message (timestamps: only createdAt is kept). */
  datatype Message = Message(
    id: MessageId,
    sender: UserId,
    receiver: UserId,
    content: string,
    messageType: MessageType,
    isRead: bool,
    createdAt: int)

  /** A stored conversation; `unreadCount` maps a participant to a count. */
  datatype Conversation = Conversation(
    id: ConversationId,
    participants: seq<UserId>,
    lastMessage: Option<MessageId>,
    lastMessageAt: Option<int>,
    unreadCount: map<UserId, int>)

  /** Why a document fails schema validation: the first failing path, in schema order. */
  datatype SchemaError = Required(path: string) | NotInEnum(path: string, value: string)

  /**
   * `new ChatMessage({...})` followed by validation on save: sender, receiver
   * and content are required, content is trimmed before the required check,
   * messageType defaults to 'text' and must be in the enum, isRead defaults
   * to false, createdAt is the save time.
   */
  function CreateMessage(id: MessageId, sender: UserId, receiver: UserId, content: string,
                         messageType: Option<string>, now: int): (r: Result<Message, SchemaError>)
    ensures r.Ok? <==> sender != "" && receiver != "" && Trim(content) != ""
                       && (messageType.None? || MessageTypeOf(messageType.value).Some?)
    ensures r.Ok? ==> var m := r.value;
      && m.id == id && m.sender == sender && m.receiver == receiver && m.createdAt == now
      && m.content == Trim(content) && !m.isRead
      && (messageType.None? ==> m.messageType == Text)
      && (messageType.Some? ==> MessageTypeOf(messageType.value) == Some(m.messageType))
    ensures r.Err? ==> (r.error == Required("sender") <==> sender == "")
  {
    if sender == "" then Err(Required("sender"))
    else if receiver == "" then Err(Required("receiver"))
    else if Trim(content) == "" then Err(Required("content"))
    else
      var kind := if messageType.None? then Some(Text) else MessageTypeOf(messageType.value);
      if kind.None? then Err(NotInEnum("messageType", messageType.value))
      else Ok(Message(id, sender, receiver, Trim(content), kind.value, false, now))
  }

  /** What a message stores is already trimmed and not blank. */
  lemma StoredContentIsTrimmed(id: MessageId, sender: UserId, receiver: UserId, content: string,
                               messageType: Option<string>, now: int)
    requires CreateMessage(id, sender, receiver, content, messageType, now).Ok?
    ensures var m := CreateMessage(id, sender, receiver, content, messageType, now).value;
      Trim(m.content) == m.content && m.content != ""
  {
    TrimIdempotent(content);
  }

  /** `new Conversation({...})`: unreadCount defaults to the empty map. */
  function NewConversation(id: ConversationId, participants: seq<UserId>, lastMessage: Option<MessageId>,
                           lastMessageAt: Option<int>, unreadCount: Option<map<UserId, int>>): (c: Conversation)
    ensures unreadCount.None? ==> c.unreadCount == map[]
    ensures unreadCount.Some? ==> c.unreadCount == unreadCount.value
    ensures c.participants == participants && c.lastMessage == lastMessage
  {
    Conversation(id, participants, lastMessage, lastMessageAt, unreadCount.GetOr(map[]))
  }

  // ---------------------------------------------------------------------------
  // The pre-save hook: participants = [...new Set(participants)].sort()
  // ---------------------------------------------------------------------------

  /** `[...new Set(xs)]`: the first occurrence of each element, in order. */
  function Dedup(xs: seq<UserId>): (r: seq<UserId>)
    ensures Distinct(r)
    ensures forall x :: x in r <==> x in xs
  {
    if xs == [] then []
    else
      var init, last := xs[..|xs| - 1], xs[|xs| - 1];
      assert xs == init + [last];
      if last in init then Dedup(init) else Dedup(init) + [last]
  }

  /** The participant list the pre-save hook stores. */
  function NormaliseParticipants(ps: seq<UserId>): (r: seq<UserId>)
    ensures StrictlySorted(r)
    ensures forall x :: x in r <==> x in ps
  {
    var d := Dedup(ps);
    SortStringsStrict(d);
    assert forall x :: x in SortStrings(d) <==> x in multiset(d);
    SortStrings(d)
  }

  /** The hook that every `conversation.save()` applies. */
  function PreSave(c: Conversation): (r: Conversation)
    ensures StrictlySorted(r.participants)
    ensures forall x :: x in r.participants <==> x in c.participants
    ensures r == c.(participants := r.participants)
  {
    c.(participants := NormaliseParticipants(c.participants))
  }

  /** The stored list depends only on which ids were given, not on their order or repeats. */
  lemma NormaliseOrderIndependent(ps: seq<UserId>, qs: seq<UserId>)
    requires forall x :: x in ps <==> x in qs
    ensures NormaliseParticipants(ps) == NormaliseParticipants(qs)
  {
    StrictlySortedUnique(NormaliseParticipants(ps), NormaliseParticipants(qs));
  }

  /** A list that is already ascending without repeats is stored as it is. */
  lemma NormaliseKeepsCanonical(ps: seq<UserId>)
    ensures StrictlySorted(ps) ==> NormaliseParticipants(ps) == ps
  {
    if StrictlySorted(ps) {
      StrictlySortedUnique(NormaliseParticipants(ps), ps);
    }
  }

  /** Saving twice stores the same participants as saving once. */
  lemma NormaliseIdempotent(ps: seq<UserId>)
    ensures NormaliseParticipants(NormaliseParticipants(ps)) == NormaliseParticipants(ps)
  {
    NormaliseKeepsCanonical(NormaliseParticipants(ps));
  }

  /** [A, B] and [B, A] are stored alike. */
  lemma NormalisePairSymmetric(a: UserId, b: UserId)
    ensures NormaliseParticipants([a, b]) == NormaliseParticipants([b, a])
  {
    NormaliseOrderIndependent([a, b], [b, a]);
  }
}
