/**
 * SocketService of src/services/socket.service.ts: the presence registry
 * `connectedUsers` and the rules deciding which events each handler emits to
 * whom. The transport is an append-only log of emissions; a handler's socket
 * is the session it was registered with on connection.
 */
module SocketService {
  import opened Wrappers
  import opened ChatTypes
  import opened ChatModel
  import opened ChatService

  /** AuthenticatedSocket: who is connected on which socket. */
  datatype Session = Session(userId: UserId, username: string, socketId: string)

  /** `socket.emit` / `io.to(socketId).emit` reach one socket, `io.emit` reaches everyone. */
  datatype Target = ToSocket(socketId: string) | ToAll

  /** The events the server emits, with their payloads. */
  datatype ServerEvent =
    | MessageSent(message: Message)                               // 'message_sent', success true
    | MessageError                                                // 'message_error', 'Failed to send message'
    | NewMessage(payload: SocketMessageData)                      // 'new_message'
    | UserTyping(typing: SocketMessage)                           // 'user_typing'
    | MessagesRead(receipt: SocketMessage)                        // 'messages_read'
    | UserStatus(userId: UserId, username: string, isOnline: bool) // 'user_status', type online/offline
    | Notification(notice: ChatNotification)                      // 'notification'
    | Custom(name: string, data: string)                          // sendToUser / broadcastToAll

  datatype Emission = Emission(target: Target, event: ServerEvent)

  /** A JavaScript-truthy optional string: present and not empty. */
  predicate Truthy(o: Option<string>) {
    o.Some? && o.value != ""
  }

  // ---------------------------------------------------------------------------
  // Presence broadcasts in a log
  // ---------------------------------------------------------------------------

  /** The number of `user_status` broadcasts with the given online flag. */
  function StatusBroadcasts(log: seq<Emission>, online: bool): nat {
    if log == [] then 0
    else
      var e := log[|log| - 1];
      StatusBroadcasts(log[..|log| - 1], online)
        + (if e.target == ToAll && e.event.UserStatus? && e.event.isOnline == online then 1 else 0)
  }

  lemma {:induction false} StatusBroadcastsAppend(a: seq<Emission>, b: seq<Emission>, online: bool)
    ensures StatusBroadcasts(a + b, online) == StatusBroadcasts(a, online) + StatusBroadcasts(b, online)
  {
    if b == [] {
      assert a + b == a;
    } else {
      assert (a + b)[..|a + b| - 1] == a + b[..|b| - 1];
      StatusBroadcastsAppend(a, b[..|b| - 1], online);
    }
  }

  /** Emissions that carry no presence status add no presence broadcast. */
  lemma {:induction false} NoStatusNoBroadcast(log: seq<Emission>, online: bool)
    requires forall e :: e in log ==> !e.event.UserStatus?
    ensures StatusBroadcasts(log, online) == 0
  {
    if log != [] {
      assert log[|log| - 1] in log;
      NoStatusNoBroadcast(log[..|log| - 1], online);
    }
  }

  /** Appending emissions without presence status leaves both broadcast counts as they were. */
  lemma QuietAppend(log: seq<Emission>, replies: seq<Emission>)
    requires forall e :: e in replies ==> !e.event.UserStatus?
    ensures StatusBroadcasts(log + replies, true) == StatusBroadcasts(log, true)
    ensures StatusBroadcasts(log + replies, false) == StatusBroadcasts(log, false)
  {
    NoStatusNoBroadcast(replies, true);
    NoStatusNoBroadcast(replies, false);
    StatusBroadcastsAppend(log, replies, true);
    StatusBroadcastsAppend(log, replies, false);
  }

  // ---------------------------------------------------------------------------
  // The dispatch rules
  // ---------------------------------------------------------------------------

  /** The gate of 'send_message': type 'message' with a receiver and content. */
  predicate SendAccepted(m: SocketMessage) {
    m.kind == MessageEvent && Truthy(m.data.receiver) && Truthy(m.data.content)
  }

  /** What the handler hands to the chat service: `messageType || 'text'`. */
  function RequestOf(m: SocketMessage): (r: ChatMessageRequest)
    requires SendAccepted(m)
    ensures r.receiver == m.data.receiver.value && r.content == m.data.content.value
    ensures r.messageType.Some? && (Truthy(m.data.messageType) ==> r.messageType == m.data.messageType)
    ensures !Truthy(m.data.messageType) ==> r.messageType == Some("text")
  {
    ChatMessageRequest(m.data.receiver.value, m.data.content.value, Some(ResolvedType(m.data.messageType)))
  }

  /**
   * The replies to an accepted send, given the service's outcome: on success
   * 'message_sent' to the sender, then 'new_message' and 'notification' to
   * the receiver when the receiver is connected; on failure only
   * 'message_error' to the sender.
   */
  function SendReplies(s: Session, receiver: UserId, outcome: Result<Message, ChatError>,
                       users: map<UserId, Session>): (r: seq<Emission>)
    ensures outcome.Err? ==> r == [Emission(ToSocket(s.socketId), MessageError)]
    ensures outcome.Ok? ==> |r| == (if receiver in users then 3 else 1)
    ensures outcome.Ok? ==> r[0] == Emission(ToSocket(s.socketId), MessageSent(outcome.value))
    ensures outcome.Ok? && receiver in users ==>
      && r[1].target == ToSocket(users[receiver].socketId) && r[1].event.NewMessage?
      && r[2].target == ToSocket(users[receiver].socketId) && r[2].event.Notification?
    ensures outcome.Ok? && receiver in users ==>
      var p := r[1].event.payload;
      p.sender == Some(s.userId) && p.receiver == Some(receiver) && p.messageId == Some(outcome.value.id)
      && p.content == Some(outcome.value.content) && p.conversationId == Some(outcome.value.id)
    ensures outcome.Ok? && receiver in users ==>
      var n := r[2].event.notice;
      n.kind == NewMessageNotice && n.data.sender == Some(s.userId) && n.data.receiver == Some(receiver)
      && n.data.messageId == Some(outcome.value.id) && n.data.username == Some(s.username)
      && n.data.content == Some(outcome.value.content) && n.data.conversationId == None && n.data.userId == None
    ensures forall e :: e in r ==> !e.event.UserStatus?
  {
    match outcome
    case Err(_) => [Emission(ToSocket(s.socketId), MessageError)]
    case Ok(message) =>
      var sent := Emission(ToSocket(s.socketId), MessageSent(message));
      if receiver !in users then [sent]
      else
        var to := ToSocket(users[receiver].socketId);
        var payload := NoData.(sender := Some(s.userId), receiver := Some(receiver), messageId := Some(message.id),
                               content := Some(message.content), conversationId := Some(message.id));
        var notice := ChatNotification(NewMessageNotice,
          NotificationData(Some(s.userId), Some(receiver), Some(message.id), None, Some(message.content), None, Some(s.username)));
        [sent, Emission(to, NewMessage(payload)), Emission(to, Notification(notice))]
  }

  /** 'typing': forwarded to the receiver's socket only for type 'typing' with a connected receiver. */
  function TypingReplies(s: Session, m: SocketMessage, users: map<UserId, Session>): (r: seq<Emission>)
    ensures |r| <= 1
    ensures |r| == 1 <==> m.kind == TypingEvent && Truthy(m.data.receiver) && m.data.receiver.value in users
    ensures |r| == 1 ==> r[0].target == ToSocket(users[m.data.receiver.value].socketId)
    ensures |r| == 1 ==> (
      && r[0].event.UserTyping? && r[0].event.typing.kind == TypingEvent
      && r[0].event.typing.data.sender == Some(s.userId) && r[0].event.typing.data.receiver == m.data.receiver
      && r[0].event.typing.data.isTyping == m.data.isTyping)
    ensures forall e :: e in r ==> !e.event.UserStatus?
  {
    if m.kind == TypingEvent && Truthy(m.data.receiver) && m.data.receiver.value in users then
      var data := NoData.(sender := Some(s.userId), receiver := m.data.receiver, isTyping := m.data.isTyping);
      [Emission(ToSocket(users[m.data.receiver.value].socketId), UserTyping(SocketMessage(TypingEvent, data)))]
    else []
  }

  /** The gate of 'mark_read': type 'read' with a sender. */
  predicate ReadAccepted(m: SocketMessage) {
    m.kind == ReadEvent && Truthy(m.data.sender)
  }

  /** After a successful read-mark, 'messages_read' goes to the original sender when connected. */
  function ReadReplies(s: Session, m: SocketMessage, users: map<UserId, Session>): (r: seq<Emission>)
    requires ReadAccepted(m)
    ensures |r| <= 1
    ensures |r| == 1 <==> m.data.sender.value in users
    ensures |r| == 1 ==> r[0].target == ToSocket(users[m.data.sender.value].socketId)
    ensures |r| == 1 ==> (
      && r[0].event.MessagesRead? && r[0].event.receipt.kind == ReadEvent
      && r[0].event.receipt.data.sender == m.data.sender && r[0].event.receipt.data.receiver == Some(s.userId)
      && r[0].event.receipt.data.conversationId == m.data.conversationId)
    ensures forall e :: e in r ==> !e.event.UserStatus?
  {
    var sender := m.data.sender.value;
    if sender in users then
      var data := NoData.(sender := m.data.sender, receiver := Some(s.userId), conversationId := m.data.conversationId);
      [Emission(ToSocket(users[sender].socketId), MessagesRead(SocketMessage(ReadEvent, data)))]
    else []
  }

  /** The 'user_status' broadcast. */
  function StatusBroadcast(s: Session, online: bool): (e: Emission)
    ensures StatusBroadcasts([e], online) == 1 && StatusBroadcasts([e], !online) == 0
  {
    Emission(ToAll, UserStatus(s.userId, s.username, online))
  }

  // ---------------------------------------------------------------------------
  // The server
  // ---------------------------------------------------------------------------

  class SocketServer {
    const chat: ChatStore
    var connectedUsers: map<UserId, Session>
    var outbox: seq<Emission>

    /** Each entry is filed under its own user id. */
    ghost predicate Registered()
      reads this
    {
      forall u :: u in connectedUsers ==> connectedUsers[u].userId == u
    }

    ghost predicate Valid()
      reads this, chat
    {
      Registered() && chat.Valid()
    }

    constructor ()
      ensures Valid() && fresh(chat)
      ensures connectedUsers == map[] && outbox == []
      ensures chat.messages == [] && chat.conversations == map[]
    {
      chat := new ChatStore();
      connectedUsers := map[];
      outbox := [];
    }

    /** 'connection': register the session, replacing any earlier one, and broadcast online. */
    method OnConnection(s: Session)
      requires Valid()
      modifies this
      ensures Valid()
      ensures connectedUsers == old(connectedUsers)[s.userId := s]
      ensures outbox == old(outbox) + [StatusBroadcast(s, true)]
      ensures StatusBroadcasts(outbox, true) == StatusBroadcasts(old(outbox), true) + 1
      ensures StatusBroadcasts(outbox, false) == StatusBroadcasts(old(outbox), false)
    {
      connectedUsers := connectedUsers[s.userId := s];
      StatusBroadcastsAppend(outbox, [StatusBroadcast(s, true)], true);
      StatusBroadcastsAppend(outbox, [StatusBroadcast(s, true)], false);
      outbox := outbox + [StatusBroadcast(s, true)];
    }

    /**
     * 'disconnect': drop the entry of the session's user, whichever socket it
     * now holds, and broadcast offline.
     */
    method OnDisconnect(s: Session)
      requires Valid()
      modifies this
      ensures Valid()
      ensures connectedUsers == old(connectedUsers) - {s.userId}
      ensures outbox == old(outbox) + [StatusBroadcast(s, false)]
      ensures StatusBroadcasts(outbox, false) == StatusBroadcasts(old(outbox), false) + 1
      ensures StatusBroadcasts(outbox, true) == StatusBroadcasts(old(outbox), true)
    {
      connectedUsers := connectedUsers - {s.userId};
      StatusBroadcastsAppend(outbox, [StatusBroadcast(s, false)], true);
      StatusBroadcastsAppend(outbox, [StatusBroadcast(s, false)], false);
      outbox := outbox + [StatusBroadcast(s, false)];
    }

    /** 'send_message' from the session's socket; the store hands out fresh ids. */
    method OnSendMessage(s: Session, m: SocketMessage, messageId: MessageId, conversationId: ConversationId, now: int)
      requires Valid()
      requires forall x :: x in chat.messages ==> x.id != messageId
      requires conversationId !in chat.conversations
      modifies this, chat
      ensures Valid()
      ensures connectedUsers == old(connectedUsers)
      ensures !SendAccepted(m) ==>
        outbox == old(outbox) && chat.messages == old(chat.messages) && chat.conversations == old(chat.conversations)
      ensures SendAccepted(m) ==>
        var outcome := Validated(messageId, s.userId, RequestOf(m), now);
        && outbox == old(outbox) + SendReplies(s, m.data.receiver.value, outcome, connectedUsers)
        && (outcome.Err? ==> chat.messages == old(chat.messages) && chat.conversations == old(chat.conversations))
        && (outcome.Ok? ==> chat.messages == old(chat.messages) + [outcome.value])
      ensures StatusBroadcasts(outbox, true) == StatusBroadcasts(old(outbox), true)
      ensures StatusBroadcasts(outbox, false) == StatusBroadcasts(old(outbox), false)
    {
      if !SendAccepted(m) {
        return;
      }
      var outcome := chat.SendMessage(s.userId, RequestOf(m), messageId, conversationId, now);
      var replies := SendReplies(s, m.data.receiver.value, outcome, connectedUsers);
      QuietAppend(outbox, replies);
      outbox := outbox + replies;
    }

    /** 'typing': forwarded, never stored. */
    method OnTyping(s: Session, m: SocketMessage)
      requires Valid()
      modifies this
      ensures Valid()
      ensures connectedUsers == old(connectedUsers)
      ensures outbox == old(outbox) + TypingReplies(s, m, connectedUsers)
      ensures StatusBroadcasts(outbox, true) == StatusBroadcasts(old(outbox), true)
      ensures StatusBroadcasts(outbox, false) == StatusBroadcasts(old(outbox), false)
    {
      var replies := TypingReplies(s, m, connectedUsers);
      QuietAppend(outbox, replies);
      outbox := outbox + replies;
    }

    /**
     * 'mark_read': the reader marks read in the conversation whose id is the
     * *sender's user id*; a failure is swallowed and emits nothing.
     */
    method OnMarkRead(s: Session, m: SocketMessage)
      requires Valid()
      modifies this, chat
      ensures Valid()
      ensures connectedUsers == old(connectedUsers)
      ensures !ReadAccepted(m) ==>
        outbox == old(outbox) && chat.messages == old(chat.messages) && chat.conversations == old(chat.conversations)
      ensures ReadAccepted(m) && (m.data.sender.value !in old(chat.conversations)
                                  || s.userId !in old(chat.conversations)[m.data.sender.value].participants) ==>
        outbox == old(outbox) && chat.messages == old(chat.messages) && chat.conversations == old(chat.conversations)
      ensures ReadAccepted(m) && m.data.sender.value in old(chat.conversations)
              && s.userId in old(chat.conversations)[m.data.sender.value].participants ==>
        var c := old(chat.conversations)[m.data.sender.value];
        && chat.messages == MarkReadIn(old(chat.messages), s.userId, c.participants)
        && chat.conversations == old(chat.conversations)[m.data.sender.value := ResetUnread(c, s.userId)]
        && outbox == old(outbox) + ReadReplies(s, m, connectedUsers)
    {
      if !ReadAccepted(m) {
        return;
      }
      var failure := chat.MarkMessagesAsRead(s.userId, m.data.sender.value);
      if failure.None? {
        outbox := outbox + ReadReplies(s, m, connectedUsers);
      }
    }

    /** isUserOnline: some registered session belongs to the user. */
    function IsUserOnline(u: UserId): (b: bool)
      reads this
      requires Registered()
      ensures b <==> exists x :: x in connectedUsers.Values && x.userId == u
    {
      assert u in connectedUsers ==> connectedUsers[u] in connectedUsers.Values;
      u in connectedUsers
    }

    /** sendToUser: one emission to the user's socket, none when the user is offline. */
    method SendToUser(u: UserId, event: string, data: string)
      modifies this
      ensures connectedUsers == old(connectedUsers)
      ensures u !in connectedUsers ==> outbox == old(outbox)
      ensures u in connectedUsers ==> outbox == old(outbox) + [Emission(ToSocket(connectedUsers[u].socketId), Custom(event, data))]
    {
      if u in connectedUsers {
        outbox := outbox + [Emission(ToSocket(connectedUsers[u].socketId), Custom(event, data))];
      }
    }

    /** broadcastToAll */
    method BroadcastToAll(event: string, data: string)
      modifies this
      ensures connectedUsers == old(connectedUsers)
      ensures outbox == old(outbox) + [Emission(ToAll, Custom(event, data))]
    {
      outbox := outbox + [Emission(ToAll, Custom(event, data))];
    }

    /** getConnectedUsers: every registered session once. */
    method GetConnectedUsers() returns (sessions: seq<Session>)
      requires Registered()
      ensures |sessions| == |connectedUsers.Keys|
      ensures forall x :: x in sessions <==> x in connectedUsers.Values
      ensures forall i, j :: 0 <= i < j < |sessions| ==> sessions[i].userId != sessions[j].userId
    {
      sessions := [];
      var todo := connectedUsers.Keys;
      while todo != {}
        invariant todo <= connectedUsers.Keys
        invariant |sessions| + |todo| == |connectedUsers.Keys|
        invariant forall x :: x in sessions ==> x.userId in connectedUsers && x.userId !in todo && connectedUsers[x.userId] == x
        invariant forall u :: u in connectedUsers && u !in todo ==> connectedUsers[u] in sessions
        invariant forall i, j :: 0 <= i < j < |sessions| ==> sessions[i].userId != sessions[j].userId
        decreases |todo|
      {
        var u :| u in todo;
        sessions := sessions + [connectedUsers[u]];
        todo := todo - {u};
      }
      forall x | x in connectedUsers.Values ensures x in sessions {
        var u :| u in connectedUsers && connectedUsers[u] == x;
      }
    }
  }

  /**
   * A user who reconnects on a new socket before the old socket's disconnect
   * arrives is reported offline although the new socket is live: the
   * disconnect removes the entry by user id alone.
   */
  method StaleDisconnectDropsNewSession(first: Session, second: Session) returns (server: SocketServer)
    requires first.userId == second.userId
    ensures server.Registered() && !server.IsUserOnline(second.userId)
    ensures StatusBroadcasts(server.outbox, true) == 2 && StatusBroadcasts(server.outbox, false) == 1
  {
    server := new SocketServer();
    server.OnConnection(first);
    server.OnConnection(second);
    server.OnDisconnect(first);
  }
}
