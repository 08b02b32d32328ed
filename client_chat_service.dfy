/**
 * The browser side of src/services/client-chat.service.ts: ClientChatService
 * (connection state, the queue of sends made while offline, the listener
 * registry) and ChatAPIService.markAllUnreadAsRead. Socket callbacks are
 * methods, what the client sends over the socket is an append-only log, a
 * listener is an identity, and calling one is an entry in a log of calls.
 */
module ClientChat {
  import opened Wrappers
  import opened ChatTypes

  const MaxReconnectAttempts: int := 5
  const ReconnectDelayMs: int := 1000

  /** A registered callback, compared by identity as `indexOf` does. */
  type ListenerId = nat

  /** What a listener is called with. */
  datatype EventData =
    | NoPayload                       // 'connected'
    | Reason(text: string)            // 'disconnected' reason, 'connection_error' error
    | Payload(json: string)           // a server event forwarded as it came
    | Notice(notice: ChatNotification)

  datatype Invocation = Invocation(listener: ListenerId, event: string, data: EventData)

  /** What `socket.emit` carries: a chat message or a conversation id. */
  datatype Outgoing = Chat(message: SocketMessage) | Room(conversationId: ConversationId)

  datatype ClientEmission = ClientEmission(event: string, payload: Outgoing)

  /** An entry of localStorage's 'offline_messages' list. */
  datatype OfflineMessage = OfflineMessage(request: ChatMessageRequest, timestamp: int, id: string)

  datatype ConnectionStatus = ConnectionStatus(connected: bool, reconnectAttempts: int, queuedMessages: nat)

  /** The server events the client hands on to its own listeners unchanged. */
  const ForwardedEvents: set<string> :=
    {"new_message", "message_sent", "message_error", "user_typing", "messages_read", "user_status"}

  /** The body of the browser notification: the message text, or a fixed line. */
  function NotificationBody(n: ChatNotification): (body: string)
    ensures n.data.content.Some? && n.data.content.value != "" ==> body == n.data.content.value
    ensures !(n.data.content.Some? && n.data.content.value != "") ==> body == "New message received"
    ensures body != ""
  {
    if n.data.content.Some? && n.data.content.value != "" then n.data.content.value else "New message received"
  }

  /** The socket message sendMessage builds: type 'message' with receiver and content only. */
  function ChatMessageOf(req: ChatMessageRequest): (m: SocketMessage)
    ensures m.kind == MessageEvent
    ensures m.data.receiver == Some(req.receiver) && m.data.content == Some(req.content)
    ensures m.data.messageType == None && m.data.sender == None && m.data.conversationId == None
  {
    SocketMessage(MessageEvent, NoData.(receiver := Some(req.receiver), content := Some(req.content)))
  }

  /** One 'send_message' per queued message, in queue order. */
  function Sends(queue: seq<SocketMessage>): (r: seq<ClientEmission>)
    ensures |r| == |queue|
    ensures forall i :: 0 <= i < |queue| ==> r[i] == ClientEmission("send_message", Chat(queue[i]))
  {
    if queue == [] then [] else [ClientEmission("send_message", Chat(queue[0]))] + Sends(queue[1..])
  }

  /** One call per listener, in registration order. */
  function Calls(listeners: seq<ListenerId>, event: string, data: EventData): (r: seq<Invocation>)
    ensures |r| == |listeners|
    ensures forall i :: 0 <= i < |listeners| ==> r[i] == Invocation(listeners[i], event, data)
  {
    if listeners == [] then [] else [Invocation(listeners[0], event, data)] + Calls(listeners[1..], event, data)
  }

  /** `listeners.indexOf(l)`: the first position of `l`, or -1. */
  function IndexOfListener(xs: seq<ListenerId>, l: ListenerId): (k: int)
    ensures k == -1 <==> l !in xs
    ensures k != -1 ==> 0 <= k < |xs| && xs[k] == l && l !in xs[..k]
  {
    if xs == [] then -1
    else if xs[0] == l then 0
    else
      var k := IndexOfListener(xs[1..], l);
      assert xs == [xs[0]] + xs[1..];
      if k == -1 then -1
      else
        assert xs[..k + 1] == [xs[0]] + xs[1..][..k];
        k + 1
  }

  /** `if (index > -1) listeners.splice(index, 1)`: drops the first registration of `l` only. */
  function RemoveFirst(xs: seq<ListenerId>, l: ListenerId): (r: seq<ListenerId>)
    ensures l !in xs ==> r == xs
    ensures l in xs ==> |r| == |xs| - 1 && multiset(r) == multiset(xs) - multiset{l}
    ensures l in xs ==> exists i :: 0 <= i < |xs| && xs[i] == l && l !in xs[..i] && r == xs[..i] + xs[i + 1..]
  {
    var index := IndexOfListener(xs, l);
    if index > -1 then
      assert xs == xs[..index] + [l] + xs[index + 1..];
      xs[..index] + xs[index + 1..]
    else xs
  }

  /** Registering a new listener and then removing it gives back the list as it was. */
  lemma OffUndoesOn(xs: seq<ListenerId>, l: ListenerId)
    requires l !in xs
    ensures RemoveFirst(xs + [l], l) == xs
  {
    var ys := xs + [l];
    assert forall j :: 0 <= j < |xs| ==> ys[j] == xs[j] && ys[j] != l;
    assert IndexOfListener(ys, l) == |xs|;
    assert ys[..|xs|] == xs;
  }

  lemma CallsAppend(listeners: seq<ListenerId>, l: ListenerId, event: string, data: EventData)
    ensures Calls(listeners + [l], event, data) == Calls(listeners, event, data) + [Invocation(l, event, data)]
  {
    var a, b := Calls(listeners + [l], event, data), Calls(listeners, event, data) + [Invocation(l, event, data)];
    assert |a| == |b|;
    forall i | 0 <= i < |a| ensures a[i] == b[i] {
      if i < |listeners| {
        assert (listeners + [l])[i] == listeners[i];
      }
    }
  }

  // ---------------------------------------------------------------------------
  // ClientChatService
  // ---------------------------------------------------------------------------

  class ClientChatService {
    /** `socket !== null` */
    var hasSocket: bool
    var isConnected: bool
    var reconnectAttempts: int
    var messageQueue: seq<SocketMessage>
    var eventListeners: map<string, seq<ListenerId>>
    /** What went out over the socket. */
    var outbound: seq<ClientEmission>
    /** The listener calls made so far. */
    var invocations: seq<Invocation>
    /** localStorage's 'offline_messages' entry, when there is one. */
    var offlineMessages: Option<seq<OfflineMessage>>
    /** Bodies of the browser notifications shown. */
    var shown: seq<string>
    /** Reconnect timers set and not yet fired. */
    var pendingReconnects: nat
    /** Whether the page may show notifications. */
    const notificationsGranted: bool

    /** The constructor creates the socket; `saved` is what localStorage already holds. */
    constructor (saved: Option<seq<OfflineMessage>>, granted: bool)
      ensures Valid() && hasSocket && !isConnected && reconnectAttempts == 0 && messageQueue == []
      ensures eventListeners == map[] && outbound == [] && invocations == [] && shown == []
      ensures offlineMessages == saved && pendingReconnects == 0 && notificationsGranted == granted
    {
      hasSocket := true;
      isConnected := false;
      reconnectAttempts := 0;
      messageQueue := [];
      eventListeners := map[];
      outbound := [];
      invocations := [];
      offlineMessages := saved;
      shown := [];
      pendingReconnects := 0;
      notificationsGranted := granted;
    }

    /** Only an existing socket can be connected. */
    ghost predicate Valid()
      reads this
    {
      isConnected ==> hasSocket
    }

    function ListenersOf(event: string): seq<ListenerId>
      reads this
    {
      if event in eventListeners then eventListeners[event] else []
    }

    /** emit: every listener of the event is called, in registration order, a throwing one not stopping the rest. */
    method Emit(event: string, data: EventData)
      modifies this
      ensures invocations == old(invocations) + Calls(old(ListenersOf(event)), event, data)
      ensures hasSocket == old(hasSocket) && isConnected == old(isConnected)
      ensures reconnectAttempts == old(reconnectAttempts) && messageQueue == old(messageQueue)
      ensures eventListeners == old(eventListeners) && outbound == old(outbound)
      ensures offlineMessages == old(offlineMessages) && shown == old(shown)
      ensures pendingReconnects == old(pendingReconnects)
    {
      var listeners := ListenersOf(event);
      var i := 0;
      while i < |listeners|
        invariant 0 <= i <= |listeners|
        invariant invocations == old(invocations) + Calls(listeners[..i], event, data)
        invariant hasSocket == old(hasSocket) && isConnected == old(isConnected)
        invariant reconnectAttempts == old(reconnectAttempts) && messageQueue == old(messageQueue)
        invariant eventListeners == old(eventListeners) && outbound == old(outbound)
        invariant offlineMessages == old(offlineMessages) && shown == old(shown)
        invariant pendingReconnects == old(pendingReconnects)
      {
        assert listeners[..i + 1] == listeners[..i] + [listeners[i]];
        CallsAppend(listeners[..i], listeners[i], event, data);
        invocations := invocations + [Invocation(listeners[i], event, data)];
        i := i + 1;
      }
      assert listeners[..i] == listeners;
    }

    /** processMessageQueue: send everything queued, oldest first, until the queue is empty. */
    method ProcessMessageQueue()
      modifies this
      ensures messageQueue == []
      ensures hasSocket ==> outbound == old(outbound) + Sends(old(messageQueue))
      ensures !hasSocket ==> outbound == old(outbound)
      ensures hasSocket == old(hasSocket) && isConnected == old(isConnected)
      ensures reconnectAttempts == old(reconnectAttempts) && eventListeners == old(eventListeners)
      ensures invocations == old(invocations) && offlineMessages == old(offlineMessages) && shown == old(shown)
      ensures pendingReconnects == old(pendingReconnects)
    {
      ghost var k := 0;
      while |messageQueue| > 0
        invariant 0 <= k <= |old(messageQueue)| && messageQueue == old(messageQueue)[k..]
        invariant hasSocket ==> outbound == old(outbound) + Sends(old(messageQueue)[..k])
        invariant !hasSocket ==> outbound == old(outbound)
        invariant hasSocket == old(hasSocket) && isConnected == old(isConnected)
        invariant reconnectAttempts == old(reconnectAttempts) && eventListeners == old(eventListeners)
        invariant invocations == old(invocations) && offlineMessages == old(offlineMessages) && shown == old(shown)
        invariant pendingReconnects == old(pendingReconnects)
        decreases |messageQueue|
      {
        var message := messageQueue[0];
        messageQueue := messageQueue[1..];
        if hasSocket {
          assert old(messageQueue)[..k + 1] == old(messageQueue)[..k] + [message];
          assert Sends(old(messageQueue)[..k + 1]) == Sends(old(messageQueue)[..k]) + [ClientEmission("send_message", Chat(message))];
          outbound := outbound + [ClientEmission("send_message", Chat(message))];
        }
        k := k + 1;
      }
      assert old(messageQueue)[..k] == old(messageQueue);
    }

    /** The 'connect' callback: connected, attempts reset, 'connected' to listeners, then the queue is flushed. */
    method OnConnect()
      requires hasSocket
      modifies this
      ensures isConnected && reconnectAttempts == 0 && hasSocket
      ensures messageQueue == []
      ensures outbound == old(outbound) + Sends(old(messageQueue))
      ensures invocations == old(invocations) + Calls(old(ListenersOf("connected")), "connected", NoPayload)
      ensures eventListeners == old(eventListeners) && offlineMessages == old(offlineMessages)
      ensures shown == old(shown) && pendingReconnects == old(pendingReconnects)
    {
      isConnected := true;
      reconnectAttempts := 0;
      Emit("connected", NoPayload);
      ProcessMessageQueue();
    }

    /** The 'disconnect' callback: not connected any more; the queue is kept. */
    method OnDisconnect(reason: string)
      modifies this
      ensures !isConnected && hasSocket == old(hasSocket)
      ensures messageQueue == old(messageQueue) && reconnectAttempts == old(reconnectAttempts)
      ensures outbound == old(outbound)
      ensures invocations == old(invocations) + Calls(old(ListenersOf("disconnected")), "disconnected", Reason(reason))
      ensures eventListeners == old(eventListeners) && offlineMessages == old(offlineMessages)
      ensures pendingReconnects == old(pendingReconnects) && shown == old(shown)
    {
      isConnected := false;
      Emit("disconnected", Reason(reason));
    }

    /** The 'connect_error' callback: one more failed attempt. */
    method OnConnectError(error: string)
      modifies this
      ensures reconnectAttempts == old(reconnectAttempts) + 1
      ensures isConnected == old(isConnected) && messageQueue == old(messageQueue) && outbound == old(outbound)
      ensures invocations == old(invocations) + Calls(old(ListenersOf("connection_error")), "connection_error", Reason(error))
      ensures eventListeners == old(eventListeners) && hasSocket == old(hasSocket)
      ensures offlineMessages == old(offlineMessages) && shown == old(shown) && pendingReconnects == old(pendingReconnects)
    {
      reconnectAttempts := reconnectAttempts + 1;
      Emit("connection_error", Reason(error));
    }

    /** A forwarded server event goes to the client's listeners of the same name. */
    method OnServerEvent(event: string, data: string)
      requires event in ForwardedEvents
      modifies this
      ensures invocations == old(invocations) + Calls(old(ListenersOf(event)), event, Payload(data))
      ensures isConnected == old(isConnected) && messageQueue == old(messageQueue) && outbound == old(outbound)
      ensures eventListeners == old(eventListeners) && shown == old(shown)
      ensures hasSocket == old(hasSocket) && reconnectAttempts == old(reconnectAttempts)
      ensures offlineMessages == old(offlineMessages) && pendingReconnects == old(pendingReconnects)
    {
      Emit(event, Payload(data));
    }

    /** The 'notification' callback: listeners first, then a browser notification when permitted. */
    method OnNotification(n: ChatNotification)
      modifies this
      ensures invocations == old(invocations) + Calls(old(ListenersOf("notification")), "notification", Notice(n))
      ensures shown == old(shown) + (if notificationsGranted then [NotificationBody(n)] else [])
      ensures isConnected == old(isConnected) && messageQueue == old(messageQueue) && outbound == old(outbound)
      ensures hasSocket == old(hasSocket) && reconnectAttempts == old(reconnectAttempts)
      ensures eventListeners == old(eventListeners) && offlineMessages == old(offlineMessages)
      ensures pendingReconnects == old(pendingReconnects)
    {
      Emit("notification", Notice(n));
      if notificationsGranted {
        shown := shown + [NotificationBody(n)];
      }
    }

    /** getOfflineMessages: the stored list, or none. */
    function GetOfflineMessages(): (r: seq<OfflineMessage>)
      reads this
      ensures offlineMessages.None? ==> r == []
      ensures offlineMessages.Some? ==> r == offlineMessages.value
    {
      offlineMessages.GetOr([])
    }

    /**
     * sendMessage: sent at once while connected; otherwise queued at the
     * end and recorded in localStorage with the given time and id.
     */
    method SendMessage(req: ChatMessageRequest, now: int, offlineId: string)
      modifies this
      ensures isConnected == old(isConnected) && hasSocket == old(hasSocket)
      ensures old(isConnected && hasSocket) ==>
        outbound == old(outbound) + [ClientEmission("send_message", Chat(ChatMessageOf(req)))]
        && messageQueue == old(messageQueue) && offlineMessages == old(offlineMessages)
      ensures !old(isConnected && hasSocket) ==>
        outbound == old(outbound) && messageQueue == old(messageQueue) + [ChatMessageOf(req)]
        && offlineMessages == Some(old(GetOfflineMessages()) + [OfflineMessage(req, now, offlineId)])
      ensures invocations == old(invocations) && eventListeners == old(eventListeners)
      ensures reconnectAttempts == old(reconnectAttempts) && shown == old(shown)
      ensures pendingReconnects == old(pendingReconnects)
    {
      var message := ChatMessageOf(req);
      if isConnected && hasSocket {
        outbound := outbound + [ClientEmission("send_message", Chat(message))];
      } else {
        messageQueue := messageQueue + [message];
        offlineMessages := Some(GetOfflineMessages() + [OfflineMessage(req, now, offlineId)]);
      }
    }

    /** Sent only while connected, never queued. */
    method SendTypingIndicator(receiverId: UserId, isTyping: bool)
      modifies this
      ensures isConnected && hasSocket ==> (outbound == old(outbound) +
        [ClientEmission("typing", Chat(SocketMessage(TypingEvent, NoData.(receiver := Some(receiverId), isTyping := Some(isTyping)))))])
      ensures !(isConnected && hasSocket) ==> outbound == old(outbound)
      ensures messageQueue == old(messageQueue) && isConnected == old(isConnected) && hasSocket == old(hasSocket)
      ensures reconnectAttempts == old(reconnectAttempts) && eventListeners == old(eventListeners)
      ensures invocations == old(invocations) && offlineMessages == old(offlineMessages)
      ensures shown == old(shown) && pendingReconnects == old(pendingReconnects)
    {
      if isConnected && hasSocket {
        outbound := outbound + [ClientEmission("typing",
          Chat(SocketMessage(TypingEvent, NoData.(receiver := Some(receiverId), isTyping := Some(isTyping)))))];
      }
    }

    /** Sent only while connected, never queued. */
    method MarkMessagesAsRead(senderId: UserId, conversationId: Option<ConversationId>)
      modifies this
      ensures isConnected && hasSocket ==> (outbound == old(outbound) +
        [ClientEmission("mark_read", Chat(SocketMessage(ReadEvent, NoData.(sender := Some(senderId), conversationId := conversationId))))])
      ensures !(isConnected && hasSocket) ==> outbound == old(outbound)
      ensures messageQueue == old(messageQueue) && isConnected == old(isConnected) && hasSocket == old(hasSocket)
      ensures reconnectAttempts == old(reconnectAttempts) && eventListeners == old(eventListeners)
      ensures invocations == old(invocations) && offlineMessages == old(offlineMessages)
      ensures shown == old(shown) && pendingReconnects == old(pendingReconnects)
    {
      if isConnected && hasSocket {
        outbound := outbound + [ClientEmission("mark_read",
          Chat(SocketMessage(ReadEvent, NoData.(sender := Some(senderId), conversationId := conversationId))))];
      }
    }

    /** Sent only while connected, never queued. */
    method JoinConversation(conversationId: ConversationId)
      modifies this
      ensures isConnected && hasSocket ==> outbound == old(outbound) + [ClientEmission("join_conversation", Room(conversationId))]
      ensures !(isConnected && hasSocket) ==> outbound == old(outbound)
      ensures messageQueue == old(messageQueue) && isConnected == old(isConnected) && hasSocket == old(hasSocket)
      ensures reconnectAttempts == old(reconnectAttempts) && eventListeners == old(eventListeners)
      ensures invocations == old(invocations) && offlineMessages == old(offlineMessages)
      ensures shown == old(shown) && pendingReconnects == old(pendingReconnects)
    {
      if isConnected && hasSocket {
        outbound := outbound + [ClientEmission("join_conversation", Room(conversationId))];
      }
    }

    /** Sent only while connected, never queued. */
    method LeaveConversation(conversationId: ConversationId)
      modifies this
      ensures isConnected && hasSocket ==> outbound == old(outbound) + [ClientEmission("leave_conversation", Room(conversationId))]
      ensures !(isConnected && hasSocket) ==> outbound == old(outbound)
      ensures messageQueue == old(messageQueue) && isConnected == old(isConnected) && hasSocket == old(hasSocket)
      ensures reconnectAttempts == old(reconnectAttempts) && eventListeners == old(eventListeners)
      ensures invocations == old(invocations) && offlineMessages == old(offlineMessages)
      ensures shown == old(shown) && pendingReconnects == old(pendingReconnects)
    {
      if isConnected && hasSocket {
        outbound := outbound + [ClientEmission("leave_conversation", Room(conversationId))];
      }
    }

    /** clearOfflineMessages */
    method ClearOfflineMessages()
      modifies this
      ensures offlineMessages == None && GetOfflineMessages() == []
      ensures messageQueue == old(messageQueue) && outbound == old(outbound)
      ensures hasSocket == old(hasSocket) && isConnected == old(isConnected)
      ensures reconnectAttempts == old(reconnectAttempts) && eventListeners == old(eventListeners)
      ensures invocations == old(invocations) && shown == old(shown)
      ensures pendingReconnects == old(pendingReconnects)
    {
      offlineMessages := None;
    }

    /** on: the listener goes at the end of the event's list. */
    method On(event: string, listener: ListenerId)
      modifies this
      ensures eventListeners == old(eventListeners)[event := old(ListenersOf(event)) + [listener]]
      ensures ListenersOf(event) == old(ListenersOf(event)) + [listener]
      ensures invocations == old(invocations) && outbound == old(outbound) && messageQueue == old(messageQueue)
      ensures hasSocket == old(hasSocket) && isConnected == old(isConnected)
      ensures reconnectAttempts == old(reconnectAttempts) && offlineMessages == old(offlineMessages)
      ensures shown == old(shown) && pendingReconnects == old(pendingReconnects)
    {
      eventListeners := eventListeners[event := ListenersOf(event) + [listener]];
    }

    /** off: without a listener every listener of the event goes; with one, its first registration goes. */
    method Off(event: string, listener: Option<ListenerId>)
      modifies this
      ensures listener.None? ==> eventListeners == old(eventListeners) - {event}
      ensures listener.Some? && event in old(eventListeners) ==>
        eventListeners == old(eventListeners)[event := RemoveFirst(old(eventListeners)[event], listener.value)]
      ensures listener.Some? && event !in old(eventListeners) ==> eventListeners == old(eventListeners)
      ensures invocations == old(invocations) && outbound == old(outbound) && messageQueue == old(messageQueue)
      ensures hasSocket == old(hasSocket) && isConnected == old(isConnected)
      ensures reconnectAttempts == old(reconnectAttempts) && offlineMessages == old(offlineMessages)
      ensures shown == old(shown) && pendingReconnects == old(pendingReconnects)
    {
      if listener.None? {
        eventListeners := eventListeners - {event};
      } else if event in eventListeners {
        eventListeners := eventListeners[event := RemoveFirst(eventListeners[event], listener.value)];
      }
    }

    /**
     * disconnect: close and drop the socket. A connected socket.io client
     * socket runs its 'disconnect' callback when closed by the client,
     * with the reason "io client disconnect".
     */
    method Disconnect()
      requires Valid()
      modifies this
      ensures Valid() && !hasSocket && !isConnected
      ensures messageQueue == old(messageQueue) && outbound == old(outbound)
      ensures old(hasSocket && isConnected) ==> (invocations == old(invocations) +
        Calls(old(ListenersOf("disconnected")), "disconnected", Reason("io client disconnect")))
      ensures !old(hasSocket && isConnected) ==> invocations == old(invocations)
      ensures pendingReconnects == old(pendingReconnects) && reconnectAttempts == old(reconnectAttempts)
      ensures eventListeners == old(eventListeners) && offlineMessages == old(offlineMessages)
      ensures shown == old(shown)
    {
      if hasSocket {
        if isConnected {
          OnDisconnect("io client disconnect");
        }
        hasSocket := false;
        isConnected := false;
      }
    }

    /** reconnect: disconnect now, and set a timer that creates a new socket after the reconnect delay. */
    method Reconnect()
      requires Valid()
      modifies this
      ensures Valid() && !hasSocket && !isConnected && pendingReconnects == old(pendingReconnects) + 1
      ensures messageQueue == old(messageQueue) && outbound == old(outbound)
      ensures old(hasSocket && isConnected) ==> (invocations == old(invocations) +
        Calls(old(ListenersOf("disconnected")), "disconnected", Reason("io client disconnect")))
      ensures !old(hasSocket && isConnected) ==> invocations == old(invocations)
      ensures eventListeners == old(eventListeners) && offlineMessages == old(offlineMessages)
      ensures reconnectAttempts == old(reconnectAttempts) && shown == old(shown)
    {
      Disconnect();
      pendingReconnects := pendingReconnects + 1;
    }

    /** A reconnect timer fires: initializeSocket creates a new, not yet connected socket. */
    method ReconnectTimerFires()
      requires Valid() && pendingReconnects > 0
      modifies this
      ensures Valid() && hasSocket && isConnected == old(isConnected) && pendingReconnects == old(pendingReconnects) - 1
      ensures messageQueue == old(messageQueue) && outbound == old(outbound)
      ensures reconnectAttempts == old(reconnectAttempts) && eventListeners == old(eventListeners)
      ensures invocations == old(invocations) && offlineMessages == old(offlineMessages) && shown == old(shown)
    {
      hasSocket := true;
      pendingReconnects := pendingReconnects - 1;
    }

    /** getConnectionStatus / isSocketConnected */
    function GetConnectionStatus(): (s: ConnectionStatus)
      reads this
      ensures s.connected == isConnected && s.reconnectAttempts == reconnectAttempts
      ensures s.queuedMessages == |messageQueue|
    {
      ConnectionStatus(isConnected, reconnectAttempts, |messageQueue|)
    }
  }

  /** Two sends while offline, then a connect: both go out in the order they were made. */
  method OfflineSendsFlushInOrder(a: ChatMessageRequest, b: ChatMessageRequest) returns (client: ClientChatService)
    ensures client.isConnected && client.messageQueue == []
    ensures client.outbound == [ClientEmission("send_message", Chat(ChatMessageOf(a))),
                                ClientEmission("send_message", Chat(ChatMessageOf(b)))]
    ensures client.GetOfflineMessages() == [OfflineMessage(a, 1, "offline-a"), OfflineMessage(b, 2, "offline-b")]
  {
    client := new ClientChatService(None, false);
    client.SendMessage(a, 1, "offline-a");
    client.SendMessage(b, 2, "offline-b");
    assert client.GetConnectionStatus().queuedMessages == 2;
    client.OnConnect();
  }

  // ---------------------------------------------------------------------------
  // ChatAPIService.markAllUnreadAsRead
  // ---------------------------------------------------------------------------

  /** The reply of one `markMessagesAsRead` call, or the error it threw. */
  datatype MarkReply = Replied(success: bool, isRead: bool) | Threw(message: string)

  datatype MarkAllResult = MarkAllResult(success: bool, updated: nat, error: Option<string>)

  /** `err?.message || 'Error marking as read'` */
  function ErrorText(message: string): (t: string)
    ensures message != "" ==> t == message
    ensures message == "" ==> t == "Error marking as read"
    ensures t != ""
  {
    if message == "" then "Error marking as read" else message
  }

  /** The conversations with something unread. */
  function Pending(unread: map<ConversationId, int>): (ids: set<ConversationId>)
    ensures forall id :: id in ids <==> id in unread && unread[id] > 0
  {
    set id | id in unread && unread[id] > 0
  }

  predicate Confirmed(reply: MarkReply) {
    reply.Replied? && reply.success && reply.isRead
  }

  /** The ids among `ids` whose mark was confirmed. */
  function ConfirmedAmong(ids: set<ConversationId>, mark: ConversationId -> MarkReply): set<ConversationId> {
    set id | id in ids && Confirmed(mark(id))
  }

  /** Marking one more conversation adds one to the confirmed count exactly when its mark is confirmed. */
  lemma ConfirmedAmongStep(done: set<ConversationId>, id: ConversationId, mark: ConversationId -> MarkReply)
    requires id !in done
    ensures |ConfirmedAmong(done + {id}, mark)| == |ConfirmedAmong(done, mark)| + (if Confirmed(mark(id)) then 1 else 0)
  {
    if Confirmed(mark(id)) {
      assert ConfirmedAmong(done + {id}, mark) == ConfirmedAmong(done, mark) + {id};
    } else {
      assert ConfirmedAmong(done + {id}, mark) == ConfirmedAmong(done, mark);
    }
  }

  class ChatApiService {
    const baseUrl: string
    const authToken: string

    constructor (baseUrl: string, authToken: string)
      ensures this.baseUrl == baseUrl && this.authToken == authToken
    {
      this.baseUrl := baseUrl;
      this.authToken := authToken;
    }

    /**
     * markAllUnreadAsRead: `unread` is the reply of getUnreadCount (or the
     * message of the error it threw) and `mark` the reply for each conversation id. The
     * number updated counts the confirmed marks; any thrown error makes the
     * whole call fail with nothing counted.
     */
    method MarkAllUnreadAsRead(unread: Result<map<ConversationId, int>, string>, mark: ConversationId -> MarkReply)
      returns (r: MarkAllResult)
      ensures unread.Err? ==> r == MarkAllResult(false, 0, Some(ErrorText(unread.error)))
      ensures unread.Ok? && (exists id :: id in Pending(unread.value) && mark(id).Threw?) ==>
        !r.success && r.updated == 0 && r.error.Some?
      ensures unread.Ok? && (forall id :: id in Pending(unread.value) ==> !mark(id).Threw?) ==>
        r.success && r.error.None?
        && r.updated == |set id | id in Pending(unread.value) && Confirmed(mark(id))|
      ensures unread.Ok? ==> r.updated <= |Pending(unread.value)|
    {
      if unread.Err? {
        return MarkAllResult(false, 0, Some(ErrorText(unread.error)));
      }
      var todo := Pending(unread.value);
      ghost var done: set<ConversationId> := {};
      var updated: nat := 0;
      while todo != {}
        invariant todo + done == Pending(unread.value) && todo !! done
        invariant forall id :: id in done ==> !mark(id).Threw?
        invariant updated == |ConfirmedAmong(done, mark)|
        decreases |todo|
      {
        var id :| id in todo;
        var reply := mark(id);
        if reply.Threw? {
          return MarkAllResult(false, 0, Some(ErrorText(reply.message)));
        }
        ConfirmedAmongStep(done, id, mark);
        if Confirmed(reply) {
          updated := updated + 1;
        }
        todo := todo - {id};
        done := done + {id};
      }
      assert done == Pending(unread.value);
      SubsetCount(Pending(unread.value), ConfirmedAmong(done, mark));
      r := MarkAllResult(true, updated, None);
    }
  }

  lemma SubsetCount<T>(whole: set<T>, part: set<T>)
    requires part <= whole
    ensures |part| <= |whole|
  {
    assert whole == part + (whole - part);
  }
}
