/**
 * ChatController of src/controllers/chat.controller.ts: for each route, the
 * decision from the request fields and the service's outcome to a status code
 * and a JSON envelope. The service is a function parameter; a handler that
 * rejects a request answers without applying it.
 */
module ChatController {
  import opened Wrappers
  import opened JsBuiltins
  import opened ChatTypes
  import opened ChatModel
  import opened ChatService

  /** The `data` member of an envelope. */
  datatype Data =
    | Absent                                   // no data member
    | Null                                     // data: null
    | OneMessage(message: Message)
    | MessageList(messages: seq<Message>)
    | ConversationList(conversations: seq<Conversation>)
    | UnreadCounts(counts: map<ConversationId, int>)
    | Note(text: string)                       // data: { message: ... }

  datatype Response = Response(status: int, success: bool, data: Data, message: Option<string>, error: Option<string>)

  /** A query-string value: missing, one string, or something else (a repeated key or a nested object). */
  datatype QueryValue = Missing | Text(text: string) | Structured

  /** The body of a send as it arrives; each field may be missing. */
  datatype SendBody = SendBody(receiver: Option<string>, content: Option<string>, messageType: Option<string>)

  predicate Truthy(o: Option<string>) {
    o.Some? && o.value != ""
  }

  function Failure(text: string): Response {
    Response(500, false, Absent, Some(text), None)
  }

  // ---------------------------------------------------------------------------
  // Paging parameters
  // ---------------------------------------------------------------------------

  /** `parseInt(limit) || 50`: NaN and 0 both fall back to 50. */
  function PageLimit(param: Option<string>): (limit: int)
    ensures limit != 0
    ensures param.Some? && ParseInt(param.value).Some? && ParseInt(param.value).value != 0 ==>
      limit == ParseInt(param.value).value
    ensures param.None? || ParseInt(param.value).None? || ParseInt(param.value) == Some(0) ==> limit == 50
  {
    var n := if param.Some? then ParseInt(param.value) else None;
    if n.None? || n.value == 0 then 50 else n.value
  }

  /** `parseInt(offset) || 0` */
  function PageOffset(param: Option<string>): (offset: int)
    ensures param.Some? && ParseInt(param.value).Some? ==> offset == ParseInt(param.value).value
    ensures param.None? || ParseInt(param.value).None? ==> offset == 0
  {
    var n := if param.Some? then ParseInt(param.value) else None;
    if n.None? then 0 else n.value
  }

  /** A decimal limit is taken as written, except that 0 means the default. */
  lemma PageLimitOfDecimal(n: nat, negative: bool)
    ensures PageLimit(Some((if negative then "-" else "") + DecimalString(n))) == if n == 0 then 50 else if negative then -(n as int) else n as int
  {
    ParseIntDecimal(n, negative, []);
    assert (if negative then "-" else "") + DecimalString(n) + [] == (if negative then "-" else "") + DecimalString(n);
  }

  /** A decimal offset is taken as written. */
  lemma PageOffsetOfDecimal(n: nat, negative: bool)
    ensures PageOffset(Some((if negative then "-" else "") + DecimalString(n))) == if negative then -(n as int) else n as int
  {
    ParseIntDecimal(n, negative, []);
    assert (if negative then "-" else "") + DecimalString(n) + [] == (if negative then "-" else "") + DecimalString(n);
  }

  // ---------------------------------------------------------------------------
  // The handlers
  // ---------------------------------------------------------------------------

  /** POST /messages: 400 without receiver or content, 201 with the stored message, 500 on any failure. */
  function SendMessage(body: SendBody, service: ChatMessageRequest -> Result<Message, ChatError>): (r: Response)
    ensures !Truthy(body.receiver) || !Truthy(body.content) ==>
      r == Response(400, false, Absent, Some("Receiver and content are required"), None)
    ensures Truthy(body.receiver) && Truthy(body.content) ==>
      var outcome := service(ChatMessageRequest(body.receiver.value, body.content.value, body.messageType));
      (outcome.Ok? ==> r == Response(201, true, OneMessage(outcome.value), Some("Message sent successfully"), None))
      && (outcome.Err? ==> r == Failure("Failed to send message"))
  {
    if !Truthy(body.receiver) || !Truthy(body.content) then
      Response(400, false, Absent, Some("Receiver and content are required"), None)
    else
      match service(ChatMessageRequest(body.receiver.value, body.content.value, body.messageType))
      case Ok(m) => Response(201, true, OneMessage(m), Some("Message sent successfully"), None)
      case Err(_) => Failure("Failed to send message")
  }

  /**
   * GET /conversations/:otherUserId/messages: 400 without the other user,
   * else the page the service returns for the parsed limit and offset.
   */
  function GetConversationMessages(otherUserId: Option<UserId>, limit: Option<string>, offset: Option<string>,
                                   service: (UserId, int, int) -> Result<seq<Message>, ChatError>): (r: Response)
    ensures !Truthy(otherUserId) ==> r == Response(400, false, Absent, Some("Other user ID is required"), None)
    ensures Truthy(otherUserId) ==>
      var outcome := service(otherUserId.value, PageLimit(limit), PageOffset(offset));
      (outcome.Ok? ==> r == Response(200, true, MessageList(outcome.value), Some("Messages retrieved successfully"), None))
      && (outcome.Err? ==> r == Failure("Failed to get conversation messages"))
  {
    if !Truthy(otherUserId) then
      Response(400, false, Absent, Some("Other user ID is required"), None)
    else
      match service(otherUserId.value, PageLimit(limit), PageOffset(offset))
      case Ok(ms) => Response(200, true, MessageList(ms), Some("Messages retrieved successfully"), None)
      case Err(_) => Failure("Failed to get conversation messages")
  }

  /**
   * Over the store's history query: without paging parameters a user gets
   * the newest 50 messages of the thread (all of it when shorter), newest
   * first, and a negative offset is answered with 500.
   */
  lemma HistoryThroughController(ms: seq<Message>, user: UserId, other: UserId, n: nat)
    requires other != ""
    ensures var r := GetConversationMessages(Some(other), None, None, (v, l, o) => History(ms, user, v, l, o));
      var thread := Thread(ms, user, other);
      && r.status == 200
      && |r.data.messages| == (if |thread| < 50 then |thread| else 50)
      && NewestFirstOrder(r.data.messages)
      && (forall m :: m in r.data.messages ==> m in ms && Exchanged(m, user, other))
      && (forall m, p :: m in thread && p in r.data.messages && m.createdAt > p.createdAt ==> m in r.data.messages)
    ensures n > 0 ==>
      GetConversationMessages(Some(other), None, Some("-" + DecimalString(n)), (v, l, o) => History(ms, user, v, l, o)).status == 500
  {
    FirstPageIsNewest(ms, user, other, 50);
    PageOffsetOfDecimal(n, true);
  }

  /** GET /conversations */
  function GetUserConversations(outcome: Result<seq<Conversation>, ChatError>): (r: Response)
    ensures outcome.Ok? ==> r.status == 200 && r.success && r.data == ConversationList(outcome.value)
    ensures outcome.Err? ==> r == Failure("Failed to get user conversations")
  {
    match outcome
    case Ok(cs) => Response(200, true, ConversationList(cs), Some("Conversations retrieved successfully"), None)
    case Err(_) => Failure("Failed to get user conversations")
  }

  /**
   * PUT /conversations/:conversationId/read: 400 without the id; every
   * service failure, whatever its cause, is the same 500.
   */
  function MarkMessagesAsRead(conversationId: Option<ConversationId>,
                              service: ConversationId -> Option<ChatError>): (r: Response)
    ensures !Truthy(conversationId) ==> r == Response(400, false, Null, None, Some("Conversation ID is required"))
    ensures Truthy(conversationId) && service(conversationId.value).Some? ==>
      r == Response(500, false, Null, None, Some("Failed to mark messages as read"))
    ensures Truthy(conversationId) && service(conversationId.value).None? ==>
      r == Response(200, true, Note("Messages marked as read successfully"), None, None)
  {
    if !Truthy(conversationId) then Response(400, false, Null, None, Some("Conversation ID is required"))
    else if service(conversationId.value).Some? then Response(500, false, Null, None, Some("Failed to mark messages as read"))
    else Response(200, true, Note("Messages marked as read successfully"), None, None)
  }

  /** Not-found and not-a-participant cannot be told apart by the caller. */
  lemma MarkReadFailuresLookAlike(id: ConversationId)
    requires id != ""
    ensures MarkMessagesAsRead(Some(id), _ => Some(ConversationNotFound))
         == MarkMessagesAsRead(Some(id), _ => Some(NotAParticipant))
  {
  }

  /** GET /unread-count */
  function GetUnreadCount(outcome: Result<map<ConversationId, int>, ChatError>): (r: Response)
    ensures outcome.Ok? ==> r.status == 200 && r.success && r.data == UnreadCounts(outcome.value)
    ensures outcome.Err? ==> r == Failure("Failed to get unread count")
  {
    match outcome
    case Ok(counts) => Response(200, true, UnreadCounts(counts), Some("Unread counts retrieved successfully"), None)
    case Err(_) => Failure("Failed to get unread count")
  }

  /** GET /conversations/search: 400 unless `q` is one non-empty string. */
  function SearchConversations(q: QueryValue, service: string -> Result<seq<Conversation>, ChatError>): (r: Response)
    ensures !(q.Text? && q.text != "") <==> r.status == 400
    ensures r.status == 400 ==> r == Response(400, false, Absent, Some("Search query is required"), None)
    ensures q.Text? && q.text != "" && service(q.text).Ok? ==>
      r == Response(200, true, ConversationList(service(q.text).value), Some("Search results retrieved successfully"), None)
    ensures q.Text? && q.text != "" && service(q.text).Err? ==> r == Failure("Failed to search conversations")
  {
    if !(q.Text? && q.text != "") then Response(400, false, Absent, Some("Search query is required"), None)
    else
      match service(q.text)
      case Ok(cs) => Response(200, true, ConversationList(cs), Some("Search results retrieved successfully"), None)
      case Err(_) => Failure("Failed to search conversations")
  }

  /** DELETE /messages/:messageId: 400 without the id, 404 when nothing was deleted, 200 when it was. */
  function DeleteMessage(messageId: Option<MessageId>, service: MessageId -> Result<bool, ChatError>): (r: Response)
    ensures !Truthy(messageId) ==> r == Response(400, false, Absent, Some("Message ID is required"), None)
    ensures Truthy(messageId) && service(messageId.value) == Ok(false) ==>
      r == Response(404, false, Absent, Some("Message not found or you are not authorized to delete it"), None)
    ensures Truthy(messageId) && service(messageId.value) == Ok(true) ==>
      r == Response(200, true, Absent, Some("Message deleted successfully"), None)
    ensures Truthy(messageId) && service(messageId.value).Err? ==> r == Failure("Failed to delete message")
  {
    if !Truthy(messageId) then Response(400, false, Absent, Some("Message ID is required"), None)
    else
      match service(messageId.value)
      case Ok(deleted) =>
        if !deleted then Response(404, false, Absent, Some("Message not found or you are not authorized to delete it"), None)
        else Response(200, true, Absent, Some("Message deleted successfully"), None)
      case Err(_) => Failure("Failed to delete message")
  }
}
