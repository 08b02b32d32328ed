/** The record shapes declared in src/types/chat.d.ts. */
module ChatTypes {
  import opened Wrappers

  type UserId = string
  type MessageId = string
  type ConversationId = string

  /** Body of a send: `messageType` is the raw string the client supplied, if any. */
  datatype ChatMessageRequest = ChatMessageRequest(receiver: UserId, content: string, messageType: Option<string>)

  /** SocketMessage.type: 'message' | 'typing' | 'read' | 'online' | 'offline'. */
  datatype SocketMessageType = MessageEvent | TypingEvent | ReadEvent | OnlineEvent | OfflineEvent

  /**
   * SocketMessage.data. `messageType` is not declared in the interface, but
   * the server reads it from incoming sends.
   */
  datatype SocketMessageData = SocketMessageData(
    sender: Option<UserId>,
    receiver: Option<UserId>,
    content: Option<string>,
    messageId: Option<MessageId>,
    conversationId: Option<ConversationId>,
    isTyping: Option<bool>,
    isOnline: Option<bool>,
    messageType: Option<string>)

  datatype SocketMessage = SocketMessage(kind: SocketMessageType, data: SocketMessageData)

  /** A data record with every field absent. */
  const NoData := SocketMessageData(None, None, None, None, None, None, None, None)

  /** ChatNotification.type: 'new_message' | 'message_read' | 'user_online' | 'user_offline'. */
  datatype NotificationType = NewMessageNotice | MessageReadNotice | UserOnlineNotice | UserOfflineNotice

  datatype NotificationData = NotificationData(
    sender: Option<UserId>,
    receiver: Option<UserId>,
    messageId: Option<MessageId>,
    conversationId: Option<ConversationId>,
    content: Option<string>,
    userId: Option<UserId>,
    username: Option<string>)

  datatype ChatNotification = ChatNotification(kind: NotificationType, data: NotificationData)

  datatype HttpMethod = Post | Put | Delete

  /** A state-changing request kept while offline; `data` is the JSON body. */
  datatype OfflineRequest = OfflineRequest(
    id: string,
    httpMethod: HttpMethod,
    url: string,
    data: Option<string>,
    headers: Option<map<string, string>>,
    timestamp: int,
    retryCount: int)

  /** Omit<OfflineRequest, 'id' | 'timestamp' | 'retryCount'>: what a caller hands in. */
  datatype OfflineRequestInput = OfflineRequestInput(
    httpMethod: HttpMethod,
    url: string,
    data: Option<string>,
    headers: Option<map<string, string>>)

  datatype ApiStrategy = NetworkFirst | CacheFirst | StaleWhileRevalidate
  datatype AssetStrategy = AssetsCacheFirst | AssetsNetworkFirst
  datatype Strategies = Strategies(api: ApiStrategy, assets: AssetStrategy)

  datatype WorkboxConfig = WorkboxConfig(
    cacheName: string,
    maxEntries: int,
    maxAgeSeconds: int,
    strategies: Strategies)

  /** Partial<WorkboxConfig>: a field is Some when the caller supplied it. */
  datatype PartialWorkboxConfig = PartialWorkboxConfig(
    cacheName: Option<string>,
    maxEntries: Option<int>,
    maxAgeSeconds: Option<int>,
    strategies: Option<Strategies>)
}
