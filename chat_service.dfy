/**
 * ChatService of src/services/chat.service.ts over an in-memory store: the
 * message collection is a sequence in insertion order and the conversation
 * collection a map from conversation id to record.
 */
module ChatService {
  import opened Wrappers
  import opened Sequences
  import opened JsBuiltins
  import opened ChatTypes
  import opened ChatModel

  /** What the service throws. */
  datatype ChatError =
    | Invalid(reason: SchemaError)   // message.save() rejects the document
    | ConversationNotFound           // 'Conversation not found'
    | NotAParticipant                // 'User is not a participant in this conversation'
    | QueryRejected                  // the database refuses the query (a negative skip)

  // ---------------------------------------------------------------------------
  // Finding the conversation of a pair
  // ---------------------------------------------------------------------------

  /** `[senderId, receiver].sort()`, the lookup key as written. */
  function CanonicalPair(a: UserId, b: UserId): seq<UserId> {
    SortStrings([a, b])
  }

  /** Both directions of a send compute the same key. */
  lemma CanonicalPairSymmetric(a: UserId, b: UserId)
    ensures CanonicalPair(a, b) == CanonicalPair(b, a)
    ensures CanonicalPair(a, b) == [a, b] || CanonicalPair(a, b) == [b, a]
  {
    assert SortStrings([b]) == [b] && SortStrings([a]) == [a];
    assert [a, b][1..] == [b] && [b, a][1..] == [a];
    BelowTotal(a, b);
    BelowAsymmetric(a, b);
  }

  /** The key the lookup evidently means: the pair without repeats, sorted, as `NormaliseParticipants` stores it. */
  function PairKey(a: UserId, b: UserId): seq<UserId> {
    NormaliseParticipants([a, b])
  }

  /** `{participants: {$all: key, $size: key.length}}` */
  predicate MatchesKey(c: Conversation, key: seq<UserId>) {
    (forall p :: p in key ==> p in c.participants) && |c.participants| == |key|
  }

  function MatchingIds(convs: map<ConversationId, Conversation>, key: seq<UserId>): set<ConversationId> {
    set id | id in convs && MatchesKey(convs[id], key)
  }

  /** The participants of `c` are exactly `a` and `b`. */
  ghost predicate Between2(c: Conversation, a: UserId, b: UserId) {
    forall x :: x in c.participants <==> x == a || x == b
  }

  /** Names the first entries of a list, so that the solver can reason about short lists. */
  lemma Leading(p: seq<UserId>)
    ensures |p| >= 2 ==> p[0] in p && p[1] in p && (StrictlySorted(p) ==> Below(p[0], p[1]))
    ensures |p| >= 3 ==> p[2] in p && (StrictlySorted(p) ==> Below(p[1], p[2]) && Below(p[0], p[2]))
  {
  }

  lemma SingleSorted(p: seq<UserId>, a: UserId)
    requires StrictlySorted(p)
    requires forall x :: x in p <==> x == a
    ensures p == [a]
  {
    BelowIrreflexive(a);
    assert a in p;
    Leading(p);
  }

  lemma PairSorted(p: seq<UserId>, a: UserId, b: UserId)
    requires StrictlySorted(p) && a != b
    requires forall x :: x in p <==> x == a || x == b
    ensures |p| == 2
  {
    BelowIrreflexive(a);
    BelowIrreflexive(b);
    var i := IndexOf(p, a);
    var j := IndexOf(p, b);
    assert i != j;
    Leading(p);
  }

  /** The key of a pair lists each of the two users once. */
  lemma PairKeyShape(a: UserId, b: UserId)
    ensures forall x :: x in PairKey(a, b) <==> x == a || x == b
    ensures |PairKey(a, b)| == if a == b then 1 else 2
  {
    var k := PairKey(a, b);
    if a == b {
      SingleSorted(k, a);
    } else {
      PairSorted(k, a, b);
    }
  }

  /**
   * With the deduplicated key, a stored conversation is found exactly when
   * its participants are the two users, whether or not they are the same user.
   */
  lemma PairKeyFindsThePair(c: Conversation, a: UserId, b: UserId)
    requires StrictlySorted(c.participants)
    ensures MatchesKey(c, PairKey(a, b)) <==> Between2(c, a, b)
  {
    PairKeyShape(a, b);
    if Between2(c, a, b) {
      if a == b {
        SingleSorted(c.participants, a);
      } else {
        PairSorted(c.participants, a, b);
      }
    }
    if MatchesKey(c, PairKey(a, b)) {
      var p := c.participants;
      assert a in p && b in p;
      if a == b {
        assert |p| == 1 && p[0] == a;
      } else {
        var i := IndexOf(p, a);
        var j := IndexOf(p, b);
        assert |p| == 2 && i != j;
        assert forall x :: x in p ==> x == p[0] || x == p[1];
      }
    }
  }

  /**
   * The key as written, on a self-send: `[a, a]` has size 2 and `$all` only
   * asks that `a` occur, so it finds a's conversation with someone else.
   */
  lemma SelfSendFindsOtherConversation()
    ensures var c := Conversation("c1", ["alice", "bob"], None, None, map[]);
      StrictlySorted(c.participants)
      && MatchesKey(c, CanonicalPair("alice", "alice"))
      && !Between2(c, "alice", "alice")
  {
    var c := Conversation("c1", ["alice", "bob"], None, None, map[]);
    assert Below("alice", "bob");
    assert CanonicalPair("alice", "alice") == ["alice", "alice"] by {
      CanonicalPairSymmetric("alice", "alice");
    }
    assert "bob" in c.participants;
  }

  /** For two different users the key as written and the deduplicated key find the same records. */
  lemma KeysAgreeForDistinctUsers(c: Conversation, a: UserId, b: UserId)
    requires a != b
    ensures MatchesKey(c, CanonicalPair(a, b)) <==> MatchesKey(c, PairKey(a, b))
  {
    CanonicalPairSymmetric(a, b);
    PairKeyShape(a, b);
  }

  /** No two stored conversations have the same participant list. */
  predicate OnePerPair(convs: map<ConversationId, Conversation>) {
    forall i, j :: i in convs && j in convs && convs[i].participants == convs[j].participants ==> i == j
  }

  predicate Canonical(convs: map<ConversationId, Conversation>) {
    forall id :: id in convs ==> convs[id].id == id && StrictlySorted(convs[id].participants)
  }

  /** In a store with one record per pair, the lookup finds at most one conversation. */
  lemma LookupIsUnique(convs: map<ConversationId, Conversation>, a: UserId, b: UserId, i: ConversationId, j: ConversationId)
    requires Canonical(convs) && OnePerPair(convs)
    requires i in MatchingIds(convs, PairKey(a, b)) && j in MatchingIds(convs, PairKey(a, b))
    ensures i == j
  {
    PairKeyFindsThePair(convs[i], a, b);
    PairKeyFindsThePair(convs[j], a, b);
    StrictlySortedUnique(convs[i].participants, convs[j].participants);
  }

  /** The one conversation the lookup finds, when it finds one. */
  lemma LookupSingleton(convs: map<ConversationId, Conversation>, a: UserId, b: UserId, k: ConversationId)
    requires Canonical(convs) && OnePerPair(convs)
    requires k in MatchingIds(convs, PairKey(a, b))
    ensures MatchingIds(convs, PairKey(a, b)) == {k}
  {
    forall j | j in MatchingIds(convs, PairKey(a, b)) ensures j == k {
      LookupIsUnique(convs, a, b, j, k);
    }
  }

  // ---------------------------------------------------------------------------
  // Unread bookkeeping
  // ---------------------------------------------------------------------------

  /** `unreadCount.get(u) || 0` */
  function UnreadOf(c: Conversation, u: UserId): int {
    if u in c.unreadCount then c.unreadCount[u] else 0
  }

  /** The first message between a pair creates their conversation, then the pre-save hook runs. */
  function StartConversation(id: ConversationId, sender: UserId, receiver: UserId,
                             messageId: MessageId, now: int): (c: Conversation)
    ensures c.id == id && c.participants == PairKey(sender, receiver)
    ensures c.lastMessage == Some(messageId) && c.lastMessageAt == Some(now)
    ensures c.unreadCount.Keys == {receiver} && UnreadOf(c, receiver) == 1
    ensures forall u :: u != receiver ==> UnreadOf(c, u) == 0
  {
    var pair := CanonicalPair(sender, receiver);
    CanonicalPairSymmetric(sender, receiver);
    assert forall x :: x in pair <==> x in [sender, receiver];
    NormaliseOrderIndependent(pair, [sender, receiver]);
    var initial := NewConversation(id, pair, Some(messageId), Some(now), Some(map[receiver := 1]));
    assert initial.unreadCount == map[receiver := 1];
    PreSave(initial)
  }

  /** A later message: new last message, and the receiver's count goes up by one. */
  function BumpConversation(c: Conversation, receiver: UserId, messageId: MessageId, now: int): (r: Conversation)
    ensures r.id == c.id && (forall x :: x in r.participants <==> x in c.participants)
    ensures StrictlySorted(c.participants) ==> r.participants == c.participants
    ensures r.lastMessage == Some(messageId) && r.lastMessageAt == Some(now)
    ensures UnreadOf(r, receiver) == UnreadOf(c, receiver) + 1
    ensures forall u :: u != receiver ==> UnreadOf(r, u) == UnreadOf(c, u)
  {
    NormaliseKeepsCanonical(c.participants);
    PreSave(c.(lastMessage := Some(messageId), lastMessageAt := Some(now),
               unreadCount := c.unreadCount[receiver := UnreadOf(c, receiver) + 1]))
  }

  /** A read-mark: the reader's count becomes 0. */
  function ResetUnread(c: Conversation, reader: UserId): (r: Conversation)
    ensures r.id == c.id && r.lastMessage == c.lastMessage && r.lastMessageAt == c.lastMessageAt
    ensures StrictlySorted(c.participants) ==> r.participants == c.participants
    ensures UnreadOf(r, reader) == 0
    ensures forall u :: u != reader ==> UnreadOf(r, u) == UnreadOf(c, u)
  {
    NormaliseKeepsCanonical(c.participants);
    PreSave(c.(unreadCount := c.unreadCount[reader := 0]))
  }

  /** The conversation after one message to `receiver` per id in `ids`, in order. */
  function AfterSends(c: Conversation, receiver: UserId, ids: seq<MessageId>, now: int): Conversation {
    if ids == [] then c
    else BumpConversation(AfterSends(c, receiver, ids[..|ids| - 1], now), receiver, ids[|ids| - 1], now)
  }

  /**
   * K sends to the same receiver with no read-mark in between raise the
   * receiver's count by exactly K and leave everyone else's alone.
   */
  lemma {:induction false} UnreadCountsSends(c: Conversation, receiver: UserId, ids: seq<MessageId>, now: int)
    ensures UnreadOf(AfterSends(c, receiver, ids, now), receiver) == UnreadOf(c, receiver) + |ids|
    ensures forall u :: u != receiver ==> UnreadOf(AfterSends(c, receiver, ids, now), u) == UnreadOf(c, u)
  {
    if ids != [] {
      UnreadCountsSends(c, receiver, ids[..|ids| - 1], now);
    }
  }

  /** After the receiver marks the conversation read, their count is 0 and the sender's is as before the sends. */
  lemma ReadAfterSends(c: Conversation, sender: UserId, receiver: UserId, ids: seq<MessageId>, now: int)
    requires sender != receiver
    ensures UnreadOf(ResetUnread(AfterSends(c, receiver, ids, now), receiver), receiver) == 0
    ensures UnreadOf(ResetUnread(AfterSends(c, receiver, ids, now), receiver), sender) == UnreadOf(c, sender)
  {
    UnreadCountsSends(c, receiver, ids, now);
  }

  // ---------------------------------------------------------------------------
  // Messages
  // ---------------------------------------------------------------------------

  predicate UniqueIds(ms: seq<Message>) {
    forall i, j :: 0 <= i < j < |ms| ==> ms[i].id != ms[j].id
  }

  /** `messageData.messageType || 'text'` */
  function ResolvedType(messageType: Option<string>): string {
    if messageType.None? || messageType.value == "" then "text" else messageType.value
  }

  /** The message sendMessage builds and validates, with a validation failure as the thrown error. */
  function Validated(id: MessageId, sender: UserId, request: ChatMessageRequest, now: int): (r: Result<Message, ChatError>)
    ensures r.Ok? ==> r.value.id == id && r.value.createdAt == now && !r.value.isRead
    ensures r.Ok? ==> r.value.sender == sender && r.value.receiver == request.receiver
    ensures r.Ok? ==> r.value.content == Trim(request.content)
    ensures r.Ok? ==> MessageTypeOf(ResolvedType(request.messageType)) == Some(r.value.messageType)
    ensures r.Err? <==> sender == "" || request.receiver == "" || Trim(request.content) == ""
                        || MessageTypeOf(ResolvedType(request.messageType)).None?
  {
    match CreateMessage(id, sender, request.receiver, request.content, Some(ResolvedType(request.messageType)), now)
    case Ok(m) => Ok(m)
    case Err(e) => Err(Invalid(e))
  }

  /**
   * updateMany({receiver: reader, isRead: false, sender in participants}, {isRead: true}):
   * only read flags change, and a message ends up read exactly when it was
   * read already or is addressed to the reader by a participant.
   */
  function MarkReadIn(ms: seq<Message>, reader: UserId, participants: seq<UserId>): (r: seq<Message>)
    ensures |r| == |ms|
    ensures forall i :: 0 <= i < |ms| ==> r[i] == ms[i].(isRead := r[i].isRead)
    ensures forall i :: 0 <= i < |ms| ==>
      (r[i].isRead <==> ms[i].isRead || (ms[i].receiver == reader && ms[i].sender in participants))
  {
    if ms == [] then []
    else
      var m := ms[0];
      var m' := if m.receiver == reader && m.sender in participants then m.(isRead := true) else m;
      [m'] + MarkReadIn(ms[1..], reader, participants)
  }

  /** `message.deleteOne()`: every message with that id goes, every other stays. */
  function RemoveMessage(ms: seq<Message>, id: MessageId): (r: seq<Message>)
    ensures forall m :: m in r <==> m in ms && m.id != id
    ensures |r| <= |ms|
  {
    if ms == [] then []
    else (if ms[0].id == id then [] else [ms[0]]) + RemoveMessage(ms[1..], id)
  }

  /** Dropping one message from a list with unique ids leaves the ids unique. */
  lemma DropKeepsUniqueIds(ms: seq<Message>, i: nat)
    requires UniqueIds(ms) && i < |ms|
    ensures UniqueIds(ms[..i] + ms[i + 1..])
  {
    var r := ms[..i] + ms[i + 1..];
    forall a, b | 0 <= a < b < |r| ensures r[a].id != r[b].id {
      var a' := if a < i then a else a + 1;
      var b' := if b < i then b else b + 1;
      assert r[a] == ms[a'] && r[b] == ms[b'];
    }
  }

  /** With unique ids, deleting a stored message removes exactly that one and keeps the order of the rest. */
  lemma {:induction false} RemovesExactlyOne(ms: seq<Message>, i: nat)
    requires UniqueIds(ms) && i < |ms|
    ensures RemoveMessage(ms, ms[i].id) == ms[..i] + ms[i + 1..]
  {
    if i == 0 {
      RemoveAbsent(ms[1..], ms[0].id);
      assert ms[1..] == ms[..0] + ms[1..];
    } else {
      RemovesExactlyOne(ms[1..], i - 1);
      assert ms[1..][i - 1] == ms[i];
      assert ms[0].id != ms[i].id;
      DropAfterFirst(ms, i);
    }
  }

  /** Dropping position i > 0 of a list is keeping its head and dropping position i - 1 of its tail. */
  lemma DropAfterFirst<T>(xs: seq<T>, i: nat)
    requires 0 < i < |xs|
    ensures [xs[0]] + (xs[1..][..i - 1] + xs[1..][i..]) == xs[..i] + xs[i + 1..]
  {
    assert xs[1..][..i - 1] == xs[1..i] && xs[1..][i..] == xs[i + 1..];
    assert xs[..i] == [xs[0]] + xs[1..i];
  }

  lemma {:induction false} RemoveAbsent(ms: seq<Message>, id: MessageId)
    requires forall m :: m in ms ==> m.id != id
    ensures RemoveMessage(ms, id) == ms
  {
    if ms != [] {
      RemoveAbsent(ms[1..], id);
      assert ms == [ms[0]] + ms[1..];
    }
  }

  // ---------------------------------------------------------------------------
  // History paging and newest-first ordering
  // ---------------------------------------------------------------------------

  /** `{$or: [{sender: u, receiver: v}, {sender: v, receiver: u}]}` */
  predicate Exchanged(m: Message, u: UserId, v: UserId) {
    (m.sender == u && m.receiver == v) || (m.sender == v && m.receiver == u)
  }

  /** The messages between two users, in store order. */
  function Thread(ms: seq<Message>, u: UserId, v: UserId): (r: seq<Message>)
    ensures forall m :: m in r <==> m in ms && Exchanged(m, u, v)
  {
    if ms == [] then []
    else (if Exchanged(ms[0], u, v) then [ms[0]] else []) + Thread(ms[1..], u, v)
  }

  /** The thread does not depend on which of the two users asks. */
  lemma {:induction false} ThreadSymmetric(ms: seq<Message>, u: UserId, v: UserId)
    ensures Thread(ms, u, v) == Thread(ms, v, u)
  {
    if ms != [] {
      ThreadSymmetric(ms[1..], u, v);
    }
  }

  /** Descending order on optional timestamps, an absent one sorting last. */
  predicate AtLeast(a: Option<int>, b: Option<int>) {
    b.None? || (a.Some? && a.value >= b.value)
  }

  function InsertNewest<T>(x: T, s: seq<T>, stamp: T -> Option<int>): (r: seq<T>)
    ensures multiset(r) == multiset(s) + multiset{x}
  {
    if s == [] || AtLeast(stamp(x), stamp(s[0])) then [x] + s
    else assert s == [s[0]] + s[1..]; [s[0]] + InsertNewest(x, s[1..], stamp)
  }

  /** `.sort({field: -1})`: a rearrangement, newest first. */
  function NewestFirst<T>(xs: seq<T>, stamp: T -> Option<int>): (r: seq<T>)
    ensures multiset(r) == multiset(xs)
  {
    if xs == [] then [] else assert xs == [xs[0]] + xs[1..]; InsertNewest(xs[0], NewestFirst(xs[1..], stamp), stamp)
  }

  predicate Descending<T>(s: seq<T>, stamp: T -> Option<int>) {
    forall i, j :: 0 <= i < j < |s| ==> AtLeast(stamp(s[i]), stamp(s[j]))
  }

  lemma {:induction false} InsertNewestDescending<T>(x: T, s: seq<T>, stamp: T -> Option<int>)
    requires Descending(s, stamp)
    ensures Descending(InsertNewest(x, s, stamp), stamp)
  {
    if s != [] && !AtLeast(stamp(x), stamp(s[0])) {
      InsertNewestDescending(x, s[1..], stamp);
      var r := InsertNewest(x, s, stamp);
      forall j | 0 < j < |r| ensures AtLeast(stamp(r[0]), stamp(r[j])) {
        assert r[j] in multiset(s[1..]) + multiset{x};
        if r[j] != x {
          var k := IndexOf(s[1..], r[j]);
          assert AtLeast(stamp(s[0]), stamp(s[k + 1]));
        }
      }
    }
  }

  /** The newest-first sort is in non-increasing timestamp order. */
  lemma {:induction false} NewestFirstDescending<T>(xs: seq<T>, stamp: T -> Option<int>)
    ensures Descending(NewestFirst(xs, stamp), stamp)
  {
    if xs != [] {
      NewestFirstDescending(xs[1..], stamp);
      InsertNewestDescending(xs[0], NewestFirst(xs[1..], stamp), stamp);
    }
  }

  function Abs(n: int): nat {
    if n < 0 then -n else n
  }

  /** `.skip(offset).limit(limit)`: a limit of 0 means none, a negative limit counts as its absolute value. */
  function Page<T>(xs: seq<T>, limit: int, offset: nat): (r: seq<T>)
    ensures offset <= |xs| ==> |r| == if limit == 0 || Abs(limit) >= |xs| - offset then |xs| - offset else Abs(limit)
    ensures offset > |xs| ==> r == []
    ensures forall i :: 0 <= i < |r| ==> offset + i < |xs| && r[i] == xs[offset + i]
  {
    var rest := if offset <= |xs| then xs[offset..] else [];
    if limit == 0 || Abs(limit) >= |rest| then rest else rest[..Abs(limit)]
  }

  /** Two consecutive pages of size n are the page of size 2n at the first offset. */
  lemma PagesTile<T>(xs: seq<T>, n: nat, offset: nat)
    requires n > 0
    ensures Page(xs, n, offset) + Page(xs, n, offset + n) == Page(xs, 2 * n, offset)
  {
    var a, b, c := Page(xs, n, offset), Page(xs, n, offset + n), Page(xs, 2 * n, offset);
    assert |a + b| == |c|;
    forall i | 0 <= i < |c| ensures (a + b)[i] == c[i] {
      if i >= |a| {
        assert (a + b)[i] == b[i - |a|];
      }
    }
  }

  /** A page holds elements of the list in their order, so a page of a descending list is descending. */
  lemma PageDescending<T>(xs: seq<T>, limit: int, offset: nat, stamp: T -> Option<int>)
    ensures forall x :: x in Page(xs, limit, offset) ==> x in xs
    ensures Descending(xs, stamp) ==> Descending(Page(xs, limit, offset), stamp)
  {
    var page := Page(xs, limit, offset);
    assert forall i, j :: 0 <= i < j < |page| ==> page[i] == xs[offset + i] && page[j] == xs[offset + j];
  }

  /** Messages in non-increasing `createdAt` order, as `.sort({createdAt: -1})` leaves them. */
  predicate NewestFirstOrder(s: seq<Message>) {
    forall i, j :: 0 <= i < j < |s| ==> s[i].createdAt >= s[j].createdAt
  }

  /** `sorted` is one of the newest-first arrangements of `thread`; messages with equal times may come in any order. */
  predicate ArrangedNewestFirst(sorted: seq<Message>, thread: seq<Message>) {
    multiset(sorted) == multiset(thread) && NewestFirstOrder(sorted)
  }

  /**
   * getConversationMessages: the messages between the two users, newest
   * first, skipping `offset` and returning at most `limit` (0: no bound).
   * The result is that page of some newest-first arrangement of the thread;
   * a negative skip is rejected by the database.
   */
  function History(ms: seq<Message>, u: UserId, v: UserId, limit: int, offset: int): (r: Result<seq<Message>, ChatError>)
    ensures r.Err? <==> offset < 0
    ensures r.Ok? ==> exists sorted :: ArrangedNewestFirst(sorted, Thread(ms, u, v)) && r.value == Page(sorted, limit, offset)
    ensures r.Ok? ==> |r.value| == |Page(Thread(ms, u, v), limit, offset)|
    ensures r.Ok? ==> forall m :: m in r.value ==> m in ms && Exchanged(m, u, v)
    ensures r.Ok? ==> NewestFirstOrder(r.value)
    ensures r.Ok? && limit != 0 ==> |r.value| <= Abs(limit)
  {
    if offset < 0 then Err(QueryRejected)
    else
      var thread := Thread(ms, u, v);
      var sorted := NewestFirst(thread, CreatedAt);
      SortArrangesNewestFirst(thread);
      PageOfArrangement(sorted, thread, limit, offset);
      Ok(Page(sorted, limit, offset))
  }

  /** The `createdAt` stamp the history is sorted on. */
  function CreatedAt(m: Message): Option<int> {
    Some(m.createdAt)
  }

  /** The insertion sort on `createdAt` is one of the newest-first arrangements. */
  lemma SortArrangesNewestFirst(thread: seq<Message>)
    ensures ArrangedNewestFirst(NewestFirst(thread, CreatedAt), thread)
  {
    var sorted := NewestFirst(thread, CreatedAt);
    NewestFirstDescending(thread, CreatedAt);
    forall i, j | 0 <= i < j < |sorted| ensures sorted[i].createdAt >= sorted[j].createdAt {
      assert AtLeast(CreatedAt(sorted[i]), CreatedAt(sorted[j]));
    }
  }

  /** A page of an arrangement has the length of the same page of the thread, holds thread messages only, and is newest first. */
  lemma PageOfArrangement(sorted: seq<Message>, thread: seq<Message>, limit: int, offset: nat)
    requires ArrangedNewestFirst(sorted, thread)
    ensures |Page(sorted, limit, offset)| == |Page(thread, limit, offset)|
    ensures forall m :: m in Page(sorted, limit, offset) ==> m in thread
    ensures NewestFirstOrder(Page(sorted, limit, offset))
  {
    assert |sorted| == |thread| by {
      assert |multiset(sorted)| == |multiset(thread)|;
    }
    var page := Page(sorted, limit, offset);
    forall m | m in page ensures m in thread {
      assert m in sorted;
      assert m in multiset(thread);
    }
    forall i, j | 0 <= i < j < |page| ensures page[i].createdAt >= page[j].createdAt {
      assert page[i] == sorted[offset + i] && page[j] == sorted[offset + j];
    }
  }

  /**
   * A first page holds the newest messages: any message of the thread that is
   * strictly newer than one on the page is on the page too.
   */
  lemma FirstPageIsNewest(ms: seq<Message>, u: UserId, v: UserId, limit: int)
    ensures History(ms, u, v, limit, 0).Ok?
    ensures var page := History(ms, u, v, limit, 0).value;
      forall m, p :: m in Thread(ms, u, v) && p in page && m.createdAt > p.createdAt ==> m in page
  {
    var thread := Thread(ms, u, v);
    var page := History(ms, u, v, limit, 0).value;
    var sorted: seq<Message> :| ArrangedNewestFirst(sorted, thread) && page == Page(sorted, limit, 0);
    forall m, p | m in thread && p in page && m.createdAt > p.createdAt ensures m in page {
      assert m in multiset(sorted);
      NewerStaysOnFirstPage(sorted, limit, m, p);
    }
  }

  /** On a newest-first list, the first page cannot leave out a message newer than one it holds. */
  lemma NewerStaysOnFirstPage(sorted: seq<Message>, limit: int, m: Message, p: Message)
    requires NewestFirstOrder(sorted) && m in sorted && p in Page(sorted, limit, 0) && m.createdAt > p.createdAt
    ensures m in Page(sorted, limit, 0)
  {
    var page := Page(sorted, limit, 0);
    var i :| 0 <= i < |page| && page[i] == p;
    var k :| 0 <= k < |sorted| && sorted[k] == m;
    assert page[i] == sorted[i];
    assert k < |page|;
    assert page[k] == m;
  }

  // ---------------------------------------------------------------------------
  // Search
  // ---------------------------------------------------------------------------

  /**
   * Some participant other than the user has a known name that contains the
   * term, both lowercased. `names` is the user directory that `populate`
   * reads; participants without a user record are dropped by `populate`.
   */
  predicate NameMatches(c: Conversation, userId: UserId, term: string, names: map<UserId, string>) {
    exists p :: p in c.participants && p != userId && p in names && Includes(ToLower(names[p]), ToLower(term))
  }

  function KeepMatches(cs: seq<Conversation>, userId: UserId, term: string, names: map<UserId, string>): (r: seq<Conversation>)
    ensures forall c :: c in r <==> c in cs && NameMatches(c, userId, term, names)
    ensures Distinct(cs) ==> Distinct(r)
  {
    if cs == [] then []
    else
      var rest := KeepMatches(cs[1..], userId, term, names);
      assert Distinct(cs) ==> cs[0] !in cs[1..];
      if NameMatches(cs[0], userId, term, names) then [cs[0]] + rest else rest
  }

  predicate DistinctIds(cs: seq<Conversation>) {
    forall i, j :: 0 <= i < j < |cs| ==> cs[i].id != cs[j].id
  }

  /** Rearranging a list of distinct conversations with distinct ids keeps the ids distinct. */
  lemma PermutationKeepsDistinctIds(cs: seq<Conversation>, r: seq<Conversation>)
    requires Distinct(cs) && DistinctIds(cs) && multiset(cs) == multiset(r)
    ensures DistinctIds(r)
  {
    PermutationKeepsDistinct(cs, r);
    forall i, j | 0 <= i < j < |r| ensures r[i].id != r[j].id {
      assert r[i] in multiset(cs) && r[j] in multiset(cs);
      var k := IndexOf(cs, r[i]);
      var l := IndexOf(cs, r[j]);
      assert k != l;
    }
  }

  // ---------------------------------------------------------------------------
  // The store
  // ---------------------------------------------------------------------------

  /** Creating the conversation of a pair that has none keeps one record per pair. */
  lemma StartKeepsOnePerPair(convs: map<ConversationId, Conversation>, id: ConversationId,
                             sender: UserId, receiver: UserId, messageId: MessageId, now: int)
    requires Canonical(convs) && OnePerPair(convs)
    requires id !in convs && MatchingIds(convs, PairKey(sender, receiver)) == {}
    ensures var c := StartConversation(id, sender, receiver, messageId, now);
      Canonical(convs[id := c]) && OnePerPair(convs[id := c])
  {
    var c := StartConversation(id, sender, receiver, messageId, now);
    var next := convs[id := c];
    forall j | j in convs ensures convs[j].participants != c.participants {
      assert j !in MatchingIds(convs, PairKey(sender, receiver));
      assert !MatchesKey(convs[j], c.participants);
    }
    forall i | i in next ensures next[i].id == i && StrictlySorted(next[i].participants) {
      if i != id {
        assert next[i] == convs[i];
      }
    }
    forall i, j | i in next && j in next && next[i].participants == next[j].participants ensures i == j {
      if i != id && j != id {
        assert next[i] == convs[i] && next[j] == convs[j];
      }
    }
  }

  /** Recording a message on a stored conversation keeps the store canonical. */
  lemma BumpKeepsOnePerPair(convs: map<ConversationId, Conversation>, k: ConversationId,
                            receiver: UserId, messageId: MessageId, now: int)
    requires Canonical(convs) && OnePerPair(convs) && k in convs
    ensures var c := BumpConversation(convs[k], receiver, messageId, now);
      Canonical(convs[k := c]) && OnePerPair(convs[k := c])
  {
  }

  /** Appending a message with a new id keeps message ids unique. */
  lemma AppendKeepsUniqueIds(ms: seq<Message>, m: Message)
    requires UniqueIds(ms) && forall x :: x in ms ==> x.id != m.id
    ensures UniqueIds(ms + [m])
  {
    assert forall i :: 0 <= i < |ms| ==> ms[i] in ms;
  }

  class ChatStore {
    var messages: seq<Message>
    var conversations: map<ConversationId, Conversation>

    ghost predicate Valid()
      reads this
    {
      UniqueIds(messages) && Canonical(conversations) && OnePerPair(conversations)
    }

    constructor ()
      ensures Valid() && messages == [] && conversations == map[]
    {
      messages := [];
      conversations := map[];
    }

    /**
     * sendMessage: validate and store the message, then record it on the
     * pair's conversation, creating the conversation for a first message.
     * The store hands out fresh ids.
     */
    method SendMessage(senderId: UserId, request: ChatMessageRequest, messageId: MessageId,
                       conversationId: ConversationId, now: int) returns (r: Result<Message, ChatError>)
      requires Valid()
      requires forall m :: m in messages ==> m.id != messageId
      requires conversationId !in conversations
      modifies this
      ensures Valid()
      ensures r == Validated(messageId, senderId, request, now)
      ensures r.Err? ==> messages == old(messages) && conversations == old(conversations)
      ensures r.Ok? ==> messages == old(messages) + [r.value]
      ensures r.Ok? && MatchingIds(old(conversations), PairKey(senderId, request.receiver)) == {} ==>
        conversations == old(conversations)[conversationId := StartConversation(conversationId, senderId, request.receiver, messageId, now)]
      ensures r.Ok? && MatchingIds(old(conversations), PairKey(senderId, request.receiver)) != {} ==>
        exists k :: MatchingIds(old(conversations), PairKey(senderId, request.receiver)) == {k}
          && conversations == old(conversations)[k := BumpConversation(old(conversations)[k], request.receiver, messageId, now)]
    {
      r := Validated(messageId, senderId, request, now);
      if r.Err? {
        return;
      }
      RecordMessage(r.value, conversationId, now);
    }

    /**
     * The part of sendMessage after validation: store the message, then
     * start or bump the pair's conversation.
     */
    method RecordMessage(m: Message, conversationId: ConversationId, now: int)
      requires Valid()
      requires forall x :: x in messages ==> x.id != m.id
      requires conversationId !in conversations
      modifies this
      ensures Valid()
      ensures messages == old(messages) + [m]
      ensures MatchingIds(old(conversations), PairKey(m.sender, m.receiver)) == {} ==>
        conversations == old(conversations)[conversationId := StartConversation(conversationId, m.sender, m.receiver, m.id, now)]
      ensures MatchingIds(old(conversations), PairKey(m.sender, m.receiver)) != {} ==>
        exists k :: MatchingIds(old(conversations), PairKey(m.sender, m.receiver)) == {k}
          && conversations == old(conversations)[k := BumpConversation(old(conversations)[k], m.receiver, m.id, now)]
    {
      AppendKeepsUniqueIds(messages, m);
      var convs := conversations;
      var found := MatchingIds(convs, PairKey(m.sender, m.receiver));
      if found == {} {
        StartKeepsOnePerPair(convs, conversationId, m.sender, m.receiver, m.id, now);
        messages, conversations := messages + [m],
          convs[conversationId := StartConversation(conversationId, m.sender, m.receiver, m.id, now)];
      } else {
        var k :| k in found;
        LookupSingleton(convs, m.sender, m.receiver, k);
        assert found == {k};
        BumpKeepsOnePerPair(convs, k, m.receiver, m.id, now);
        messages, conversations := messages + [m],
          convs[k := BumpConversation(convs[k], m.receiver, m.id, now)];
      }
    }

    /**
     * markMessagesAsRead: the conversation must exist and the user must be
     * one of its participants; then every message to the user from a
     * participant is read and the user's count is 0.
     */
    method MarkMessagesAsRead(userId: UserId, conversationId: ConversationId) returns (failure: Option<ChatError>)
      requires Valid()
      modifies this
      ensures Valid()
      ensures conversationId !in old(conversations) ==> failure == Some(ConversationNotFound)
      ensures conversationId in old(conversations) && userId !in old(conversations)[conversationId].participants
              ==> failure == Some(NotAParticipant)
      ensures failure.Some? ==> messages == old(messages) && conversations == old(conversations)
      ensures failure.None? <==> conversationId in old(conversations) && userId in old(conversations)[conversationId].participants
      ensures failure.None? ==> (
        && conversationId in old(conversations)
        && userId in old(conversations)[conversationId].participants
        && messages == MarkReadIn(old(messages), userId, old(conversations)[conversationId].participants)
        && conversations == old(conversations)[conversationId := ResetUnread(old(conversations)[conversationId], userId)])
    {
      if conversationId !in conversations {
        return Some(ConversationNotFound);
      }
      var c := conversations[conversationId];
      if userId !in c.participants {
        return Some(NotAParticipant);
      }
      messages := MarkReadIn(messages, userId, c.participants);
      conversations := conversations[conversationId := ResetUnread(c, userId)];
      failure := None;
    }

    /**
     * getUnreadCount: every conversation of the user whose count for the
     * user is positive, mapped to that count.
     */
    method GetUnreadCount(userId: UserId) returns (counts: map<ConversationId, int>)
      ensures forall id :: id in counts <==>
        id in conversations && userId in conversations[id].participants && UnreadOf(conversations[id], userId) > 0
      ensures forall id :: id in counts ==> counts[id] == UnreadOf(conversations[id], userId)
    {
      counts := map[];
      var todo := conversations.Keys;
      while todo != {}
        invariant todo <= conversations.Keys
        invariant forall id :: id in counts <==>
          id in conversations && id !in todo && userId in conversations[id].participants
          && UnreadOf(conversations[id], userId) > 0
        invariant forall id :: id in counts ==> counts[id] == UnreadOf(conversations[id], userId)
        decreases |todo|
      {
        var id :| id in todo;
        var c := conversations[id];
        if userId in c.participants {
          var count := UnreadOf(c, userId);
          if count > 0 {
            counts := counts[id := count];
          }
        }
        todo := todo - {id};
      }
    }

    /** `Conversation.find({participants: userId})`, in no particular order. */
    method ConversationsOf(userId: UserId) returns (cs: seq<Conversation>)
      requires Valid()
      ensures forall c :: c in cs ==> c.id in conversations && conversations[c.id] == c && userId in c.participants
      ensures forall id :: id in conversations && userId in conversations[id].participants ==> conversations[id] in cs
      ensures Distinct(cs) && DistinctIds(cs)
    {
      cs := [];
      var todo := conversations.Keys;
      while todo != {}
        invariant todo <= conversations.Keys
        invariant forall c :: c in cs ==> c.id in conversations && c.id !in todo && conversations[c.id] == c
                                           && userId in c.participants
        invariant forall id :: id in conversations && id !in todo && userId in conversations[id].participants
                               ==> conversations[id] in cs
        invariant DistinctIds(cs)
        decreases |todo|
      {
        var id :| id in todo;
        var c := conversations[id];
        if userId in c.participants {
          cs := cs + [c];
        }
        todo := todo - {id};
      }
    }

    /** getUserConversations: each conversation of the user once, most recent last message first. */
    method GetUserConversations(userId: UserId) returns (r: seq<Conversation>)
      requires Valid()
      ensures forall c :: c in r ==> c.id in conversations && conversations[c.id] == c && userId in c.participants
      ensures forall id :: id in conversations && userId in conversations[id].participants ==> conversations[id] in r
      ensures DistinctIds(r)
      ensures forall i, j :: 0 <= i < j < |r| ==> AtLeast(r[i].lastMessageAt, r[j].lastMessageAt)
    {
      var cs := ConversationsOf(userId);
      r := NewestFirst(cs, (c: Conversation) => c.lastMessageAt);
      NewestFirstDescending(cs, (c: Conversation) => c.lastMessageAt);
      assert forall c :: c in r <==> c in multiset(cs);
      PermutationKeepsDistinctIds(cs, r);
    }

    /** searchConversations: the user's conversations with someone whose name contains the term. */
    method SearchConversations(userId: UserId, term: string, names: map<UserId, string>) returns (r: seq<Conversation>)
      requires Valid()
      ensures forall c :: c in r ==> c.id in conversations && conversations[c.id] == c && userId in c.participants
                                     && NameMatches(c, userId, term, names)
      ensures forall id :: (id in conversations && userId in conversations[id].participants
                            && NameMatches(conversations[id], userId, term, names)) ==> conversations[id] in r
      ensures DistinctIds(r)
    {
      var cs := ConversationsOf(userId);
      r := KeepMatches(cs, userId, term, names);
    }

    /** deleteMessage: only the sender can delete; anything else reports false and changes nothing. */
    method DeleteMessage(userId: UserId, messageId: MessageId) returns (deleted: bool)
      requires Valid()
      modifies this
      ensures Valid()
      ensures deleted <==> exists m :: m in old(messages) && m.id == messageId && m.sender == userId
      ensures messages == if deleted then RemoveMessage(old(messages), messageId) else old(messages)
      ensures conversations == old(conversations)
    {
      deleted := exists m :: m in messages && m.id == messageId && m.sender == userId;
      if deleted {
        var i :| 0 <= i < |messages| && messages[i].id == messageId;
        RemovesExactlyOne(messages, i);
        DropKeepsUniqueIds(messages, i);
        messages := RemoveMessage(messages, messageId);
      }
    }
  }
}
