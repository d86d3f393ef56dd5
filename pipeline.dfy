/**
 * The message-creation pipeline of `configureMessaging` as functions on a
 * snapshot of the database: what `addMessage`, `sendMessage` and
 * `addSystemMessage` write and return, with the async calls run one after
 * another. The class in module Create performs the same steps on its fields
 * and is proved equal to these functions.
 */
module Pipeline {
  import opened Results
  import opened Content
  import opened Store

  type Uid = string
  type RoomId = string

  /** The object stored under `message:<mid>`. */
  datatype MessageRecord = MessageRecord(
    content: string,
    timestamp: int,
    fromuid: Uid,
    roomId: RoomId,
    deleted: int,
    system: int,
    ip: Option<string>)

  /** The `data` argument of `sendMessage` and `addMessage`; `None` is an absent field. */
  datatype SendMessageData = SendMessageData(
    content: string,
    uid: Uid,
    roomId: RoomId,
    timestamp: Option<int>,
    system: Option<int>,
    ip: Option<string>)

  /** The message `addMessage` returns: the read-back record with `newSet` and `mid` attached. */
  datatype Sent = Sent(message: MessageRecord, newSet: bool, mid: int)

  /**
   * The database keys the pipeline writes:
   * `global.nextMid`, `message:<mid>`, `uid:<uid>:chat:rooms` (by uid),
   * `uid:<uid>:chat:room:<roomId>:mids` (by uid and room) and the unread
   * (uid, room) pairs.
   */
  datatype Db = Db(
    nextMid: nat,
    messages: map<int, MessageRecord>,
    rooms: map<Uid, map<RoomId, int>>,
    roomMids: map<(Uid, RoomId), map<int, int>>,
    unread: set<(Uid, RoomId)>)
  {
    /** Every message id in the store was issued by the counter. */
    predicate Valid()
    {
      && (forall mid :: mid in messages ==> 1 <= mid <= nextMid)
      && (forall key, mid :: key in roomMids && mid in roomMids[key] ==> 1 <= mid <= nextMid)
    }
  }

  /**
   * What the pipeline reads but never writes: room membership
   * (`chat:room:<roomId>:uids`), the block relation (a pair `(a, b)` means
   * `a` has blocked `b`), the `maximumChatMessageLength` setting, the two
   * filter hooks and the read-back formatting of `getMessagesData`, which
   * may find nothing.
   */
  datatype Env = Env(
    membership: map<RoomId, seq<Uid>>,
    blocks: set<(Uid, Uid)>,
    maxLengthSetting: Option<int>,
    contentFilter: Filtered -> Filtered,
    saveFilter: MessageRecord -> MessageRecord,
    display: MessageRecord -> Option<MessageRecord>)

  /**
   * `db.getSortedSetRange('chat:room:<roomId>:uids', 0, -1)`: the room's
   * member list, empty for a room that has none.
   */
  function Members(env: Env, roomId: RoomId): (m: seq<Uid>)
    ensures roomId in env.membership ==> m == env.membership[roomId]
    ensures roomId !in env.membership ==> m == []
  {
    if roomId in env.membership then env.membership[roomId] else []
  }

  /**
   * `Messaging.isUserInRoom(uid, roomId)`, read from the same member list
   * that the fan-out reads.
   */
  predicate IsUserInRoom(env: Env, uid: Uid, roomId: RoomId): (b: bool)
    ensures b <==> roomId in env.membership && uid in env.membership[roomId]
  {
    uid in Members(env, roomId)
  }

  /** The room's members after `user.blocks.filterUids(sender, ...)`: those who have not blocked the sender. */
  function Recipients(env: Env, sender: Uid, roomId: RoomId): (r: seq<Uid>)
    ensures forall u :: u in r <==> u in Members(env, roomId) && (u, sender) !in env.blocks
  {
    Filter(Members(env, roomId), u => (u, sender) !in env.blocks)
  }

  /** `uids.filter(uid => uid !== String(sender))` */
  function UnreadTargets(uids: seq<Uid>, sender: Uid): (r: seq<Uid>)
    ensures forall u :: u in r <==> u in uids && u != sender
  {
    Filter(uids, u => u != sender)
  }

  /** The room-activity keys `uids.map(uid => 'uid:<uid>:chat:rooms')`, by uid. */
  function RoomKeys(uids: seq<Uid>): (keys: set<Uid>)
    ensures forall u :: u in keys <==> u in uids
  {
    set u | u in uids
  }

  /** The keys `uids.map(uid => 'uid:<uid>:chat:room:<roomId>:mids')`, by (uid, room). */
  function RoomPairs(uids: seq<Uid>, roomId: RoomId): (keys: set<(Uid, RoomId)>)
    ensures forall u, r :: (u, r) in keys <==> u in uids && r == roomId
  {
    set u | u in uids :: (u, roomId)
  }

  /** `data.timestamp || Date.now()`: an absent or zero timestamp means now. */
  function MessageTimestamp(data: SendMessageData, now: int): (t: int)
    ensures data.timestamp.Some? && data.timestamp.value != 0 ==> t == data.timestamp.value
    ensures data.timestamp.None? || data.timestamp == Some(0) ==> t == now
  {
    match data.timestamp
    case Some(t) => if t != 0 then t else now
    case None => now
  }

  /**
   * The record `addMessage` assembles before the save filter runs: the
   * content as sent, the sender and room, not deleted, the system flag or 0,
   * and the ip.
   */
  function BuildRecord(data: SendMessageData, timestamp: int): (m: MessageRecord)
    ensures m.content == data.content && m.timestamp == timestamp
    ensures m.fromuid == data.uid && m.roomId == data.roomId && m.deleted == 0
    ensures m.system == (if data.system.Some? then data.system.value else 0) && m.ip == data.ip
  {
    MessageRecord(data.content, timestamp, data.uid, data.roomId, 0, data.system.GetOr(0), data.ip)
  }

  /**
   * The per-user indices after fan-out: every recipient has `roomId` in its
   * room-activity set and `mid` in its message set for the room, both with
   * score `ts`; no other entry of any user changes.
   */
  ghost predicate IndexedExactly(before: Db, after: Db, recipients: seq<Uid>, roomId: RoomId, mid: int, ts: int)
  {
    && after.rooms.Keys == before.rooms.Keys + RoomKeys(recipients)
    && (forall u :: u in recipients ==> roomId in after.rooms[u] && after.rooms[u][roomId] == ts)
    && (forall u, r :: u in recipients && r != roomId ==>
          (r in after.rooms[u] <==> r in Lookup(before.rooms, u)) &&
          (r in after.rooms[u] ==> after.rooms[u][r] == Lookup(before.rooms, u)[r]))
    && (forall u :: u in before.rooms && u !in recipients ==> after.rooms[u] == before.rooms[u])
    && after.roomMids.Keys == before.roomMids.Keys + RoomPairs(recipients, roomId)
    && (forall u :: u in recipients ==> mid in after.roomMids[(u, roomId)] && after.roomMids[(u, roomId)][mid] == ts)
    && (forall u, m :: u in recipients && m != mid ==>
          (m in after.roomMids[(u, roomId)] <==> m in Lookup(before.roomMids, (u, roomId))) &&
          (m in after.roomMids[(u, roomId)] ==> after.roomMids[(u, roomId)][m] == Lookup(before.roomMids, (u, roomId))[m]))
    && (forall u, r :: (u, r) in before.roomMids && (u !in recipients || r != roomId) ==>
          after.roomMids[(u, r)] == before.roomMids[(u, r)])
  }

  /** The unread pairs after fan-out: the room is marked for every recipient except the sender, and nothing else. */
  ghost predicate UnreadMarked(before: Db, after: Db, recipients: seq<Uid>, sender: Uid, roomId: RoomId)
  {
    forall u, r :: (u, r) in after.unread <==>
      (u, r) in before.unread || (r == roomId && u in recipients && u != sender)
  }

  /** The result of `addMessage`: the new database and the returned message, `None` for null. */
  datatype Added = Added(db: Db, sent: Option<Sent>)

  /**
   * `Messaging.addMessage(data)`, with the clock reading `now` and the
   * external `isNewSet` answer as inputs.
   */
  function AddMessageSpec(db: Db, env: Env, data: SendMessageData, now: int, isNewSet: bool): (r: Added)
    ensures r.db.nextMid == db.nextMid + 1
    ensures r.db.messages == db.messages[r.db.nextMid := env.saveFilter(BuildRecord(data, MessageTimestamp(data, now)))]
    ensures IndexedExactly(db, r.db, Recipients(env, data.uid, data.roomId), data.roomId, r.db.nextMid, MessageTimestamp(data, now))
    ensures UnreadMarked(db, r.db, Recipients(env, data.uid, data.roomId), data.uid, data.roomId)
    ensures r.sent.None? <==> env.display(r.db.messages[r.db.nextMid]).None?
    ensures r.sent.Some? ==>
              && r.sent.value.mid == r.db.nextMid
              && r.sent.value.newSet == isNewSet
              && r.sent.value.message == env.display(r.db.messages[r.db.nextMid]).value.(roomId := data.roomId)
  {
    var mid := db.nextMid + 1;
    var timestamp := MessageTimestamp(data, now);
    var message := env.saveFilter(BuildRecord(data, timestamp));
    var uids := Recipients(env, data.uid, data.roomId);
    var after := Db(
      mid,
      db.messages[mid := message],
      SortedSetsAdd(db.rooms, RoomKeys(uids), data.roomId, timestamp),
      SortedSetsAdd(db.roomMids, RoomPairs(uids, data.roomId), mid, timestamp),
      db.unread + RoomPairs(UnreadTargets(uids, data.uid), data.roomId));
    var shown := env.display(after.messages[mid]);
    Added(after, if shown.None? then None else Some(Sent(shown.value.(roomId := data.roomId), isNewSet, mid)))
  }

  /** The result of `sendMessage`: the new database and the returned message or the thrown error. */
  datatype Step = Step(db: Db, reply: Result<Option<Sent>, ChatError>)

  /** `Messaging.sendMessage(data)`: check content, then membership, then `addMessage`. */
  function SendMessageSpec(db: Db, env: Env, data: SendMessageData, now: int, isNewSet: bool): (r: Step)
    ensures r.reply.Err? <==> r.db == db
    ensures data.content == [] ==> r.reply == Err(InvalidChatMessage)
    ensures CheckContent(data.content, env.maxLengthSetting, env.contentFilter).Fail? ==>
              r.reply == Err(CheckContent(data.content, env.maxLengthSetting, env.contentFilter).error)
    ensures r.reply == Err(NotAllowed) <==>
              CheckContent(data.content, env.maxLengthSetting, env.contentFilter).Pass? &&
              !IsUserInRoom(env, data.uid, data.roomId)
    ensures r.reply.Ok? <==>
              CheckContent(data.content, env.maxLengthSetting, env.contentFilter).Pass? &&
              IsUserInRoom(env, data.uid, data.roomId)
    ensures r.reply.Ok? ==> r.reply.value == AddMessageSpec(db, env, data, now, isNewSet).sent &&
                            r.db == AddMessageSpec(db, env, data, now, isNewSet).db
  {
    var check := CheckContent(data.content, env.maxLengthSetting, env.contentFilter);
    if check.Fail? then Step(db, Err(check.error))
    else if !IsUserInRoom(env, data.uid, data.roomId) then Step(db, Err(NotAllowed))
    else
      var added := AddMessageSpec(db, env, data, now, isNewSet);
      Step(added.db, Ok(added.sent))
  }

  /**
   * The `data` that `addSystemMessage` hands to `addMessage`: the clock
   * stamps it, and it is stored with `system` 1 and no ip.
   */
  function SystemMessageData(content: string, uid: Uid, roomId: RoomId): (d: SendMessageData)
    ensures d.content == content && d.uid == uid && d.roomId == roomId
    ensures forall now :: MessageTimestamp(d, now) == now
    ensures forall t :: BuildRecord(d, t) == MessageRecord(content, t, uid, roomId, 0, 1, None)
  {
    SendMessageData(content, uid, roomId, None, Some(1), None)
  }

  /**
   * `Messaging.addSystemMessage(content, uid, roomId)`: `addMessage` with
   * `system: 1` and neither the content check nor the membership check.
   */
  function AddSystemMessageSpec(db: Db, env: Env, content: string, uid: Uid, roomId: RoomId, now: int, isNewSet: bool): (r: Db)
    ensures r.nextMid == db.nextMid + 1
    ensures r.messages == db.messages[r.nextMid := env.saveFilter(MessageRecord(content, now, uid, roomId, 0, 1, None))]
    ensures IndexedExactly(db, r, Recipients(env, uid, roomId), roomId, r.nextMid, now)
    ensures UnreadMarked(db, r, Recipients(env, uid, roomId), uid, roomId)
  {
    var added := AddMessageSpec(db, env, SystemMessageData(content, uid, roomId), now, isNewSet);
    assert added.db.nextMid in added.db.messages;
    added.db
  }

  /** Unfolds `AddMessageSpec` for the proof of `Messaging.AddMessage`. */
  lemma AddMessageSteps(db: Db, env: Env, data: SendMessageData, now: int, isNewSet: bool)
    ensures var mid, timestamp := db.nextMid + 1, MessageTimestamp(data, now);
            var uids := Recipients(env, data.uid, data.roomId);
            var message := env.saveFilter(BuildRecord(data, timestamp));
            var shown := env.display(message);
            AddMessageSpec(db, env, data, now, isNewSet) == Added(
              Db(mid, db.messages[mid := message],
                 SortedSetsAdd(db.rooms, RoomKeys(uids), data.roomId, timestamp),
                 SortedSetsAdd(db.roomMids, RoomPairs(uids, data.roomId), mid, timestamp),
                 db.unread + RoomPairs(UnreadTargets(uids, data.uid), data.roomId)),
              if shown.None? then None else Some(Sent(shown.value.(roomId := data.roomId), isNewSet, mid)))
  {
  }

  /** `addMessage` never overwrites a stored message and keeps the store valid. */
  lemma AddMessageKeepsStore(db: Db, env: Env, data: SendMessageData, now: int, isNewSet: bool)
    requires db.Valid()
    ensures var after := AddMessageSpec(db, env, data, now, isNewSet).db;
            && after.Valid()
            && after.nextMid !in db.messages
            && (forall mid :: mid in db.messages ==> mid in after.messages && after.messages[mid] == db.messages[mid])
  {
    var after := AddMessageSpec(db, env, data, now, isNewSet).db;
    var uids := Recipients(env, data.uid, data.roomId);
    assert after.roomMids == SortedSetsAdd(db.roomMids, RoomPairs(uids, data.roomId), after.nextMid, MessageTimestamp(data, now));
    SortedSetsAddKeepsBounds(db.roomMids, RoomPairs(uids, data.roomId), after.nextMid, MessageTimestamp(data, now), 1, after.nextMid);
  }

  /**
   * With no save plugin, the stored record is exactly what was asked for:
   * the content as given (not trimmed), the timestamp or the clock, the
   * sender, the room, not deleted, the system flag or 0, and the ip.
   */
  lemma StoredRecordMatchesRequest(db: Db, env: Env, data: SendMessageData, now: int, isNewSet: bool)
    requires forall m :: env.saveFilter(m) == m
    ensures var after := AddMessageSpec(db, env, data, now, isNewSet).db;
            var stored := after.messages[after.nextMid];
            && stored.content == data.content
            && stored.timestamp == (if data.timestamp.None? || data.timestamp == Some(0) then now else data.timestamp.value)
            && stored.fromuid == data.uid && stored.roomId == data.roomId
            && stored.deleted == 0
            && stored.system == (if data.system.None? then 0 else data.system.value)
            && stored.ip == data.ip
  {
  }

  /**
   * A user gets the new message in its per-room message set exactly when it
   * is a member of the room that has not blocked the sender, and gets the
   * room marked unread exactly when, in addition, it is not the sender (or
   * the room already was unread).
   */
  lemma ReachedIffRecipient(db: Db, env: Env, data: SendMessageData, now: int, isNewSet: bool, u: Uid)
    requires db.Valid()
    ensures var after := AddMessageSpec(db, env, data, now, isNewSet).db;
            && (after.nextMid in Lookup(after.roomMids, (u, data.roomId)) <==>
                  u in Members(env, data.roomId) && (u, data.uid) !in env.blocks)
            && ((u, data.roomId) in after.unread <==>
                  (u, data.roomId) in db.unread ||
                  (u in Members(env, data.roomId) && (u, data.uid) !in env.blocks && u != data.uid))
  {
  }

  /**
   * The membership check and the fan-out read the same member list: a
   * message that `sendMessage` accepts reaches the sender's own index,
   * unless the sender has blocked itself.
   */
  lemma AcceptedSenderIsIndexed(db: Db, env: Env, data: SendMessageData, now: int, isNewSet: bool)
    requires (data.uid, data.uid) !in env.blocks
    ensures var step := SendMessageSpec(db, env, data, now, isNewSet);
            step.reply.Ok? ==> step.db.nextMid in Lookup(step.db.roomMids, (data.uid, data.roomId))
  {
  }

  /**
   * `sendMessage` checks content before membership: a non-member whose
   * content is refused gets the content error, and nothing is written.
   */
  lemma ContentCheckedBeforeMembership(db: Db, env: Env, data: SendMessageData, now: int, isNewSet: bool)
    requires !IsUserInRoom(env, data.uid, data.roomId)
    ensures var step := SendMessageSpec(db, env, data, now, isNewSet);
            && step.db == db
            && step.reply == Err(match CheckContent(data.content, env.maxLengthSetting, env.contentFilter)
                                 case Fail(e) => e
                                 case Pass => NotAllowed)
  {
  }

  /**
   * `addSystemMessage` allocates and stores a message even for content the
   * content check refuses and a sender outside the room, and fans it out to
   * the same recipients as an ordinary message.
   */
  lemma SystemMessageBypassesChecks(db: Db, env: Env, content: string, uid: Uid, roomId: RoomId, now: int, isNewSet: bool)
    requires CheckContent(content, env.maxLengthSetting, env.contentFilter).Fail? || !IsUserInRoom(env, uid, roomId)
    ensures SendMessageSpec(db, env, SystemMessageData(content, uid, roomId), now, isNewSet).db == db
    ensures var after := AddSystemMessageSpec(db, env, content, uid, roomId, now, isNewSet);
            && after.nextMid == db.nextMid + 1
            && after.messages[after.nextMid].content == (env.saveFilter(MessageRecord(content, now, uid, roomId, 0, 1, None))).content
            && IndexedExactly(db, after, Recipients(env, uid, roomId), roomId, after.nextMid, now)
  {
  }

  /** A request to the pipeline, with its clock reading and `isNewSet` answer. */
  datatype Request =
    | SendRequest(data: SendMessageData, now: int, isNewSet: bool)
    | SystemRequest(content: string, uid: Uid, roomId: RoomId, now: int, isNewSet: bool)

  /** The database after one request, and the id of the message it created, if any. */
  datatype Applied = Applied(db: Db, created: Option<int>)

  function Apply(db: Db, env: Env, request: Request): Applied
  {
    match request
    case SendRequest(data, now, isNewSet) =>
      var step := SendMessageSpec(db, env, data, now, isNewSet);
      Applied(step.db, if step.reply.Ok? then Some(step.db.nextMid) else None)
    case SystemRequest(content, uid, roomId, now, isNewSet) =>
      var after := AddSystemMessageSpec(db, env, content, uid, roomId, now, isNewSet);
      Applied(after, Some(after.nextMid))
  }

  /** One request either changes nothing or creates the message with the next id, keeping every earlier one. */
  lemma ApplyAllocatesNext(db: Db, env: Env, request: Request)
    requires db.Valid()
    ensures var a := Apply(db, env, request);
            && a.db.Valid()
            && (a.created.None? ==> a.db == db)
            && (a.created.Some? ==> a.created.value == db.nextMid + 1 == a.db.nextMid
                                    && a.created.value !in db.messages && a.created.value in a.db.messages)
            && (forall mid :: mid in db.messages ==> mid in a.db.messages && a.db.messages[mid] == db.messages[mid])
  {
    match request
    case SendRequest(data, now, isNewSet) =>
      AddMessageKeepsStore(db, env, data, now, isNewSet);
    case SystemRequest(content, uid, roomId, now, isNewSet) =>
      AddMessageKeepsStore(db, env, SystemMessageData(content, uid, roomId), now, isNewSet);
  }

  /** The database after a series of requests, and the ids of the messages they created, in order. */
  datatype RunResult = RunResult(db: Db, mids: seq<int>)

  function Run(db: Db, env: Env, requests: seq<Request>): RunResult
    decreases |requests|
  {
    if requests == [] then RunResult(db, [])
    else
      var first := Apply(db, env, requests[0]);
      var rest := Run(first.db, env, requests[1..]);
      match first.created
      case Some(mid) => RunResult(rest.db, [mid] + rest.mids)
      case None => rest
  }

  /**
   * Over any series of requests, the created messages get consecutive,
   * strictly increasing ids above the counter's starting value, none of them
   * overwrites an earlier message, and each is stored under its id.
   */
  lemma {:induction false} MidsStrictlyIncrease(db: Db, env: Env, requests: seq<Request>)
    requires db.Valid()
    ensures var r := Run(db, env, requests);
            && r.db.Valid()
            && r.db.nextMid == db.nextMid + |r.mids|
            && (forall i :: 0 <= i < |r.mids| ==> r.mids[i] == db.nextMid + 1 + i)
            && (forall i, j :: 0 <= i < j < |r.mids| ==> r.mids[i] < r.mids[j])
            && (forall i :: 0 <= i < |r.mids| ==> r.mids[i] !in db.messages && r.mids[i] in r.db.messages)
            && (forall mid :: mid in db.messages ==> mid in r.db.messages && r.db.messages[mid] == db.messages[mid])
    decreases |requests|
  {
    if requests != [] {
      var first := Apply(db, env, requests[0]);
      ApplyAllocatesNext(db, env, requests[0]);
      var rest := Run(first.db, env, requests[1..]);
      MidsStrictlyIncrease(first.db, env, requests[1..]);
      if first.created.Some? {
        var r := RunResult(rest.db, [first.created.value] + rest.mids);
        assert Run(db, env, requests) == r;
        forall i | 0 <= i < |r.mids|
          ensures r.mids[i] == db.nextMid + 1 + i
          ensures r.mids[i] !in db.messages && r.mids[i] in r.db.messages
        {
          if i > 0 {
            assert r.mids[i] == rest.mids[i - 1];
            assert r.mids[i] !in first.db.messages;
          } else {
            assert r.mids[0] in first.db.messages;
          }
        }
      } else {
        assert Run(db, env, requests) == rest;
      }
    }
  }
}
