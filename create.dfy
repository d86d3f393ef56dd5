/**
 * The `Messaging` object after `configureMessaging`: its fields stand for the
 * database keys the pipeline writes, and each method performs the source's
 * steps on them in order. Every method is proved to leave the fields exactly
 * as the matching function of module Pipeline says.
 */
module Create {
  import opened Results
  import opened Content
  import opened Store
  import opened Pipeline

  class Messaging {
    /** Membership, blocks, the length setting, the hooks and the read-back: given, never written. */
    const env: Env

    /** `global.nextMid` */
    var nextMid: nat
    /** `message:<mid>` */
    var messages: map<int, MessageRecord>
    /** `uid:<uid>:chat:rooms`, room id to score, by uid */
    var rooms: map<Uid, map<RoomId, int>>
    /** `uid:<uid>:chat:room:<roomId>:mids`, mid to score, by uid and room */
    var roomMids: map<(Uid, RoomId), map<int, int>>
    /** the (uid, room) pairs marked unread */
    var unread: set<(Uid, RoomId)>

    function State(): Db
      reads this
    {
      Db(nextMid, messages, rooms, roomMids, unread)
    }

    predicate Valid()
      reads this
    {
      State().Valid()
    }

    /** An empty database over the given membership, blocks, setting and hooks. */
    constructor (env: Env)
      ensures Valid()
      ensures State() == Db(0, map[], map[], map[], {})
      ensures this.env.membership == env.membership && this.env.blocks == env.blocks
      ensures this.env.maxLengthSetting == env.maxLengthSetting
    {
      this.env := env;
      nextMid := 0;
      messages := map[];
      rooms := map[];
      roomMids := map[];
      unread := {};
    }

    /** `Messaging.addRoomToUsers(roomId, uids, timestamp)` */
    method AddRoomToUsers(roomId: RoomId, uids: seq<Uid>, timestamp: int)
      requires Valid()
      modifies this`rooms
      ensures Valid()
      ensures rooms == SortedSetsAdd(old(rooms), RoomKeys(uids), roomId, timestamp)
      ensures uids == [] ==> rooms == old(rooms)
    {
      if |uids| == 0 {
        SortedSetsAddNothing(rooms, roomId, timestamp);
        return;
      }
      var keys := RoomKeys(uids);
      rooms := SortedSetsAdd(rooms, keys, roomId, timestamp);
    }

    /** `Messaging.addMessageToUsers(roomId, uids, mid, timestamp)` */
    method AddMessageToUsers(roomId: RoomId, uids: seq<Uid>, mid: int, timestamp: int)
      requires Valid() && 1 <= mid <= nextMid
      modifies this`roomMids
      ensures Valid()
      ensures roomMids == SortedSetsAdd(old(roomMids), RoomPairs(uids, roomId), mid, timestamp)
      ensures uids == [] ==> roomMids == old(roomMids)
    {
      if |uids| == 0 {
        SortedSetsAddNothing(roomMids, mid, timestamp);
        return;
      }
      var keys := RoomPairs(uids, roomId);
      roomMids := SortedSetsAdd(roomMids, keys, mid, timestamp);
    }

    /** `Messaging.markUnread(uids, roomId)`, as far as this model needs it: the pairs join the unread set. */
    method MarkUnread(uids: seq<Uid>, roomId: RoomId)
      requires Valid()
      modifies this`unread
      ensures Valid()
      ensures unread == old(unread) + RoomPairs(uids, roomId)
    {
      unread := unread + RoomPairs(uids, roomId);
    }

    /**
     * `Messaging.addMessage(data)`: take the next id, store the record under
     * it, fan out to the members who have not blocked the sender, mark the
     * room unread for all of them but the sender, and read the message back.
     */
    method AddMessage(data: SendMessageData, now: int, isNewSet: bool) returns (sent: Option<Sent>)
      requires Valid()
      modifies this
      ensures Valid()
      ensures State() == AddMessageSpec(old(State()), env, data, now, isNewSet).db
      ensures sent == AddMessageSpec(old(State()), env, data, now, isNewSet).sent
      ensures nextMid == old(nextMid) + 1 && nextMid !in old(messages)
      ensures sent.Some? ==> sent.value.mid == nextMid
    {
      ghost var before := State();
      nextMid := nextMid + 1;
      var mid := nextMid;
      var timestamp := MessageTimestamp(data, now);
      var message := env.saveFilter(BuildRecord(data, timestamp));
      messages := messages[mid := message];
      assert Valid() by {
        assert forall m :: m in messages ==> m == mid || m in before.messages;
      }
      var uids := Recipients(env, data.uid, data.roomId);
      ghost var indexed := (rooms, roomMids, unread);
      AddRoomToUsers(data.roomId, uids, timestamp);
      AddMessageToUsers(data.roomId, uids, mid, timestamp);
      MarkUnread(UnreadTargets(uids, data.uid), data.roomId);
      assert State() == Db(mid, messages,
        SortedSetsAdd(indexed.0, RoomKeys(uids), data.roomId, timestamp),
        SortedSetsAdd(indexed.1, RoomPairs(uids, data.roomId), mid, timestamp),
        indexed.2 + RoomPairs(UnreadTargets(uids, data.uid), data.roomId));
      AddMessageSteps(before, env, data, now, isNewSet);
      AddMessageKeepsStore(before, env, data, now, isNewSet);
      var shown := env.display(messages[mid]);
      if shown.None? {
        return None;
      }
      sent := Some(Sent(shown.value.(roomId := data.roomId), isNewSet, mid));
    }

    /** `Messaging.sendMessage(data)`: content check, then membership check, then `addMessage`. */
    method SendMessage(data: SendMessageData, now: int, isNewSet: bool) returns (reply: Result<Option<Sent>, ChatError>)
      requires Valid()
      modifies this
      ensures Valid()
      ensures State() == SendMessageSpec(old(State()), env, data, now, isNewSet).db
      ensures reply == SendMessageSpec(old(State()), env, data, now, isNewSet).reply
      ensures reply.Err? ==> unchanged(this)
    {
      var check := CheckContent(data.content, env.maxLengthSetting, env.contentFilter);
      if check.Fail? {
        return Err(check.error);
      }
      if !IsUserInRoom(env, data.uid, data.roomId) {
        return Err(NotAllowed);
      }
      var sent := AddMessage(data, now, isNewSet);
      reply := Ok(sent);
    }

    /**
     * `Messaging.addSystemMessage(content, uid, roomId)`: `addMessage` with
     * `system: 1`, without the content or membership check.
     */
    method AddSystemMessage(content: string, uid: Uid, roomId: RoomId, now: int, isNewSet: bool)
      requires Valid()
      modifies this
      ensures Valid()
      ensures State() == AddSystemMessageSpec(old(State()), env, content, uid, roomId, now, isNewSet)
      ensures nextMid == old(nextMid) + 1
    {
      var message := AddMessage(SystemMessageData(content, uid, roomId), now, isNewSet);
      // the presence broadcast `notifyUsersInRoom(uid, roomId, message)` is not modelled
    }
  }
}
