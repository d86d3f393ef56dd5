/**
 * The database keys the pipeline writes. The model keeps its state in maps
 * indexed by the parts of these keys (a mid, a uid, a uid and room id pair);
 * the lemmas here show when that loses nothing: distinct parts give
 * distinct keys.
 */
module Keys {
  import Decimal

  const MessagePrefix := "message:"

  /** `message:${mid}` */
  function MessageKey(mid: nat): (k: string)
    ensures |k| > |MessagePrefix| && k[..|MessagePrefix|] == MessagePrefix
    ensures k[|MessagePrefix|..] == Decimal.NatToDecimal(mid) && Decimal.AllDigits(k[|MessagePrefix|..])
  {
    MessagePrefix + Decimal.NatToDecimal(mid)
  }

  /** `uid:${uid}:chat:rooms`, one user's room-activity sorted set. */
  function RoomsKey(uid: string): (k: string)
    ensures |k| == |uid| + 15 && k[..4] == "uid:" && k[4..4 + |uid|] == uid && k[4 + |uid|..] == ":chat:rooms"
  {
    "uid:" + uid + ":chat:rooms"
  }

  /** `uid:${uid}:chat:room:${roomId}:mids`, one user's message sorted set for a room. */
  function MidsKey(uid: string, roomId: string): (k: string)
    ensures |k| == |uid| + |roomId| + 20 && k[..4] == "uid:" && k[4..4 + |uid|] == uid
    ensures k[4 + |uid|..4 + |uid| + 11] == ":chat:room:" && k[4 + |uid| + 11..|k| - 5] == roomId
    ensures k[|k| - 5..] == ":mids"
  {
    "uid:" + uid + ":chat:room:" + roomId + ":mids"
  }

  lemma MessageKeyInjective(a: nat, b: nat)
    ensures MessageKey(a) == MessageKey(b) ==> a == b
  {
    if MessageKey(a) == MessageKey(b) {
      assert MessageKey(a)[|MessagePrefix|..] == Decimal.NatToDecimal(a);
      assert MessageKey(b)[|MessagePrefix|..] == Decimal.NatToDecimal(b);
      Decimal.NatToDecimalInjective(a, b);
    }
  }

  lemma RoomsKeyInjective(u1: string, u2: string)
    ensures RoomsKey(u1) == RoomsKey(u2) ==> u1 == u2
  {
    var k1, k2 := RoomsKey(u1), RoomsKey(u2);
    if k1 == k2 {
      assert k1[4..|k1| - 11] == u1;
      assert k2[4..|k2| - 11] == u2;
    }
  }

  /** A room-activity key is never a message-index key: they end differently. */
  lemma RoomsKeyIsNotMidsKey(u1: string, u2: string, roomId: string)
    ensures RoomsKey(u1) != MidsKey(u2, roomId)
  {
    var k1, k2 := RoomsKey(u1), MidsKey(u2, roomId);
    assert k1[|k1| - 2] == 'm';
    assert k2[|k2| - 2] == 'd';
  }

  /** A message key never names a per-user sorted set: they start differently. */
  lemma MessageKeyIsNotUserKey(mid: nat, u: string, r: string)
    ensures MessageKey(mid) != RoomsKey(u) && MessageKey(mid) != MidsKey(u, r)
  {
    assert MessageKey(mid)[0] == 'm';
    assert RoomsKey(u)[0] == 'u' && MidsKey(u, r)[0] == 'u';
  }

  /** In a message-index key of a colon-free uid, the first colon after `uid:` ends the uid. */
  lemma FirstColonEndsUid(uid: string, roomId: string)
    requires ':' !in uid
    ensures MidsKey(uid, roomId)[4 + |uid|] == ':'
    ensures forall i :: 4 <= i < 4 + |uid| ==> MidsKey(uid, roomId)[i] != ':'
  {
  }

  /** Message-index keys are distinct for distinct users or rooms, as long as uids hold no colon. */
  lemma MidsKeyInjective(u1: string, r1: string, u2: string, r2: string)
    requires ':' !in u1 && ':' !in u2
    ensures MidsKey(u1, r1) == MidsKey(u2, r2) ==> u1 == u2 && r1 == r2
  {
    var k1, k2 := MidsKey(u1, r1), MidsKey(u2, r2);
    FirstColonEndsUid(u1, r1);
    FirstColonEndsUid(u2, r2);
    if k1 == k2 {
      assert |u1| == |u2|;
      assert k1[4..4 + |u1|] == u1;
      assert k2[4..4 + |u2|] == u2;
      assert k1[4 + |u1| + 11..|k1| - 5] == r1;
      assert k2[4 + |u2| + 11..|k2| - 5] == r2;
    }
  }

  /** Without that condition two different (uid, room) pairs can share a key. */
  lemma MidsKeyAmbiguousWithColons()
    ensures MidsKey("1:chat:room:2", "3") == MidsKey("1", "2:chat:room:3")
  {
    assert "uid:" + "1:chat:room:2" + ":chat:room:" + "3" + ":mids"
        == "uid:" + "1" + ":chat:room:" + "2:chat:room:3" + ":mids";
  }
}
