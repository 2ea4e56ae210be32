/**
 * The room and message store (src/stores/messageStore.ts). The store holds
 * the current room and the list of rooms; every message action rebuilds the
 * current room and writes it back into the room list by id. The clock and
 * the UUID generator are parameters (`now`, `freshId`).
 */
module MessageStore {
  import opened Options
  import opened Sequences
  import opened Types

  /**
   * `Partial<Message>`: a present field overrides the message's field. For the
   * optional fields, `Some(None)` is a key explicitly set to `undefined`.
   */
  datatype MessagePatch = MessagePatch(
    id: Option<string>,
    content: Option<string>,
    msgType: Option<MessageType>,
    timestamp: Option<int>,
    isSender: Option<bool>,
    status: Option<MessageStatus>,
    avatarUrl: Option<Option<string>>,
    senderName: Option<Option<string>>,
    replyTo: Option<Option<string>>)

  /** The patch with no keys. */
  function EmptyPatch(): MessagePatch {
    MessagePatch(None, None, None, None, None, None, None, None, None)
  }

  /** `{ ...msg, ...updates }`: the shallow merge. */
  function Merge(msg: Message, updates: MessagePatch): Message {
    Message(
      Override(msg.id, updates.id),
      Override(msg.content, updates.content),
      Override(msg.msgType, updates.msgType),
      Override(msg.timestamp, updates.timestamp),
      Override(msg.isSender, updates.isSender),
      Override(msg.status, updates.status),
      Override(msg.avatarUrl, updates.avatarUrl),
      Override(msg.senderName, updates.senderName),
      Override(msg.replyTo, updates.replyTo))
  }

  /** Merging the empty patch changes nothing; merging the same patch twice is merging it once. */
  lemma MergeLaws(msg: Message, updates: MessagePatch)
    ensures Merge(msg, EmptyPatch()) == msg
    ensures Merge(Merge(msg, updates), updates) == Merge(msg, updates)
  {
  }

  /** A merge keeps every field the patch leaves out and takes every field it gives. */
  lemma MergeKeepsAbsentFields(msg: Message, updates: MessagePatch)
    ensures updates.id.None? ==> Merge(msg, updates).id == msg.id
    ensures updates.id.Some? ==> Merge(msg, updates).id == updates.id.value
    ensures updates.content.None? ==> Merge(msg, updates).content == msg.content
    ensures updates.content.Some? ==> Merge(msg, updates).content == updates.content.value
    ensures updates.msgType.None? ==> Merge(msg, updates).msgType == msg.msgType
    ensures updates.msgType.Some? ==> Merge(msg, updates).msgType == updates.msgType.value
    ensures updates.timestamp.None? ==> Merge(msg, updates).timestamp == msg.timestamp
    ensures updates.timestamp.Some? ==> Merge(msg, updates).timestamp == updates.timestamp.value
    ensures updates.isSender.None? ==> Merge(msg, updates).isSender == msg.isSender
    ensures updates.isSender.Some? ==> Merge(msg, updates).isSender == updates.isSender.value
    ensures updates.status.None? ==> Merge(msg, updates).status == msg.status
    ensures updates.status.Some? ==> Merge(msg, updates).status == updates.status.value
    ensures updates.avatarUrl.None? ==> Merge(msg, updates).avatarUrl == msg.avatarUrl
    ensures updates.avatarUrl.Some? ==> Merge(msg, updates).avatarUrl == updates.avatarUrl.value
    ensures updates.senderName.None? ==> Merge(msg, updates).senderName == msg.senderName
    ensures updates.senderName.Some? ==> Merge(msg, updates).senderName == updates.senderName.value
    ensures updates.replyTo.None? ==> Merge(msg, updates).replyTo == msg.replyTo
    ensures updates.replyTo.Some? ==> Merge(msg, updates).replyTo == updates.replyTo.value
  {
  }

  /** `messages.map(msg => msg.id === id ? { ...msg, ...updates } : msg)`. */
  function UpdateMessages(messages: seq<Message>, id: string, updates: MessagePatch): (r: seq<Message>)
    ensures |r| == |messages|
    ensures forall i :: 0 <= i < |messages| && messages[i].id == id ==> r[i] == Merge(messages[i], updates)
    ensures forall i :: 0 <= i < |messages| && messages[i].id != id ==> r[i] == messages[i]
  {
    seq(|messages|, i requires 0 <= i < |messages| =>
      if messages[i].id == id then Merge(messages[i], updates) else messages[i])
  }

  /** The keep-test of `deleteMessage`. */
  function KeepsMessage(id: string): Message -> bool {
    (m: Message) => m.id != id
  }

  /** `messages.filter(msg => msg.id !== id)`. */
  function RemoveMessages(messages: seq<Message>, id: string): (r: seq<Message>)
    ensures IsSubseq(r, messages)
    ensures forall i :: 0 <= i < |r| ==> r[i].id != id
  {
    Select(messages, KeepsMessage(id))
  }

  /** Deleting removes every occurrence of the id and keeps every other message, with its multiplicity. */
  lemma RemoveMessagesExactly(messages: seq<Message>, id: string)
    ensures forall m :: multiset(RemoveMessages(messages, id))[m] == if m.id != id then multiset(messages)[m] else 0
    ensures forall m :: m in RemoveMessages(messages, id) <==> m in messages && m.id != id
  {
    SelectMultiset(messages, KeepsMessage(id));
    SelectMembers(messages, KeepsMessage(id));
  }

  /** Deleting an id that no message has changes nothing. */
  lemma RemoveAbsentId(messages: seq<Message>, id: string)
    requires forall i :: 0 <= i < |messages| ==> messages[i].id != id
    ensures RemoveMessages(messages, id) == messages
  {
    SelectAll(messages, KeepsMessage(id));
  }

  /** `rooms.map(room => room.id === updated.id ? updated : room)`. */
  function ReplaceRoom(rooms: seq<ChatRoom>, updated: ChatRoom): (r: seq<ChatRoom>)
    ensures |r| == |rooms|
    ensures forall i :: 0 <= i < |rooms| && rooms[i].id == updated.id ==> r[i] == updated
    ensures forall i :: 0 <= i < |rooms| && rooms[i].id != updated.id ==> r[i] == rooms[i]
  {
    seq(|rooms|, i requires 0 <= i < |rooms| => if rooms[i].id == updated.id then updated else rooms[i])
  }

  /** The keep-test of `deleteRoom`. */
  function KeepsRoom(roomId: string): ChatRoom -> bool {
    (r: ChatRoom) => r.id != roomId
  }

  /** The test of `loadRoom`'s `find`. */
  function HasId(roomId: string): ChatRoom -> bool {
    (r: ChatRoom) => r.id == roomId
  }

  /** `rooms.filter(room => room.id !== roomId)`. */
  function RemoveRooms(rooms: seq<ChatRoom>, roomId: string): (r: seq<ChatRoom>)
    ensures IsSubseq(r, rooms)
    ensures forall i :: 0 <= i < |r| ==> r[i].id != roomId
  {
    Select(rooms, KeepsRoom(roomId))
  }

  /** Deleting a room keeps every other room, as often as the list holds it. */
  lemma RemoveRoomsExactly(rooms: seq<ChatRoom>, roomId: string)
    ensures forall r :: r in RemoveRooms(rooms, roomId) <==> r in rooms && r.id != roomId
    ensures forall r :: multiset(RemoveRooms(rooms, roomId))[r] == if r.id != roomId then multiset(rooms)[r] else 0
  {
    SelectMembers(rooms, KeepsRoom(roomId));
    SelectMultiset(rooms, KeepsRoom(roomId));
  }

  /** No two rooms share an id (the ids come from `crypto.randomUUID()`). */
  ghost predicate UniqueRoomIds(rooms: seq<ChatRoom>) {
    forall i, j :: 0 <= i < j < |rooms| ==> rooms[i].id != rooms[j].id
  }

  /** The room list holds the current room as it is: every room with its id equals it. */
  ghost predicate SyncedWith(rooms: seq<ChatRoom>, currentRoom: Option<ChatRoom>) {
    currentRoom.Some? ==> forall i :: 0 <= i < |rooms| && rooms[i].id == currentRoom.value.id ==> rooms[i] == currentRoom.value
  }

  /** Writing a room back keeps the ids, so it keeps them unique, and syncs the list with it. */
  lemma ReplaceRoomSyncs(rooms: seq<ChatRoom>, updated: ChatRoom)
    ensures SyncedWith(ReplaceRoom(rooms, updated), Some(updated))
    ensures UniqueRoomIds(rooms) ==> UniqueRoomIds(ReplaceRoom(rooms, updated))
  {
  }

  /** Writing back a room whose id is not in the list leaves the list as it is. */
  lemma ReplaceAbsentRoom(rooms: seq<ChatRoom>, updated: ChatRoom)
    requires forall i :: 0 <= i < |rooms| ==> rooms[i].id != updated.id
    ensures ReplaceRoom(rooms, updated) == rooms
  {
  }

  class MessageState {
    var currentRoom: Option<ChatRoom>
    var rooms: seq<ChatRoom>

    /** The initial state: no current room, no rooms. */
    constructor ()
      ensures currentRoom == None && rooms == []
    {
      currentRoom := None;
      rooms := [];
    }

    method SetCurrentRoom(room: Option<ChatRoom>)
      modifies this
      ensures currentRoom == room && rooms == old(rooms)
    {
      currentRoom := room;
    }

    /** The common tail of the message actions: the rebuilt room becomes current and is written back. */
    method Commit(updatedRoom: ChatRoom)
      modifies this
      ensures currentRoom == Some(updatedRoom)
      ensures rooms == ReplaceRoom(old(rooms), updatedRoom)
      ensures SyncedWith(rooms, currentRoom)
    {
      ReplaceRoomSyncs(rooms, updatedRoom);
      currentRoom := Some(updatedRoom);
      rooms := ReplaceRoom(rooms, updatedRoom);
    }

    /** Appends a message to the current room; without a current room nothing happens. */
    method AddMessage(message: Message, now: int)
      modifies this
      ensures old(currentRoom).None? ==> currentRoom == old(currentRoom) && rooms == old(rooms)
      ensures old(currentRoom).Some? ==>
                var before := old(currentRoom).value;
                && currentRoom == Some(before.(messages := before.messages + [message], updatedAt := now))
                && rooms == ReplaceRoom(old(rooms), currentRoom.value)
                && SyncedWith(rooms, currentRoom)
    {
      if currentRoom.None? {
        return;
      }
      var room := currentRoom.value;
      Commit(room.(messages := room.messages + [message], updatedAt := now));
    }

    /** Merges `updates` into every message of the current room with the given id. */
    method UpdateMessage(id: string, updates: MessagePatch, now: int)
      modifies this
      ensures old(currentRoom).None? ==> currentRoom == old(currentRoom) && rooms == old(rooms)
      ensures old(currentRoom).Some? ==>
                var before := old(currentRoom).value;
                && currentRoom == Some(before.(messages := UpdateMessages(before.messages, id, updates), updatedAt := now))
                && rooms == ReplaceRoom(old(rooms), currentRoom.value)
                && SyncedWith(rooms, currentRoom)
    {
      if currentRoom.None? {
        return;
      }
      var room := currentRoom.value;
      Commit(room.(messages := UpdateMessages(room.messages, id, updates), updatedAt := now));
    }

    /** Removes every message of the current room with the given id. */
    method DeleteMessage(id: string, now: int)
      modifies this
      ensures old(currentRoom).None? ==> currentRoom == old(currentRoom) && rooms == old(rooms)
      ensures old(currentRoom).Some? ==>
                var before := old(currentRoom).value;
                && currentRoom == Some(before.(messages := RemoveMessages(before.messages, id), updatedAt := now))
                && rooms == ReplaceRoom(old(rooms), currentRoom.value)
                && SyncedWith(rooms, currentRoom)
    {
      if currentRoom.None? {
        return;
      }
      var room := currentRoom.value;
      Commit(room.(messages := RemoveMessages(room.messages, id), updatedAt := now));
    }

    /** Empties the current room. */
    method ClearMessages(now: int)
      modifies this
      ensures old(currentRoom).None? ==> currentRoom == old(currentRoom) && rooms == old(rooms)
      ensures old(currentRoom).Some? ==>
                var before := old(currentRoom).value;
                && currentRoom == Some(before.(messages := [], updatedAt := now))
                && rooms == ReplaceRoom(old(rooms), currentRoom.value)
                && SyncedWith(rooms, currentRoom)
    {
      if currentRoom.None? {
        return;
      }
      var room := currentRoom.value;
      Commit(room.(messages := [], updatedAt := now));
    }

    /**
     * Appends a new empty room and makes it current. `createdAt` and `updatedAt`
     * come from two separate clock reads (`created`, `updated`).
     */
    method CreateRoom(name: string, freshId: string, created: int, updated: int) returns (room: ChatRoom)
      modifies this
      ensures room == ChatRoom(freshId, name, [], created, updated)
      ensures rooms == old(rooms) + [room]
      ensures currentRoom == Some(room)
      ensures (forall i :: 0 <= i < |old(rooms)| ==> old(rooms)[i].id != freshId) ==>
                SyncedWith(rooms, currentRoom) && (UniqueRoomIds(old(rooms)) ==> UniqueRoomIds(rooms))
    {
      room := ChatRoom(freshId, name, [], created, updated);
      rooms := rooms + [room];
      currentRoom := Some(room);
    }

    /** Removes the rooms with that id, and drops the current room exactly when it is one of them. */
    method DeleteRoom(roomId: string)
      modifies this
      ensures rooms == RemoveRooms(old(rooms), roomId)
      ensures currentRoom == if old(currentRoom).Some? && old(currentRoom).value.id == roomId then None else old(currentRoom)
      ensures old(SyncedWith(rooms, currentRoom)) ==> SyncedWith(rooms, currentRoom)
    {
      var kept := RemoveRooms(rooms, roomId);
      RemoveRoomsExactly(rooms, roomId);
      if currentRoom.Some? && currentRoom.value.id == roomId {
        currentRoom := None;
      }
      assert SyncedWith(rooms, currentRoom) ==> SyncedWith(kept, currentRoom) by {
        if SyncedWith(rooms, currentRoom) && currentRoom.Some? {
          forall i | 0 <= i < |kept| && kept[i].id == currentRoom.value.id
            ensures kept[i] == currentRoom.value
          {
            assert kept[i] in rooms;
            var j :| 0 <= j < |rooms| && rooms[j] == kept[i];
          }
        }
      }
      rooms := kept;
    }

    /** Makes the first room with that id current; an unknown id leaves the state as it is. */
    method LoadRoom(roomId: string)
      modifies this
      ensures rooms == old(rooms)
      ensures FindFirst(rooms, HasId(roomId)).None? ==> currentRoom == old(currentRoom)
      ensures FindFirst(rooms, HasId(roomId)).Some? ==> currentRoom == FindFirst(rooms, HasId(roomId))
      ensures currentRoom != old(currentRoom) ==> currentRoom.Some? && currentRoom.value.id == roomId
      ensures currentRoom.Some? && UniqueRoomIds(rooms) && currentRoom != old(currentRoom) ==> SyncedWith(rooms, currentRoom)
    {
      var room := FindFirst(rooms, HasId(roomId));
      if room.Some? {
        currentRoom := room;
      }
    }
  }
}
