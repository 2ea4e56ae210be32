/**
 * The entities the message pipeline works on (src/types/message.ts) and the
 * criteria held by the filter and sort stores.
 */
module Types {
  import opened Options

  datatype MessageType = Text | Image | Video | Audio | File

  datatype MessageStatus = Sent | Delivered | Read

  /**
   * A chat message. `timestamp` is in milliseconds since the epoch. The
   * optional `metadata` record is carried by the source but used by nothing
   * modelled here, so it is not part of this datatype.
   */
  datatype Message = Message(
    id: string,
    content: string,
    msgType: MessageType,
    timestamp: int,
    isSender: bool,
    status: MessageStatus,
    avatarUrl: Option<string>,
    senderName: Option<string>,
    replyTo: Option<string>)

  /** A room: its messages in storage (insertion) order and its bookkeeping instants. */
  datatype ChatRoom = ChatRoom(
    id: string,
    name: string,
    messages: seq<Message>,
    createdAt: int,
    updatedAt: int)

  /** The filter store's criterion tag. */
  datatype FilterType = All | SentOnly | ReceivedOnly | Date

  /** The filter store's date range; either bound may be absent. */
  datatype DateRange = DateRange(start: Option<int>, end: Option<int>)

  /** The sort store's criterion. */
  datatype SortType = Newest | Oldest | SenderFirst | ReceiverFirst

  /** The ids of `messages`, in order (`messages.map(m => m.id)`). */
  function Ids(messages: seq<Message>): (ids: seq<string>)
    ensures |ids| == |messages|
    ensures forall i :: 0 <= i < |messages| ==> ids[i] == messages[i].id
  {
    seq(|messages|, i requires 0 <= i < |messages| => messages[i].id)
  }
}
