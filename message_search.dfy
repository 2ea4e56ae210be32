/**
 * The search box (src/components/molecules/MessageSearch.tsx): the effect
 * that recomputes the matching message ids, the change handler that
 * activates the search, and the displayed cursor position.
 */
module MessageSearch {
  import opened Options
  import opened Sequences
  import opened Strings
  import opened Types
  import opened SearchStore

  /** A message matches when its lower-cased content contains the lower-cased query. */
  predicate ContentMatches(query: string, m: Message) {
    Includes(ToLower(m.content), ToLower(query))
  }

  /** The match test for one query, as the function value handed to `filter`. */
  function MatchesQuery(query: string): Message -> bool {
    m => ContentMatches(query, m)
  }

  /**
   * The ids the effect stores: none without a room or for a query that is
   * blank after trimming; otherwise the ids of the matching messages in room
   * order (the untrimmed query is the one searched for).
   */
  function MatchIds(currentRoom: Option<ChatRoom>, searchQuery: string): (ids: seq<string>)
    ensures currentRoom.None? || IsBlank(searchQuery) ==> ids == []
    ensures currentRoom.Some? && !IsBlank(searchQuery) ==>
              ids == Ids(Select(currentRoom.value.messages, MatchesQuery(searchQuery)))
  {
    if currentRoom.None? || IsBlank(searchQuery) then []
    else Ids(Select(currentRoom.value.messages, MatchesQuery(searchQuery)))
  }

  /** Taking ids keeps the subsequence relation. */
  lemma {:induction false} IdsOfSubseq(a: seq<Message>, b: seq<Message>)
    requires IsSubseq(a, b)
    ensures IsSubseq(Ids(a), Ids(b))
    decreases |b|
  {
    if a != [] && b != [] {
      assert Ids(a)[1..] == Ids(a[1..]);
      assert Ids(b)[1..] == Ids(b[1..]);
      if a[0] == b[0] && IsSubseq(a[1..], b[1..]) {
        IdsOfSubseq(a[1..], b[1..]);
      } else {
        IdsOfSubseq(a, b[1..]);
      }
    }
  }

  /**
   * The match list is a subsequence of the room's ids, and a message's id is
   * listed when the message matches; every listed id belongs to a matching
   * message of the room.
   */
  lemma MatchIdsInRoomOrder(room: ChatRoom, searchQuery: string)
    requires !IsBlank(searchQuery)
    ensures IsSubseq(MatchIds(Some(room), searchQuery), Ids(room.messages))
    ensures forall m :: m in room.messages && ContentMatches(searchQuery, m) ==>
              m.id in MatchIds(Some(room), searchQuery)
    ensures forall id :: id in MatchIds(Some(room), searchQuery) ==>
              exists m :: m in room.messages && ContentMatches(searchQuery, m) && m.id == id
  {
    var selected := Select(room.messages, MatchesQuery(searchQuery));
    assert MatchIds(Some(room), searchQuery) == Ids(selected);
    IdsOfSubseq(selected, room.messages);
    SelectMembers(room.messages, MatchesQuery(searchQuery));
    IdsListed(selected);
  }

  /** A sequence's ids are exactly the ids of its messages. */
  lemma IdsListed(ms: seq<Message>)
    ensures forall m :: m in ms ==> m.id in Ids(ms)
    ensures forall id :: id in Ids(ms) ==> exists m :: m in ms && m.id == id
  {
    var ids := Ids(ms);
    forall m | m in ms ensures m.id in ids {
      var i :| 0 <= i < |ms| && ms[i] == m;
      assert ids[i] == m.id;
    }
    forall id | id in ids ensures exists m :: m in ms && m.id == id {
      var i :| 0 <= i < |ids| && ids[i] == id;
      assert ms[i] in ms;
    }
  }

  /** Searching is case-insensitive: upper-casing letters of the query changes nothing. */
  lemma MatchIdsIgnoreCase(currentRoom: Option<ChatRoom>, q1: string, q2: string)
    requires ToLower(q1) == ToLower(q2)
    requires IsBlank(q1) == IsBlank(q2)
    ensures MatchIds(currentRoom, q1) == MatchIds(currentRoom, q2)
  {
    if currentRoom.Some? && !IsBlank(q1) {
      SelectExt(currentRoom.value.messages, MatchesQuery(q1), MatchesQuery(q2));
    }
  }

  /** The effect body: recomputes the matches for the stored query in the current room. */
  method SearchEffect(store: SearchState, currentRoom: Option<ChatRoom>)
    modifies store
    ensures store.highlightedMessageIds == MatchIds(currentRoom, old(store.searchQuery))
    ensures store.currentHighlightIndex == if store.highlightedMessageIds == [] then -1 else 0
    ensures store.searchQuery == old(store.searchQuery)
    ensures store.isSearchActive == old(store.isSearchActive)
    ensures store.Valid()
  {
    if currentRoom.None? || IsBlank(store.searchQuery) {
      store.SetHighlightedMessageIds([]);
      return;
    }
    var matched := Ids(Select(currentRoom.value.messages, MatchesQuery(store.searchQuery)));
    store.SetHighlightedMessageIds(matched);
  }

  /**
   * `handleSearchChange`: stores the typed text, and activates the search when
   * the text is not blank; a blank text never deactivates it.
   */
  method HandleSearchChange(store: SearchState, value: string)
    modifies store
    ensures store.searchQuery == value
    ensures store.isSearchActive == (old(store.isSearchActive) || !IsBlank(value))
    ensures store.highlightedMessageIds == old(store.highlightedMessageIds)
    ensures store.currentHighlightIndex == old(store.currentHighlightIndex)
  {
    store.SetSearchQuery(value);
    if !IsBlank(value) && !store.isSearchActive {
      store.SetIsSearchActive(true);
    }
  }

  /** `currentPosition`: the 1-based position of the cursor, 0 when it is off. */
  function CurrentPosition(currentHighlightIndex: int): (p: int)
    ensures currentHighlightIndex >= 0 ==> p == currentHighlightIndex + 1
    ensures currentHighlightIndex < 0 ==> p == 0
  {
    if currentHighlightIndex >= 0 then currentHighlightIndex + 1 else 0
  }

  /** With the cursor invariant, the position lies in 1..n, or is 0 exactly when there are no matches. */
  lemma PositionInRange(currentHighlightIndex: int, n: nat)
    requires CursorInRange(currentHighlightIndex, n)
    ensures 0 <= CurrentPosition(currentHighlightIndex) <= n
    ensures CurrentPosition(currentHighlightIndex) == 0 <==> n == 0
  {
  }
}
