/**
 * src/utils/sortMessages.ts: copy the list and sort the copy with one of four
 * comparators. `Array.prototype.sort` is stable (section 23.1.3.30 of
 * ECMA-262, 2023 edition); the model sorts the copied array in place with a
 * stable insertion sort, and proves it equal to the functional InsertionSort,
 * whose properties are proved below.
 */
module SortMessages {
  import opened Sequences
  import opened Types

  /** The comparator of each sort type: negative puts `a` first, positive puts `b` first. */
  function Compare(sortType: SortType, a: Message, b: Message): int {
    match sortType
    case Newest => b.timestamp - a.timestamp
    case Oldest => a.timestamp - b.timestamp
    case SenderFirst =>
      if a.isSender == b.isSender then a.timestamp - b.timestamp
      else if a.isSender then -1 else 1
    case ReceiverFirst =>
      if a.isSender == b.isSender then a.timestamp - b.timestamp
      else if a.isSender then 1 else -1
  }

  /** Every pair of the list is in comparator order. */
  ghost predicate Sorted(sortType: SortType, s: seq<Message>) {
    forall i, j :: 0 <= i < j < |s| ==> Compare(sortType, s[i], s[j]) <= 0
  }

  /**
   * The messages of `s` that the comparator cannot tell apart from `k`, in
   * their order in `s`. A sort is stable when these runs are the same before and
   * after sorting, for every `k`.
   */
  function SameKey(sortType: SortType, s: seq<Message>, k: Message): seq<Message> {
    Select(s, (m: Message) => Compare(sortType, m, k) == 0)
  }

  /** Insert `x` after the last element of `s` that does not compare greater than `x`. */
  function InsertBack(sortType: SortType, s: seq<Message>, x: Message): seq<Message>
    decreases |s|
  {
    if s == [] then [x]
    else if Compare(sortType, s[|s| - 1], x) > 0 then InsertBack(sortType, s[..|s| - 1], x) + [s[|s| - 1]]
    else s + [x]
  }

  /** Insertion sort, inserting the elements left to right as the array loop does. */
  function InsertionSort(sortType: SortType, s: seq<Message>): seq<Message>
    decreases |s|
  {
    if s == [] then []
    else InsertBack(sortType, InsertionSort(sortType, s[..|s| - 1]), s[|s| - 1])
  }

  lemma {:induction false} InsertBackPermutes(sortType: SortType, s: seq<Message>, x: Message)
    ensures multiset(InsertBack(sortType, s, x)) == multiset(s) + multiset{x}
    decreases |s|
  {
    if s != [] && Compare(sortType, s[|s| - 1], x) > 0 {
      InsertBackPermutes(sortType, s[..|s| - 1], x);
      assert s == s[..|s| - 1] + [s[|s| - 1]];
    }
  }

  /** The step of `InsertBackSameKey` where `x` moves past a greater `last`. */
  lemma InsertPastSameKey(sortType: SortType, init: seq<Message>, last: Message, x: Message, k: Message)
    requires Compare(sortType, last, x) > 0
    requires SameKey(sortType, InsertBack(sortType, init, x), k)
             == SameKey(sortType, init, k) + SameKey(sortType, [x], k)
    ensures SameKey(sortType, InsertBack(sortType, init, x) + [last], k)
            == SameKey(sortType, init + [last], k) + SameKey(sortType, [x], k)
  {
    SameKeyAppend(sortType, InsertBack(sortType, init, x), [last], k);
    SameKeyAppend(sortType, init, [last], k);
    SameKeySingleton(sortType, x, k);
    SameKeySingleton(sortType, last, k);
    var a, b, c := SameKey(sortType, init, k), SameKey(sortType, [x], k), SameKey(sortType, [last], k);
    assert SameKey(sortType, InsertBack(sortType, init, x) + [last], k) == a + b + c;
    assert SameKey(sortType, init + [last], k) + b == a + c + b;
    // `last` compares greater than `x`, so at most one of them has the key of `k`.
    if Compare(sortType, x, k) == 0 {
      if Compare(sortType, last, k) == 0 {
        SameKeyTransitive(sortType, last, x, k);
        assert false;
      }
      assert c == [];
      assert a + b + c == a + b;
      assert a + c + b == a + b;
    } else {
      assert b == [];
      assert a + b + c == a + c;
      assert a + c + b == a + c;
    }
  }

  /** Swapping the arguments negates the comparator. */
  lemma CompareAntisymmetric(sortType: SortType, a: Message, b: Message)
    ensures Compare(sortType, a, b) == -Compare(sortType, b, a)
  {
  }

  /** The comparator orders messages transitively. */
  lemma CompareTransitive(sortType: SortType, a: Message, b: Message, c: Message)
    requires Compare(sortType, a, b) <= 0 && Compare(sortType, b, c) <= 0
    ensures Compare(sortType, a, c) <= 0
  {
  }

  /** Comparing equal to the same message is comparing equal to each other. */
  lemma SameKeyTransitive(sortType: SortType, a: Message, b: Message, c: Message)
    requires Compare(sortType, a, c) == 0 && Compare(sortType, b, c) == 0
    ensures Compare(sortType, a, b) == 0
  {
  }

  lemma SameKeySingleton(sortType: SortType, y: Message, k: Message)
    ensures SameKey(sortType, [y], k) == if Compare(sortType, y, k) == 0 then [y] else []
  {
    assert [y][1..] == [];
  }

  lemma SameKeyAppend(sortType: SortType, a: seq<Message>, b: seq<Message>, k: Message)
    ensures SameKey(sortType, a + b, k) == SameKey(sortType, a, k) + SameKey(sortType, b, k)
  {
    SelectAppend(a, b, (m: Message) => Compare(sortType, m, k) == 0);
  }

  /** Elements of equal key are never reordered by insertion, and `x` joins its own run at the end. */
  lemma {:induction false} InsertBackSameKey(sortType: SortType, s: seq<Message>, x: Message, k: Message)
    ensures SameKey(sortType, InsertBack(sortType, s, x), k)
            == SameKey(sortType, s, k) + SameKey(sortType, [x], k)
    decreases |s|
  {
    if s == [] {
      assert InsertBack(sortType, s, x) == [x];
      assert SameKey(sortType, s, k) == [];
      assert SameKey(sortType, InsertBack(sortType, s, x), k) == SameKey(sortType, s, k) + SameKey(sortType, [x], k);
    } else if Compare(sortType, s[|s| - 1], x) > 0 {
      var init, last := s[..|s| - 1], s[|s| - 1];
      assert s == init + [last];
      assert InsertBack(sortType, s, x) == InsertBack(sortType, init, x) + [last];
      InsertBackSameKey(sortType, init, x, k);
      InsertPastSameKey(sortType, init, last, x, k);
    } else {
      assert InsertBack(sortType, s, x) == s + [x];
      SameKeyAppend(sortType, s, [x], k);
      assert SameKey(sortType, InsertBack(sortType, s, x), k) == SameKey(sortType, s, k) + SameKey(sortType, [x], k);
    }
  }

  /** Every element of an insertion is the inserted one or came from the list. */
  lemma InsertBackElements(sortType: SortType, s: seq<Message>, x: Message, y: Message)
    requires y in InsertBack(sortType, s, x)
    ensures y == x || y in s
  {
    InsertBackPermutes(sortType, s, x);
    assert y in multiset(InsertBack(sortType, s, x));
  }

  lemma {:induction false} InsertBackSorted(sortType: SortType, s: seq<Message>, x: Message)
    requires Sorted(sortType, s)
    ensures Sorted(sortType, InsertBack(sortType, s, x))
    decreases |s|
  {
    if s == [] {
    } else if Compare(sortType, s[|s| - 1], x) > 0 {
      var init, last := s[..|s| - 1], s[|s| - 1];
      assert Sorted(sortType, init);
      InsertBackSorted(sortType, init, x);
      var r' := InsertBack(sortType, init, x);
      forall i | 0 <= i < |r'| ensures Compare(sortType, r'[i], last) <= 0 {
        InsertBackElements(sortType, init, x, r'[i]);
        if r'[i] == x {
          CompareAntisymmetric(sortType, last, x);
        } else {
          var j :| 0 <= j < |init| && init[j] == r'[i];
          assert s[j] == init[j];
        }
      }
      assert InsertBack(sortType, s, x) == r' + [last];
    } else {
      var last := s[|s| - 1];
      forall i | 0 <= i < |s| ensures Compare(sortType, s[i], x) <= 0 {
        if i < |s| - 1 {
          CompareTransitive(sortType, s[i], last, x);
        }
      }
      assert InsertBack(sortType, s, x) == s + [x];
    }
  }

  /** InsertionSort returns a stable sort of its input. */
  lemma {:induction false} InsertionSortCorrect(sortType: SortType, s: seq<Message>)
    ensures multiset(InsertionSort(sortType, s)) == multiset(s)
    ensures Sorted(sortType, InsertionSort(sortType, s))
    ensures forall k :: SameKey(sortType, InsertionSort(sortType, s), k) == SameKey(sortType, s, k)
    decreases |s|
  {
    if s != [] {
      var init, last := s[..|s| - 1], s[|s| - 1];
      assert s == init + [last];
      InsertionSortCorrect(sortType, init);
      InsertBackPermutes(sortType, InsertionSort(sortType, init), last);
      InsertBackSorted(sortType, InsertionSort(sortType, init), last);
      forall k ensures SameKey(sortType, InsertionSort(sortType, s), k) == SameKey(sortType, s, k) {
        InsertBackSameKey(sortType, InsertionSort(sortType, init), last, k);
        SelectAppend(init, [last], (m: Message) => Compare(sortType, m, k) == 0);
      }
    }
  }

  /** Swapping `x` with its left neighbour moves it one place left in the picture `done[..j] + [x] + done[j..]`. */
  lemma SwapStep(before: seq<Message>, after: seq<Message>, done: seq<Message>, x: Message, j: nat)
    requires 0 < j <= |done|
    requires before == done[..j] + [x] + done[j..]
    requires |after| == |before|
    requires after[j - 1] == before[j] && after[j] == before[j - 1]
    requires forall k :: 0 <= k < |after| && k != j - 1 && k != j ==> after[k] == before[k]
    ensures after == done[..j - 1] + [x] + done[j - 1..]
  {
    var want := done[..j - 1] + [x] + done[j - 1..];
    assert |want| == |after|;
    forall k | 0 <= k < |after| ensures after[k] == want[k] {
      if k < j - 1 {
        assert before[k] == done[k];
      } else if k == j - 1 {
      } else if k == j {
        assert before[j - 1] == done[j - 1];
      } else {
        assert before[k] == done[k - 1];
      }
    }
  }

  /** One more swap of the inner loop: `x` passes `done[j - 1]`. */
  lemma InsertBackStep(st: SortType, done: seq<Message>, x: Message, j: nat)
    requires 0 < j <= |done|
    requires Compare(st, done[j - 1], x) > 0
    ensures InsertBack(st, done[..j], x) + done[j..] == InsertBack(st, done[..j - 1], x) + done[j - 1..]
  {
    assert done[..j][..j - 1] == done[..j - 1];
    assert done[j - 1..] == [done[j - 1]] + done[j..];
  }

  /** The inner loop stops: `x` lands at position `j`. */
  lemma InsertBackStop(st: SortType, done: seq<Message>, x: Message, j: nat)
    requires j <= |done|
    requires j == 0 || Compare(st, done[j - 1], x) <= 0
    ensures InsertBack(st, done[..j], x) + done[j..] == done[..j] + [x] + done[j..]
  {
  }

  /**
   * One pass of the outer loop: moves `a[i]` left past every element that
   * compares greater than it, so the prefix `a[..i + 1]` becomes
   * `InsertBack(st, a[..i], a[i])`; the rest of the array is untouched.
   */
  method InsertLast(a: array<Message>, i: nat, st: SortType)
    requires i < a.Length
    modifies a
    ensures a[..i + 1] == InsertBack(st, old(a[..i]), old(a[i]))
    ensures a[i + 1..] == old(a[i + 1..])
  {
    ghost var done := a[..i];
    ghost var x := a[i];
    var j := i;
    assert done[..j] == done && done[j..] == [];
    assert a[..i + 1] == done + [x];
    while j > 0 && Compare(st, a[j - 1], a[j]) > 0
      invariant 0 <= j <= i
      invariant a[j] == x
      invariant a[..i + 1] == done[..j] + [x] + done[j..]
      invariant InsertBack(st, done, x) == InsertBack(st, done[..j], x) + done[j..]
      invariant a[i + 1..] == old(a[i + 1..])
    {
      ghost var before := a[..i + 1];
      assert a[j - 1] == before[j - 1] == done[j - 1];
      InsertBackStep(st, done, x, j);
      a[j - 1], a[j] := a[j], a[j - 1];
      SwapStep(before, a[..i + 1], done, x, j);
      j := j - 1;
    }
    assert j > 0 ==> a[j - 1] == a[..i + 1][j - 1] == done[j - 1];
    InsertBackStop(st, done, x, j);
  }

  /** Sorting one more element of the input inserts it into the sorted prefix. */
  lemma InsertionSortStep(st: SortType, messages: seq<Message>, i: nat)
    requires i < |messages|
    ensures InsertionSort(st, messages[..i + 1]) == InsertBack(st, InsertionSort(st, messages[..i]), messages[i])
  {
    assert messages[..i + 1][..i] == messages[..i];
  }

  /**
   * `sortMessages(messages, sortType)`: sorts a copy of the input (the caller's
   * list is a value and cannot change) and returns it.
   */
  method SortMessages(messages: seq<Message>, sortType: SortType) returns (sorted: seq<Message>)
    ensures sorted == InsertionSort(sortType, messages)
    ensures multiset(sorted) == multiset(messages)
    ensures Sorted(sortType, sorted)
    ensures forall k :: SameKey(sortType, sorted, k) == SameKey(sortType, messages, k)
  {
    var a := new Message[|messages|](i requires 0 <= i < |messages| => messages[i]);
    var i := 0;
    while i < a.Length
      invariant 0 <= i <= a.Length
      invariant a[..i] == InsertionSort(sortType, messages[..i])
      invariant a[i..] == messages[i..]
    {
      assert a[i] == messages[i];
      InsertLast(a, i, sortType);
      InsertionSortStep(sortType, messages, i);
      assert a[i + 1..] == messages[i + 1..];
      i := i + 1;
    }
    assert messages[..a.Length] == messages;
    sorted := a[..];
    InsertionSortCorrect(sortType, messages);
  }

  /** 'newest': timestamps never increase along the result. */
  lemma NewestNonIncreasing(s: seq<Message>)
    requires Sorted(Newest, s)
    ensures forall i, j :: 0 <= i < j < |s| ==> s[i].timestamp >= s[j].timestamp
  {
    forall i, j | 0 <= i < j < |s| ensures s[i].timestamp >= s[j].timestamp {
      assert Compare(Newest, s[i], s[j]) <= 0;
    }
  }

  /** 'oldest': timestamps never decrease along the result. */
  lemma OldestNonDecreasing(s: seq<Message>)
    requires Sorted(Oldest, s)
    ensures forall i, j :: 0 <= i < j < |s| ==> s[i].timestamp <= s[j].timestamp
  {
    forall i, j | 0 <= i < j < |s| ensures s[i].timestamp <= s[j].timestamp {
      assert Compare(Oldest, s[i], s[j]) <= 0;
    }
  }

  /**
   * 'sender-first' splits the result at some index: sent messages before it,
   * received ones from it on, and timestamps non-decreasing within each group.
   */
  lemma SenderFirstPartition(s: seq<Message>) returns (k: nat)
    requires Sorted(SenderFirst, s)
    ensures k <= |s|
    ensures forall i :: 0 <= i < k ==> s[i].isSender
    ensures forall i :: k <= i < |s| ==> !s[i].isSender
    ensures forall i, j :: 0 <= i < j < |s| && s[i].isSender == s[j].isSender ==> s[i].timestamp <= s[j].timestamp
  {
    k := 0;
    while k < |s| && s[k].isSender
      invariant k <= |s|
      invariant forall i :: 0 <= i < k ==> s[i].isSender
    {
      k := k + 1;
    }
    forall i | k <= i < |s| ensures !s[i].isSender {
      if i > k { assert Compare(SenderFirst, s[k], s[i]) <= 0; }
    }
    forall i, j | 0 <= i < j < |s| && s[i].isSender == s[j].isSender ensures s[i].timestamp <= s[j].timestamp {
      assert Compare(SenderFirst, s[i], s[j]) <= 0;
    }
  }

  /**
   * 'receiver-first' splits the result at some index: received messages before
   * it, sent ones from it on, and timestamps non-decreasing within each group.
   */
  lemma ReceiverFirstPartition(s: seq<Message>) returns (k: nat)
    requires Sorted(ReceiverFirst, s)
    ensures k <= |s|
    ensures forall i :: 0 <= i < k ==> !s[i].isSender
    ensures forall i :: k <= i < |s| ==> s[i].isSender
    ensures forall i, j :: 0 <= i < j < |s| && s[i].isSender == s[j].isSender ==> s[i].timestamp <= s[j].timestamp
  {
    k := 0;
    while k < |s| && !s[k].isSender
      invariant k <= |s|
      invariant forall i :: 0 <= i < k ==> !s[i].isSender
    {
      k := k + 1;
    }
    forall i | k <= i < |s| ensures s[i].isSender {
      if i > k { assert Compare(ReceiverFirst, s[k], s[i]) <= 0; }
    }
    forall i, j | 0 <= i < j < |s| && s[i].isSender == s[j].isSender ensures s[i].timestamp <= s[j].timestamp {
      assert Compare(ReceiverFirst, s[i], s[j]) <= 0;
    }
  }
}
