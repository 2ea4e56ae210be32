/**
 * Summary figures over a message list (src/utils/calculateMessageStatistics.ts).
 * The per-day and per-hour dictionaries are filled by counting loops; the
 * counts, lengths, mean and extremes are folds over the list.
 *
 * Day keys are UTC day numbers (the source keys by the UTC calendar date
 * `YYYY-MM-DD`, an injective rendering of that number); hours are local,
 * `offset` milliseconds ahead of UTC.
 */
module Statistics {
  import opened Arith
  import opened Options
  import opened Sequences
  import opened Time
  import opened Types

  datatype MessageStatistics = MessageStatistics(
    totalMessages: nat,
    sentMessages: nat,
    receivedMessages: nat,
    averageMessageLength: int,
    longestMessage: int,
    shortestMessage: int,
    messagesPerDay: map<int, nat>,
    messagesPerHour: map<int, nat>,
    firstMessageDate: Option<int>,
    lastMessageDate: Option<int>)

  /** What an empty list yields: zeros, empty dictionaries, no dates. */
  function EmptyStatistics(): MessageStatistics {
    MessageStatistics(0, 0, 0, 0, 0, 0, map[], map[], None, None)
  }

  predicate IsSent(m: Message) {
    m.isSender
  }

  /** `messages.map(msg => msg.content.length)`. */
  function Lengths(messages: seq<Message>): (r: seq<int>)
    ensures |r| == |messages|
    ensures forall i :: 0 <= i < |messages| ==> r[i] == |messages[i].content|
  {
    seq(|messages|, i requires 0 <= i < |messages| => |messages[i].content|)
  }

  /** `messages.map(msg => msg.timestamp)`. */
  function Timestamps(messages: seq<Message>): (r: seq<int>)
    ensures |r| == |messages|
    ensures forall i :: 0 <= i < |messages| ==> r[i] == messages[i].timestamp
  {
    seq(|messages|, i requires 0 <= i < |messages| => messages[i].timestamp)
  }

  /** The key of each message in the per-day dictionary. */
  function DayKeys(messages: seq<Message>): (r: seq<int>)
    ensures |r| == |messages|
    ensures forall i :: 0 <= i < |messages| ==> r[i] == UtcDay(messages[i].timestamp)
  {
    seq(|messages|, i requires 0 <= i < |messages| => UtcDay(messages[i].timestamp))
  }

  /** The key of each message in the per-hour dictionary. */
  function HourKeys(messages: seq<Message>, offset: int): (r: seq<int>)
    ensures |r| == |messages|
    ensures forall i :: 0 <= i < |messages| ==> r[i] == HourOf(messages[i].timestamp, offset)
  {
    seq(|messages|, i requires 0 <= i < |messages| => HourOf(messages[i].timestamp, offset))
  }

  /** One more message adds its day key at the end. */
  lemma DayKeysStep(messages: seq<Message>, i: nat)
    requires i < |messages|
    ensures DayKeys(messages[..i + 1]) == DayKeys(messages[..i]) + [UtcDay(messages[i].timestamp)]
  {
    var a := DayKeys(messages[..i + 1]);
    var b := DayKeys(messages[..i]) + [UtcDay(messages[i].timestamp)];
    assert |a| == |b|;
    forall j | 0 <= j < |a| ensures a[j] == b[j] {
      assert messages[..i + 1][j] == messages[j];
    }
  }

  /** One more message adds its hour key at the end. */
  lemma HourKeysStep(messages: seq<Message>, i: nat, offset: int)
    requires i < |messages|
    ensures HourKeys(messages[..i + 1], offset) == HourKeys(messages[..i], offset) + [HourOf(messages[i].timestamp, offset)]
  {
    var a := HourKeys(messages[..i + 1], offset);
    var b := HourKeys(messages[..i], offset) + [HourOf(messages[i].timestamp, offset)];
    assert |a| == |b|;
    forall j | 0 <= j < |a| ensures a[j] == b[j] {
      assert messages[..i + 1][j] == messages[j];
    }
  }

  /** `reduce((sum, x) => sum + x, 0)`. */
  function Sum(s: seq<int>): int
  {
    if s == [] then 0 else Sum(s[..|s| - 1]) + s[|s| - 1]
  }

  /** `Math.max(...s)`: an upper bound of `s` that occurs in it. */
  function Max(s: seq<int>): (m: int)
    requires s != []
    ensures forall i :: 0 <= i < |s| ==> s[i] <= m
    ensures exists i :: 0 <= i < |s| && s[i] == m
  {
    if |s| == 1 then s[0]
    else
      var rest := Max(s[1..]);
      assert forall i :: 1 <= i < |s| ==> s[i] == s[1..][i - 1];
      if s[0] >= rest then s[0]
      else
        assert exists i :: 1 <= i < |s| && s[i] == rest by {
          var j :| 0 <= j < |s[1..]| && s[1..][j] == rest;
          assert s[j + 1] == rest;
        }
        rest
  }

  /** `Math.min(...s)`: a lower bound of `s` that occurs in it. */
  function Min(s: seq<int>): (m: int)
    requires s != []
    ensures forall i :: 0 <= i < |s| ==> m <= s[i]
    ensures exists i :: 0 <= i < |s| && s[i] == m
  {
    if |s| == 1 then s[0]
    else
      var rest := Min(s[1..]);
      assert forall i :: 1 <= i < |s| ==> s[i] == s[1..][i - 1];
      if s[0] <= rest then s[0]
      else
        assert exists i :: 1 <= i < |s| && s[i] == rest by {
          var j :| 0 <= j < |s[1..]| && s[1..][j] == rest;
          assert s[j + 1] == rest;
        }
        rest
  }

  /**
   * `Math.round(num / den)` for a positive `den`: the whole number nearest to
   * the quotient, halves rounded up.
   */
  function RoundHalfUp(num: int, den: nat): (r: int)
    requires den > 0
    ensures 2 * den * r <= 2 * num + den < 2 * den * r + 2 * den
  {
    (2 * num + den) / (2 * den)
  }

  /**
   * The per-day counting loop: runs over the messages in order and bumps the
   * counter of each one's day.
   */
  method CountPerDay(messages: seq<Message>) returns (perDay: map<int, nat>)
    ensures perDay == Histogram(DayKeys(messages))
  {
    perDay := map[];
    var i := 0;
    while i < |messages|
      invariant 0 <= i <= |messages|
      invariant perDay == Histogram(DayKeys(messages[..i]))
    {
      var dateKey := UtcDay(messages[i].timestamp);
      DayKeysStep(messages, i);
      HistogramSnoc(DayKeys(messages[..i]), dateKey);
      perDay := perDay[dateKey := (if dateKey in perDay then perDay[dateKey] else 0) + 1];
      i := i + 1;
    }
    assert messages[..i] == messages;
  }

  /** The per-hour counting loop, keyed by the local hour of each message. */
  method CountPerHour(messages: seq<Message>, offset: int) returns (perHour: map<int, nat>)
    ensures perHour == Histogram(HourKeys(messages, offset))
  {
    perHour := map[];
    var i := 0;
    while i < |messages|
      invariant 0 <= i <= |messages|
      invariant perHour == Histogram(HourKeys(messages[..i], offset))
    {
      var hour := HourOf(messages[i].timestamp, offset);
      HourKeysStep(messages, i, offset);
      HistogramSnoc(HourKeys(messages[..i], offset), hour);
      perHour := perHour[hour := (if hour in perHour then perHour[hour] else 0) + 1];
      i := i + 1;
    }
    assert messages[..i] == messages;
  }

  /** `calculateMessageStatistics(messages)`. */
  method CalculateMessageStatistics(messages: seq<Message>, offset: int) returns (stats: MessageStatistics)
    ensures messages == [] ==> stats == EmptyStatistics()
    ensures stats.totalMessages == |messages|
    ensures stats.sentMessages == Count(messages, IsSent)
    ensures stats.sentMessages + stats.receivedMessages == stats.totalMessages
    ensures messages != [] ==>
              && stats.averageMessageLength == RoundHalfUp(Sum(Lengths(messages)), |messages|)
              && stats.longestMessage == Max(Lengths(messages))
              && stats.shortestMessage == Min(Lengths(messages))
              && stats.messagesPerDay == Histogram(DayKeys(messages))
              && stats.messagesPerHour == Histogram(HourKeys(messages, offset))
              && stats.firstMessageDate == Some(Min(Timestamps(messages)))
              && stats.lastMessageDate == Some(Max(Timestamps(messages)))
  {
    if |messages| == 0 {
      return EmptyStatistics();
    }
    var sentMessages := Count(messages, IsSent);
    var receivedMessages := |messages| - sentMessages;
    var messageLengths := Lengths(messages);
    var averageMessageLength := RoundHalfUp(Sum(messageLengths), |messages|);
    var messagesPerDay := CountPerDay(messages);
    var messagesPerHour := CountPerHour(messages, offset);
    var timestamps := Timestamps(messages);
    stats := MessageStatistics(
      |messages|, sentMessages, receivedMessages, averageMessageLength,
      Max(messageLengths), Min(messageLengths), messagesPerDay, messagesPerHour,
      Some(Min(timestamps)), Some(Max(timestamps)));
  }

  predicate IsReceived(m: Message) {
    !m.isSender
  }

  /**
   * `sentMessages` is the length of the sent-only selection, and
   * `receivedMessages` (total minus sent) the length of the received-only one.
   */
  lemma SentAndReceivedCounts(messages: seq<Message>)
    ensures Count(messages, IsSent) == |Select(messages, IsSent)|
    ensures |messages| - Count(messages, IsSent) == |Select(messages, IsReceived)|
  {
    CountIsSelectLength(messages, IsSent);
    SelectComplement(messages, IsSent, IsReceived);
  }

  /** Every element of a list lies between the bounds, so does the total between n times them. */
  lemma {:induction false} SumBounds(s: seq<int>, lo: int, hi: int)
    requires forall i :: 0 <= i < |s| ==> lo <= s[i] <= hi
    ensures |s| * lo <= Sum(s) <= |s| * hi
    decreases |s|
  {
    if s != [] {
      SumBounds(s[..|s| - 1], lo, hi);
      assert (|s| - 1) * lo + lo == |s| * lo;
      assert (|s| - 1) * hi + hi == |s| * hi;
    }
  }

  /** A rounded mean of values between `lo` and `hi` is again between them. */
  lemma MeanBetween(s: seq<int>, lo: int, hi: int)
    requires s != []
    requires forall i :: 0 <= i < |s| ==> lo <= s[i] <= hi
    ensures lo <= RoundHalfUp(Sum(s), |s|) <= hi
  {
    SumBounds(s, lo, hi);
    RoundedBetween(Sum(s), |s|, lo, hi);
  }

  /** The arithmetic core of `MeanBetween`: `n * lo <= total <= n * hi` bounds the rounded quotient. */
  lemma RoundedBetween(total: int, n: nat, lo: int, hi: int)
    requires n > 0
    requires n * lo <= total <= n * hi
    ensures lo <= RoundHalfUp(total, n) <= hi
  {
    var r := RoundHalfUp(total, n);
    var d := 2 * n;
    assert d * r <= 2 * total + n < d * r + d;
    if r > hi {
      MulLe(d, hi + 1, r);
      assert false;
    }
    if r < lo {
      MulLe(d, r + 1, lo);
      assert false;
    }
  }

  /** shortest <= average <= longest, for any non-empty list. */
  lemma AverageBetweenExtremes(messages: seq<Message>)
    requires messages != []
    ensures var lengths := Lengths(messages);
            Min(lengths) <= RoundHalfUp(Sum(lengths), |messages|) <= Max(lengths)
  {
    var lengths := Lengths(messages);
    MeanBetween(lengths, Min(lengths), Max(lengths));
  }

  /** The per-day counts add up to the number of messages. */
  lemma PerDaySum(messages: seq<Message>)
    ensures MapSum(Histogram(DayKeys(messages))) == |messages|
  {
    HistogramSum(DayKeys(messages));
  }

  /** The per-hour counts add up to the number of messages. */
  lemma PerHourSum(messages: seq<Message>, offset: int)
    ensures MapSum(Histogram(HourKeys(messages, offset))) == |messages|
  {
    HistogramSum(HourKeys(messages, offset));
  }

  /** Every key of the per-hour dictionary is an hour of the day, 0..23. */
  lemma HourKeysInRange(messages: seq<Message>, offset: int)
    ensures forall h :: h in Histogram(HourKeys(messages, offset)) ==> 0 <= h < 24
  {
    var keys := HourKeys(messages, offset);
    forall h | h in Histogram(keys) ensures 0 <= h < 24 {
      var i :| 0 <= i < |keys| && keys[i] == h;
    }
  }

  /** The first date is never after the last. */
  lemma FirstNotAfterLast(messages: seq<Message>)
    requires messages != []
    ensures Min(Timestamps(messages)) <= Max(Timestamps(messages))
  {
    var ts := Timestamps(messages);
    assert Min(ts) <= ts[0] <= Max(ts);
  }
}
