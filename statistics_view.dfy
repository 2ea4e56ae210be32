/**
 * The figures the statistics panel derives from a room's statistics
 * (src/components/molecules/MessageStatistics.tsx): the placeholder rule, the
 * most active day and hour, the day span and the per-day average.
 *
 * `Object.entries` lists the per-hour dictionary by ascending hour (its keys
 * are array-index-like) and the per-day dictionary in insertion order, that is
 * by first occurrence of the day in the room; `HourEntries` and `DayEntries`
 * build those two listings.
 */
module StatisticsView {
  import opened Arith
  import opened Options
  import opened Sequences
  import opened Time
  import opened Types
  import opened Statistics

  /**
   * The position of the first entry whose count is maximal: every count is at
   * most its count, and every earlier count is strictly smaller.
   */
  function FirstMaxIndex<K>(entries: seq<(K, nat)>): (i: nat)
    requires entries != []
    ensures i < |entries|
    ensures forall j :: 0 <= j < |entries| ==> entries[j].1 <= entries[i].1
    ensures forall j :: 0 <= j < i ==> entries[j].1 < entries[i].1
  {
    if |entries| == 1 then 0
    else
      var tail := entries[1..];
      var k := FirstMaxIndex(tail);
      assert forall j :: 1 <= j < |entries| ==> entries[j] == tail[j - 1];
      if entries[0].1 >= tail[k].1 then 0 else k + 1
  }

  /**
   * `entries.sort(([, a], [, b]) => b - a)[0]`: the sort is stable, so this is
   * the first entry whose count is maximal; an empty listing has none.
   */
  function MostActive<K>(entries: seq<(K, nat)>): (r: Option<(K, nat)>)
    ensures r.None? <==> entries == []
    ensures r.Some? ==>
              exists i :: && 0 <= i < |entries| && r.value == entries[i]
                          && (forall j :: 0 <= j < |entries| ==> entries[j].1 <= r.value.1)
                          && (forall j :: 0 <= j < i ==> entries[j].1 < r.value.1)
  {
    if entries == [] then None else Some(entries[FirstMaxIndex(entries)])
  }

  /** `e` is an entry of `m` whose count no other key of `m` exceeds. */
  ghost predicate MaximalEntry<K(!new)>(e: Option<(K, nat)>, m: map<K, nat>) {
    && e.Some?
    && e.value.0 in m
    && m[e.value.0] == e.value.1
    && forall k :: k in m ==> m[k] <= e.value.1
  }

  /** `entries` lists `m`: each entry is a key of `m` with its count, and every key appears. */
  ghost predicate Lists<K(!new)>(entries: seq<(K, nat)>, m: map<K, nat>) {
    && (forall i :: 0 <= i < |entries| ==> entries[i].0 in m && m[entries[i].0] == entries[i].1)
    && (forall k :: k in m ==> exists i :: 0 <= i < |entries| && entries[i].0 == k)
  }

  /** The entries of `perHour` for hours `from`..23, by ascending hour. */
  function HourEntries(perHour: map<int, nat>, from: nat): (r: seq<(int, nat)>)
    ensures forall i :: 0 <= i < |r| ==> from <= r[i].0 < 24 && r[i].0 in perHour && perHour[r[i].0] == r[i].1
    decreases 24 - from
  {
    if from >= 24 then []
    else
      var rest := HourEntries(perHour, from + 1);
      if from in perHour then [(from, perHour[from])] + rest else rest
  }

  /** Every hour from `from` on that has a count appears in the listing. */
  lemma {:induction false} HourEntriesCovers(perHour: map<int, nat>, from: nat, h: int)
    requires from <= h < 24 && h in perHour
    ensures exists i :: 0 <= i < |HourEntries(perHour, from)| && HourEntries(perHour, from)[i].0 == h
    decreases 24 - from
  {
    var r := HourEntries(perHour, from);
    if h == from {
      assert r[0].0 == h;
    } else {
      HourEntriesCovers(perHour, from + 1, h);
      var rest := HourEntries(perHour, from + 1);
      var i :| 0 <= i < |rest| && rest[i].0 == h;
      if from in perHour {
        assert r[i + 1] == rest[i];
      } else {
        assert r[i] == rest[i];
      }
    }
  }

  /** The listing is by strictly ascending hour. */
  lemma {:induction false} HourEntriesAscending(perHour: map<int, nat>, from: nat)
    ensures forall i, j :: 0 <= i < j < |HourEntries(perHour, from)| ==> HourEntries(perHour, from)[i].0 < HourEntries(perHour, from)[j].0
    decreases 24 - from
  {
    if from < 24 {
      HourEntriesAscending(perHour, from + 1);
      var rest := HourEntries(perHour, from + 1);
      var r := HourEntries(perHour, from);
      if from in perHour {
        forall i, j | 0 <= i < j < |r| ensures r[i].0 < r[j].0 {
          assert r[j] == rest[j - 1];
          if i > 0 {
            assert r[i] == rest[i - 1];
          }
        }
      }
    }
  }

  /** The entries of `perDay` in the order its keys were first inserted. */
  function DayEntries(order: seq<int>, perDay: map<int, nat>): (r: seq<(int, nat)>)
    requires forall i :: 0 <= i < |order| ==> order[i] in perDay
    ensures |r| == |order|
    ensures forall i :: 0 <= i < |order| ==> r[i] == (order[i], perDay[order[i]])
  {
    seq(|order|, i requires 0 <= i < |order| => (order[i], perDay[order[i]]))
  }

  /** The listing of hours 0..23 lists a dictionary whose keys are all hours. */
  lemma HourEntriesLists(perHour: map<int, nat>)
    requires forall h :: h in perHour ==> 0 <= h < 24
    ensures Lists(HourEntries(perHour, 0), perHour)
  {
    forall h | h in perHour
      ensures exists i :: 0 <= i < |HourEntries(perHour, 0)| && HourEntries(perHour, 0)[i].0 == h
    {
      HourEntriesCovers(perHour, 0, h);
    }
  }
  /** The per-hour listing lists the per-hour dictionary, whose keys are hours. */
  lemma HourEntriesListHistogram(messages: seq<Message>, offset: int)
    ensures Lists(HourEntries(Histogram(HourKeys(messages, offset)), 0), Histogram(HourKeys(messages, offset)))
  {
    HourKeysInRange(messages, offset);
    HourEntriesLists(Histogram(HourKeys(messages, offset)));
  }

  /** The per-day listing, in first-occurrence order, lists the per-day dictionary. */
  lemma DayEntriesListHistogram(messages: seq<Message>)
    ensures var keys := DayKeys(messages);
            (forall i :: 0 <= i < |Distinct(keys)| ==> Distinct(keys)[i] in Histogram(keys))
            && Lists(DayEntries(Distinct(keys), Histogram(keys)), Histogram(keys))
  {
    var keys := DayKeys(messages);
    var h := Histogram(keys);
    var order := Distinct(keys);
    assert forall i :: 0 <= i < |order| ==> order[i] in h by {
      forall i | 0 <= i < |order| ensures order[i] in h {
        assert order[i] in order;
      }
    }
    var r := DayEntries(order, h);
    forall k | k in h ensures exists i :: 0 <= i < |r| && r[i].0 == k {
      assert k in order;
      var i :| 0 <= i < |order| && order[i] == k;
      assert r[i].0 == k;
    }
  }

  /** The most active entry of a full listing of `m` is a key of `m` whose count no other key exceeds. */
  lemma MostActiveIsMaximal<K(!new)>(entries: seq<(K, nat)>, m: map<K, nat>)
    requires Lists(entries, m)
    ensures MostActive(entries).None? <==> m == map[]
    ensures m != map[] ==> MaximalEntry(MostActive(entries), m)
  {
    if m != map[] {
      var k :| k in m;
      assert entries != [];
      var i := FirstMaxIndex(entries);
      forall k' | k' in m ensures m[k'] <= entries[i].1 {
        var j :| 0 <= j < |entries| && entries[j].0 == k';
        assert entries[j].1 <= entries[i].1;
      }
    }
  }

  /**
   * `daysDiff`: the whole number of days, rounded up, from the first to the
   * last message; 0 when either date is missing.
   */
  function DaysDiff(first: Option<int>, last: Option<int>): (d: int)
    ensures first.None? || last.None? ==> d == 0
    ensures first.Some? && last.Some? ==>
              (d - 1) * MS_PER_DAY < last.value - first.value <= d * MS_PER_DAY
    ensures first.Some? && last.Some? && first.value <= last.value ==>
              0 <= d && (d == 0 <==> first.value == last.value)
  {
    if first.Some? && last.Some? then CeilDiv(last.value - first.value, MS_PER_DAY) else 0
  }

  /**
   * `messagesPerDayAverage`: the figure '0' when the span is no whole day,
   * otherwise total over span (whose one-decimal rendering is not modelled).
   */
  datatype DailyAverage = ZeroAverage | Quotient(total: nat, days: nat)

  function PerDayAverage(totalMessages: nat, daysDiff: int): (a: DailyAverage)
    ensures a.ZeroAverage? <==> daysDiff <= 0
    ensures a.Quotient? ==> a.total == totalMessages && a.days == daysDiff && a.days > 0
  {
    if daysDiff > 0 then Quotient(totalMessages, daysDiff) else ZeroAverage
  }

  /** What the panel shows: the placeholder, or the statistics with the derived figures. */
  datatype Panel =
    | Placeholder
    | Summary(
        stats: MessageStatistics,
        mostActiveDay: Option<(int, nat)>,
        mostActiveHour: Option<(int, nat)>,
        daysDiff: int,
        average: DailyAverage)

  /**
   * The component: statistics of the current room, then the placeholder when
   * there is no room or no message, otherwise the derived figures.
   */
  method RenderStatistics(currentRoom: Option<ChatRoom>, offset: int) returns (panel: Panel)
    ensures panel.Placeholder? <==> currentRoom.None? || currentRoom.value.messages == []
    ensures panel.Summary? ==>
              var messages := currentRoom.value.messages;
              var perDay := Histogram(DayKeys(messages));
              var perHour := Histogram(HourKeys(messages, offset));
              && panel.stats.totalMessages == |messages|
              && panel.stats.sentMessages == Count(messages, IsSent)
              && panel.stats.receivedMessages == |messages| - Count(messages, IsSent)
              && panel.stats.averageMessageLength == RoundHalfUp(Sum(Lengths(messages)), |messages|)
              && panel.stats.longestMessage == Max(Lengths(messages))
              && panel.stats.shortestMessage == Min(Lengths(messages))
              && panel.stats.messagesPerDay == perDay
              && panel.stats.messagesPerHour == perHour
              && panel.stats.firstMessageDate == Some(Min(Timestamps(messages)))
              && panel.stats.lastMessageDate == Some(Max(Timestamps(messages)))
              && panel.mostActiveDay == MostActive(DayEntries(Distinct(DayKeys(messages)), perDay))
              && panel.mostActiveHour == MostActive(HourEntries(perHour, 0))
              && MaximalEntry(panel.mostActiveDay, perDay)
              && MaximalEntry(panel.mostActiveHour, perHour)
              && 0 <= panel.mostActiveHour.value.0 < 24
              && panel.daysDiff >= 0
              && (panel.daysDiff - 1) * MS_PER_DAY
                 < Max(Timestamps(messages)) - Min(Timestamps(messages))
                 <= panel.daysDiff * MS_PER_DAY
              && panel.average == PerDayAverage(|messages|, panel.daysDiff)
              && (panel.average.ZeroAverage? <==> panel.daysDiff == 0)
  {
    if currentRoom.None? {
      return Placeholder;
    }
    var messages := currentRoom.value.messages;
    var statistics := CalculateMessageStatistics(messages, offset);
    if statistics.totalMessages == 0 {
      return Placeholder;
    }
    ghost var perDay := Histogram(DayKeys(messages));
    ghost var perHour := Histogram(HourKeys(messages, offset));
    assert statistics.messagesPerDay == perDay && statistics.messagesPerHour == perHour;
    assert DayKeys(messages)[0] in perDay && HourKeys(messages, offset)[0] in perHour;
    DayEntriesListHistogram(messages);
    HourEntriesListHistogram(messages, offset);
    HourKeysInRange(messages, offset);
    var dayEntries := DayEntries(Distinct(DayKeys(messages)), statistics.messagesPerDay);
    var hourEntries := HourEntries(statistics.messagesPerHour, 0);
    MostActiveIsMaximal(dayEntries, statistics.messagesPerDay);
    MostActiveIsMaximal(hourEntries, statistics.messagesPerHour);
    var mostActiveDay := MostActive(dayEntries);
    var mostActiveHour := MostActive(hourEntries);
    FirstNotAfterLast(messages);
    var daysDiff := DaysDiff(statistics.firstMessageDate, statistics.lastMessageDate);
    panel := Summary(statistics, mostActiveDay, mostActiveHour, daysDiff,
                     PerDayAverage(statistics.totalMessages, daysDiff));
  }
}
