/** src/utils/filterMessages.ts: reduce a message list to the messages a criterion keeps. */
module FilterMessages {
  import opened Options
  import opened Sequences
  import opened Time
  import opened Types

  /**
   * The date test applied to each message when the filter type is 'date':
   * both bounds, only a start, only an end, or no bound at all. Bounds are
   * widened to the start and to the end of their local calendar day.
   */
  predicate InDateRange(m: Message, range: DateRange, offset: int) {
    match range
    case DateRange(Some(start), Some(end)) =>
      DayStart(start, offset) <= m.timestamp && m.timestamp <= DayEnd(end, offset)
    case DateRange(Some(start), None) => m.timestamp >= DayStart(start, offset)
    case DateRange(None, Some(end)) => m.timestamp <= DayEnd(end, offset)
    case DateRange(None, None) => true
  }

  /** Whether a criterion keeps a message. */
  predicate Keeps(filterType: FilterType, range: DateRange, offset: int, m: Message) {
    match filterType
    case All => true
    case SentOnly => m.isSender
    case ReceivedOnly => !m.isSender
    case Date => InDateRange(m, range, offset)
  }

  /**
   * `filterMessages(messages, filterType, dateRange)`. The result keeps, in
   * input order, every occurrence of every message the criterion keeps and
   * nothing else; 'all' hands back the input itself.
   */
  function FilterMessages(messages: seq<Message>, filterType: FilterType, range: DateRange, offset: int): (r: seq<Message>)
    ensures filterType == All ==> r == messages
    ensures IsSubseq(r, messages)
    ensures forall m :: multiset(r)[m] == if Keeps(filterType, range, offset, m) then multiset(messages)[m] else 0
  {
    match filterType
    case All => SubseqRefl(messages); messages
    case SentOnly =>
      var p := (m: Message) => m.isSender;
      SelectMultiset(messages, p); Select(messages, p)
    case ReceivedOnly =>
      var p := (m: Message) => !m.isSender;
      SelectMultiset(messages, p); Select(messages, p)
    case Date =>
      var p := (m: Message) => InDateRange(m, range, offset);
      SelectMultiset(messages, p); Select(messages, p)
  }

  /** The filter as a `Select` with its keep-predicate: the form the lemmas below reason about. */
  lemma FilterIsSelect(messages: seq<Message>, filterType: FilterType, range: DateRange, offset: int)
    ensures FilterMessages(messages, filterType, range, offset)
            == Select(messages, (m: Message) => Keeps(filterType, range, offset, m))
  {
    var p := (m: Message) => Keeps(filterType, range, offset, m);
    match filterType
    case All => SelectAll(messages, p);
    case SentOnly => SelectExt(messages, (m: Message) => m.isSender, p);
    case ReceivedOnly => SelectExt(messages, (m: Message) => !m.isSender, p);
    case Date => SelectExt(messages, (m: Message) => InDateRange(m, range, offset), p);
  }

  /** Filtering twice with the same criterion equals filtering once. */
  lemma FilterIdempotent(messages: seq<Message>, filterType: FilterType, range: DateRange, offset: int)
    ensures var once := FilterMessages(messages, filterType, range, offset);
            FilterMessages(once, filterType, range, offset) == once
  {
    var once := FilterMessages(messages, filterType, range, offset);
    FilterIsSelect(messages, filterType, range, offset);
    FilterIsSelect(once, filterType, range, offset);
    SelectIdempotent(messages, (m: Message) => Keeps(filterType, range, offset, m));
  }

  /** 'sent' and 'received' split the list: their lengths add up to the input's. */
  lemma SentReceivedPartition(messages: seq<Message>, range: DateRange, offset: int)
    ensures |FilterMessages(messages, SentOnly, range, offset)|
            + |FilterMessages(messages, ReceivedOnly, range, offset)| == |messages|
  {
    SelectComplement(messages, (m: Message) => m.isSender, (m: Message) => !m.isSender);
  }

  /**
   * With both bounds, a message is kept iff its instant lies between the local
   * midnight that starts the start day and the last millisecond of the end day,
   * that is iff its local calendar day lies between the two bounds' days.
   */
  lemma DateRangeKeepsCalendarDays(messages: seq<Message>, start: int, end: int, offset: int, m: Message)
    ensures m in FilterMessages(messages, Date, DateRange(Some(start), Some(end)), offset)
            <==> m in messages && DayStart(start, offset) <= m.timestamp <= DayEnd(end, offset)
    ensures m in FilterMessages(messages, Date, DateRange(Some(start), Some(end)), offset)
            <==> m in messages && LocalDay(start, offset) <= LocalDay(m.timestamp, offset) <= LocalDay(end, offset)
  {
    var r := FilterMessages(messages, Date, DateRange(Some(start), Some(end)), offset);
    assert m in r <==> multiset(r)[m] > 0;
    assert m in messages <==> multiset(messages)[m] > 0;
    AfterDayStartIffLaterDay(start, m.timestamp, offset);
    BeforeDayEndIffEarlierDay(end, m.timestamp, offset);
  }

  /** Only a start bound: keep messages from the start of that local day on. */
  lemma StartOnlyKeeps(messages: seq<Message>, start: int, offset: int, m: Message)
    ensures m in FilterMessages(messages, Date, DateRange(Some(start), None), offset)
            <==> m in messages && m.timestamp >= DayStart(start, offset)
  {
    var r := FilterMessages(messages, Date, DateRange(Some(start), None), offset);
    assert m in r <==> multiset(r)[m] > 0;
    assert m in messages <==> multiset(messages)[m] > 0;
  }

  /** Only an end bound: keep messages up to the last millisecond of that local day. */
  lemma EndOnlyKeeps(messages: seq<Message>, end: int, offset: int, m: Message)
    ensures m in FilterMessages(messages, Date, DateRange(None, Some(end)), offset)
            <==> m in messages && m.timestamp <= DayEnd(end, offset)
  {
    var r := FilterMessages(messages, Date, DateRange(None, Some(end)), offset);
    assert m in r <==> multiset(r)[m] > 0;
    assert m in messages <==> multiset(messages)[m] > 0;
  }

  /** A date filter without bounds keeps every message. */
  lemma {:induction false} UnboundedDateKeepsAll(messages: seq<Message>, offset: int)
    ensures FilterMessages(messages, Date, DateRange(None, None), offset) == messages
  {
    SelectAll(messages, (m: Message) => InDateRange(m, DateRange(None, None), offset));
  }

  /**
   * 10 January 2024, 23:59 and 11 January 2024, 00:01 (UTC, offset 0) under the
   * range 10 January to 10 January: only the first message is kept.
   */
  lemma DayBoundaryExample(a: Message, b: Message)
    requires a.timestamp == 1704931140000   // 2024-01-10T23:59:00Z
    requires b.timestamp == 1704931260000   // 2024-01-11T00:01:00Z
    ensures FilterMessages([a, b], Date, DateRange(Some(1704844800000), Some(1704844800000)), 0) == [a]
  {
    var p := (m: Message) => InDateRange(m, DateRange(Some(1704844800000), Some(1704844800000)), 0);
    FilterIsSelect([a, b], Date, DateRange(Some(1704844800000), Some(1704844800000)), 0);
    assert [a, b][1..] == [b];
    assert [b][1..] == [];
  }
}
