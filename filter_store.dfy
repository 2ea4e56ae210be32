/**
 * The filter store (src/stores/filterStore.ts): the selected filter criterion
 * and the date range it uses. Dates are millisecond instants.
 */
module FilterStore {
  import opened Options
  import opened Types

  /** The range with neither bound. */
  function NoRange(): (r: DateRange)
    ensures r.start.None? && r.end.None?
  {
    DateRange(None, None)
  }

  class FilterState {
    var filterType: FilterType
    var dateRange: DateRange

    /** The initial state: every message, no bounds. */
    constructor ()
      ensures filterType == All && dateRange == NoRange()
    {
      filterType := All;
      dateRange := NoRange();
    }

    /** Changes the criterion only; a stored date range is kept for later. */
    method SetFilterType(t: FilterType)
      modifies this
      ensures filterType == t && dateRange == old(dateRange)
    {
      filterType := t;
    }

    /** Stores both bounds and switches to the date criterion. */
    method SetDateRange(start: Option<int>, end: Option<int>)
      modifies this
      ensures dateRange == DateRange(start, end) && filterType == Date
    {
      dateRange := DateRange(start, end);
      filterType := Date;
    }

    /** Back to the initial state. */
    method ClearFilter()
      modifies this
      ensures filterType == All && dateRange == NoRange()
    {
      filterType := All;
      dateRange := NoRange();
    }
  }
}
