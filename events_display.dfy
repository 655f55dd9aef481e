/**
 * The event list of the front end: a status filter (by default CURRENT and
 * POSTED events), then a sort by status priority and, within one priority,
 * newest start time first; plus the labels of the filter menu and the
 * badge colours of the statuses.
 *
 * A start time is the millisecond timestamp `new Date(start_time).getTime()`,
 * or `None` when the event has no (or an empty) start time.
 */
module EventsDisplay {
  import opened Wrappers

  /** The statuses the front end knows. */
  datatype Status = IDEATION | PLANNING | POSTED | PENDING | CURRENT | PAST

  /** The filter menu: "ALL", "CURRENT", "POSTED", "PAST". */
  datatype EventFilter = ShowAll | ShowCurrent | ShowPosted | ShowPast

  datatype Event = Event(id: int, status: Status, startTime: Option<int>)

  // ---------------------------------------------------------------------
  // Badge colours and filter labels

  const GRAY: string := "bg-gray-100 text-gray-800 hover:bg-gray-200"
  const BLUE: string := "bg-blue-100 text-blue-800 hover:bg-blue-200"
  const GREEN: string := "bg-green-100 text-green-800 hover:bg-green-200"
  const YELLOW: string := "bg-yellow-100 text-yellow-800 hover:bg-yellow-200"
  const ORANGE: string := "bg-orange-100 text-orange-800 hover:bg-orange-200"
  const RED: string := "bg-red-100 text-red-800 hover:bg-red-200"

  /** `getStatusColor`. */
  function StatusColor(status: Status): string
  {
    match status
    case IDEATION => GRAY
    case PLANNING => BLUE
    case POSTED => GREEN
    case PENDING => YELLOW
    case CURRENT => ORANGE
    case PAST => RED
  }

  /** Only IDEATION is gray; every other status has a colour of its own. */
  lemma StatusColorsDistinct(s: Status, t: Status)
    ensures StatusColor(s) == GRAY <==> s == IDEATION
    ensures StatusColor(s) == StatusColor(t) ==> s == t
  {
  }

  /** `getFilterLabel`. */
  function FilterLabel(filter: EventFilter): string
  {
    match filter
    case ShowAll => "Current & Posted"
    case ShowCurrent => "Current Events"
    case ShowPosted => "Posted Events"
    case ShowPast => "Past Events"
  }

  lemma FilterLabelsDistinct(f: EventFilter, g: EventFilter)
    ensures FilterLabel(f) == FilterLabel(g) ==> f == g
  {
  }

  // ---------------------------------------------------------------------
  // The filter

  /** The test `filter` applies to one event. */
  predicate Keeps(filter: EventFilter, e: Event)
  {
    match filter
    case ShowAll => e.status == CURRENT || e.status == POSTED
    case ShowCurrent => e.status == CURRENT
    case ShowPosted => e.status == POSTED
    case ShowPast => e.status == PAST
  }

  /** `data.filter(...)`: the kept events, in their original order. */
  function Filtered(events: seq<Event>, filter: EventFilter): (r: seq<Event>)
    ensures forall e :: e in r <==> e in events && Keeps(filter, e)
    ensures multiset(r) <= multiset(events)
    decreases |events|
  {
    if |events| == 0 then []
    else
      var rest := Filtered(events[..|events| - 1], filter);
      var last := events[|events| - 1];
      assert events == events[..|events| - 1] + [last];
      if Keeps(filter, last) then rest + [last] else rest
  }

  // ---------------------------------------------------------------------
  // The comparator

  /** `statusPriority[status] || 4`. */
  function Priority(s: Status): nat
  {
    match s
    case CURRENT => 1
    case POSTED => 2
    case PAST => 3
    case _ => 4
  }

  /** The comparator passed to `sort`: negative when `a` goes first. */
  function Compare(a: Event, b: Event): int
  {
    var aPriority := Priority(a.status);
    var bPriority := Priority(b.status);
    if aPriority != bPriority then aPriority - bPriority
    else if a.startTime.Some? && b.startTime.Some? then b.startTime.value - a.startTime.value
    else 0
  }

  /** The comparator's three rules: priority first, then the later start time,
      and a tie when either start time is missing. It is antisymmetric. */
  lemma CompareRules(a: Event, b: Event)
    ensures Priority(a.status) < Priority(b.status) ==> Compare(a, b) < 0
    ensures Priority(a.status) == Priority(b.status) && a.startTime.Some? && b.startTime.Some? ==>
      (Compare(a, b) < 0 <==> a.startTime.value > b.startTime.value)
    ensures Priority(a.status) == Priority(b.status) && (a.startTime.None? || b.startTime.None?) ==>
      Compare(a, b) == 0
    ensures Compare(a, b) == -Compare(b, a)
  {
  }

  predicate HasStartTime(e: Event)
  {
    e.startTime.Some?
  }

  /** With start times present the comparator is transitive, so it is a total preorder. */
  lemma CompareTransitive(a: Event, b: Event, c: Event)
    requires HasStartTime(a) && HasStartTime(b) && HasStartTime(c)
    requires Compare(a, b) <= 0 && Compare(b, c) <= 0
    ensures Compare(a, c) <= 0
  {
  }

  // ---------------------------------------------------------------------
  // The sort

  /** Puts `x` before the first element it compares below, so after any
      element it ties with. */
  function Insert(x: Event, s: seq<Event>): (r: seq<Event>)
    ensures multiset(r) == multiset(s) + multiset{x}
    ensures |r| == |s| + 1
    decreases |s|
  {
    if |s| == 0 then [x]
    else if Compare(x, s[0]) < 0 then [x] + s
    else
      assert s == [s[0]] + s[1..];
      [s[0]] + Insert(x, s[1..])
  }

  /** A stable insertion sort with the comparator. */
  function SortEvents(s: seq<Event>): (r: seq<Event>)
    ensures multiset(r) == multiset(s)
    decreases |s|
  {
    if |s| == 0 then []
    else
      assert s == s[..|s| - 1] + [s[|s| - 1]];
      Insert(s[|s| - 1], SortEvents(s[..|s| - 1]))
  }

  predicate PrioritySorted(s: seq<Event>)
  {
    forall i, j :: 0 <= i < j < |s| ==> Priority(s[i].status) <= Priority(s[j].status)
  }

  predicate SortedByCompare(s: seq<Event>)
  {
    forall i, j :: 0 <= i < j < |s| ==> Compare(s[i], s[j]) <= 0
  }

  lemma {:induction false} InsertKeepsPriorityOrder(x: Event, s: seq<Event>)
    requires PrioritySorted(s)
    ensures PrioritySorted(Insert(x, s))
    decreases |s|
  {
    if |s| > 0 && Compare(x, s[0]) >= 0 {
      var tail := Insert(x, s[1..]);
      InsertKeepsPriorityOrder(x, s[1..]);
      forall k | 0 <= k < |tail|
        ensures Priority(s[0].status) <= Priority(tail[k].status)
      {
        assert tail[k] in multiset(s[1..]) + multiset{x};
      }
    }
  }

  /** Whatever the start times, the sorted list is ordered by priority. */
  lemma {:induction false} SortOrdersByPriority(s: seq<Event>)
    ensures PrioritySorted(SortEvents(s))
    decreases |s|
  {
    if |s| > 0 {
      SortOrdersByPriority(s[..|s| - 1]);
      InsertKeepsPriorityOrder(s[|s| - 1], SortEvents(s[..|s| - 1]));
    }
  }

  lemma {:induction false} InsertKeepsOrder(x: Event, s: seq<Event>)
    requires HasStartTime(x) && forall k :: 0 <= k < |s| ==> HasStartTime(s[k])
    requires SortedByCompare(s)
    ensures SortedByCompare(Insert(x, s))
    decreases |s|
  {
    if |s| > 0 {
      if Compare(x, s[0]) < 0 {
        forall j | 0 <= j < |s| ensures Compare(x, s[j]) <= 0 {
          if j > 0 { CompareTransitive(x, s[0], s[j]); }
        }
      } else {
        var tail := Insert(x, s[1..]);
        InsertKeepsOrder(x, s[1..]);
        forall k | 0 <= k < |tail|
          ensures Compare(s[0], tail[k]) <= 0
        {
          assert tail[k] in multiset(s[1..]) + multiset{x};
        }
      }
    }
  }

  /** When every event has a start time the comparator is consistent and the
      sorted list is ordered by it: priority, then newest first. */
  lemma {:induction false} SortOrdersFully(s: seq<Event>)
    requires forall k :: 0 <= k < |s| ==> HasStartTime(s[k])
    ensures SortedByCompare(SortEvents(s))
    decreases |s|
  {
    if |s| > 0 {
      var p := s[..|s| - 1];
      SortOrdersFully(p);
      var sorted := SortEvents(p);
      forall k | 0 <= k < |sorted| ensures HasStartTime(sorted[k]) {
        assert sorted[k] in multiset(p);
      }
      InsertKeepsOrder(s[|s| - 1], sorted);
    }
  }

  /** `filteredAndSortedEvents`. */
  function Displayed(events: seq<Event>, filter: EventFilter): seq<Event>
  {
    SortEvents(Filtered(events, filter))
  }

  /** The displayed list holds exactly the kept events, each as often as in
      the data, CURRENT ones first under the default filter. */
  lemma DisplayedEvents(events: seq<Event>, filter: EventFilter)
    ensures multiset(Displayed(events, filter)) == multiset(Filtered(events, filter))
    ensures forall e :: e in Displayed(events, filter) <==> e in events && Keeps(filter, e)
    ensures PrioritySorted(Displayed(events, filter))
    ensures filter == ShowAll ==> forall i, j ::
      (0 <= i < |Displayed(events, filter)| && 0 <= j < |Displayed(events, filter)| &&
       Displayed(events, filter)[i].status == CURRENT && Displayed(events, filter)[j].status == POSTED) ==> i < j
  {
    var d := Displayed(events, filter);
    SortOrdersByPriority(Filtered(events, filter));
    forall e ensures e in d <==> e in Filtered(events, filter) {
      assert e in d <==> e in multiset(d);
    }
    forall i, j | 0 <= i < |d| && 0 <= j < |d| && d[i].status == CURRENT && d[j].status == POSTED
      ensures i < j
    {
      PriorityOrderOfIndices(d, i, j);
    }
  }

  lemma PriorityOrderOfIndices(s: seq<Event>, i: int, j: int)
    requires PrioritySorted(s) && 0 <= i < |s| && 0 <= j < |s|
    requires Priority(s[i].status) < Priority(s[j].status)
    ensures i < j
  {
  }
}
