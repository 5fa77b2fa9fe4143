/** The alert list page: the category filter over the alert records, the
    summary counts over the unfiltered list, the single-selection toggle that
    decides which alert's details are expanded, and the test-notification flag. */
module Alerts {
  import opened Maybe

  /** One alert record of the sample feed (the thumbnail URL is left out). */
  datatype Alert = Alert(
    id: int,
    kind: string,        // the record's `type`: "fire" or "smoke"
    confidence: int,
    location: string,
    timestamp: string,
    status: string       // "critical" or "warning"
  )

  /** The alert records the page shows. */
  const SampleAlerts: seq<Alert> := [
    Alert(1, "fire", 92, "Zone A - Processing Unit", "2025-04-08T10:45:32", "critical"),
    Alert(2, "smoke", 78, "Zone C - Storage Area", "2025-04-08T09:22:15", "warning"),
    Alert(3, "fire", 85, "Zone B - Equipment Room", "2025-04-07T16:18:43", "critical"),
    Alert(4, "smoke", 65, "Zone D - Office Area", "2025-04-07T08:37:21", "warning"),
    Alert(5, "fire", 73, "Zone A - Exterior", "2025-04-06T14:12:58", "critical")
  ]

  /** The filter value that means "no filtering". */
  const AllFilter: string := "all"

  // ---------------------------------------------------------------------------
  // Array.prototype.filter over the alert records

  /** The records of `s` that satisfy `p`, in their original order. */
  function Keep(s: seq<Alert>, p: Alert -> bool): (r: seq<Alert>)
    ensures |r| <= |s|
    ensures forall a :: a in r <==> a in s && p(a)
  {
    if s == [] then []
    else
      var rest := Keep(s[1..], p);
      assert forall a :: a in s <==> a == s[0] || a in s[1..];
      if p(s[0]) then [s[0]] + rest else rest
  }

  /** `idx` lists, in strictly increasing order, exactly the positions of `s`
      whose record satisfies `p`. */
  ghost predicate SelectsExactly(s: seq<Alert>, p: Alert -> bool, idx: seq<int>)
  {
    && (forall k :: 0 <= k < |idx| ==> 0 <= idx[k] < |s|)
    && (forall k, l :: 0 <= k < l < |idx| ==> idx[k] < idx[l])
    && (forall j :: 0 <= j < |s| ==> (p(s[j]) <==> j in idx))
  }

  /** `r` is the sequence of the records of `s` at the positions `idx`. */
  ghost predicate PicksAt(r: seq<Alert>, s: seq<Alert>, idx: seq<int>)
    requires forall k :: 0 <= k < |idx| ==> 0 <= idx[k] < |s|
  {
    |r| == |idx| && forall k :: 0 <= k < |idx| ==> r[k] == s[idx[k]]
  }

  /** Every position of `idx` moved one to the left. */
  ghost function ShiftDown(idx: seq<int>): seq<int>
  {
    seq(|idx|, k requires 0 <= k < |idx| => idx[k] - 1)
  }

  /** Every position of `idx` moved one to the right. */
  ghost function ShiftUp(idx: seq<int>): seq<int>
  {
    seq(|idx|, k requires 0 <= k < |idx| => idx[k] + 1)
  }

  /** Nothing is kept when no record satisfies `p`. */
  lemma {:induction false} KeepNone(s: seq<Alert>, p: Alert -> bool)
    requires forall j :: 0 <= j < |s| ==> !p(s[j])
    ensures Keep(s, p) == []
  {
    if s != [] {
      assert forall j :: 0 <= j < |s[1..]| ==> s[1..][j] == s[j + 1];
      KeepNone(s[1..], p);
    }
  }

  /** The positions of `s` whose record satisfies `p`, in increasing order. */
  ghost function KeptPositions(s: seq<Alert>, p: Alert -> bool): seq<int>
  {
    if s == [] then []
    else if p(s[0]) then [0] + ShiftUp(KeptPositions(s[1..], p))
    else ShiftUp(KeptPositions(s[1..], p))
  }

  /** Selecting exactly the matching positions of `s[1..]` and moving them one
      to the right selects exactly the matching positions of `s` after the first. */
  lemma ShiftUpSelects(s: seq<Alert>, p: Alert -> bool, tail: seq<int>)
    requires s != []
    requires SelectsExactly(s[1..], p, tail)
    ensures forall k :: 0 <= k < |ShiftUp(tail)| ==> 1 <= ShiftUp(tail)[k] < |s|
    ensures forall k, l :: 0 <= k < l < |tail| ==> ShiftUp(tail)[k] < ShiftUp(tail)[l]
    ensures forall j :: 1 <= j < |s| ==> (p(s[j]) <==> j in ShiftUp(tail))
    ensures 0 !in ShiftUp(tail)
  {
    var up := ShiftUp(tail);
    forall j | 1 <= j < |s| ensures p(s[j]) <==> j in up {
      assert s[j] == s[1..][j - 1];
      if j - 1 in tail {
        var k :| 0 <= k < |tail| && tail[k] == j - 1;
        assert up[k] == j;
      }
      if j in up {
        var k :| 0 <= k < |up| && up[k] == j;
        assert tail[k] == j - 1;
      }
    }
  }

  /** The positions that `Keep(s, p)` draws its records from are exactly the
      positions whose record satisfies `p`, in increasing order: the filtered
      list is a subsequence of `s` in the original relative order. */
  lemma {:induction false} KeptPositionsCorrect(s: seq<Alert>, p: Alert -> bool)
    ensures SelectsExactly(s, p, KeptPositions(s, p))
    ensures PicksAt(Keep(s, p), s, KeptPositions(s, p))
  {
    if s != [] {
      var tail := KeptPositions(s[1..], p);
      KeptPositionsCorrect(s[1..], p);
      ShiftUpSelects(s, p, tail);
      var up := ShiftUp(tail);
      var rest := Keep(s[1..], p);
      assert PicksAt(rest, s, up) by {
        forall k | 0 <= k < |up| ensures rest[k] == s[up[k]] {
          assert rest[k] == s[1..][tail[k]];
        }
      }
      if p(s[0]) {
        PrependFirst(s, p, rest, up);
      }
    }
  }

  /** A matching first record in front of an exact selection of the rest. */
  lemma PrependFirst(s: seq<Alert>, p: Alert -> bool, rest: seq<Alert>, up: seq<int>)
    requires s != [] && p(s[0])
    requires forall k :: 0 <= k < |up| ==> 1 <= up[k] < |s|
    requires forall k, l :: 0 <= k < l < |up| ==> up[k] < up[l]
    requires forall j :: 1 <= j < |s| ==> (p(s[j]) <==> j in up)
    requires PicksAt(rest, s, up)
    ensures SelectsExactly(s, p, [0] + up)
    ensures PicksAt([s[0]] + rest, s, [0] + up)
  {
    var idx := [0] + up;
    assert idx[0] == 0;
    assert forall k :: 1 <= k < |idx| ==> idx[k] == up[k - 1];
    forall j | 0 <= j < |s| ensures p(s[j]) <==> j in idx {
      if j > 0 { assert j in idx <==> j in up; }
    }
    forall k, l | 0 <= k < l < |idx| ensures idx[k] < idx[l] {
      if k > 0 { assert up[k - 1] < up[l - 1]; }
    }
    var r := [s[0]] + rest;
    forall k | 0 <= k < |idx| ensures r[k] == s[idx[k]] {
      if k > 0 { assert r[k] == rest[k - 1]; }
    }
  }

  /** Positions of `s` after the first, moved one to the left, select exactly
      the matching records of `s[1..]` and pick the same records. */
  lemma ShiftDownSelects(s: seq<Alert>, p: Alert -> bool, later: seq<int>, r: seq<Alert>)
    requires s != []
    requires forall k :: 0 <= k < |later| ==> 1 <= later[k] < |s|
    requires forall k, l :: 0 <= k < l < |later| ==> later[k] < later[l]
    requires forall j :: 1 <= j < |s| ==> (p(s[j]) <==> j in later)
    requires PicksAt(r, s, later)
    ensures SelectsExactly(s[1..], p, ShiftDown(later))
    ensures PicksAt(r, s[1..], ShiftDown(later))
  {
    var tail := ShiftDown(later);
    forall j | 0 <= j < |s[1..]| ensures p(s[1..][j]) <==> j in tail {
      assert s[1..][j] == s[j + 1];
      if j + 1 in later {
        var k :| 0 <= k < |later| && later[k] == j + 1;
        assert tail[k] == j;
      }
      if j in tail {
        var k :| 0 <= k < |tail| && tail[k] == j;
        assert later[k] == j + 1;
      }
    }
    forall k | 0 <= k < |tail| ensures r[k] == s[1..][tail[k]] {
      assert r[k] == s[later[k]];
    }
  }

  /** An exact selection of `s` whose first record matches starts at 0, and
      the rest of it selects the matching records after the first. */
  lemma DropFirstSelected(s: seq<Alert>, p: Alert -> bool, idx: seq<int>, r: seq<Alert>)
    requires s != [] && p(s[0])
    requires SelectsExactly(s, p, idx)
    requires PicksAt(r, s, idx)
    ensures idx != [] && idx[0] == 0 && r != [] && r[0] == s[0]
    ensures SelectsExactly(s[1..], p, ShiftDown(idx[1..]))
    ensures PicksAt(r[1..], s[1..], ShiftDown(idx[1..]))
  {
    assert 0 in idx;
    var later := idx[1..];
    forall k | 0 <= k < |later| ensures 1 <= later[k] < |s| {
      assert idx[0] < idx[k + 1];
    }
    forall j | 1 <= j < |s| ensures p(s[j]) <==> j in later {
      if j in idx {
        var k :| 0 <= k < |idx| && idx[k] == j;
        assert k > 0 && later[k - 1] == j;
      }
    }
    assert PicksAt(r[1..], s, later) by {
      forall k | 0 <= k < |later| ensures r[1..][k] == s[later[k]] {
        assert r[k + 1] == s[idx[k + 1]];
      }
    }
    ShiftDownSelects(s, p, later, r[1..]);
  }

  /** An exact selection of `s` whose first record does not match, moved one to
      the left, is an exact selection of `s[1..]`. */
  lemma SkipFirstUnselected(s: seq<Alert>, p: Alert -> bool, idx: seq<int>, r: seq<Alert>)
    requires s != [] && !p(s[0])
    requires SelectsExactly(s, p, idx)
    requires PicksAt(r, s, idx)
    ensures SelectsExactly(s[1..], p, ShiftDown(idx))
    ensures PicksAt(r, s[1..], ShiftDown(idx))
  {
    ShiftDownSelects(s, p, idx, r);
  }

  /** The filtered list is determined: any sequence built from exactly the
      positions whose record satisfies `p`, in increasing order, is `Keep(s, p)`. */
  lemma {:induction false} KeepUnique(s: seq<Alert>, p: Alert -> bool, r: seq<Alert>, idx: seq<int>)
    requires SelectsExactly(s, p, idx)
    requires PicksAt(r, s, idx)
    ensures r == Keep(s, p)
  {
    if s == [] {
    } else if p(s[0]) {
      DropFirstSelected(s, p, idx, r);
      KeepUnique(s[1..], p, r[1..], ShiftDown(idx[1..]));
      assert Keep(s, p) == [s[0]] + Keep(s[1..], p);
      assert r == [r[0]] + r[1..];
    } else {
      SkipFirstUnselected(s, p, idx, r);
      KeepUnique(s[1..], p, r, ShiftDown(idx));
      assert Keep(s, p) == Keep(s[1..], p);
    }
  }

  // ---------------------------------------------------------------------------
  // The category filter

  /** The test `alert.type === filter`. */
  function OfKind(filter: string): Alert -> bool
  {
    (a: Alert) => a.kind == filter
  }

  /** The test `a.status === status`. */
  function WithStatus(status: string): Alert -> bool
  {
    (a: Alert) => a.status == status
  }

  /** The test `selectedAlert === alert.id`. */
  function IsSelected(selected: Option<int>): Alert -> bool
  {
    (a: Alert) => selected == Some(a.id)
  }

  /** `filteredAlerts`: the whole list for "all", otherwise the records whose
      type equals the filter value. */
  function FilterAlerts(alerts: seq<Alert>, filter: string): (r: seq<Alert>)
    ensures filter == AllFilter ==> r == alerts
    ensures filter != AllFilter ==> forall a :: a in r <==> a in alerts && a.kind == filter
    ensures |r| <= |alerts|
  {
    if filter == AllFilter then alerts else Keep(alerts, OfKind(filter))
  }

  /** With a category filter the displayed list is exactly the records of that
      type, in their original relative order, and nothing else. */
  lemma FilterIsOrderedSelection(alerts: seq<Alert>, filter: string, r: seq<Alert>, idx: seq<int>)
    requires filter != AllFilter
    ensures (SelectsExactly(alerts, OfKind(filter), idx) && PicksAt(r, alerts, idx))
            ==> r == FilterAlerts(alerts, filter)
    ensures SelectsExactly(alerts, OfKind(filter), KeptPositions(alerts, OfKind(filter)))
    ensures PicksAt(FilterAlerts(alerts, filter), alerts, KeptPositions(alerts, OfKind(filter)))
  {
    KeptPositionsCorrect(alerts, OfKind(filter));
    if SelectsExactly(alerts, OfKind(filter), idx) && PicksAt(r, alerts, idx) {
      KeepUnique(alerts, OfKind(filter), r, idx);
    }
  }

  /** The "No alerts found" notice is shown exactly when no record has the
      selected type (and never for "all" over a non-empty list). */
  lemma EmptyNoticeExactly(alerts: seq<Alert>, filter: string)
    ensures FilterAlerts(alerts, filter) == [] <==>
              (if filter == AllFilter then alerts == []
               else forall j :: 0 <= j < |alerts| ==> alerts[j].kind != filter)
  {
    var r := FilterAlerts(alerts, filter);
    if filter != AllFilter && r != [] {
      assert r[0] in r;
    }
  }

  // ---------------------------------------------------------------------------
  // The summary panel

  datatype Summary = Summary(total: nat, critical: nat, warning: nat)

  /** The number of records with the given status. */
  function CountStatus(alerts: seq<Alert>, status: string): (n: nat)
    ensures n <= |alerts|
  {
    |Keep(alerts, WithStatus(status))|
  }

  /** Critical and warning records are disjoint, so together they never
      outnumber the list. */
  lemma {:induction false} CriticalPlusWarningBounded(alerts: seq<Alert>)
    ensures CountStatus(alerts, "critical") + CountStatus(alerts, "warning") <= |alerts|
  {
    if alerts != [] {
      CriticalPlusWarningBounded(alerts[1..]);
      assert alerts == [alerts[0]] + alerts[1..];
    }
  }

  /** The three counts of the summary panel, over the unfiltered list. */
  function Summarize(alerts: seq<Alert>): (s: Summary)
    ensures s.total == |alerts|
    ensures s.critical + s.warning <= s.total
    ensures s.critical == |FilterByStatus(alerts, "critical")|
    ensures s.warning == |FilterByStatus(alerts, "warning")|
  {
    CriticalPlusWarningBounded(alerts);
    Summary(|alerts|, CountStatus(alerts, "critical"), CountStatus(alerts, "warning"))
  }

  /** The records with the given status. */
  function FilterByStatus(alerts: seq<Alert>, status: string): (r: seq<Alert>)
    ensures forall a :: a in r <==> a in alerts && a.status == status
  {
    Keep(alerts, WithStatus(status))
  }

  // ---------------------------------------------------------------------------
  // Selection and details panel

  /** The new selection after clicking the alert `id`. */
  function Toggled(selected: Option<int>, id: int): (r: Option<int>)
    ensures r == Some(id) <==> selected != Some(id)
    ensures r == None <==> selected == Some(id)
  {
    if selected == Some(id) then None else Some(id)
  }

  /** Clicking the same alert twice restores the prior selection exactly when
      nothing or that alert was selected; from another alert's selection the
      two clicks leave nothing selected. */
  lemma ToggleTwice(selected: Option<int>, id: int)
    ensures Toggled(Toggled(selected, id), id) == selected <==> selected == None || selected == Some(id)
    ensures selected != None && selected != Some(id) ==> Toggled(Toggled(selected, id), id) == None
  {
  }

  /** Alert ids are pairwise distinct. */
  ghost predicate UniqueIds(alerts: seq<Alert>)
  {
    forall i, j :: 0 <= i < j < |alerts| ==> alerts[i].id != alerts[j].id
  }

  /** The displayed records whose details panel is open. */
  function OpenPanels(shown: seq<Alert>, selected: Option<int>): (r: seq<Alert>)
    ensures forall a :: a in r <==> a in shown && selected == Some(a.id)
  {
    Keep(shown, IsSelected(selected))
  }

  /** With unique ids at most one details panel is open. */
  lemma {:induction false} AtMostOnePanel(shown: seq<Alert>, selected: Option<int>)
    requires UniqueIds(shown)
    ensures |OpenPanels(shown, selected)| <= 1
    ensures selected.None? ==> OpenPanels(shown, selected) == []
  {
    if shown != [] {
      AtMostOnePanel(shown[1..], selected);
      if selected == Some(shown[0].id) {
        var rest := OpenPanels(shown[1..], selected);
        forall j | 0 <= j < |shown[1..]| ensures !IsSelected(selected)(shown[1..][j]) {
          assert shown[j + 1].id != shown[0].id;
        }
        KeepNone(shown[1..], IsSelected(selected));
      }
    }
  }

  /** Filtering keeps ids unique. */
  lemma FilterKeepsUniqueIds(alerts: seq<Alert>, filter: string)
    requires UniqueIds(alerts)
    ensures UniqueIds(FilterAlerts(alerts, filter))
  {
    if filter != AllFilter {
      var p := OfKind(filter);
      var idx := KeptPositions(alerts, p);
      var r := Keep(alerts, p);
      KeptPositionsCorrect(alerts, p);
      forall i, j | 0 <= i < j < |r| ensures r[i].id != r[j].id {
        assert idx[i] < idx[j];
      }
    }
  }

  /** The sample feed has five records with distinct ids. */
  lemma SampleIds()
    ensures |SampleAlerts| == 5 && UniqueIds(SampleAlerts)
  {
  }

  /** The sample feed's summary: three critical and two warning alerts. */
  lemma SampleSummary()
    ensures Summarize(SampleAlerts) == Summary(5, 3, 2)
  {
  }

  // ---------------------------------------------------------------------------
  // The page state

  /** How a click handler ended: it returned, or it threw a `TypeError`. */
  datatype HandlerResult = Returned | ThrewTypeError

  class AlertsPage {
    const alerts: seq<Alert>
    var filter: string
    var selectedAlert: Option<int>
    var testAlertSent: bool
    /** Test-notification timers scheduled and not yet fired. */
    var testAlertTimers: nat

    constructor (alerts: seq<Alert>)
      ensures this.alerts == alerts
      ensures filter == AllFilter && selectedAlert == None
      ensures !testAlertSent && testAlertTimers == 0
    {
      this.alerts := alerts;
      filter := AllFilter;
      selectedAlert := None;
      testAlertSent := false;
      testAlertTimers := 0;
    }

    /** The records rendered in the list. */
    function Displayed(): (r: seq<Alert>)
      reads this
      ensures |r| <= |alerts|
      ensures forall a :: a in r ==> a in alerts
    {
      FilterAlerts(alerts, filter)
    }

    /** The summary panel: computed from the unfiltered list only. */
    function SummaryShown(): (s: Summary)
      reads this
      ensures s.total == |alerts|
      ensures s.critical + s.warning <= s.total
    {
      Summarize(alerts)
    }

    /** The rendered records whose details panel is open: with unique ids
        there is at most one, it is the selected record if that record
        passes the filter, and there is none when nothing is selected. */
    function OpenDetails(): (r: seq<Alert>)
      reads this
      requires UniqueIds(alerts)
      ensures |r| <= 1
      ensures forall a :: a in r <==> a in Displayed() && IsSelected(selectedAlert)(a)
      ensures forall a :: a in Displayed() && IsSelected(selectedAlert)(a) ==> r == [a]
      ensures selectedAlert.None? ==> r == []
    {
      FilterKeepsUniqueIds(alerts, filter);
      AtMostOnePanel(Displayed(), selectedAlert);
      OpenPanels(Displayed(), selectedAlert)
    }

    /** One of the filter buttons: "all", "fire" or "smoke". */
    method SetFilter(f: string)
      modifies this
      ensures filter == f
      ensures selectedAlert == old(selectedAlert)
      ensures testAlertSent == old(testAlertSent) && testAlertTimers == old(testAlertTimers)
      ensures SummaryShown() == old(SummaryShown())
    {
      filter := f;
    }

    /** A click on a rendered alert card. */
    method ClickAlert(id: int)
      modifies this
      ensures selectedAlert == Toggled(old(selectedAlert), id)
      ensures filter == old(filter)
      ensures testAlertSent == old(testAlertSent) && testAlertTimers == old(testAlertTimers)
    {
      selectedAlert := if selectedAlert == Some(id) then None else Some(id);
    }

    /** The Acknowledge button of an open details panel. The button component
        calls its `onClick` without an event, so the handler throws at
        `e.stopPropagation()` before it logs anything; the click is not
        stopped and reaches the card, which toggles the panel shut. */
    method Acknowledge(id: int) returns (result: HandlerResult)
      requires selectedAlert == Some(id)
      modifies this
      ensures result == ThrewTypeError
      ensures selectedAlert == Toggled(old(selectedAlert), id) == None
      ensures filter == old(filter)
      ensures testAlertSent == old(testAlertSent) && testAlertTimers == old(testAlertTimers)
    {
      result := ThrewTypeError;
      ClickAlert(id);
    }

    /** The Escalate button of an open details panel: the same failure as
        Acknowledge, with the same effect on the selection. */
    method Escalate(id: int) returns (result: HandlerResult)
      requires selectedAlert == Some(id)
      modifies this
      ensures result == ThrewTypeError
      ensures selectedAlert == Toggled(old(selectedAlert), id) == None
      ensures filter == old(filter)
      ensures testAlertSent == old(testAlertSent) && testAlertTimers == old(testAlertTimers)
    {
      result := ThrewTypeError;
      ClickAlert(id);
    }

    /** `sendTestAlert`: show the notice and schedule its 5-second timer. */
    method SendTestAlert()
      modifies this
      ensures testAlertSent && testAlertTimers == old(testAlertTimers) + 1
      ensures filter == old(filter) && selectedAlert == old(selectedAlert)
    {
      testAlertSent := true;
      testAlertTimers := testAlertTimers + 1;
    }

    /** One scheduled test-notification timer fires and hides the notice,
        even when a later send scheduled another timer. */
    method TestAlertTimerFires()
      requires testAlertTimers > 0
      modifies this
      ensures !testAlertSent && testAlertTimers == old(testAlertTimers) - 1
      ensures filter == old(filter) && selectedAlert == old(selectedAlert)
    {
      testAlertSent := false;
      testAlertTimers := testAlertTimers - 1;
    }

    /** The close button of the test notice. */
    method CloseTestAlert()
      modifies this
      ensures !testAlertSent && testAlertTimers == old(testAlertTimers)
      ensures filter == old(filter) && selectedAlert == old(selectedAlert)
    {
      testAlertSent := false;
    }
  }
}
