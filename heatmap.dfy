/** The heatmap page: the sample-data generator (point count per date range,
    the major-cluster prefix, the container-size fallback and the declared
    value bounds), the life cycle of the single heatmap.js instance, the
    date-range buttons with their status notice, and the resize handler. */
module Heatmap {
  import opened Maybe

  /** The rendered size of the heatmap container, in whole pixels. */
  datatype Size = Size(clientWidth: nat, clientHeight: nat)

  /** One generated observation. */
  datatype Point = Point(x: real, y: real, value: real)

  /** The object handed to `setData`: the declared value range and the points. */
  datatype HeatmapData = HeatmapData(max: int, min: int, data: seq<Point>)

  /** The three `Math.random()` results one point consumes, in call order. */
  datatype Draw = Draw(rx: real, ry: real, rv: real)

  /** Every draw lies in [0, 1), as `Math.random()` promises. */
  predicate UnitDraws(draws: seq<Draw>)
  {
    forall k :: 0 <= k < |draws| ==>
      0.0 <= draws[k].rx < 1.0 && 0.0 <= draws[k].ry < 1.0 && 0.0 <= draws[k].rv < 1.0
  }

  /** The options given to `h337.create`; what heatmap.js does with them is
      not part of this model. */
  datatype HeatmapConfig = HeatmapConfig(
    radius: nat,
    maxOpacity: real,
    minOpacity: real,
    blur: real,
    gradient: seq<(real, string)>
  )

  const Config: HeatmapConfig := HeatmapConfig(25, 0.8, 0.3, 0.9, [
    (0.0, "rgb(0,0,255)"),
    (0.25, "rgb(0,255,255)"),
    (0.5, "rgb(0,255,0)"),
    (0.75, "rgb(255,255,0)"),
    (1.0, "rgb(255,0,0)")
  ])

  const DefaultWidth: nat := 600
  const DefaultHeight: nat := 400
  /** The range selected when the page first renders. */
  const InitialRange: string := "week"

  // ---------------------------------------------------------------------------
  // Generation parameters

  /** `clientWidth || 600`: a missing container or a zero width falls back. */
  function EffectiveWidth(container: Option<Size>): (w: nat)
    ensures w > 0
    ensures w == DefaultWidth <==> container.None? || container.value.clientWidth in {0, DefaultWidth}
    ensures container.Some? && container.value.clientWidth != 0 ==> w == container.value.clientWidth
  {
    if container.Some? && container.value.clientWidth != 0 then container.value.clientWidth else DefaultWidth
  }

  /** `clientHeight || 400`: a missing container or a zero height falls back. */
  function EffectiveHeight(container: Option<Size>): (h: nat)
    ensures h > 0
    ensures h == DefaultHeight <==> container.None? || container.value.clientHeight in {0, DefaultHeight}
    ensures container.Some? && container.value.clientHeight != 0 ==> h == container.value.clientHeight
  {
    if container.Some? && container.value.clientHeight != 0 then container.value.clientHeight else DefaultHeight
  }

  /** The number of points generated for a date range. */
  function PointCount(range: string): (n: nat)
    ensures n in {10, 30, 80}
    ensures n == 10 <==> range == "day"
    ensures n == 30 <==> range == "week"
  {
    if range == "day" then 10 else if range == "week" then 30 else 80
  }

  /** The period named in the "Heatmap Updated" notice. */
  function RangeLabel(range: string): (name: string)
    ensures name in {"24 hours", "7 days", "30 days"}
    ensures name == "24 hours" <==> range == "day"
    ensures name == "7 days" <==> range == "week"
  {
    if range == "day" then "24 hours" else if range == "week" then "7 days" else "30 days"
  }

  /** The notice names the same period the generator sizes its data for. */
  lemma LabelAgreesWithCount(range: string)
    ensures RangeLabel(range) == "24 hours" <==> PointCount(range) == 10
    ensures RangeLabel(range) == "7 days" <==> PointCount(range) == 30
    ensures RangeLabel(range) == "30 days" <==> PointCount(range) == 80
  {
  }

  /** Point `i` of `n` belongs to the major cluster when `i < n * 0.6`. */
  predicate InMajorCluster(i: nat, n: nat)
  {
    (i as real) < (n as real) * 0.6
  }

  /** The size of the major cluster for a date range. */
  function ClusterSize(range: string): nat
  {
    if range == "day" then 6 else if range == "week" then 18 else 48
  }

  /** The major cluster is the prefix of 6, 18 or 48 points, three fifths of
      the point count; every later point is scattered. */
  lemma ClusterSplit(range: string, i: nat)
    ensures 5 * ClusterSize(range) == 3 * PointCount(range)
    ensures InMajorCluster(i, PointCount(range)) <==> i < ClusterSize(range)
  {
  }

  // ---------------------------------------------------------------------------
  // Point generation

  /** Point `i` of `n` on a `w` by `h` surface, from its three draws. */
  function PointAt(i: nat, n: nat, w: real, h: real, d: Draw): (p: Point)
    ensures 0.0 <= d.rv < 1.0 && InMajorCluster(i, n) ==> 40.0 <= p.value < 100.0
    ensures 0.0 <= d.rv < 1.0 && !InMajorCluster(i, n) ==> 10.0 <= p.value < 40.0
  {
    if InMajorCluster(i, n) then
      Point(w * (0.3 + 0.4 * d.rx), h * (0.2 + 0.3 * d.ry), 40.0 + d.rv * 60.0)
    else
      Point(w * d.rx, h * d.ry, 10.0 + d.rv * 30.0)
  }

  /** The data `generateHeatmapData(range)` returns for the given container
      and random draws. */
  function HeatmapDataFor(range: string, container: Option<Size>, draws: seq<Draw>): (d: HeatmapData)
    requires |draws| >= PointCount(range)
    ensures |d.data| == PointCount(range)
    ensures d.min == 0 && d.max == 100
  {
    var n := PointCount(range);
    var w := EffectiveWidth(container) as real;
    var h := EffectiveHeight(container) as real;
    HeatmapData(100, 0, seq(n, i requires 0 <= i < n => PointAt(i, n, w, h, draws[i])))
  }

  /** `w * r` lies in [0, w) for a draw `r` in [0, 1) and a positive `w`. */
  lemma ScaleBounds(w: real, r: real)
    requires w > 0.0 && 0.0 <= r < 1.0
    ensures 0.0 <= w * r < w
  {
    assert w * r < w * 1.0;
  }

  /** `w * (lo + span * r)` lies in [lo * w, (lo + span) * w) for a draw `r`. */
  lemma OffsetScaleBounds(w: real, lo: real, span: real, r: real)
    requires w > 0.0 && 0.0 <= r < 1.0 && 0.0 <= lo && 0.0 < span
    ensures lo * w <= w * (lo + span * r) < (lo + span) * w
  {
    ScaleBounds(w, r);
    var a := w * r;
    assert w * (lo + span * r) == lo * w + span * a;
    assert span * a < span * w;
  }

  /** A major-cluster point: value in [40, 100), position in the box
      [0.3w, 0.7w) x [0.2h, 0.5h). */
  lemma MajorPointBounds(i: nat, n: nat, w: real, h: real, d: Draw)
    requires w > 0.0 && h > 0.0
    requires 0.0 <= d.rx < 1.0 && 0.0 <= d.ry < 1.0 && 0.0 <= d.rv < 1.0
    requires InMajorCluster(i, n)
    ensures var p := PointAt(i, n, w, h, d);
      40.0 <= p.value < 100.0 && 0.3 * w <= p.x < 0.7 * w && 0.2 * h <= p.y < 0.5 * h
  {
    OffsetScaleBounds(w, 0.3, 0.4, d.rx);
    OffsetScaleBounds(h, 0.2, 0.3, d.ry);
  }

  /** A scattered point: value in [10, 40), position anywhere on the surface. */
  lemma ScatteredPointBounds(i: nat, n: nat, w: real, h: real, d: Draw)
    requires w > 0.0 && h > 0.0
    requires 0.0 <= d.rx < 1.0 && 0.0 <= d.ry < 1.0 && 0.0 <= d.rv < 1.0
    requires !InMajorCluster(i, n)
    ensures var p := PointAt(i, n, w, h, d);
      10.0 <= p.value < 40.0 && 0.0 <= p.x < w && 0.0 <= p.y < h
  {
    var p := PointAt(i, n, w, h, d);
    assert p.x == w * d.rx && p.y == h * d.ry;
    ScaleBounds(w, d.rx);
    ScaleBounds(h, d.ry);
  }

  /** Every generated point lies in the declared value range [0, 100] and on
      the w x h surface. */
  lemma PointBounds(i: nat, n: nat, w: real, h: real, d: Draw)
    requires w > 0.0 && h > 0.0
    requires 0.0 <= d.rx < 1.0 && 0.0 <= d.ry < 1.0 && 0.0 <= d.rv < 1.0
    ensures var p := PointAt(i, n, w, h, d);
      0.0 <= p.value <= 100.0 && 0.0 <= p.x <= w && 0.0 <= p.y <= h
  {
    if InMajorCluster(i, n) {
      MajorPointBounds(i, n, w, h, d);
    } else {
      ScatteredPointBounds(i, n, w, h, d);
    }
  }

  /** Every point lies within the declared value range and the surface. */
  ghost predicate WithinBounds(d: HeatmapData, w: real, h: real)
  {
    forall k :: 0 <= k < |d.data| ==>
      && d.min as real <= d.data[k].value <= d.max as real
      && 0.0 <= d.data[k].x <= w && 0.0 <= d.data[k].y <= h
  }

  /** The generated data: `pointCount` points, the first `ClusterSize` of
      them in the major cluster with values in [40, 100), the rest with values
      in [10, 40), all within the declared bounds and the effective surface. */
  lemma {:induction false} GeneratedDataBounds(range: string, container: Option<Size>, draws: seq<Draw>)
    requires |draws| >= PointCount(range) && UnitDraws(draws)
    ensures var d := HeatmapDataFor(range, container, draws);
      && WithinBounds(d, EffectiveWidth(container) as real, EffectiveHeight(container) as real)
      && (forall k :: 0 <= k < ClusterSize(range) ==> 40.0 <= d.data[k].value < 100.0)
      && (forall k :: ClusterSize(range) <= k < |d.data| ==> 10.0 <= d.data[k].value < 40.0)
  {
    var d := HeatmapDataFor(range, container, draws);
    var n := PointCount(range);
    var w := EffectiveWidth(container) as real;
    var h := EffectiveHeight(container) as real;
    forall k | 0 <= k < n
      ensures 0.0 <= d.data[k].value <= 100.0 && 0.0 <= d.data[k].x <= w && 0.0 <= d.data[k].y <= h
      ensures k < ClusterSize(range) ==> 40.0 <= d.data[k].value < 100.0
      ensures k >= ClusterSize(range) ==> 10.0 <= d.data[k].value < 40.0
    {
      assert d.data[k] == PointAt(k, n, w, h, draws[k]);
      PointBounds(k, n, w, h, draws[k]);
      ClusterSplit(range, k);
      if k < ClusterSize(range) {
        MajorPointBounds(k, n, w, h, draws[k]);
      } else {
        ScatteredPointBounds(k, n, w, h, draws[k]);
      }
    }
  }

  /** `generateHeatmapData`: build the points one by one with a loop. */
  method GenerateHeatmapData(range: string, container: Option<Size>, draws: seq<Draw>) returns (d: HeatmapData)
    requires |draws| >= PointCount(range)
    ensures d == HeatmapDataFor(range, container, draws)
  {
    var points: seq<Point> := [];
    var width := EffectiveWidth(container) as real;
    var height := EffectiveHeight(container) as real;
    var pointCount := PointCount(range);
    for i := 0 to pointCount
      invariant |points| == i
      invariant forall k :: 0 <= k < i ==> points[k] == PointAt(k, pointCount, width, height, draws[k])
    {
      var x, y, value;
      var r := draws[i];
      if (i as real) < (pointCount as real) * 0.6 {
        x := width * (0.3 + 0.4 * r.rx);
        y := height * (0.2 + 0.3 * r.ry);
        value := 40.0 + r.rv * 60.0;
      } else {
        x := width * r.rx;
        y := height * r.ry;
        value := 10.0 + r.rv * 30.0;
      }
      points := points + [Point(x, y, value)];
    }
    d := HeatmapData(100, 0, points);
  }

  /** Data heatmap.js may be handed: the declared range is [0, 100], there are
      10, 30 or 80 points, and every value lies in the declared range. */
  ghost predicate Renderable(d: HeatmapData)
  {
    && d.min == 0 && d.max == 100
    && |d.data| in {10, 30, 80}
    && forall k :: 0 <= k < |d.data| ==> 0.0 <= d.data[k].value <= 100.0
  }

  // ---------------------------------------------------------------------------
  // The page state

  class HeatmapPage {
    var dateRange: string
    var showStatus: bool
    /** Status-notice timers scheduled and not yet fired. */
    var statusTimers: nat
    /** `heatmapRef.current`: the container, once rendered, with its size. */
    var container: Option<Size>
    /** `heatmapInstance.current`: the heatmap.js instance, by its options. */
    var instance: Option<HeatmapConfig>
    /** Every data set handed to the instance's `setData`, oldest first. */
    var rendered: seq<HeatmapData>
    /** The registered resize listener, by the range its closure captured. */
    var listenerRange: Option<string>
    /** How many instances `h337.create` has made. */
    ghost var creations: nat

    ghost predicate Valid()
      reads this
    {
      && creations <= 1
      && (instance.Some? <==> creations == 1)
      && (instance.Some? ==> instance.value == Config)
      && (rendered != [] ==> instance.Some?)
      && (forall k :: 0 <= k < |rendered| ==> Renderable(rendered[k]))
      && (listenerRange.Some? ==> listenerRange.value == InitialRange)
    }

    /** The "Heatmap Updated" notice text for the current range. */
    function StatusText(): (text: string)
      reads this
      ensures text == "Showing hazard data for the last 24 hours." <==> PointCount(dateRange) == 10
      ensures text == "Showing hazard data for the last 7 days." <==> PointCount(dateRange) == 30
      ensures text == "Showing hazard data for the last 30 days." <==> PointCount(dateRange) == 80
    {
      "Showing hazard data for the last " + RangeLabel(dateRange) + "."
    }

    /** First render followed by the mount effect: create the instance, draw
        the initial range, and register the resize listener, whose closure
        captures the range of this first render. */
    constructor (container: Option<Size>, draws: seq<Draw>)
      requires |draws| >= PointCount(InitialRange) && UnitDraws(draws)
      ensures Valid()
      ensures dateRange == InitialRange && !showStatus && statusTimers == 0
      ensures this.container == container
      ensures instance == (if container.Some? then Some(Config) else None)
      ensures rendered == (if container.Some? then [HeatmapDataFor(InitialRange, container, draws)] else [])
      ensures listenerRange == Some(InitialRange)
    {
      dateRange := InitialRange;
      showStatus := false;
      statusTimers := 0;
      this.container := container;
      instance := None;
      rendered := [];
      listenerRange := None;
      creations := 0;
      new;
      InitHeatmap();
      UpdateHeatmap(dateRange, draws);
      listenerRange := Some(dateRange);
    }

    /** `initHeatmap`: create the instance only when the container exists and
        no instance exists yet; otherwise nothing happens. */
    method InitHeatmap()
      requires Valid()
      modifies this
      ensures Valid()
      ensures instance == (if old(container).Some? then Some(Config) else old(instance))
      ensures old(instance).Some? ==> creations == old(creations)
      ensures container == old(container) && rendered == old(rendered)
      ensures dateRange == old(dateRange) && showStatus == old(showStatus) && statusTimers == old(statusTimers)
      ensures listenerRange == old(listenerRange)
    {
      if container.Some? && instance.None? {
        instance := Some(Config);
        creations := creations + 1;
      }
    }

    /** `updateHeatmap`: hand freshly generated data to the instance, or do
        nothing when there is none. */
    method UpdateHeatmap(range: string, draws: seq<Draw>)
      requires Valid()
      requires |draws| >= PointCount(range) && UnitDraws(draws)
      modifies this
      ensures Valid()
      ensures rendered == if instance.Some? then old(rendered) + [HeatmapDataFor(range, container, draws)]
                          else old(rendered)
      ensures instance == old(instance) && creations == old(creations) && container == old(container)
      ensures dateRange == old(dateRange) && showStatus == old(showStatus) && statusTimers == old(statusTimers)
      ensures listenerRange == old(listenerRange)
    {
      if instance.Some? {
        var data := GenerateHeatmapData(range, container, draws);
        GeneratedDataBounds(range, container, draws);
        rendered := rendered + [data];
      }
    }

    /** A date-range button: select the range, redraw, show the notice and
        schedule its 3-second timer. */
    method HandleDateRangeChange(range: string, draws: seq<Draw>)
      requires Valid()
      requires |draws| >= PointCount(range) && UnitDraws(draws)
      modifies this
      ensures Valid()
      ensures dateRange == range && showStatus && statusTimers == old(statusTimers) + 1
      ensures StatusText() == "Showing hazard data for the last " + RangeLabel(range) + "."
      ensures rendered == if instance.Some? then old(rendered) + [HeatmapDataFor(range, container, draws)]
                          else old(rendered)
      ensures instance == old(instance) && container == old(container) && listenerRange == old(listenerRange)
    {
      dateRange := range;
      UpdateHeatmap(range, draws);
      showStatus := true;
      statusTimers := statusTimers + 1;
    }

    /** One scheduled notice timer fires and hides the notice, even when a
        later range change scheduled another one. */
    method StatusTimerFires()
      requires Valid() && statusTimers > 0
      modifies this
      ensures Valid()
      ensures !showStatus && statusTimers == old(statusTimers) - 1
      ensures dateRange == old(dateRange) && rendered == old(rendered) && instance == old(instance)
      ensures container == old(container) && listenerRange == old(listenerRange)
    {
      showStatus := false;
      statusTimers := statusTimers - 1;
    }

    /** The close button of the notice. */
    method CloseStatus()
      requires Valid()
      modifies this
      ensures Valid()
      ensures !showStatus && statusTimers == old(statusTimers)
      ensures dateRange == old(dateRange) && rendered == old(rendered) && instance == old(instance)
      ensures container == old(container) && listenerRange == old(listenerRange)
    {
      showStatus := false;
    }

    /** A window resize: the container takes its new size, and the listener,
        if still registered, redraws with the range it captured at mount —
        not the range selected now. */
    method Resize(newSize: Size, draws: seq<Draw>)
      requires Valid()
      requires |draws| >= PointCount(InitialRange) && UnitDraws(draws)
      modifies this
      ensures Valid()
      ensures container == (if old(container).Some? then Some(newSize) else None)
      ensures rendered == if old(listenerRange).Some? && instance.Some?
                          then old(rendered) + [HeatmapDataFor(InitialRange, container, draws)]
                          else old(rendered)
      ensures old(listenerRange).Some? && instance.Some? ==> |rendered[|rendered| - 1].data| == 30
      ensures dateRange == old(dateRange) && showStatus == old(showStatus) && statusTimers == old(statusTimers)
      ensures instance == old(instance) && listenerRange == old(listenerRange)
    {
      if container.Some? {
        container := Some(newSize);
      }
      if listenerRange.Some? {
        var captured := listenerRange.value;
        if instance.Some? {
          UpdateHeatmap(captured, draws);
        }
      }
    }

    /** Unmount: the resize listener is removed. */
    method Unmount()
      requires Valid()
      modifies this
      ensures Valid()
      ensures listenerRange == None
      ensures dateRange == old(dateRange) && showStatus == old(showStatus) && statusTimers == old(statusTimers)
      ensures rendered == old(rendered) && instance == old(instance) && container == old(container)
    {
      listenerRange := None;
    }
  }

  /** After the user picks "24 hours", a window resize redraws the 30 points
      of the week range while the page still shows the day range selected. */
  method ResizeAfterDayRange(size: Size, draws: seq<Draw>) returns (selected: string, drawnPoints: nat)
    requires |draws| >= PointCount(InitialRange) && UnitDraws(draws)
    ensures selected == "day" && drawnPoints == 30
  {
    var page := new HeatmapPage(Some(size), draws);
    page.HandleDateRangeChange("day", draws);
    page.Resize(size, draws);
    selected := page.dateRange;
    drawnPoints := |page.rendered[|page.rendered| - 1].data|;
  }
}
