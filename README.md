# Hazard Watch dashboard pages — a Dafny model

Hazard Watch is a monitoring front end for a hazard-detection service. Operators
upload an image for detection, browse detection alerts, and look at a heatmap of
hazard density. Almost all of the repository is presentation. The logic that can
be stated sits in three page components, and this project models exactly that
logic:

- **Alerts page** (`alerts.dfy`, module `Alerts`). The category filter over the
  alert records: `"all"` shows every record, any other value shows the records
  whose `type` equals it. The summary counts (total, critical, warning) over the
  unfiltered list. The single-selection toggle that decides which alert's details
  panel is open. The test-notification flag. The filter is proved to be exactly
  the ordered selection of the matching records (`KeptPositionsCorrect`,
  `KeepUnique`). With unique ids, at most one details panel is open.
- **Heatmap page** (`heatmap.dfy`, module `Heatmap`). The sample-data generator:
  10, 30 or 80 points for the day, week or other range. The first 6, 18 or 48
  points form the major cluster. Width and height fall back separately: a
  missing container, or a zero width, gives width 600, and a missing container,
  or a zero height, gives height 400. The data always declares `min = 0` and `max = 100`,
  and every generated value lies in that range. The page also models the
  heatmap.js instance, which is created at most once, the guarded `setData`
  updates, the date-range buttons with their notice, and the resize listener.
  The resize listener redraws with the range captured at mount (`"week"`), not
  the range selected now. `ResizeAfterDayRange` shows this: after choosing
  "24 hours", a resize draws 30 points.
- **Detection dashboard** (`dashboard.dfy`, module `Dashboard`). The five state
  fields `selectedFile`, `preview`, `isLoading`, `result` and `status`, and one
  method per handler. A file is accepted when its MIME type matches the
  unanchored pattern `image.*`. This is proved to be the same as "contains
  `image` anywhere". Detection completion sets the result to the preview that
  the timer callback captured at the click, not to the current preview
  (`DetectBeforePreview`).

`common.dfy` holds the `Option` type used for the pages' nullable values.

Timers, the file reader and the random source are external. A timer expiry is an
explicit method call (`TestAlertTimerFires`, `StatusTimerFires`,
`DetectionTimerFires`). A finished preview read is `PreviewLoaded(k, dataUrl)`,
where the data URL is a parameter. The three `Math.random()` results of a point
form one parameter `Draw` (each in [0, 1), in call order).

Points where the model states the code's behaviour more precisely than a
quick reading would:
- Clicking the same alert twice restores the earlier selection only when
  nothing or that alert was selected before. If a different alert was selected,
  the two clicks leave nothing selected (`Alerts.ToggleTwice`).
- The Acknowledge and Escalate handlers expect the click event, stop its
  propagation and then log. The button component, however, calls its `onClick`
  with no argument (src/components/AnimatedButton.tsx:7 and :52). So the event
  is undefined: the handler throws a `TypeError` before it logs anything, the
  click is not stopped, and it reaches the card, whose handler closes the open
  details panel. Neither button changes an alert record.
- The code has no alert lifecycle, intensity grid, colour gradient or ranking
  computation: heatmap.js does all rendering, and the ranking panels are
  literals.

## Model

| member | source | states |
|---|---|---|
| `Alerts.Keep` | src/pages/AlertsPage.tsx:74 | `Array.filter` over the records: never longer than the input, and a record is kept exactly when it is in the input and satisfies the test |
| `Alerts.KeptPositionsCorrect` | src/pages/AlertsPage.tsx:74 | the kept records are picked from exactly the positions whose record satisfies the test, in strictly increasing order (a subsequence in the original relative order) |
| `Alerts.KeepUnique` | src/pages/AlertsPage.tsx:74 | any sequence picked from exactly the matching positions in increasing order equals the filter's output, so the output is fully determined |
| `Alerts.FilterAlerts` | src/pages/AlertsPage.tsx:72-74 | with `"all"` the displayed list is the full list unchanged; otherwise it holds exactly the records whose type equals the filter; never longer than the full list |
| `Alerts.FilterIsOrderedSelection` | src/pages/AlertsPage.tsx:74 | with a category filter, the displayed list is the ordered selection of the matching records, and any such selection equals it |
| `Alerts.EmptyNoticeExactly` | src/pages/AlertsPage.tsx:125-129 | the "No alerts found" branch is taken exactly when no record has the selected type (for `"all"`, exactly when the list is empty) |
| `Alerts.CountStatus` | src/pages/AlertsPage.tsx:272 | a status count never exceeds the number of records |
| `Alerts.CriticalPlusWarningBounded` | src/pages/AlertsPage.tsx:272-278 | critical count plus warning count is at most the number of records |
| `Alerts.Summarize` | src/pages/AlertsPage.tsx:266-278 | total is the length of the unfiltered list; critical and warning are the sizes of the status selections; critical + warning <= total |
| `Alerts.FilterByStatus` | src/pages/AlertsPage.tsx:272 | a record is counted exactly when it is in the list and has the given status |
| `Alerts.Toggled` | src/pages/AlertsPage.tsx:145 | after a click the clicked alert is selected exactly when it was not selected before; otherwise nothing is selected |
| `Alerts.ToggleTwice` | src/pages/AlertsPage.tsx:145 | two clicks on the same alert restore the prior selection exactly when it was null or that alert; from another alert they leave null |
| `Alerts.OpenPanels` | src/pages/AlertsPage.tsx:201 | a displayed record's details panel is open exactly when its id equals the selection |
| `Alerts.AtMostOnePanel` | src/pages/AlertsPage.tsx:201 | with unique ids at most one details panel is open, and none when the selection is null |
| `Alerts.FilterKeepsUniqueIds` | src/pages/AlertsPage.tsx:72-74 | filtering keeps ids pairwise distinct, so the one-panel property holds for every filter |
| `Alerts.SampleIds` | src/pages/AlertsPage.tsx:9-55 | the sample feed has five records with distinct ids |
| `Alerts.SampleSummary` | src/pages/AlertsPage.tsx:266-278 | over the sample feed the panel shows total 5, critical 3, warning 2 |
| `Alerts.AlertsPage.constructor` | src/pages/AlertsPage.tsx:58-60 | initial state: filter `"all"`, no selection, test notice hidden |
| `Alerts.AlertsPage.Displayed` | src/pages/AlertsPage.tsx:72-74 | the rendered list is a part of the page's records and never longer |
| `Alerts.AlertsPage.SummaryShown` | src/pages/AlertsPage.tsx:266 | the summary is taken over the unfiltered records: total equals their number, critical + warning <= total |
| `Alerts.AlertsPage.OpenDetails` | src/pages/AlertsPage.tsx:132-201 | with unique ids, at most one rendered card shows its details; a rendered card whose id is selected is the only one; none is open when nothing is selected |
| `Alerts.AlertsPage.SetFilter` | src/pages/AlertsPage.tsx:94-114 | a filter button sets the filter and changes neither the selection nor the summary |
| `Alerts.AlertsPage.ClickAlert` | src/pages/AlertsPage.tsx:145 | a card click replaces the selection by its toggle and changes nothing else |
| `Alerts.AlertsPage.Acknowledge` | src/pages/AlertsPage.tsx:231-234 | the handler throws a `TypeError` (no event is passed) before logging; the click reaches the card, which toggles the open panel shut, so the selection becomes null; filter and test notice unchanged |
| `Alerts.AlertsPage.Escalate` | src/pages/AlertsPage.tsx:241-244 | the same as Acknowledge: a `TypeError` before the log, the selection cleared by the card's toggle, nothing else changed |
| `Alerts.AlertsPage.SendTestAlert` | src/pages/AlertsPage.tsx:67-70 | the test notice shows and one more expiry timer is pending; filter and selection unchanged |
| `Alerts.AlertsPage.TestAlertTimerFires` | src/pages/AlertsPage.tsx:69 | a pending timer's expiry hides the notice, even when a later send is still pending |
| `Alerts.AlertsPage.CloseTestAlert` | src/pages/AlertsPage.tsx:310 | closing hides the notice and leaves the timers pending |
| `Heatmap.EffectiveWidth` | src/pages/HeatmapPage.tsx:18 | the width is positive: the container's width when it exists and is non-zero, else 600 |
| `Heatmap.EffectiveHeight` | src/pages/HeatmapPage.tsx:19 | the height is positive: the container's height when it exists and is non-zero, else 400 |
| `Heatmap.PointCount` | src/pages/HeatmapPage.tsx:22 | 10 points exactly for `"day"`, 30 exactly for `"week"`, 80 for any other range |
| `Heatmap.RangeLabel` | src/pages/HeatmapPage.tsx:158 | the label is one of "24 hours", "7 days", "30 days": the first exactly for `"day"`, the second exactly for `"week"` |
| `Heatmap.LabelAgreesWithCount` | src/pages/HeatmapPage.tsx:158 | the notice says "24 hours", "7 days" or "30 days" exactly when 10, 30 or 80 points are generated |
| `Heatmap.ClusterSplit` | src/pages/HeatmapPage.tsx:29 | point i is in the major cluster exactly when i < 6, 18 or 48, which is three fifths of the point count |
| `Heatmap.PointAt` | src/pages/HeatmapPage.tsx:29-39 | with a draw in [0, 1), a major-cluster point's value lies in [40, 100) and a scattered point's in [10, 40) |
| `Heatmap.HeatmapDataFor` | src/pages/HeatmapPage.tsx:16-48 | the data has exactly `pointCount` points and declares min 0, max 100 |
| `Heatmap.MajorPointBounds` | src/pages/HeatmapPage.tsx:29-33 | a major-cluster point has value in [40, 100) and lies in [0.3w, 0.7w) x [0.2h, 0.5h) |
| `Heatmap.ScatteredPointBounds` | src/pages/HeatmapPage.tsx:34-39 | a scattered point has value in [10, 40) and lies in [0, w) x [0, h) |
| `Heatmap.PointBounds` | src/pages/HeatmapPage.tsx:31-38 | every point has value in [0, 100] and lies in [0, w] x [0, h] |
| `Heatmap.GeneratedDataBounds` | src/pages/HeatmapPage.tsx:25-48 | all generated values lie in the declared [min, max] and all points on the effective surface; the first ClusterSize values are in [40, 100), the rest in [10, 40) |
| `Heatmap.GenerateHeatmapData` | src/pages/HeatmapPage.tsx:16-49 | the loop that pushes the points returns exactly the specified data |
| `Heatmap.HeatmapPage.constructor` | src/pages/HeatmapPage.tsx:83-95 | mount: range `"week"`; the instance exists exactly when the container does; the week data is drawn once; the listener captures `"week"` |
| `Heatmap.HeatmapPage.StatusText` | src/pages/HeatmapPage.tsx:158 | the notice names 24 hours, 7 days or 30 days exactly when the selected range generates 10, 30 or 80 points |
| `Heatmap.HeatmapPage.InitHeatmap` | src/pages/HeatmapPage.tsx:51-68 | the instance is created only when the container exists and none exists yet; a second call creates nothing |
| `Heatmap.HeatmapPage.UpdateHeatmap` | src/pages/HeatmapPage.tsx:70-74 | with an instance, exactly one generated data set is pushed; without one, nothing changes |
| `Heatmap.HeatmapPage.HandleDateRangeChange` | src/pages/HeatmapPage.tsx:76-81 | the range is set, its data pushed if an instance exists, the notice shown with the range's label, and one notice timer is pending |
| `Heatmap.HeatmapPage.StatusTimerFires` | src/pages/HeatmapPage.tsx:80 | a pending notice timer hides the notice |
| `Heatmap.HeatmapPage.CloseStatus` | src/pages/HeatmapPage.tsx:159 | closing hides the notice and changes nothing else |
| `Heatmap.HeatmapPage.Resize` | src/pages/HeatmapPage.tsx:87-91 | a resize redraws only while the listener is registered and an instance exists, always with the captured `"week"` range (30 points), whatever range is selected |
| `Heatmap.HeatmapPage.Unmount` | src/pages/HeatmapPage.tsx:94 | unmounting removes the listener and changes nothing else |
| `Heatmap.ResizeAfterDayRange` | src/pages/HeatmapPage.tsx:83-95 | after choosing "24 hours", a resize draws 30 points while `"day"` stays selected |
| `Dashboard.ContainsImage` | src/pages/DashboardPage.tsx:33 | true exactly when `image` occurs at some position of the string |
| `Dashboard.PatternIsSubstringTest` | src/pages/DashboardPage.tsx:33 | the unanchored pattern `image.*` matches exactly when `image` occurs anywhere |
| `Dashboard.AcceptsFile` | src/pages/DashboardPage.tsx:33 | a file is accepted exactly when its MIME type matches `image.*` |
| `Dashboard.AcceptanceExamples` | src/pages/DashboardPage.tsx:33 | `image/png`, `image/svg+xml` and `application/x-image` are accepted; `IMAGE/PNG`, `text/plain` and the empty type are rejected |
| `Dashboard.DashboardPage.constructor` | src/pages/DashboardPage.tsx:10-24 | initial state: no file, no preview, not loading, no result, hidden info notice with empty texts |
| `Dashboard.DashboardPage.RunDetectionDisabled` | src/pages/DashboardPage.tsx:171 | Run Detection is enabled exactly when a file is chosen and no detection runs; with a file chosen it is disabled only while a detection timer is pending |
| `Dashboard.DashboardPage.HandleFileChange` | src/pages/DashboardPage.tsx:28-55 | no file: nothing changes; a non-image: only the "Invalid File" error notice, with file, preview and result unchanged; an image: selected, result cleared, preview read started, preview itself unchanged |
| `Dashboard.DashboardPage.PreviewLoaded` | src/pages/DashboardPage.tsx:48-52 | a finished read sets the preview, even when that file was removed meanwhile |
| `Dashboard.DashboardPage.HandleRemoveFile` | src/pages/DashboardPage.tsx:57-64 | file, preview and result become null; Run Detection is then disabled |
| `Dashboard.DashboardPage.HandleDetection` | src/pages/DashboardPage.tsx:66-84 | without a file: a warning notice, loading and result unchanged; with one: loading, the "Processing" info notice, a timer capturing the current preview |
| `Dashboard.DashboardPage.DetectionTimerFires` | src/pages/DashboardPage.tsx:86-95 | loading ends, the result is the preview captured at the click, the success notice shows, and Run Detection is enabled again unless no file is chosen |
| `Dashboard.DashboardPage.CloseStatus` | src/pages/DashboardPage.tsx:98-100 | only `show` becomes false; kind, title and message are kept |
| `Dashboard.DetectAfterPreview` | src/pages/DashboardPage.tsx:169-177 | Run Detection is enabled with a file and not loading, disabled while detecting, enabled again after; the result is the loaded preview |
| `Dashboard.DetectBeforePreview` | src/pages/DashboardPage.tsx:86-95 | a detection started before the preview loaded completes with no result, although the preview then shows |
| `Dashboard.RejectKeepsSelection` | src/pages/DashboardPage.tsx:33-41 | rejecting a non-image after an image keeps the image selected and shows the "Invalid File" notice |

## Left out

- heatmap.js (`h337.create`, `setData`): a foreign library. The model keeps the creation options (`Config`) and the list of data sets pushed with `setData`. Radius, blur, opacity and gradient rendering happen inside the library.
- `Math.random` and floating point: each draw is an exact real in [0, 1), so no claim holds for IEEE rounding of coordinates or values. The cluster test `i < pointCount * 0.6` is evaluated exactly. The IEEE products 10 * 0.6, 30 * 0.6 and 80 * 0.6 are exactly 6, 18 and 48, so the split is the same.
- Timers (`setTimeout`): expiry is an explicit method call. The model counts pending timers (a queue of captured previews for detection) and does not model time.
- FileReader: the read is modelled only through its load event, `PreviewLoaded`, whose data URL is a parameter. The `if (event.target)` guard always holds for a load event.
- The MIME test covers only the pattern match on the `type` string. How the browser fills in `type` is not modelled.
- The reset of the hidden file input's value in `handleRemoveFile` is DOM state and is not modelled.
- Date formatting with `toLocaleString`, thumbnails, camera ids and the rest of the JSX markup, framer-motion animation, and the icon-only Filter buttons whose handlers do nothing.
- The "Highest Risk Areas", "Detection Frequency" and "Safety Analysis" panels of the heatmap page and the detection summary of the dashboard: these are literals with nothing computed.
- Alert lifecycle transitions, alert ordering, intensity accumulation and ranking: the code has none of them, so the model has none.
- The window `resize` listener plumbing: only the listener's captured range is modelled (`listenerRange`), set at mount and cleared at unmount.
- `Alerts.AlertsPage.Acknowledge` and `Alerts.AlertsPage.Escalate` require the alert's details panel to be open, since the buttons are rendered only there. They return `ThrewTypeError` for the exception thrown at `e.stopPropagation()`; the console is never written. How the browser reports the uncaught error is not modelled.
- Presentational components (navigation bar, status banner, spinner, home and not-found pages) and the animated button's ripple: no logic beyond styling and routing. Of the animated button, only the fact that it calls `onClick` with no argument is modelled, in Acknowledge and Escalate.
