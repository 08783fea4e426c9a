# Roadmap checklist — a Dafny model

The Roadmap page shows a curriculum of weeks. Each week holds days, and each
day has a checkbox. The page tracks four pieces of state:

- which single week is expanded;
- the nested week → day → bool map of checkbox flags;
- a per-week "celebration" flag that shows a congratulation banner;
- a global "Expand All" override.

The page also derives three things from that state: a completion badge per
week, which weeks render expanded, and a progress bar (completed days over
total days, times 100).

This project models that state machine as immutable values and pure
transitions, and proves what the component promises about it.

- `wrappers.dfy` (`Wrappers`): `Option`.
- `curriculum.dfy` (`Curriculum`): the read-only curriculum, passed in as a parameter of type `map<Week, set<Day>>`; the checklist, whose missing entries read as unchecked; and the two day counts.
- `roadmap_view.dfy` (`RoadmapView`): the state record, the three handlers `toggleWeek`, `toggleAllWeeks` and `handleCheck`, the derived expansion, badge and banner, and `calculateProgress`, both as a function and as the source's loop over the weeks.
- `roadmap_properties.dfy` (`RoadmapProperties`): double-toggle laws and the per-click change in the counts. It also holds an event replay over the controls the page renders, an invariant every reachable state keeps, and the two-day example scenario.

Modelling choices:

- **Progress with no days.** `calculateProgress` divides with no guard, so when the curriculum has no day it computes 0/0, which is NaN. The model follows the code. `Progress` returns `None` in that case, instead of falling back to 0.
- **What the completed count includes.** `completedDays` counts every true flag stored under a curriculum week, whether or not that day belongs to the curriculum. The model counts the same way. The bound `completed <= total` is therefore proved only under the invariant that stored days are curriculum days, and every reachable state keeps that invariant.
- **`handleCheck` precondition.** `handleCheck` requires its week to be in the curriculum, because it reads `Object.keys(roadmap[week])`. Its callers only pass rendered weeks.
- **The handler is atomic.** `handleCheck` calls two setters, `setChecked` and `setShowPopper`. Both are computed from the same updated map, so they are modelled as one transition.

## Model

| member | source | states |
|---|---|---|
| RoadmapView.Init | src/components/Roadmap.tsx:15-18 | On mount, no week is expanded, "Expand All" is off, no day reads as checked and there is no celebration flag |
| RoadmapView.ToggleWeek | src/components/Roadmap.tsx:20-22 | The expanded week becomes `w` exactly when `w` was not the expanded week, and otherwise becomes none. With "Expand All" off, `w`'s visibility flips and every other week is collapsed. The checklist, flags and override are unchanged |
| RoadmapView.ToggleAllWeeks | src/components/Roadmap.tsx:24-26 | The override flips and no other state changes. When it is on, every week renders expanded |
| RoadmapView.HandleCheck | src/components/Roadmap.tsx:28-43 | Exactly one truth value flips: that of (w, d), with a missing entry counted as false. Stored keys grow only by the toggled entry. The celebration flag of `w` is set exactly when every other day of `w` was already checked and this click checks `d` (or `d` is not one of `w`'s days). This equals "all days of `w` checked" in the updated map. Flags of other weeks and the expansion state are unchanged |
| RoadmapView.IsExpanded | src/components/Roadmap.tsx:98 | The precedence rule: with "Expand All" on, every week renders expanded. With it off, a week renders expanded exactly when it is the stored expanded week |
| RoadmapView.ExpandedWeeks | src/components/Roadmap.tsx:107 | With "Expand All" on, the expanded weeks are exactly the curriculum weeks. With it off, they are exactly the stored expanded week when that is a curriculum week, and none otherwise, so at most one week is expanded |
| RoadmapView.BadgeShown | src/components/Roadmap.tsx:85-97 | The header badge shows exactly when all of the week's days are among its true stored flags. A week with no days always shows it |
| RoadmapView.BannerShown | src/components/Roadmap.tsx:107-134 | The banner is drawn exactly when the week is expanded and its celebration flag is present and true. A collapsed week, or a week without a flag, never shows it |
| Curriculum.WeekCompleted | src/components/Roadmap.tsx:85 | A week is completed exactly when its days are a subset of the days whose stored flag is true; missing entries count as unchecked |
| Curriculum.TotalDays | src/components/Roadmap.tsx:46-50 | `totalDays` is 0 exactly when every week of the curriculum has no day |
| Curriculum.CompletedDays | src/components/Roadmap.tsx:47-51 | `completedDays` is 0 exactly when no day of a curriculum week reads as checked |
| Curriculum.WeekAtMostTotal | src/components/Roadmap.tsx:49-51 | One week's day count is at most `totalDays`, and its number of true stored flags is at most `completedDays` |
| RoadmapView.Progress | src/components/Roadmap.tsx:45-55 | Undefined (`None`) exactly when the curriculum has no day. When every stored day is a curriculum day, the value lies in [0, 100] and is 100 exactly when every week is completed. It is 0 exactly when no day is counted |
| RoadmapView.RatioFacts | src/components/Roadmap.tsx:54 | `(completed / total) * 100` lies in [0, 100] for `completed <= total`. It is 100 exactly when `completed == total` and 0 exactly when `completed == 0` |
| RoadmapView.CalculateProgress | src/components/Roadmap.tsx:45-54 | The source's single pass over the weeks computes exactly the result of `Progress`: the per-week sums of day counts and of true flags equal the whole-curriculum counts |
| Curriculum.TagCard | src/components/Roadmap.tsx:50-51 | Pairing a week's days with the week label keeps their number, so a week contributes `Object.keys(days).length` pairs |
| Curriculum.DayPairsAddWeek | src/components/Roadmap.tsx:50 | Processing one more week adds that week's day count to the total |
| Curriculum.CheckedPairsAddWeek | src/components/Roadmap.tsx:51 | Processing one more week adds that week's number of true stored flags to the completed count |
| Curriculum.CompletedAtMostTotal | src/components/Roadmap.tsx:45-52 | When every stored day is a curriculum day, the completed days are among the curriculum's days, so `completedDays <= totalDays` |
| Curriculum.CompletedEqualsTotal | src/components/Roadmap.tsx:49-52 | When every stored day is a curriculum day, `completedDays == totalDays` exactly when every week satisfies the badge condition |
| RoadmapProperties.ToggleWeekTwice | src/components/Roadmap.tsx:20-22 | Two clicks on the same header restore the state exactly when that week, or no week, was expanded |
| RoadmapProperties.ToggleOtherWeek | src/components/Roadmap.tsx:20-22 | After a click on one header and then on a different one, the second week is the one expanded |
| RoadmapProperties.ToggleAllWeeksTwice | src/components/Roadmap.tsx:24-26 | Pressing "Expand All" twice is the identity |
| RoadmapProperties.HandleCheckTwice | src/components/Roadmap.tsx:29-35 | Two clicks on the same checkbox restore every truth value of the checklist |
| RoadmapProperties.HandleCheckCounts | src/components/Roadmap.tsx:28-52 | Checking an unchecked day of a curriculum week raises `completedDays` by exactly 1, and unchecking lowers it by exactly 1. `totalDays` does not depend on the checklist |
| RoadmapProperties.ProgressMonotone | src/components/Roadmap.tsx:45-54 | If every day checked in one checklist is also checked in another, the first checklist's progress is at most the second's |
| RoadmapProperties.RatioMonotone | src/components/Roadmap.tsx:54 | The percentage does not decrease as the completed count grows |
| RoadmapProperties.Step | src/components/Roadmap.tsx:107-122 | A click on a rendered header, on the "Expand All" button, or on the checkbox of a day of an expanded week keeps the invariant. The invariant says: a stored checklist exists exactly where a celebration flag does, stored days are curriculum days, and each flag equals its week's badge condition |
| RoadmapProperties.CheckKeepsInv | src/components/Roadmap.tsx:28-43 | A click on a curriculum day keeps that invariant |
| RoadmapProperties.Enabled | src/components/Roadmap.tsx:84-122 | A header click is possible exactly for a curriculum week, and the "Expand All" button is always there. A checkbox click is possible exactly for a day of the week's own day list, in a week among the expanded weeks, because checkboxes are drawn only in expanded content, one per day of that week |
| RoadmapProperties.CompletedWeeksFlagged | src/components/Roadmap.tsx:40-42 | When every stored checklist has a celebration flag equal to its week's badge, each completed week with at least one day has its flag set |
| RoadmapProperties.Inv | src/components/Roadmap.tsx:40-42 | A state satisfying the invariant has `completedDays <= totalDays`. Every completed week that has at least one day has its celebration flag set |
| RoadmapProperties.ExpansionExclusive | src/components/Roadmap.tsx:98 | With "Expand All" off, two weeks that both render expanded are the same week |
| RoadmapProperties.Replay | src/components/Roadmap.tsx:84-122 | A sequence of clicks on rendered controls keeps the invariant. When the replay succeeds, its first click targets a control that was rendered in the starting state |
| RoadmapProperties.InitInv | src/components/Roadmap.tsx:15-18 | The mounted state satisfies the invariant |
| RoadmapProperties.ReachableFacts | src/components/Roadmap.tsx:85-134 | In every state reached by clicks: each stored celebration flag equals the week's badge, and a completed week with at least one day has its flag set. For such a week that is expanded, the banner shows exactly when the badge does. `completedDays <= totalDays`, and progress lies in [0, 100] when there is a day |
| RoadmapProperties.TwoDayScenario | src/components/Roadmap.tsx:28-54 | In a week with days Mon and Tue: with the week expanded, checking Mon gives 50 with the celebration flag off and no banner. Checking Tue gives 100 with the flag set and the banner shown. Unchecking Mon gives 50 with the flag off and no banner |

## Left out

- Rendering: the JSX markup, framer-motion animations, the Radix popover, icons and CSS classes are presentation only. The width string built from the percentage is left out too.
- The curriculum JSON file is not part of this model. The curriculum is a parameter, and only the day labels of each week are kept, because the topic text is never inspected.
- Object key order (`Object.entries`, `Object.keys`) only affects render order. The counts and the "every day checked" condition do not depend on it, so weeks and days are sets.
- React's state scheduling and batching. Each handler is one sequential transition.
- The progress percentage is a JavaScript float in the source. The model uses exact `real` arithmetic, so rounding is not modelled.
- JavaScript prototype keys. A day or week named like an `Object.prototype` member (`constructor`, `toString`) would read as truthy through `checked[week]?.[day]`. The model treats every label as an ordinary key.
- The `TypeError` that `handleCheck` throws for a week outside the curriculum is not modelled. `HandleCheck` requires the week instead, because the page only calls it for weeks it renders.
- The navigation bar, hero banner, router and application bootstrap hold no logic.
