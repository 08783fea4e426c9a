/**
 Properties of the Roadmap view that relate several transitions: toggles
 undone by a second toggle, the day counts moving by one per click, and the
 invariant every state reached by user clicks keeps, which ties the
 celebration banner to the completion badge and bounds the progress.
 */
module RoadmapProperties {
  import opened Wrappers
  import opened Curriculum
  import opened RoadmapView

  /** Clicking the same week header twice restores the state exactly when
      that week was expanded or no week was. */
  lemma ToggleWeekTwice(s: State, w: Week)
    ensures ToggleWeek(ToggleWeek(s, w), w) == s <==> s.expandedWeek in {None, Some(w)}
  {
  }

  /** Clicking another week's header collapses the first one: the last
      clicked week is the only one expanded. */
  lemma ToggleOtherWeek(s: State, w: Week, v: Week)
    requires v != w
    ensures ToggleWeek(ToggleWeek(s, w), v).expandedWeek == Some(v)
  {
  }

  /** "Expand All" pressed twice is the identity. */
  lemma ToggleAllWeeksTwice(s: State)
    ensures ToggleAllWeeks(ToggleAllWeeks(s)) == s
  {
  }

  /** Checking the same day twice restores every truth value of the checklist. */
  lemma HandleCheckTwice(roadmap: Roadmap, s: State, w: Week, d: Day)
    requires w in roadmap
    ensures var t := HandleCheck(roadmap, HandleCheck(roadmap, s, w, d), w, d);
            forall v, e :: IsChecked(t.checked, v, e) <==> IsChecked(s.checked, v, e)
  {
  }

  /** A click on day `d` of week `w` changes the completed count by exactly
      one, up when the day was unchecked and down when it was checked, and
      leaves the total unchanged. */
  lemma {:induction false} HandleCheckCounts(roadmap: Roadmap, s: State, w: Week, d: Day)
    requires w in roadmap
    ensures var r := HandleCheck(roadmap, s, w, d);
            && (!IsChecked(s.checked, w, d) ==> CompletedDays(roadmap, r.checked) == CompletedDays(roadmap, s.checked) + 1)
            && (IsChecked(s.checked, w, d) ==> CompletedDays(roadmap, r.checked) + 1 == CompletedDays(roadmap, s.checked))
  {
    var r := HandleCheck(roadmap, s, w, d);
    var before := CheckedPairs(roadmap, s.checked, roadmap.Keys);
    var after := CheckedPairs(roadmap, r.checked, roadmap.Keys);
    if IsChecked(s.checked, w, d) {
      assert before == after + {(w, d)};
      assert (w, d) !in after;
    } else {
      assert after == before + {(w, d)};
      assert (w, d) !in before;
    }
  }

  /** More checked days never lower the progress. */
  lemma {:induction false} ProgressMonotone(roadmap: Roadmap, c1: Checklist, c2: Checklist)
    requires forall w, d :: IsChecked(c1, w, d) ==> IsChecked(c2, w, d)
    requires TotalDays(roadmap) > 0
    ensures Progress(roadmap, c1).value <= Progress(roadmap, c2).value
  {
    var p1 := CheckedPairs(roadmap, c1, roadmap.Keys);
    var p2 := CheckedPairs(roadmap, c2, roadmap.Keys);
    assert p1 <= p2;
    assert p2 == p1 + (p2 - p1);
    assert |p1| <= |p2|;
    RatioMonotone(|p1|, |p2|, TotalDays(roadmap));
  }

  /** The percentage grows with the numerator. */
  lemma RatioMonotone(a: nat, b: nat, total: nat)
    requires a <= b && total > 0
    ensures (a as real / total as real) * 100.0 <= (b as real / total as real) * 100.0
  {
  }

  /** What the rendered page holds of every state reached from mounting:
      a week has a stored checklist exactly when it has a celebration flag,
      only curriculum days are ever stored, and each celebration flag is the
      week's badge condition. */
  predicate Inv(roadmap: Roadmap, s: State)
    ensures Inv(roadmap, s) ==> CompletedDays(roadmap, s.checked) <= TotalDays(roadmap)
    ensures Inv(roadmap, s) ==> forall w | w in roadmap && roadmap[w] != {} ::
              WeekCompleted(roadmap, s.checked, w) ==> w in s.showPopper && s.showPopper[w]
  {
    var inv :=
      && s.checked.Keys == s.showPopper.Keys
      && s.showPopper.Keys <= roadmap.Keys
      && DaysWithin(roadmap, s.checked)
      && forall w | w in s.showPopper :: w in roadmap && s.showPopper[w] == WeekCompleted(roadmap, s.checked, w);
    assert inv ==> && CompletedDays(roadmap, s.checked) <= TotalDays(roadmap)
                   && forall w | w in roadmap && roadmap[w] != {} ::
                        WeekCompleted(roadmap, s.checked, w) ==> w in s.showPopper && s.showPopper[w] by {
      if inv {
        CompletedAtMostTotal(roadmap, s.checked);
        CompletedWeeksFlagged(roadmap, s);
      }
    }
    inv
  }

  /** When every week with a stored checklist has a celebration flag equal to
      its badge, a completed week with at least one day has its flag set:
      checking that day stored the week. */
  lemma CompletedWeeksFlagged(roadmap: Roadmap, s: State)
    requires s.checked.Keys <= s.showPopper.Keys
    requires forall w | w in s.showPopper :: w in roadmap && s.showPopper[w] == WeekCompleted(roadmap, s.checked, w)
    ensures forall w | w in roadmap && roadmap[w] != {} ::
              WeekCompleted(roadmap, s.checked, w) ==> w in s.showPopper && s.showPopper[w]
  {
    forall w | w in roadmap && roadmap[w] != {} && WeekCompleted(roadmap, s.checked, w)
      ensures w in s.showPopper && s.showPopper[w]
    {
      var d :| d in roadmap[w];
      assert IsChecked(s.checked, w, d);
    }
  }

  /** A user action on the page. */
  datatype Event =
    | ClickWeek(week: Week)            // a week header (`toggleWeek`)
    | ClickExpandAll                   // the "Expand All" / "Collapse All" button
    | ClickDay(week: Week, day: Day)   // a day's checkbox (`handleCheck`)

  /** Whether the page renders the control the event clicks: headers exist
      for curriculum weeks, checkboxes for the days of expanded weeks. */
  predicate Enabled(roadmap: Roadmap, s: State, e: Event)
    ensures e.ClickDay? ==> (Enabled(roadmap, s, e) <==> e.week in ExpandedWeeks(roadmap, s) && e.day in roadmap[e.week])
    ensures e.ClickWeek? ==> (Enabled(roadmap, s, e) <==> e.week in roadmap)
    ensures e.ClickExpandAll? ==> Enabled(roadmap, s, e)
  {
    match e
    case ClickWeek(w) => w in roadmap
    case ClickExpandAll => true
    case ClickDay(w, d) => w in roadmap && d in roadmap[w] && IsExpanded(s, w)
  }

  /** The transition an enabled event causes; it keeps the invariant. */
  function Step(roadmap: Roadmap, s: State, e: Event): (r: State)
    requires Enabled(roadmap, s, e)
    ensures Inv(roadmap, s) ==> Inv(roadmap, r)
  {
    match e
    case ClickWeek(w) => ToggleWeek(s, w)
    case ClickExpandAll => ToggleAllWeeks(s)
    case ClickDay(w, d) =>
      var r := HandleCheck(roadmap, s, w, d);
      assert Inv(roadmap, s) ==> Inv(roadmap, r) by {
        if Inv(roadmap, s) {
          CheckKeepsInv(roadmap, s, w, d);
        }
      }
      r
  }

  /** A click on a curriculum day keeps the invariant. */
  lemma CheckKeepsInv(roadmap: Roadmap, s: State, w: Week, d: Day)
    requires Inv(roadmap, s)
    requires w in roadmap && d in roadmap[w]
    ensures Inv(roadmap, HandleCheck(roadmap, s, w, d))
  {
    var r := HandleCheck(roadmap, s, w, d);
    assert r.checked.Keys == r.showPopper.Keys;
    assert r.showPopper.Keys <= roadmap.Keys;
    forall v | v in r.checked && v in roadmap
      ensures r.checked[v].Keys <= roadmap[v]
    {
      if v != w {
        assert r.checked[v] == s.checked[v];
      }
    }
    assert DaysWithin(roadmap, r.checked);
    forall v | v in r.showPopper
      ensures v in roadmap && r.showPopper[v] == WeekCompleted(roadmap, r.checked, v)
    {
      if v != w {
        assert r.checked[v] == s.checked[v] || v !in s.checked;
        assert forall e :: IsChecked(r.checked, v, e) == IsChecked(s.checked, v, e);
      }
    }
  }

  /** With "Expand All" off, no two distinct weeks render expanded. */
  lemma ExpansionExclusive(s: State, w: Week, v: Week)
    requires !s.expandAll && IsExpanded(s, w) && IsExpanded(s, v)
    ensures w == v
  {
  }

  /** Replays a sequence of clicks from `s`; None when some click targets a
      control the page does not render at that point. */
  function Replay(roadmap: Roadmap, s: State, events: seq<Event>): (r: Option<State>)
    ensures r.Some? && Inv(roadmap, s) ==> Inv(roadmap, r.value)
    ensures r.Some? && events != [] ==> Enabled(roadmap, s, events[0])
    decreases |events|
  {
    if events == [] then
      Some(s)
    else if !Enabled(roadmap, s, events[0]) then
      None
    else
      Replay(roadmap, Step(roadmap, s, events[0]), events[1..])
  }

  /** The mounted state satisfies the invariant. */
  lemma InitInv(roadmap: Roadmap)
    ensures Inv(roadmap, Init())
  {
  }

  /** Every state reached by clicks from mounting: the banner flag of each
      week that has one equals its badge, a completed week with at least one
      day has its banner flag set, and the progress bar lies in [0, 100]
      whenever the curriculum has a day. */
  lemma ReachableFacts(roadmap: Roadmap, events: seq<Event>, t: State)
    requires Replay(roadmap, Init(), events) == Some(t)
    ensures forall w | w in t.showPopper :: w in roadmap && t.showPopper[w] == BadgeShown(roadmap, t, w)
    ensures forall w | w in roadmap && roadmap[w] != {} ::
              BadgeShown(roadmap, t, w) ==> w in t.showPopper && t.showPopper[w]
    ensures forall w | w in roadmap && IsExpanded(t, w) && roadmap[w] != {} ::
              BannerShown(t, w) <==> BadgeShown(roadmap, t, w)
    ensures CompletedDays(roadmap, t.checked) <= TotalDays(roadmap)
    ensures TotalDays(roadmap) > 0 ==> 0.0 <= Progress(roadmap, t.checked).value <= 100.0
  {
    InitInv(roadmap);
    assert Inv(roadmap, t);
    CompletedAtMostTotal(roadmap, t.checked);
  }

  /** The worked example: a one-week curriculum with two days, checked
      Mon, then Tue, then Mon again. */
  lemma TwoDayScenario()
    ensures var roadmap := map["Week1" := {"Mon", "Tue"}];
            var s0 := ToggleWeek(Init(), "Week1");
            var s1 := HandleCheck(roadmap, s0, "Week1", "Mon");
            var s2 := HandleCheck(roadmap, s1, "Week1", "Tue");
            var s3 := HandleCheck(roadmap, s2, "Week1", "Mon");
            && Progress(roadmap, s1.checked) == Some(50.0) && !s1.showPopper["Week1"] && !BannerShown(s1, "Week1")
            && Progress(roadmap, s2.checked) == Some(100.0) && s2.showPopper["Week1"] && BannerShown(s2, "Week1")
            && Progress(roadmap, s3.checked) == Some(50.0) && !s3.showPopper["Week1"] && !BannerShown(s3, "Week1")
  {
    var roadmap := map["Week1" := {"Mon", "Tue"}];
    var s0 := ToggleWeek(Init(), "Week1");
    var s1 := HandleCheck(roadmap, s0, "Week1", "Mon");
    assert TrueDays(s1.checked["Week1"]) == {"Mon"};
    var s2 := HandleCheck(roadmap, s1, "Week1", "Tue");
    assert TrueDays(s2.checked["Week1"]) == {"Mon", "Tue"};
    var s3 := HandleCheck(roadmap, s2, "Week1", "Mon");
    assert TrueDays(s3.checked["Week1"]) == {"Tue"};
    ScenarioTotal();
    ScenarioCompleted(s1.checked, {"Mon"});
    ScenarioCompleted(s2.checked, {"Mon", "Tue"});
    ScenarioCompleted(s3.checked, {"Tue"});
  }

  /** The example curriculum has two days. */
  lemma ScenarioTotal()
    ensures TotalDays(map["Week1" := {"Mon", "Tue"}]) == 2
  {
    var roadmap := map["Week1" := {"Mon", "Tue"}];
    assert roadmap.Keys == {"Week1"};
    TagCard("Week1", {"Mon", "Tue"});
    assert DayPairs(roadmap, roadmap.Keys) == Tag("Week1", {"Mon", "Tue"});
  }

  /** The completed count of a checklist of the example curriculum is the
      number of its true days of "Week1". */
  lemma ScenarioCompleted(checked: Checklist, days: set<Day>)
    requires "Week1" in checked && TrueDays(checked["Week1"]) == days
    ensures CompletedDays(map["Week1" := {"Mon", "Tue"}], checked) == |days|
  {
    var roadmap := map["Week1" := {"Mon", "Tue"}];
    assert roadmap.Keys == {"Week1"};
    TagCard("Week1", days);
    assert CheckedPairs(roadmap, checked, roadmap.Keys) == Tag("Week1", days);
  }
}
