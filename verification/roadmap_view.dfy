/**
 The state of the Roadmap view and its three event handlers, each one
 atomic transition from a state to the next, together with what a render
 derives from a state: which weeks are expanded, which show the completion
 badge or the congratulation banner, and the progress percentage.
 */
module RoadmapView {
  import opened Wrappers
  import opened Curriculum

  /** The four pieces of component state. */
  datatype State = State(
    expandedWeek: Option<Week>,      // the one individually expanded week, if any
    checked: Checklist,              // per-day checkbox flags
    showPopper: map<Week, bool>,     // per-week celebration flag
    expandAll: bool                  // the global "Expand All" override
  )

  /** The state on mount: nothing expanded, nothing checked. */
  function Init(): (s: State)
    ensures s.expandedWeek.None? && !s.expandAll
    ensures forall w, d :: !IsChecked(s.checked, w, d)
    ensures s.showPopper == map[]
  {
    State(None, map[], map[], false)
  }

  /** Week `w` renders expanded: it is the expanded week, or "Expand All" is on. */
  predicate IsExpanded(s: State, w: Week)
    ensures s.expandAll ==> IsExpanded(s, w)
    ensures !s.expandAll ==> (IsExpanded(s, w) <==> s.expandedWeek == Some(w))
  {
    s.expandedWeek == Some(w) || s.expandAll
  }

  /** `toggleWeek`: collapse `w` if it is the expanded week, otherwise make it
      the only expanded week. */
  function ToggleWeek(s: State, w: Week): (r: State)
    ensures r.expandedWeek == Some(w) <==> s.expandedWeek != Some(w)
    ensures r.expandedWeek.Some? ==> r.expandedWeek.value == w
    ensures !s.expandAll ==> (IsExpanded(r, w) <==> !IsExpanded(s, w))
    ensures !s.expandAll ==> forall v :: v != w ==> !IsExpanded(r, v)
    ensures r.checked == s.checked && r.showPopper == s.showPopper && r.expandAll == s.expandAll
  {
    s.(expandedWeek := if s.expandedWeek == Some(w) then None else Some(w))
  }

  /** `toggleAllWeeks`: flip the global override and nothing else. */
  function ToggleAllWeeks(s: State): (r: State)
    ensures r.expandAll != s.expandAll
    ensures r.expandedWeek == s.expandedWeek && r.checked == s.checked && r.showPopper == s.showPopper
    ensures r.expandAll ==> forall w :: IsExpanded(r, w)
  {
    s.(expandAll := !s.expandAll)
  }

  /** `handleCheck`: flip the flag of day `d` of week `w` (a missing flag
      counts as false) and, from the updated checklist, set the week's
      celebration flag to "every day of `w` is checked". Both updates form
      one transition. The week must be in the curriculum, since the handler
      reads the keys of `roadmap[w]`. */
  function HandleCheck(roadmap: Roadmap, s: State, w: Week, d: Day): (r: State)
    requires w in roadmap
    // exactly one truth value flips
    ensures IsChecked(r.checked, w, d) <==> !IsChecked(s.checked, w, d)
    ensures forall v, e :: (v, e) != (w, d) ==> (IsChecked(r.checked, v, e) <==> IsChecked(s.checked, v, e))
    // the stored keys grow by the toggled entry only
    ensures r.checked.Keys == s.checked.Keys + {w}
    ensures r.checked[w].Keys == StoredDays(s.checked, w).Keys + {d}
    ensures forall v :: v in s.checked && v != w ==> r.checked[v] == s.checked[v]
    // the banner flag of `w` is set exactly when this click completes the week
    ensures r.showPopper.Keys == s.showPopper.Keys + {w}
    ensures r.showPopper[w] <==>
              && (forall e :: e in roadmap[w] && e != d ==> IsChecked(s.checked, w, e))
              && (d in roadmap[w] ==> !IsChecked(s.checked, w, d))
    ensures r.showPopper[w] == WeekCompleted(roadmap, r.checked, w)
    ensures forall v :: v in s.showPopper && v != w ==> r.showPopper[v] == s.showPopper[v]
    ensures r.expandedWeek == s.expandedWeek && r.expandAll == s.expandAll
  {
    var newChecked := s.checked[w := StoredDays(s.checked, w)[d := !IsChecked(s.checked, w, d)]];
    var allChecked := WeekCompleted(roadmap, newChecked, w);
    s.(checked := newChecked, showPopper := s.showPopper[w := allChecked])
  }

  /** The completion badge in the header of week `w`. */
  predicate BadgeShown(roadmap: Roadmap, s: State, w: Week)
    requires w in roadmap
    ensures BadgeShown(roadmap, s, w) <==> roadmap[w] <= TrueDays(StoredDays(s.checked, w))
    ensures roadmap[w] == {} ==> BadgeShown(roadmap, s, w)
  {
    WeekCompleted(roadmap, s.checked, w)
  }

  /** The congratulation banner of week `w`: drawn inside the expanded content
      when the week's celebration flag is set. */
  predicate BannerShown(s: State, w: Week)
    ensures BannerShown(s, w) ==> IsExpanded(s, w) && w in s.showPopper && s.showPopper[w]
    ensures IsExpanded(s, w) && w in s.showPopper && s.showPopper[w] ==> BannerShown(s, w)
    ensures !IsExpanded(s, w) || w !in s.showPopper ==> !BannerShown(s, w)
  {
    IsExpanded(s, w) && w in s.showPopper && s.showPopper[w]
  }

  /** The weeks of the curriculum that render expanded. */
  function ExpandedWeeks(roadmap: Roadmap, s: State): (r: set<Week>)
    ensures r <= roadmap.Keys
    ensures s.expandAll ==> r == roadmap.Keys
    ensures !s.expandAll ==> |r| <= 1
    ensures !s.expandAll ==> forall w :: w in r ==> s.expandedWeek == Some(w)
    ensures !s.expandAll && s.expandedWeek.Some? && s.expandedWeek.value in roadmap ==> r == {s.expandedWeek.value}
  {
    var r := set w | w in roadmap && IsExpanded(s, w);
    assert !s.expandAll ==> r == {} || (s.expandedWeek.Some? && r == {s.expandedWeek.value}) by {
      if !s.expandAll && s.expandedWeek.Some? {
        assert r == {} || r == {s.expandedWeek.value};
      }
    }
    r
  }

  /** `calculateProgress`: completed days over total days times 100, or
      None when the curriculum has no day at all (the division is 0/0). */
  function Progress(roadmap: Roadmap, checked: Checklist): (r: Option<real>)
    ensures r.None? <==> TotalDays(roadmap) == 0
    ensures r.Some? && DaysWithin(roadmap, checked) ==> 0.0 <= r.value <= 100.0
    ensures r.Some? && DaysWithin(roadmap, checked) ==>
              (r.value == 100.0 <==> forall w | w in roadmap :: WeekCompleted(roadmap, checked, w))
    ensures r.Some? ==> (r.value == 0.0 <==> CompletedDays(roadmap, checked) == 0)
  {
    var total := TotalDays(roadmap);
    var completed := CompletedDays(roadmap, checked);
    if total == 0 then
      None
    else
      assert DaysWithin(roadmap, checked) ==>
               && completed <= total
               && (completed == total <==> forall w | w in roadmap :: WeekCompleted(roadmap, checked, w)) by {
        if DaysWithin(roadmap, checked) {
          CompletedAtMostTotal(roadmap, checked);
          CompletedEqualsTotal(roadmap, checked);
        }
      }
      RatioFacts(completed, total);
      Some((completed as real / total as real) * 100.0)
  }

  /** The percentage of `completed` out of `total` days, as a real number. */
  lemma RatioFacts(completed: nat, total: nat)
    requires total > 0
    ensures completed <= total ==> 0.0 <= (completed as real / total as real) * 100.0 <= 100.0
    ensures (completed as real / total as real) * 100.0 == 100.0 <==> completed == total
    ensures (completed as real / total as real) * 100.0 == 0.0 <==> completed == 0
  {
  }

  /** `calculateProgress` as the source writes it: one pass over the weeks
      adding up each week's day count and its number of true entries. */
  method CalculateProgress(roadmap: Roadmap, checked: Checklist) returns (r: Option<real>)
    ensures r == Progress(roadmap, checked)
  {
    var totalDays, completedDays := 0, 0;
    var remaining := roadmap.Keys;
    while remaining != {}
      invariant remaining <= roadmap.Keys
      invariant totalDays == |DayPairs(roadmap, roadmap.Keys - remaining)|
      invariant completedDays == |CheckedPairs(roadmap, checked, roadmap.Keys - remaining)|
      decreases remaining
    {
      var w :| w in remaining;
      DayPairsAddWeek(roadmap, roadmap.Keys - remaining, w);
      CheckedPairsAddWeek(roadmap, checked, roadmap.Keys - remaining, w);
      totalDays := totalDays + |roadmap[w]|;
      completedDays := completedDays + |TrueDays(StoredDays(checked, w))|;
      assert roadmap.Keys - (remaining - {w}) == (roadmap.Keys - remaining) + {w};
      remaining := remaining - {w};
    }
    assert roadmap.Keys - remaining == roadmap.Keys;
    if totalDays == 0 {
      r := None;
    } else {
      r := Some((completedDays as real / totalDays as real) * 100.0);
    }
  }
}
