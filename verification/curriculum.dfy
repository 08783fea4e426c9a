/**
 The read-only curriculum and the per-day checklist of the Roadmap view,
 together with the day counts that progress is computed from.

 The curriculum maps each week label to its day labels; the topic text of a
 day is never inspected by the component and is not modelled. The checklist
 maps a week to a map from day to the stored flag; a missing week or a
 missing day reads as "not checked", as `checked[week]?.[day]` does.
 */
module Curriculum {

  type Week = string
  type Day = string

  /** week label -> the labels of that week's days */
  type Roadmap = map<Week, set<Day>>

  /** week label -> day label -> stored checkbox flag */
  type Checklist = map<Week, map<Day, bool>>

  /** The truthiness of `checked[w]?.[d]`: absent entries read as false. */
  predicate IsChecked(checked: Checklist, w: Week, d: Day) {
    w in checked && d in checked[w] && checked[w][d]
  }

  /** The per-week badge condition: every day of week `w` is checked. */
  predicate WeekCompleted(roadmap: Roadmap, checked: Checklist, w: Week)
    requires w in roadmap
    ensures WeekCompleted(roadmap, checked, w) <==> roadmap[w] <= TrueDays(StoredDays(checked, w))
  {
    forall d | d in roadmap[w] :: IsChecked(checked, w, d)
  }

  /** The day map stored for `w`, `{}` when there is none (`checked[week] || {}`). */
  function StoredDays(checked: Checklist, w: Week): map<Day, bool> {
    if w in checked then checked[w] else map[]
  }

  /** The days whose stored flag is true (`Object.values(m).filter(Boolean)`). */
  function TrueDays(m: map<Day, bool>): (r: set<Day>)
    ensures forall d :: d in r <==> d in m && m[d]
  {
    set d | d in m && m[d]
  }

  /** Every checked (week, day) pair refers to a day the curriculum has. */
  predicate DaysWithin(roadmap: Roadmap, checked: Checklist) {
    forall w | w in checked && w in roadmap :: checked[w].Keys <= roadmap[w]
  }

  /** The (week, day) pairs of the curriculum, restricted to `weeks`. */
  function DayPairs(roadmap: Roadmap, weeks: set<Week>): (r: set<(Week, Day)>)
    ensures forall w, d :: (w, d) in r <==> w in weeks && w in roadmap && d in roadmap[w]
  {
    set w, d | w in weeks && w in roadmap && d in roadmap[w] :: (w, d)
  }

  /** The (week, day) pairs counted as completed for curriculum weeks in
      `weeks`: every true entry stored for such a week, whatever its day. */
  function CheckedPairs(roadmap: Roadmap, checked: Checklist, weeks: set<Week>): (r: set<(Week, Day)>)
    ensures forall w, d :: (w, d) in r <==> w in weeks && w in roadmap && IsChecked(checked, w, d)
  {
    set w, d | w in weeks && w in roadmap && w in checked && d in checked[w] && checked[w][d] :: (w, d)
  }

  /** `totalDays` of the progress computation. */
  function TotalDays(roadmap: Roadmap): (n: nat)
    ensures n == 0 <==> forall w | w in roadmap :: roadmap[w] == {}
  {
    var all := DayPairs(roadmap, roadmap.Keys);
    assert (all == {}) <==> forall w | w in roadmap :: roadmap[w] == {} by {
      if all != {} {
        var p :| p in all;
      }
    }
    |all|
  }

  /** `completedDays` of the progress computation. */
  function CompletedDays(roadmap: Roadmap, checked: Checklist): (n: nat)
    ensures n == 0 <==> forall w, d :: w in roadmap ==> !IsChecked(checked, w, d)
  {
    var all := CheckedPairs(roadmap, checked, roadmap.Keys);
    assert (all == {}) <==> forall w, d :: w in roadmap ==> !IsChecked(checked, w, d) by {
      if all != {} {
        var p :| p in all;
      }
    }
    |all|
  }

  /** One week's days are at most all the curriculum's days, and its true
      stored flags at most the completed count. */
  lemma WeekAtMostTotal(roadmap: Roadmap, checked: Checklist, w: Week)
    requires w in roadmap
    ensures |roadmap[w]| <= TotalDays(roadmap)
    ensures |TrueDays(StoredDays(checked, w))| <= CompletedDays(roadmap, checked)
  {
    TagCard(w, roadmap[w]);
    SubsetCard(Tag(w, roadmap[w]), DayPairs(roadmap, roadmap.Keys));
    TagCard(w, TrueDays(StoredDays(checked, w)));
    SubsetCard(Tag(w, TrueDays(StoredDays(checked, w))), CheckedPairs(roadmap, checked, roadmap.Keys));
  }

  /** A subset has at most as many elements. */
  lemma SubsetCard<T>(a: set<T>, b: set<T>)
    requires a <= b
    ensures |a| <= |b|
  {
    assert b == a + (b - a);
  }

  /** Pairs every element of `s` with the week `w`. */
  function Tag(w: Week, s: set<Day>): (r: set<(Week, Day)>)
    ensures forall v, d :: (v, d) in r <==> v == w && d in s
  {
    set d | d in s :: (w, d)
  }

  /** Tagging with one week is injective, so it keeps the number of days. */
  lemma {:induction false} TagCard(w: Week, s: set<Day>)
    ensures |Tag(w, s)| == |s|
    decreases s
  {
    if s != {} {
      var d :| d in s;
      TagCard(w, s - {d});
      assert Tag(w, s) == Tag(w, s - {d}) + {(w, d)};
    }
  }

  /** Adding one week to the processed weeks adds that week's days to the pairs. */
  lemma DayPairsAddWeek(roadmap: Roadmap, done: set<Week>, w: Week)
    requires w in roadmap && w !in done
    ensures |DayPairs(roadmap, done + {w})| == |DayPairs(roadmap, done)| + |roadmap[w]|
  {
    assert DayPairs(roadmap, done + {w}) == DayPairs(roadmap, done) + Tag(w, roadmap[w]);
    assert DayPairs(roadmap, done) !! Tag(w, roadmap[w]);
    TagCard(w, roadmap[w]);
  }

  /** Adding one week to the processed weeks adds that week's true entries. */
  lemma CheckedPairsAddWeek(roadmap: Roadmap, checked: Checklist, done: set<Week>, w: Week)
    requires w in roadmap && w !in done
    ensures |CheckedPairs(roadmap, checked, done + {w})|
         == |CheckedPairs(roadmap, checked, done)| + |TrueDays(StoredDays(checked, w))|
  {
    var days := TrueDays(StoredDays(checked, w));
    assert CheckedPairs(roadmap, checked, done + {w}) == CheckedPairs(roadmap, checked, done) + Tag(w, days);
    assert CheckedPairs(roadmap, checked, done) !! Tag(w, days);
    TagCard(w, days);
  }

  /** With every checked day inside the curriculum, the completed pairs are
      among the curriculum's pairs, so there are at most as many. */
  lemma CompletedAtMostTotal(roadmap: Roadmap, checked: Checklist)
    requires DaysWithin(roadmap, checked)
    ensures CheckedPairs(roadmap, checked, roadmap.Keys) <= DayPairs(roadmap, roadmap.Keys)
    ensures CompletedDays(roadmap, checked) <= TotalDays(roadmap)
  {
    var c := CheckedPairs(roadmap, checked, roadmap.Keys);
    var t := DayPairs(roadmap, roadmap.Keys);
    forall p | p in c ensures p in t {
      assert IsChecked(checked, p.0, p.1);
    }
    assert t == c + (t - c);
    assert |t| == |c| + |t - c|;
  }

  /** With every checked day inside the curriculum, all days are counted as
      completed exactly when every week of the curriculum is completed. */
  lemma {:induction false} CompletedEqualsTotal(roadmap: Roadmap, checked: Checklist)
    requires DaysWithin(roadmap, checked)
    ensures CompletedDays(roadmap, checked) == TotalDays(roadmap)
        <==> forall w | w in roadmap :: WeekCompleted(roadmap, checked, w)
  {
    var c := CheckedPairs(roadmap, checked, roadmap.Keys);
    var t := DayPairs(roadmap, roadmap.Keys);
    CompletedAtMostTotal(roadmap, checked);
    if forall w | w in roadmap :: WeekCompleted(roadmap, checked, w) {
      forall p | p in t ensures p in c {
        assert WeekCompleted(roadmap, checked, p.0);
      }
      assert c == t;
    } else {
      var w, d :| w in roadmap && d in roadmap[w] && !IsChecked(checked, w, d);
      assert (w, d) in t - c;
      assert |t| == |c| + |t - c|;
    }
  }
}
