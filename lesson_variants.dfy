/**
 * Choosing what a timetable slot shows in a given week
 * (ScheduleBot/src/parsers/schedule.js): the distance from the current week to
 * a lesson's weeks, the per-week details of a lesson, and the selection of the
 * single lesson nearest to the current week.
 */
module LessonVariants {
  import opened Wrappers
  import opened Text
  import opened Sorting
  import WeekSets
  import LessonKinds
  import LessonCells

  type Lesson = LessonCells.Lesson
  type KindWeeks = LessonKinds.KindWeeks

  /** A week distance; `Infinite` is the source's `Infinity`. */
  datatype Dist = Finite(gap: nat) | Infinite

  /** `a < b` on distances. */
  predicate Closer(a: Dist, b: Dist) {
    a.Finite? && (b.Infinite? || a.gap < b.gap)
  }

  /** `Math.abs(currentWeek - w)`. */
  function Gap(cw: int, w: int): nat { if cw >= w then cw - w else w - cw }

  /** The gaps from `cw` to each week of `weeks`. */
  function Gaps(weeks: set<int>, cw: int): (r: set<int>)
    ensures forall w :: w in weeks ==> Gap(cw, w) in r
    ensures forall g :: g in r ==> exists w :: w in weeks && g == Gap(cw, w)
    ensures r == {} <==> weeks == {}
  {
    var r := set w | w in weeks :: Gap(cw, w);
    assert weeks != {} ==> r != {} by {
      if weeks != {} {
        var w := PickOne(weeks);
        assert Gap(cw, w) in r;
      }
    }
    r
  }

  /** The distance from `cw` to the nearest week of `weeks`: infinite for no weeks. */
  function DistanceTo(weeks: set<int>, cw: int): (d: Dist)
    ensures d.Infinite? <==> weeks == {}
    ensures d == Finite(0) <==> cw in weeks
    ensures d.Finite? ==> exists w :: w in weeks && d.gap == Gap(cw, w)
    ensures d.Finite? ==> forall w :: w in weeks ==> d.gap <= Gap(cw, w)
  {
    if weeks == {} then Infinite
    else
      var m := SetMin(Gaps(weeks, cw));
      assert cw in weeks ==> m == 0 by {
        if cw in weeks { assert Gap(cw, cw) in Gaps(weeks, cw); }
      }
      Finite(m)
  }

  /** The weeks of every annotation of a lesson, together. */
  function KindsWeeks(ts: seq<KindWeeks>): (r: set<int>)
    ensures forall w :: w in r <==> exists k :: 0 <= k < |ts| && w in ts[k].weeks
  {
    if ts == [] then {}
    else
      var rest := KindsWeeks(ts[1..]);
      assert forall w :: w in rest <==> exists k :: 1 <= k < |ts| && w in ts[k].weeks by {
        forall w ensures w in rest <==> exists k :: 1 <= k < |ts| && w in ts[k].weeks {
          if w in rest {
            var k :| 0 <= k < |ts[1..]| && w in ts[1..][k].weeks;
            assert w in ts[k + 1].weeks;
          }
          if exists k :: 1 <= k < |ts| && w in ts[k].weeks {
            var k :| 1 <= k < |ts| && w in ts[k].weeks;
            assert w in ts[1..][k - 1].weeks;
          }
        }
      }
      ts[0].weeks + rest
  }

  /** The weeks `getLessonDistance` measures against: the fallback weeks and every annotated week. */
  function CombinedWeeks(l: Lesson): set<int> {
    l.activeWeeks + KindsWeeks(l.typeInfo)
  }

  /** `getLessonDistance` as a value: infinite for no lesson. */
  function Distance(l: Option<Lesson>, cw: int): (d: Dist)
    ensures l.None? ==> d.Infinite?
    ensures l.Some? ==> (d.Infinite? <==> CombinedWeeks(l.value) == {})
    ensures l.Some? ==> (d == Finite(0) <==> cw in CombinedWeeks(l.value))
  {
    match l
    case None => Infinite
    case Some(x) => DistanceTo(CombinedWeeks(x), cw)
  }

  /** The nearest gap found among `done`, or infinite while nothing has been looked at. */
  lemma {:induction false} DistanceToAdd(done: set<int>, w: int, cw: int)
    requires w !in done
    ensures DistanceTo(done + {w}, cw) ==
            (if Closer(Finite(Gap(cw, w)), DistanceTo(done, cw)) then Finite(Gap(cw, w)) else DistanceTo(done, cw))
  {
    var all := done + {w};
    var d := DistanceTo(all, cw);
    var old_ := DistanceTo(done, cw);
    var g := Gap(cw, w);
    if done == {} {
      assert all == {w};
    } else {
      var x :| x in done && old_.gap == Gap(cw, x);
      if g < old_.gap {
        assert d.gap <= g;
        var y :| y in all && d.gap == Gap(cw, y);
        if y != w { assert false; }
      } else {
        assert d.gap <= old_.gap by { assert x in all; }
        var y :| y in all && d.gap == Gap(cw, y);
        if y != w { assert y in done; }
      }
    }
  }

  /**
   * `getLessonDistance`: infinite for no lesson or no weeks, 0 when the current
   * week is one of them, otherwise the least gap, found by a scan of the weeks.
   */
  method LessonDistance(lesson: Option<Lesson>, cw: int) returns (d: Dist)
    ensures d == Distance(lesson, cw)
  {
    if lesson.None? {
      return Infinite;
    }
    var all := CombinedWeeks(lesson.value);
    if all == {} {
      return Infinite;
    }
    if cw in all {
      return Finite(0);
    }
    var minDist := Infinite;
    var rest := all;
    while rest != {}
      invariant rest <= all
      invariant minDist == DistanceTo(all - rest, cw)
      decreases |rest|
    {
      if forall x :: x !in rest { assert false; }
      var w :| w in rest;
      DistanceToAdd(all - rest, w, cw);
      assert (all - rest) + {w} == all - (rest - {w});
      var dist := Finite(Gap(cw, w));
      if Closer(dist, minDist) {
        minDist := dist;
      }
      rest := rest - {w};
    }
    assert all - rest == all;
    d := minDist;
  }

  // ---------------------------------------------------------------- resolveLessonDetails

  /** The weeks a lesson is resolved against: its annotated weeks when it has annotations, else its fallback weeks. */
  function ResolvedWeeks(l: Lesson): set<int> {
    if l.typeInfo != [] then KindsWeeks(l.typeInfo) else l.activeWeeks
  }

  /** `[Math.min(...weeks), Math.max(...weeks)]`, or [] for no weeks. */
  function WeekRange(weeks: set<int>): (r: seq<int>)
    ensures r == [] <==> weeks == {}
    ensures r != [] ==> |r| == 2 && r[0] in weeks && r[1] in weeks
    ensures r != [] ==> forall w :: w in weeks ==> r[0] <= w <= r[1]
  {
    if weeks == {} then [] else [SetMin(weeks), SetMax(weeks)]
  }

  /** The strings of `xs` in order of first appearance, each once (`[...new Set(xs)]`). */
  function Distinct(xs: seq<string>): (r: seq<string>)
    ensures forall x :: x in r <==> x in xs
    ensures forall i, j :: 0 <= i < j < |r| ==> r[i] != r[j]
    ensures xs != [] ==> r != [] && r[0] == xs[0]
  {
    if xs == [] then []
    else
      var d := Distinct(xs[..|xs| - 1]);
      assert forall x :: x in xs <==> x in xs[..|xs| - 1] || x == xs[|xs| - 1] by {
        assert xs == xs[..|xs| - 1] + [xs[|xs| - 1]];
      }
      assert |xs| > 1 ==> xs[..|xs| - 1][0] == xs[0];
      if xs[|xs| - 1] in d then d else d + [xs[|xs| - 1]]
  }

  /** The kinds of the annotations, in order. */
  function Kinds(ts: seq<KindWeeks>): (r: seq<string>)
    ensures |r| == |ts| && forall k :: 0 <= k < |ts| ==> r[k] == ts[k].kind
  {
    seq(|ts|, k requires 0 <= k < |ts| => ts[k].kind)
  }

  /** The first annotation holding week `cw`, as its index. */
  function FirstHolding(ts: seq<KindWeeks>, cw: int): (r: Option<nat>)
    ensures r.None? <==> forall k :: 0 <= k < |ts| ==> cw !in ts[k].weeks
    ensures r.Some? ==> r.value < |ts| && cw in ts[r.value].weeks
    ensures r.Some? ==> forall k :: 0 <= k < r.value ==> cw !in ts[k].weeks
  {
    if ts == [] then None
    else if cw in ts[0].weeks then Some(0)
    else
      match FirstHolding(ts[1..], cw)
      case None =>
        assert forall k :: 1 <= k < |ts| ==> cw !in ts[k].weeks by {
          forall k | 1 <= k < |ts| ensures cw !in ts[k].weeks { assert ts[k] == ts[1..][k - 1]; }
        }
        None
      case Some(i) =>
        assert forall k :: 1 <= k < i + 1 ==> cw !in ts[k].weeks by {
          forall k | 1 <= k < i + 1 ensures cw !in ts[k].weeks { assert ts[k] == ts[1..][k - 1]; }
        }
        Some(i + 1)
  }

  /**
   * The nearest-week scan over the annotations, from a current best distance
   * and kind: a kind replaces the best only when strictly nearer.
   */
  function NearestKindFrom(ts: seq<KindWeeks>, cw: int, best: Dist, kind: string): string
    decreases |ts|
  {
    if ts == [] then kind
    else
      var d := DistanceTo(ts[0].weeks, cw);
      if Closer(d, best) then NearestKindFrom(ts[1..], cw, d, ts[0].kind)
      else NearestKindFrom(ts[1..], cw, best, kind)
  }

  /** The kind shown for week `cw` (not 0): the first holding `cw`, else the nearest, else "". */
  function ActiveKind(ts: seq<KindWeeks>, cw: int): string {
    match FirstHolding(ts, cw)
    case Some(k) => ts[k].kind
    case None => NearestKindFrom(ts, cw, Infinite, "")
  }

  /** `resolveLessonDetails` for a lesson. */
  function ResolveLessonDetails(l: Lesson, cw: int): (r: Lesson)
    ensures r.activeWeeks == ResolvedWeeks(l)
    ensures r.weekRange == WeekRange(ResolvedWeeks(l))
    ensures l.typeInfo == [] ==> r.kind == "" && r.weeks == WeekSets.NormalizeWeeks(l.activeWeeks)
    ensures l.typeInfo != [] ==> r.weeks == LessonKinds.FormatDetailedWeeks(l.typeInfo)
    ensures r.subject == l.subject && r.teacher == l.teacher && r.room == l.room
    ensures r.typeInfo == l.typeInfo && r.rawText == l.rawText && r.time == l.time
  {
    var all := ResolvedWeeks(l);
    var detailed := if l.typeInfo != [] then LessonKinds.FormatDetailedWeeks(l.typeInfo) else WeekSets.NormalizeWeeks(all);
    var kind :=
      if cw == 0 then (if l.typeInfo != [] then Join(Distinct(Kinds(l.typeInfo)), ", ") else "")
      else ActiveKind(l.typeInfo, cw);
    l.(kind := kind, weeks := detailed, activeWeeks := all, weekRange := WeekRange(all))
  }

  // ---------------------------------------------------------------- first nearest

  /** `i` is the first position of least distance in `ds`. */
  predicate IsFirstNearest(ds: seq<Dist>, i: int) {
    0 <= i < |ds| &&
    (forall j :: 0 <= j < |ds| ==> !Closer(ds[j], ds[i])) &&
    (forall j :: 0 <= j < i ==> Closer(ds[i], ds[j]))
  }

  /** The distances of the annotations' weeks. */
  function KindDistances(ts: seq<KindWeeks>, cw: int): (r: seq<Dist>)
    ensures |r| == |ts| && forall k :: 0 <= k < |ts| ==> r[k] == DistanceTo(ts[k].weeks, cw)
  {
    seq(|ts|, k requires 0 <= k < |ts| => DistanceTo(ts[k].weeks, cw))
  }

  /**
   * The nearest-week scan picks the kind of the first annotation at least
   * distance, and "" when no annotation has a week at all.
   */
  lemma {:induction false} NearestKindFromSpec(ts: seq<KindWeeks>, cw: int, best: Dist, kind: string)
    ensures (forall k :: 0 <= k < |ts| ==> !Closer(DistanceTo(ts[k].weeks, cw), best)) ==>
              NearestKindFrom(ts, cw, best, kind) == kind
    ensures forall i :: IsFirstNearest(KindDistances(ts, cw), i) && Closer(DistanceTo(ts[i].weeks, cw), best) ==>
              NearestKindFrom(ts, cw, best, kind) == ts[i].kind
    decreases |ts|
  {
    hide DistanceTo, KindDistances;
    if ts != [] {
      var d := DistanceTo(ts[0].weeks, cw);
      var ds := KindDistances(ts, cw);
      var tail := ts[1..];
      var ds' := KindDistances(tail, cw);
      assert forall k :: 0 <= k < |tail| ==> ds'[k] == ds[k + 1];
      if Closer(d, best) {
        NearestKindFromSpec(tail, cw, d, ts[0].kind);
        forall i | IsFirstNearest(ds, i) && Closer(ds[i], best)
          ensures NearestKindFrom(ts, cw, best, kind) == ts[i].kind
        {
          if i > 0 {
            assert IsFirstNearest(ds', i - 1);
            assert Closer(ds[i], d);
          } else {
            assert forall k :: 0 <= k < |tail| ==> !Closer(ds'[k], d);
          }
        }
      } else {
        NearestKindFromSpec(tail, cw, best, kind);
        forall i | IsFirstNearest(ds, i) && Closer(ds[i], best)
          ensures NearestKindFrom(ts, cw, best, kind) == ts[i].kind
        {
          assert i > 0;
          assert IsFirstNearest(ds', i - 1);
        }
      }
    }
  }

  /**
   * For a week other than 0 that no annotation holds, the kind shown is that of
   * the first annotation nearest to the week, or "" when no annotation has weeks.
   */
  lemma NearestKindShown(l: Lesson, cw: int)
    requires cw != 0 && forall k :: 0 <= k < |l.typeInfo| ==> cw !in l.typeInfo[k].weeks
    ensures KindsWeeks(l.typeInfo) == {} ==> ResolveLessonDetails(l, cw).kind == ""
    ensures forall i :: IsFirstNearest(KindDistances(l.typeInfo, cw), i) && KindsWeeks(l.typeInfo) != {} ==>
              ResolveLessonDetails(l, cw).kind == l.typeInfo[i].kind
  {
    hide LessonKinds.FormatDetailedWeeks, WeekSets.NormalizeWeeks, WeekRange, Distinct, DistanceTo, KindsWeeks;
    var ts := l.typeInfo;
    NearestKindFromSpec(ts, cw, Infinite, "");
    forall i | IsFirstNearest(KindDistances(ts, cw), i) && KindsWeeks(ts) != {}
      ensures DistanceTo(ts[i].weeks, cw).Finite?
    {
      if forall x :: x !in KindsWeeks(ts) { assert false; }
      var w :| w in KindsWeeks(ts);
      var k :| 0 <= k < |ts| && w in ts[k].weeks;
      assert !Closer(DistanceTo(ts[k].weeks, cw), DistanceTo(ts[i].weeks, cw));
    }
  }

  /** For a week other than 0, the kind shown is the first annotation holding that week. */
  lemma HoldingKindShown(l: Lesson, cw: int, k: nat)
    requires cw != 0 && k < |l.typeInfo| && cw in l.typeInfo[k].weeks
    requires forall j :: 0 <= j < k ==> cw !in l.typeInfo[j].weeks
    ensures ResolveLessonDetails(l, cw).kind == l.typeInfo[k].kind
  {
    hide LessonKinds.FormatDetailedWeeks, WeekSets.NormalizeWeeks, WeekRange, KindsWeeks, NearestKindFrom, Distinct;
  }

  /** At week 0 the kind shown lists every annotated kind once, in order of first appearance. */
  lemma AllKindsAtZero(l: Lesson)
    requires l.typeInfo != []
    ensures ResolveLessonDetails(l, 0).kind == Join(Distinct(Kinds(l.typeInfo)), ", ")
    ensures StartsWith(ResolveLessonDetails(l, 0).kind, l.typeInfo[0].kind)
  {
    var ds := Distinct(Kinds(l.typeInfo));
    assert ds[0] == l.typeInfo[0].kind;
    JoinStartsWithHead(ds, ", ");
  }

  lemma {:induction false} JoinStartsWithHead(parts: seq<string>, sep: string)
    requires parts != []
    ensures StartsWith(Join(parts, sep), parts[0])
  {
    if |parts| > 1 {
      assert Join(parts, sep) == parts[0] + (sep + Join(parts[1..], sep));
      PrefixAndSuffix(parts[0], sep + Join(parts[1..], sep));
    } else {
      assert parts[0][..|parts[0]|] == parts[0];
    }
  }

  /** Resolving an already resolved lesson leaves its weeks and range as they were. */
  lemma ResolveTwice(l: Lesson, cw: int)
    ensures ResolvedWeeks(ResolveLessonDetails(l, 0)) == ResolvedWeeks(l)
    ensures ResolveLessonDetails(ResolveLessonDetails(l, 0), cw).weekRange == ResolveLessonDetails(l, 0).weekRange
    ensures Distance(Some(ResolveLessonDetails(l, 0)), cw) == DistanceTo(ResolvedWeeks(l), cw)
  {
    var r := ResolveLessonDetails(l, 0);
    if l.typeInfo != [] {
      assert CombinedWeeks(r) == KindsWeeks(l.typeInfo);
    } else {
      assert CombinedWeeks(r) == l.activeWeeks;
    }
  }

  // ---------------------------------------------------------------- selectLessons

  /** The distances of the candidates, each resolved at week 0 first. */
  function CandidateDistances(cands: seq<Lesson>, cw: int): (r: seq<Dist>)
    ensures |r| == |cands|
    ensures forall k :: 0 <= k < |cands| ==> r[k] == CandidateDistance(cands[k], cw)
  {
    seq(|cands|, k requires 0 <= k < |cands| => CandidateDistance(cands[k], cw))
  }

  /** The distance a candidate is sorted by: its own, once resolved at week 0. */
  function CandidateDistance(c: Lesson, cw: int): Dist {
    Distance(Some(ResolveLessonDetails(c, 0)), cw)
  }

  /**
   * `selectLessons`: no lesson when there is no candidate, otherwise the single
   * candidate (numerator first, then denominator) nearest to the current week,
   * the earliest on a tie, even when none has weeks; the winner is resolved at
   * week 0 and then again at the current week.
   */
  method SelectLessons(numerator: seq<Lesson>, denominator: seq<Lesson>, cw: int) returns (r: seq<Lesson>)
    ensures r == [] <==> numerator + denominator == []
    ensures |r| <= 1
    ensures r != [] ==> exists i ::
              && IsFirstNearest(CandidateDistances(numerator + denominator, cw), i)
              && r[0] == ResolveLessonDetails(ResolveLessonDetails((numerator + denominator)[i], 0), cw)
    ensures r == Selected(numerator, denominator, cw)
  {
    var candidates := numerator + denominator;
    if |candidates| == 0 {
      return [];
    }
    var best := NearestCandidate(candidates, cw);
    FirstNearestUnique(CandidateDistances(candidates, cw), best, FirstNearest(CandidateDistances(candidates, cw)));
    r := [ResolveLessonDetails(ResolveLessonDetails(candidates[best], 0), cw)];
  }

  /** What `selectLessons` returns, as a value: the resolved first nearest candidate, or nothing. */
  function Selected(numerator: seq<Lesson>, denominator: seq<Lesson>, cw: int): (r: seq<Lesson>)
    ensures r == [] <==> numerator + denominator == []
    ensures |r| <= 1
  {
    SelectedFrom(numerator + denominator, cw)
  }

  /** The selection from the pooled candidates, numerator first. */
  function SelectedFrom(candidates: seq<Lesson>, cw: int): (r: seq<Lesson>)
    ensures r == [] <==> candidates == []
    ensures |r| <= 1
  {
    if candidates == [] then []
    else [ResolveLessonDetails(ResolveLessonDetails(candidates[FirstNearest(CandidateDistances(candidates, cw))], 0), cw)]
  }

  /** The first position of least distance: the head of a stable sort by distance. */
  function FirstNearest(ds: seq<Dist>): (i: nat)
    requires ds != []
    ensures IsFirstNearest(ds, i)
  {
    FirstNearestFrom(ds, 1, 0)
  }

  /** The scan for the first least distance, from position `i` on, with `best` the winner so far. */
  function FirstNearestFrom(ds: seq<Dist>, i: nat, best: nat): (r: nat)
    requires best < i <= |ds| && IsFirstNearest(ds[..i], best)
    ensures IsFirstNearest(ds, r)
    decreases |ds| - i
  {
    if i == |ds| then
      assert ds[..i] == ds;
      best
    else
      FirstNearestStep(ds, i, best);
      if Closer(ds[i], ds[best]) then FirstNearestFrom(ds, i + 1, i) else FirstNearestFrom(ds, i + 1, best)
  }

  /** There is only one first position of least distance. */
  lemma FirstNearestUnique(ds: seq<Dist>, i: int, j: int)
    requires IsFirstNearest(ds, i) && IsFirstNearest(ds, j)
    ensures i == j
  {
    assert !Closer(ds[j], ds[i]) && !Closer(ds[i], ds[j]);
  }

  /**
   * The stable sort by distance in `selectLessons`, of which only the head is
   * used: the first candidate, resolved at week 0, of least distance.
   */
  method NearestCandidate(candidates: seq<Lesson>, cw: int) returns (best: nat)
    requires candidates != []
    ensures IsFirstNearest(CandidateDistances(candidates, cw), best)
  {
    hide CandidateDistances, CandidateDistance, Closer, IsFirstNearest;
    ghost var ds := CandidateDistances(candidates, cw);
    best := 0;
    var bestDist := MeasureCandidate(candidates[0], cw);
    SingleCandidateChosen(ds[..1]);
    var i := 1;
    while i < |candidates|
      invariant 1 <= i <= |candidates| && best < i
      invariant IsFirstNearest(ds[..i], best)
      invariant bestDist == ds[best]
    {
      var d := MeasureCandidate(candidates[i], cw);
      FirstNearestStep(ds, i, best);
      if Closer(d, bestDist) {
        best := i;
        bestDist := d;
      }
      i := i + 1;
    }
    assert ds[..i] == ds;
  }

  /** The distance of one candidate, resolved at week 0 first. */
  method MeasureCandidate(c: Lesson, cw: int) returns (d: Dist)
    ensures d == CandidateDistance(c, cw)
  {
    d := LessonDistance(Some(ResolveLessonDetails(c, 0)), cw);
  }

  /** One more step of the scan for the first nearest distance. */
  lemma {:induction false} FirstNearestStep(ds: seq<Dist>, i: nat, best: nat)
    requires i < |ds| && IsFirstNearest(ds[..i], best)
    ensures Closer(ds[i], ds[best]) ==> IsFirstNearest(ds[..i + 1], i)
    ensures !Closer(ds[i], ds[best]) ==> IsFirstNearest(ds[..i + 1], best)
  {
    var p := ds[..i + 1];
    assert forall j :: 0 <= j < i ==> p[j] == ds[..i][j];
    if Closer(ds[i], ds[best]) {
      forall j | 0 <= j < i ensures Closer(p[i], p[j]) {
        assert !Closer(ds[..i][j], ds[..i][best]);
      }
    }
  }

  /** With a single candidate, that candidate is shown, whatever its weeks. */
  lemma {:induction false} SingleCandidateChosen(ds: seq<Dist>)
    requires |ds| == 1
    ensures IsFirstNearest(ds, 0)
  {
  }

  /** A candidate taking place in the current week beats every candidate that does not. */
  lemma {:induction false} ActiveCandidateWins(ds: seq<Dist>, i: int, a: nat)
    requires IsFirstNearest(ds, i) && a < |ds| && ds[a] == Finite(0)
    ensures ds[i] == Finite(0) && i <= a
  {
    assert !Closer(ds[a], ds[i]);
  }
}
