/**
 * Week lists of the timetable (ScheduleBot/src/parsers/schedule.js):
 * reading free-text lists such as "23-25, 27" into a set of week numbers and
 * rendering a set back as "23–27 нед." or "23,25 нед.".
 */
module WeekSets {
  import opened Wrappers
  import opened Text
  import opened Sorting

  const WeeksSuffix: string := " нед."

  /** The two range separators `[-–]` accepted between week numbers. */
  predicate IsDash(c: char) { c == '-' || c == '–' }

  /**
   * `(\d+)\s*[-–]\s*(\d+)` tried at position `i`: digits, optional white space, a
   * dash, optional white space, digits. Gives the two numbers.
   */
  function RangeAt(t: string, i: nat): (r: Option<(nat, nat)>)
    requires i < |t| && IsDigit(t[i])
  {
    var j := DigitsEnd(t, i);
    var k := SpacesEnd(t, j);
    if k < |t| && IsDash(t[k]) then
      var m := SpacesEnd(t, k + 1);
      if m < |t| && IsDigit(t[m]) then
        var n := DigitsEnd(t, m);
        Some((DigitsValue(t[i..j]), DigitsValue(t[m..n])))
      else None
    else None
  }

  /** The leftmost match of the range pattern at or after `i`. */
  function FirstRangeFrom(t: string, i: nat): Option<(nat, nat)>
    requires i <= |t|
    decreases |t| - i
  {
    if i == |t| then None
    else if IsDigit(t[i]) && RangeAt(t, i).Some? then RangeAt(t, i)
    else FirstRangeFrom(t, i + 1)
  }

  /** The leftmost run of digits at or after `i`, as a number (`/(\d+)/`). */
  function FirstNumberFrom(t: string, i: nat): Option<nat>
    requires i <= |t|
    decreases |t| - i
  {
    if i == |t| then None
    else if IsDigit(t[i]) then Some(DigitsValue(t[i..DigitsEnd(t, i)]))
    else FirstNumberFrom(t, i + 1)
  }

  /** The weeks `a..b` inclusive; empty when `a > b`. */
  function Interval(a: int, b: int): (r: set<int>)
    ensures forall w :: w in r <==> a <= w <= b
    decreases b - a
  {
    if a > b then {} else Interval(a, b - 1) + {b}
  }

  /** What one trimmed comma-separated token contributes: a whole range, or one number, or nothing. */
  function TokenWeeks(token: string): (r: set<int>)
    ensures forall w :: w in r ==> w >= 0
  {
    match FirstRangeFrom(token, 0)
    case Some((a, b)) => Interval(a, b)
    case None =>
      match FirstNumberFrom(token, 0)
      case Some(n) => {n}
      case None => {}
  }

  /** The weeks contributed by the tokens `parts`. */
  function UnionOfTokens(parts: seq<string>): (r: set<int>)
    ensures forall w :: w in r ==> w >= 0
  {
    if parts == [] then {} else TokenWeeks(Trim(parts[0])) + UnionOfTokens(parts[1..])
  }

  /** The set of weeks a free-text list denotes. */
  function WeeksOf(s: string): (r: set<int>)
    ensures forall w :: w in r ==> w >= 0
  {
    if s == [] then {} else UnionOfTokens(Split(s, ','))
  }

  /**
   * `parseWeeksToSet`: splits on ',' and, for each trimmed token, adds every week
   * of its first range or its first number. It never fails.
   */
  method ParseWeeksToSet(s: string) returns (weeks: set<int>)
    ensures weeks == WeeksOf(s)
  {
    hide TokenWeeks, Trim, Split;
    weeks := {};
    if s == [] { return; }
    var parts := Split(s, ',');
    var p := 0;
    while p < |parts|
      invariant 0 <= p <= |parts|
      invariant weeks + UnionOfTokens(parts[p..]) == UnionOfTokens(parts)
    {
      assert parts[p..][1..] == parts[p + 1..];
      assert UnionOfTokens(parts[p..]) == TokenWeeks(Trim(parts[p])) + UnionOfTokens(parts[p + 1..]);
      weeks := AddToken(weeks, Trim(parts[p]));
      p := p + 1;
    }
  }

  /** The body of the loop over tokens: a range adds each of its weeks, otherwise the first number. */
  method AddToken(weeks: set<int>, trimmed: string) returns (r: set<int>)
    ensures r == weeks + TokenWeeks(trimmed)
  {
    r := weeks;
    match FirstRangeFrom(trimmed, 0)
    case Some((start, end)) =>
      var i := start;
      while i <= end
        invariant start <= i <= if start <= end then end + 1 else start
        invariant r == weeks + Interval(start, i - 1)
      {
        r := r + {i};
        i := i + 1;
      }
    case None =>
      match FirstNumberFrom(trimmed, 0)
      case Some(n) => r := r + {n};
      case None =>
  }

  // ---------------------------------------------------------------- rendering

  /** Consecutive elements differ by exactly `step`. */
  predicate StepRun(s: seq<int>, step: int) { forall i :: 0 < i < |s| ==> s[i] == s[i - 1] + step }

  /** When `normalizeWeeks` prints "first–last" instead of listing every week. */
  predicate PrintsSpan(sorted: seq<int>) {
    (StepRun(sorted, 1) && |sorted| > 2) || (StepRun(sorted, 2) && |sorted| > 2) || |sorted| > 3
  }

  /** `xs.join(',')` for numbers. */
  function JoinNumbers(xs: seq<int>): string
    requires xs != []
  {
    if |xs| == 1 then IntToString(xs[0]) else IntToString(xs[0]) + "," + JoinNumbers(xs[1..])
  }

  lemma {:induction false} JoinNumbersStarts(xs: seq<int>)
    requires xs != []
    ensures StartsWith(JoinNumbers(xs), IntToString(xs[0]))
  {
    if |xs| == 1 {
      assert JoinNumbers(xs) == IntToString(xs[0]);
      assert JoinNumbers(xs)[..|IntToString(xs[0])|] == IntToString(xs[0]);
    } else {
      PrefixAndSuffix(IntToString(xs[0]), "," + JoinNumbers(xs[1..]));
      assert JoinNumbers(xs) == IntToString(xs[0]) + ("," + JoinNumbers(xs[1..]));
    }
  }

  lemma {:induction false} JoinNumbersEnds(xs: seq<int>)
    requires xs != []
    ensures EndsWith(JoinNumbers(xs), IntToString(xs[|xs| - 1]))
  {
    if |xs| == 1 {
      assert JoinNumbers(xs) == IntToString(xs[0]);
      assert JoinNumbers(xs)[|JoinNumbers(xs)| - |IntToString(xs[0])|..] == IntToString(xs[0]);
    } else {
      JoinNumbersEnds(xs[1..]);
      EndsWithAppend(IntToString(xs[0]) + ",", JoinNumbers(xs[1..]), IntToString(xs[|xs| - 1]));
    }
  }

  /** The span rendering "lo–hi нед.". */
  function Span(lo: int, hi: int): string {
    IntToString(lo) + "–" + IntToString(hi) + WeeksSuffix
  }

  /**
   * `normalizeWeeks`: "" for no weeks; otherwise either the span
   * "min–max нед." or the ascending list "a,b,c нед.".
   */
  function NormalizeWeeks(ws: set<int>): (r: string)
    ensures r == "" <==> ws == {}
  {
    if ws == {} then ""
    else
      var sorted := Ascending(ws);
      if PrintsSpan(sorted) then Span(sorted[0], sorted[|sorted| - 1])
      else JoinNumbers(sorted) + WeeksSuffix
  }

  /** The two renderings of a non-empty set. */
  lemma NormalizeWeeksCases(ws: set<int>)
    requires ws != {}
    ensures PrintsSpan(Ascending(ws)) ==>
      NormalizeWeeks(ws) == Span(Ascending(ws)[0], Ascending(ws)[|Ascending(ws)| - 1])
    ensures !PrintsSpan(Ascending(ws)) ==> NormalizeWeeks(ws) == JoinNumbers(Ascending(ws)) + WeeksSuffix
  {
  }

  /** The first number `normalizeWeeks` prints is the smallest week and the last is the largest. */
  lemma {:induction false} NormalizeWeeksEnds(ws: set<int>)
    requires ws != {}
    ensures StartsWith(NormalizeWeeks(ws), IntToString(SetMin(ws)))
    ensures EndsWith(NormalizeWeeks(ws), IntToString(SetMax(ws)) + WeeksSuffix)
  {
    NormalizeWeeksCases(ws);
    hide NormalizeWeeks, JoinNumbers, IntToString, Ascending, SetMin, SetMax, StartsWith, EndsWith, Span;
    var sorted := Ascending(ws);
    AscendingEnds(ws);
    if PrintsSpan(sorted) {
      SpanEnds(sorted[0], sorted[|sorted| - 1]);
    } else {
      ListEnds(sorted);
    }
  }

  lemma SpanEnds(a: int, b: int)
    ensures StartsWith(Span(a, b), IntToString(a)) && EndsWith(Span(a, b), IntToString(b) + WeeksSuffix)
  {
    var lo, hi := IntToString(a), IntToString(b);
    PrefixAndSuffix(lo, "–" + hi + WeeksSuffix);
    PrefixAndSuffix(lo + "–", hi + WeeksSuffix);
    assert Span(a, b) == lo + ("–" + hi + WeeksSuffix) == (lo + "–") + (hi + WeeksSuffix);
  }

  lemma ListEnds(xs: seq<int>)
    requires xs != []
    ensures StartsWith(JoinNumbers(xs) + WeeksSuffix, IntToString(xs[0]))
    ensures EndsWith(JoinNumbers(xs) + WeeksSuffix, IntToString(xs[|xs| - 1]) + WeeksSuffix)
  {
    hide JoinNumbers;
    JoinNumbersStarts(xs);
    JoinNumbersEnds(xs);
    StartsWithAppend(JoinNumbers(xs), WeeksSuffix, IntToString(xs[0]));
    EndsWithConcat(JoinNumbers(xs), IntToString(xs[|xs| - 1]), WeeksSuffix);
  }

  /** Sets of at most two weeks are always listed; more than three always print as a span. */
  lemma NormalizeWeeksShape(ws: set<int>)
    requires ws != {}
    ensures |ws| <= 2 ==> NormalizeWeeks(ws) == JoinNumbers(Ascending(ws)) + WeeksSuffix
    ensures |ws| > 3 ==> NormalizeWeeks(ws) == Span(SetMin(ws), SetMax(ws))
  {
    AscendingEnds(ws);
  }

  /** An ascending run with step 1 holds exactly the weeks between its ends. */
  lemma {:induction false} StepOneRunIsInterval(xs: seq<int>)
    requires xs != [] && StepRun(xs, 1)
    ensures forall w :: w in xs <==> xs[0] <= w <= xs[|xs| - 1]
  {
    assert forall i :: 0 <= i < |xs| ==> xs[i] == xs[0] + i by {
      forall i | 0 <= i < |xs| ensures xs[i] == xs[0] + i {
        var k := 0;
        while k < i
          invariant 0 <= k <= i
          invariant xs[k] == xs[0] + k
        {
          k := k + 1;
        }
      }
    }
    forall w | xs[0] <= w <= xs[|xs| - 1] ensures w in xs {
      assert xs[w - xs[0]] == w;
    }
  }

  lemma {:induction false} DigitsHaveNoComma(s: string)
    requires AllDigits(s)
    ensures ',' !in s && NoDash(s)
  {
    assert forall k :: 0 <= k < |s| ==> s[k] != ',' && !IsDash(s[k]) by {
      forall k | 0 <= k < |s| ensures s[k] != ',' && !IsDash(s[k]) { assert IsDigit(s[k]); }
    }
  }

  lemma SuffixFacts()
    ensures ',' !in WeeksSuffix && NoDash(WeeksSuffix)
    ensures !IsDigit(WeeksSuffix[0]) && WeeksSuffix[|WeeksSuffix| - 1] == '.'
  {}

  /** A list without commas and without surrounding white space is one token. */
  lemma SingleTokenWeeks(t: string)
    requires t != [] && ',' !in t && NoSpaceAtEnds(t)
    ensures WeeksOf(t) == TokenWeeks(t)
  {
    SplitNoSep(t, ',');
    TrimOfClean(t);
    assert [t][1..] == [];
    assert UnionOfTokens([t]) == TokenWeeks(Trim(t)) + UnionOfTokens([]);
  }

  /** Prefixing a list with "a," adds the weeks of the token `a`. */
  lemma {:induction false} WeeksOfCons(a: string, rest: string)
    requires ',' !in a && rest != []
    ensures WeeksOf(a + [','] + rest) == TokenWeeks(Trim(a)) + WeeksOf(rest)
  {
    SplitPrefix(a, rest, ',');
    var parts := [a] + Split(rest, ',');
    assert parts[0] == a && parts[1..] == Split(rest, ',');
  }

  /** A number followed by " нед." reads back as that number. */
  lemma {:induction false} LastListedToken(x: nat)
    ensures WeeksOf(NatToString(x) + WeeksSuffix) == {x}
  {
    var a := NatToString(x);
    var t := a + WeeksSuffix;
    SuffixFacts();
    DigitsHaveNoComma(a);
    assert ',' !in t;
    assert t[0] == a[0] && t[|t| - 1] == '.';
    SingleTokenWeeks(t);
    NumberToken(a, WeeksSuffix);
    NatToStringValue(x);
  }

  /** A bare number reads back as that number. */
  lemma {:induction false} ListedToken(x: nat)
    ensures TokenWeeks(Trim(NatToString(x))) == {x}
  {
    var a := NatToString(x);
    DigitsHaveNoComma(a);
    assert NoSpaceAtEnds(a);
    TrimOfClean(a);
    NumberToken(a, "");
    assert a + "" == a;
    NatToStringValue(x);
  }

  lemma JoinNumbersCons(xs: seq<int>)
    requires |xs| > 1 && xs[0] >= 0
    ensures JoinNumbers(xs) + WeeksSuffix == NatToString(xs[0]) + [','] + (JoinNumbers(xs[1..]) + WeeksSuffix)
  {
    assert JoinNumbers(xs) == NatToString(xs[0]) + "," + JoinNumbers(xs[1..]);
  }

  lemma {:induction false} WeeksOfNumberCons(x: nat, rest: string)
    requires rest != []
    ensures WeeksOf(NatToString(x) + [','] + rest) == {x} + WeeksOf(rest)
  {
    DigitsHaveNoComma(NatToString(x));
    WeeksOfCons(NatToString(x), rest);
    ListedToken(x);
  }

  lemma JoinNumbersOne(xs: seq<int>)
    requires |xs| == 1 && xs[0] >= 0
    ensures JoinNumbers(xs) == NatToString(xs[0])
  {
  }

  lemma {:induction false} WeeksOfListOne(xs: seq<int>)
    requires |xs| == 1 && xs[0] >= 0
    ensures forall w :: w in WeeksOf(JoinNumbers(xs) + WeeksSuffix) <==> w in xs
  {
    hide WeeksOf, NatToString, JoinNumbers, IntToString;
    JoinNumbersOne(xs);
    LastListedToken(xs[0]);
    assert forall w :: w in xs <==> w == xs[0];
  }

  /** Reading back a listed rendering "a,b,c нед." gives exactly the listed weeks. */
  lemma {:induction false} WeeksOfList(xs: seq<int>)
    requires xs != [] && forall i :: 0 <= i < |xs| ==> xs[i] >= 0
    ensures forall w :: w in WeeksOf(JoinNumbers(xs) + WeeksSuffix) <==> w in xs
    decreases |xs|, 1
  {
    if |xs| == 1 { WeeksOfListOne(xs); } else { WeeksOfListMore(xs); }
  }

  lemma {:induction false} WeeksOfListMore(xs: seq<int>)
    requires |xs| > 1 && forall i :: 0 <= i < |xs| ==> xs[i] >= 0
    ensures forall w :: w in WeeksOf(JoinNumbers(xs) + WeeksSuffix) <==> w in xs
    decreases |xs|, 0
  {
    var rest := JoinNumbers(xs[1..]) + WeeksSuffix;
    var whole := JoinNumbers(xs) + WeeksSuffix;
    JoinNumbersCons(xs);
    WeeksOfNumberCons(xs[0], rest);
    assert WeeksOf(whole) == {xs[0]} + WeeksOf(rest);
    WeeksOfList(xs[1..]);
    forall w ensures w in WeeksOf(whole) <==> w in xs {
      assert xs == [xs[0]] + xs[1..];
    }
  }

  /** Reading back a span rendering "lo–hi нед." gives the weeks lo..hi. */
  lemma {:induction false} WeeksOfSpan(lo: nat, hi: nat)
    ensures WeeksOf(Span(lo, hi)) == Interval(lo, hi)
  {
    var a, b := NatToString(lo), NatToString(hi);
    var t := a + ['–'] + b + WeeksSuffix;
    assert Span(lo, hi) == t;
    SuffixFacts();
    DigitsHaveNoComma(a);
    DigitsHaveNoComma(b);
    assert ',' !in t;
    assert t[0] == a[0] && t[|t| - 1] == '.';
    SingleTokenWeeks(t);
    NatToStringValue(lo);
    NatToStringValue(hi);
    RangeToken(a, '–', b, WeeksSuffix);
  }

  /**
   * Reading back what `normalizeWeeks` prints gives a set with the same first
   * and last week; it gives the very same set when the weeks were listed or
   * formed an unbroken run.
   */
  lemma {:induction false} NormalizeWeeksRoundTrip(ws: set<int>)
    requires ws != {} && forall w :: w in ws ==> w >= 0
    ensures WeeksOf(NormalizeWeeks(ws)) != {}
    ensures SetMin(WeeksOf(NormalizeWeeks(ws))) == SetMin(ws)
    ensures SetMax(WeeksOf(NormalizeWeeks(ws))) == SetMax(ws)
    ensures !PrintsSpan(Ascending(ws)) || StepRun(Ascending(ws), 1) ==> WeeksOf(NormalizeWeeks(ws)) == ws
  {
    hide NormalizeWeeks, WeeksOf, Interval, Ascending;
    if PrintsSpan(Ascending(ws)) {
      RoundTripSpan(ws);
      var lo, hi := SetMin(ws), SetMax(ws);
      assert lo in Interval(lo, hi) && hi in Interval(lo, hi);
    } else {
      RoundTripList(ws);
    }
  }

  lemma {:induction false} RoundTripSpan(ws: set<int>)
    requires ws != {} && forall w :: w in ws ==> w >= 0
    requires PrintsSpan(Ascending(ws))
    ensures WeeksOf(NormalizeWeeks(ws)) == Interval(SetMin(ws), SetMax(ws))
    ensures SetMin(ws) < SetMax(ws)
    ensures StepRun(Ascending(ws), 1) ==> Interval(SetMin(ws), SetMax(ws)) == ws
  {
    hide WeeksOf, Span, JoinNumbers;
    var sorted := Ascending(ws);
    AscendingEnds(ws);
    var lo, hi := sorted[0], sorted[|sorted| - 1];
    assert lo in ws && hi in ws;
    WeeksOfSpan(lo, hi);
    if StepRun(sorted, 1) {
      StepOneRunIsInterval(sorted);
    }
  }

  lemma {:induction false} RoundTripList(ws: set<int>)
    requires ws != {} && forall w :: w in ws ==> w >= 0
    requires !PrintsSpan(Ascending(ws))
    ensures WeeksOf(NormalizeWeeks(ws)) == ws
  {
    var sorted := Ascending(ws);
    assert forall i :: 0 <= i < |sorted| ==> sorted[i] >= 0 by {
      forall i | 0 <= i < |sorted| ensures sorted[i] >= 0 { assert sorted[i] in ws; }
    }
    WeeksOfList(sorted);
  }

  // ---------------------------------------------------------------- facts about tokens

  predicate NoDash(t: string) { forall k :: 0 <= k < |t| ==> !IsDash(t[k]) }

  lemma {:induction false} NoDashNoRange(t: string, i: nat)
    requires i <= |t| && NoDash(t)
    ensures FirstRangeFrom(t, i) == None
    decreases |t| - i
  {
    if i < |t| { NoDashNoRange(t, i + 1); }
  }

  /** A token holding one number and no dash contributes exactly that number. */
  lemma {:induction false} NumberToken(a: string, tail: string)
    requires a != [] && AllDigits(a) && NoDash(tail)
    requires tail == [] || !IsDigit(tail[0])
    ensures TokenWeeks(a + tail) == {DigitsValue(a)}
  {
    var t := a + tail;
    assert NoDash(t) by {
      forall k | 0 <= k < |t| ensures !IsDash(t[k]) {
        if k >= |a| { assert t[k] == tail[k - |a|]; }
      }
    }
    NoDashNoRange(t, 0);
    DigitsEndRun(t, 0, |a|);
    assert t[0..|a|] == a;
  }

  /** A token "a-b" (or "a–b") followed by a non-digit contributes the weeks a..b. */
  lemma {:induction false} RangeToken(a: string, d: char, b: string, tail: string)
    requires a != [] && AllDigits(a) && b != [] && AllDigits(b) && IsDash(d)
    requires tail == [] || !IsDigit(tail[0])
    ensures TokenWeeks(a + [d] + b + tail) == Interval(DigitsValue(a), DigitsValue(b))
  {
    hide DigitsValue, Interval, FirstNumberFrom;
    var t := a + [d] + b + tail;
    var j := |a|;
    var e := j + 1 + |b|;
    assert forall k :: 0 <= k < j ==> t[k] == a[k];
    assert forall k :: j + 1 <= k < e ==> t[k] == b[k - j - 1];
    assert t[j] == d;
    assert e == |t| || t[e] == tail[0];
    DigitsEndRun(t, 0, j);
    assert SpacesEnd(t, j) == j;
    assert SpacesEnd(t, j + 1) == j + 1 by { assert t[j + 1] == b[0]; }
    DigitsEndRun(t, j + 1, e);
    assert t[0..j] == a;
    assert t[j + 1..e] == b;
    assert RangeAt(t, 0) == Some((DigitsValue(a), DigitsValue(b)));
  }

  /** "23-25,27" denotes weeks 23, 24, 25 and 27. */
  lemma {:induction false} WeeksExample()
    ensures WeeksOf("23-25,27") == {23, 24, 25, 27}
  {
    hide Split, Trim, TokenWeeks, Interval;
    ExampleSplit();
    ExampleRangeToken();
    ExampleNumberToken();
    assert Interval(23, 25) == {23, 24, 25};
  }

  lemma ExampleSplit()
    ensures Split("23-25,27", ',') == ["23-25", "27"]
  {
    assert "23-25,27" == "23-25" + [','] + "27";
    SplitPrefix("23-25", "27", ',');
    SplitNoSep("27", ',');
  }

  lemma ExampleRangeToken()
    ensures TokenWeeks(Trim("23-25")) == Interval(23, 25)
  {
    TrimOfClean("23-25");
    ExampleRange();
  }

  lemma ExampleRange()
    ensures TokenWeeks("23-25") == Interval(23, 25)
  {
    hide TokenWeeks, Interval, FirstRangeFrom, FirstNumberFrom, Trim;
    RangeToken("23", '-', "25", "");
    assert "23" + ['-'] + "25" + "" == "23-25";
  }

  lemma ExampleNumberToken()
    ensures TokenWeeks(Trim("27")) == {27}
  {
    TrimOfClean("27");
    ExampleNumber();
  }

  lemma ExampleNumber()
    ensures TokenWeeks("27") == {27}
  {
    NumberToken("27", "");
    assert "27" + "" == "27";
  }
}
