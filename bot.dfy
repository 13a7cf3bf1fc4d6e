/**
 * The pure helpers of the Telegram front end (`bot.js`): the main reply
 * keyboard, the typed notification time, the paged group list and the
 * splitting of long replies.
 */
module Bot {
  import opened Wrappers
  import opened Text

  /** Telegram's limit on one message. */
  const MaxLength: nat := 4096
  /** The part length `splitMessage` aims for: the limit less a margin of 100. */
  const PartLimit: nat := MaxLength - 100
  const GroupsPerPage: nat := 8

  // ---------------------------------------------------------------- getMainKeyboard

  datatype Button = Today | Week | ChangeGroup | Subscribe | Unsubscribe | SetTime | SelectGroup | Help

  /** The text each reply button sends back. */
  function Label(b: Button): string {
    match b
    case Today => "\U{1F4CC} Сегодня"
    case Week => "\U{1F4C5} Неделя"
    case ChangeGroup => "\U{1F50D} Сменить группу"
    case Subscribe => "\U{1F514} Включить рассылку"
    case Unsubscribe => "\U{1F515} Отключить рассылку"
    case SetTime => "\U{1F550} Настроить время"
    case SelectGroup => "\U{1F50D} Выбрать группу"
    case Help => "\U{2753} Помощь"
  }

  /** Some row of the keyboard holds `b`. */
  predicate Offers(rows: seq<seq<Button>>, b: Button) {
    exists k :: 0 <= k < |rows| && b in rows[k]
  }

  /**
   * `getMainKeyboard`: schedule buttons, the group change and a subscription
   * toggle for a user with a group, the time setting only while subscribed,
   * group selection otherwise, and help always in the last row.
   */
  method MainKeyboard(hasGroup: bool, isSubscribed: bool) returns (rows: seq<seq<Button>>)
    ensures |rows| == (if !hasGroup then 2 else if isSubscribed then 4 else 3)
    ensures rows[|rows| - 1] == [Help]
    ensures forall k :: 0 <= k < |rows| ==> 1 <= |rows[k]| <= 2
    ensures Offers(rows, Today) <==> hasGroup
    ensures Offers(rows, Week) <==> hasGroup
    ensures Offers(rows, ChangeGroup) <==> hasGroup
    ensures Offers(rows, SelectGroup) <==> !hasGroup
    ensures Offers(rows, Subscribe) <==> hasGroup && !isSubscribed
    ensures Offers(rows, Unsubscribe) <==> hasGroup && isSubscribed
    ensures Offers(rows, SetTime) <==> hasGroup && isSubscribed
  {
    rows := [];
    if hasGroup {
      rows := rows + [[Today, Week]];
      rows := rows + [[ChangeGroup, if isSubscribed then Unsubscribe else Subscribe]];
      if isSubscribed {
        rows := rows + [[SetTime]];
      }
    } else {
      rows := rows + [[SelectGroup]];
    }
    rows := rows + [[Help]];
    assert rows[|rows| - 1] == [Help];
    if hasGroup {
      assert Today in rows[0] && Week in rows[0] && ChangeGroup in rows[1];
      assert (if isSubscribed then Unsubscribe else Subscribe) in rows[1];
      if isSubscribed { assert SetTime in rows[2]; }
    } else {
      assert SelectGroup in rows[0];
    }
  }

  // ---------------------------------------------------------------- time input

  /** `/^(\d{1,2}):(\d{2})$/`: the hour and minute read from "H:MM" or "HH:MM". */
  function TimeMatch(text: string): (r: Option<(nat, nat)>)
    ensures r.Some? ==> r.value.0 < 100 && r.value.1 < 100
    ensures r.Some? ==> (|text| == 4 || |text| == 5) && text[|text| - 3] == ':'
  {
    if |text| == 4 && IsDigit(text[0]) && text[1] == ':' && IsDigit(text[2]) && IsDigit(text[3]) then
      Some((DigitValue(text[0]), 10 * DigitValue(text[2]) + DigitValue(text[3])))
    else if |text| == 5 && IsDigit(text[0]) && IsDigit(text[1]) && text[2] == ':' && IsDigit(text[3]) && IsDigit(text[4]) then
      Some((10 * DigitValue(text[0]) + DigitValue(text[1]), 10 * DigitValue(text[3]) + DigitValue(text[4])))
    else None
  }

  /** `String(n).padStart(2, '0')`. */
  function Pad2(n: nat): (r: string)
    requires n < 100
    ensures r == [DigitChar(n / 10), DigitChar(n % 10)]
  {
    var s := NatToString(n);
    if n < 10 then
      assert s == [DigitChar(n)] && DigitChar(0) == '0';
      if |s| >= 2 then s else "0" + s
    else
      assert NatToString(n / 10) == [DigitChar(n / 10)];
      if |s| >= 2 then s else "0" + s
  }

  /** The stored form "HH:MM". */
  function Clock(h: nat, m: nat): string
    requires h < 100 && m < 100
  {
    Pad2(h) + ":" + Pad2(m)
  }

  /**
   * The time typed by a subscribed user: accepted only for an hour below 24 and
   * a minute below 60, and then stored as "HH:MM" that reads back as the same
   * hour and minute.
   */
  function NormalizeTime(text: string, subscribed: bool): (r: Option<string>)
    ensures r.Some? <==>
              subscribed && TimeMatch(text).Some? && TimeMatch(text).value.0 < 24 && TimeMatch(text).value.1 < 60
    ensures r.Some? ==> |r.value| == 5 && TimeMatch(r.value) == TimeMatch(text)
  {
    match TimeMatch(text)
    case Some((h, m)) =>
      if subscribed && h < 24 && m < 60 then
        ClockReadsBack(h, m);
        Some(Clock(h, m))
      else None
    case None => None
  }

  /** A stored time reads back as its hour and minute. */
  lemma ClockReadsBack(h: nat, m: nat)
    requires h < 100 && m < 100
    ensures TimeMatch(Clock(h, m)) == Some((h, m))
  {
    var c := Clock(h, m);
    assert c == [DigitChar(h / 10), DigitChar(h % 10), ':', DigitChar(m / 10), DigitChar(m % 10)];
  }

  /** Normalising a stored time gives it back unchanged. */
  lemma NormalizeTimeIdempotent(text: string)
    requires NormalizeTime(text, true).Some?
    ensures NormalizeTime(NormalizeTime(text, true).value, true) == NormalizeTime(text, true)
  {
    var t := NormalizeTime(text, true).value;
    var hm := TimeMatch(text).value;
    ClockReadsBack(hm.0, hm.1);
  }

  /** A valid time typed with a one-digit hour ("7:05") is stored with a leading zero ("07:05"), its digits unchanged. */
  lemma OneDigitHourPadded(h: char, m1: char, m2: char)
    requires IsDigit(h) && IsDigit(m1) && IsDigit(m2) && 10 * DigitValue(m1) + DigitValue(m2) < 60
    ensures NormalizeTime([h, ':', m1, m2], true) == Some(['0', h, ':', m1, m2])
  {
    var hv := DigitValue(h);
    var m := 10 * DigitValue(m1) + DigitValue(m2);
    assert TimeMatch([h, ':', m1, m2]) == Some((hv, m));
    assert hv / 10 == 0 && hv % 10 == hv;
    assert m / 10 == DigitValue(m1) && m % 10 == DigitValue(m2);
    DigitCharOfValue(h);
    DigitCharOfValue(m1);
    DigitCharOfValue(m2);
    assert Pad2(hv) == ['0', h] && Pad2(m) == [m1, m2];
    assert Clock(hv, m) == ['0', h, ':', m1, m2];
  }

  lemma DigitCharOfValue(c: char)
    requires IsDigit(c)
    ensures DigitChar(DigitValue(c)) == c && DigitChar(0) == '0'
  {
    assert DigitChar(DigitValue(c)) as int == c as int;
  }

  // ---------------------------------------------------------------- showGroupSelection

  datatype Nav = Back(target: int) | Forward(target: int)

  /** One page of the group list, its position, and the navigation buttons under it. */
  datatype PageView<T> = PageView(current: int, total: nat, items: seq<T>, nav: seq<Nav>)

  /** `Array.prototype.slice(start, end)`, negative positions counting from the end. */
  function Slice<T>(s: seq<T>, start: int, end: int): (r: seq<T>)
    ensures 0 <= start <= end <= |s| ==> r == s[start..end]
    ensures |r| <= |s|
  {
    var a := if start < 0 then (if |s| + start < 0 then 0 else |s| + start) else if start > |s| then |s| else start;
    var b := if end < 0 then (if |s| + end < 0 then 0 else |s| + end) else if end > |s| then |s| else end;
    if a < b then s[a..b] else []
  }

  /**
   * `showGroupSelection` at `page`: `ceil(n / 8)` pages, the requested page
   * clamped to the last, its at most eight groups, a back button exactly when
   * there is an earlier page and a forward button exactly when there is a later one.
   */
  function GroupPage<T>(groups: seq<T>, page: nat): (r: PageView<T>)
    ensures r.total * GroupsPerPage >= |groups| > (r.total - 1) * GroupsPerPage
    ensures |groups| > 0 ==>
              && r.current == (if page < r.total then page else r.total - 1)
              && r.items == groups[r.current * GroupsPerPage..if (r.current + 1) * GroupsPerPage < |groups| then (r.current + 1) * GroupsPerPage else |groups|]
    ensures |groups| == 0 ==> r.total == 0 && r.items == [] && r.nav == []
    ensures |r.items| <= GroupsPerPage
    ensures |r.nav| <= 2
    ensures (exists b :: b in r.nav && b.Back?) <==> r.current > 0
    ensures (exists b :: b in r.nav && b.Forward?) <==> r.current < r.total - 1
    ensures forall b :: b in r.nav ==> b.target == if b.Back? then r.current - 1 else r.current + 1
  {
    var total := (|groups| + GroupsPerPage - 1) / GroupsPerPage;
    var current := if page < total - 1 then page else total - 1;
    var start := current * GroupsPerPage;
    var end := if start + GroupsPerPage < |groups| then start + GroupsPerPage else |groups|;
    var back := if current > 0 then [Back(current - 1)] else [];
    var forward := if current < total - 1 then [Forward(current + 1)] else [];
    assert forall b :: b in back + forward ==> b in back || b in forward;
    assert current > 0 ==> Back(current - 1) in back + forward;
    assert current < total - 1 ==> Forward(current + 1) in back + forward;
    PageView(current, total, Slice(groups, start, end), back + forward)
  }

  /** Every group is on page `k / 8`, at place `k % 8`. */
  lemma GroupOnItsPage<T>(groups: seq<T>, k: nat)
    requires k < |groups|
    ensures GroupPage(groups, k / GroupsPerPage).current == k / GroupsPerPage
    ensures GroupPage(groups, k / GroupsPerPage).items[k % GroupsPerPage] == groups[k]
  {
    hide GroupPage;
    var q := k / GroupsPerPage;
    var m := k % GroupsPerPage;
    assert k == q * GroupsPerPage + m && 0 <= m < GroupsPerPage;
    var r := GroupPage(groups, q);
    assert q < r.total;
    assert r.current == q;
    assert r.items[m] == groups[q * GroupsPerPage + m];
  }

  /** A page past the end shows the last page. */
  lemma PageClamped<T>(groups: seq<T>, page: nat)
    requires |groups| > 0 && page * GroupsPerPage >= |groups|
    ensures GroupPage(groups, page) == GroupPage(groups, (|groups| - 1) / GroupsPerPage)
  {
  }

  // ---------------------------------------------------------------- splitMessage

  /** The parts cut so far, untrimmed, and the part being filled. */
  datatype Cut = Cut(blocks: seq<string>, current: string)

  /**
   * One line of the loop: start a new part when the line would take a non-empty
   * part past the limit, counted in UTF-16 code units as `.length` counts, else append it.
   */
  function CutStep(c: Cut, line: string): Cut {
    if Utf16Length(c.current + "\n" + line) > PartLimit && |c.current| > 0 then Cut(c.blocks + [c.current], line)
    else Cut(c.blocks, c.current + (if c.current != "" then "\n" else "") + line)
  }

  function CutLines(lines: seq<string>): Cut
    decreases |lines|
  {
    if lines == [] then Cut([], "") else CutStep(CutLines(lines[..|lines| - 1]), lines[|lines| - 1])
  }

  function Trims(ss: seq<string>): (r: seq<string>)
    ensures |r| == |ss| && forall k :: 0 <= k < |ss| ==> r[k] == Trim(ss[k])
  {
    seq(|ss|, k requires 0 <= k < |ss| => Trim(ss[k]))
  }

  lemma TrimsSnoc(ss: seq<string>, x: string)
    ensures Trims(ss + [x]) == Trims(ss) + [Trim(x)]
  {
    hide Trim;
    assert forall k :: 0 <= k < |ss| + 1 ==> Trims(ss + [x])[k] == (Trims(ss) + [Trim(x)])[k];
  }

  /** The parts of a message: the trimmed blocks, then the trimmed remainder unless it is blank. */
  function MessageParts(message: string): (r: seq<string>)
    ensures forall k :: 0 <= k < |r| ==> NoSpaceAtEnds(r[k])
  {
    var c := CutLines(Split(message, '\n'));
    Trims(c.blocks) + (if Trim(c.current) != "" then [Trim(c.current)] else [])
  }

  /** `splitMessage`: the loop over the message's lines. */
  method SplitMessage(message: string) returns (parts: seq<string>)
    ensures parts == MessageParts(message)
  {
    hide Trim, Split;
    var lines := Split(message, '\n');
    parts := [];
    var current := "";
    for i := 0 to |lines|
      invariant parts == Trims(CutLines(lines[..i]).blocks) && current == CutLines(lines[..i]).current
    {
      assert lines[..i + 1][..i] == lines[..i];
      assert CutLines(lines[..i + 1]) == CutStep(CutLines(lines[..i]), lines[i]);
      if Utf16Length(current + "\n" + lines[i]) > PartLimit && |current| > 0 {
        TrimsSnoc(CutLines(lines[..i]).blocks, current);
        parts := parts + [Trim(current)];
        current := lines[i];
      } else {
        current := current + (if current != "" then "\n" else "") + lines[i];
      }
    }
    assert lines[..|lines|] == lines;
    if Trim(current) != "" {
      parts := parts + [Trim(current)];
    }
  }

  /** The text without its line breaks. */
  function Unlines(s: string): (r: string)
    ensures '\n' !in s ==> r == s
  {
    if s == [] then [] else (if s[0] == '\n' then [] else [s[0]]) + Unlines(s[1..])
  }

  /** The lines written one after the other. */
  function Flat(ss: seq<string>): string {
    if ss == [] then "" else ss[0] + Flat(ss[1..])
  }

  lemma {:induction false} UnlinesAppend(a: string, b: string)
    ensures Unlines(a + b) == Unlines(a) + Unlines(b)
    decreases |a|
  {
    if a != [] {
      assert (a + b)[0] == a[0] && (a + b)[1..] == a[1..] + b;
      UnlinesAppend(a[1..], b);
      var h: string := if a[0] == '\n' then [] else [a[0]];
      assert Unlines(a + b) == h + (Unlines(a[1..]) + Unlines(b));
      assert Unlines(a) == h + Unlines(a[1..]);
    } else {
      assert a + b == b;
    }
  }

  lemma {:induction false} FlatSnoc(ss: seq<string>, x: string)
    ensures Flat(ss + [x]) == Flat(ss) + x
    decreases |ss|
  {
    if ss != [] {
      assert (ss + [x])[1..] == ss[1..] + [x];
      FlatSnoc(ss[1..], x);
    }
  }

  /** The lines of a message hold all of its text but the line breaks. */
  lemma {:induction false} FlatSplit(m: string)
    ensures Flat(Split(m, '\n')) == Unlines(m)
    decreases |m|
  {
    if m != [] {
      FlatSplit(m[1..]);
    }
  }

  /** What the loop keeps: no block is empty, and every block fits the limit unless it is a single line. */
  lemma {:induction false} CutShape(lines: seq<string>)
    requires forall k :: 0 <= k < |lines| ==> '\n' !in lines[k]
    ensures forall b :: b in CutLines(lines).blocks ==> b != ""
    ensures forall b :: b in CutLines(lines).blocks + [CutLines(lines).current] ==> Fits(b)
    decreases |lines|
  {
    if lines != [] {
      var init := lines[..|lines| - 1];
      var line := lines[|lines| - 1];
      CutShape(init);
      var c := CutLines(init);
      assert CutLines(lines) == CutStep(c, line);
      assert Fits(line);
      if Utf16Length(c.current + "\n" + line) > PartLimit && |c.current| > 0 {
        assert CutLines(lines) == Cut(c.blocks + [c.current], line);
      } else if c.current == "" {
        assert c.current + "" + line == line;
        assert CutLines(lines) == Cut(c.blocks, line);
      } else {
        assert Utf16Length(c.current + "\n" + line) <= PartLimit;
        assert Fits(c.current + "\n" + line);
        assert CutLines(lines) == Cut(c.blocks, c.current + "\n" + line);
      }
    }
  }

  /** A part within the limit in UTF-16 code units, or a single line. */
  predicate Fits(b: string) { Utf16Length(b) <= PartLimit || '\n' !in b }

  /** The blocks and the current part hold all of the lines' text, in order. */
  lemma {:induction false} CutText(lines: seq<string>)
    requires forall k :: 0 <= k < |lines| ==> '\n' !in lines[k]
    ensures Unlines(Flat(CutLines(lines).blocks) + CutLines(lines).current) == Flat(lines)
    decreases |lines|
  {
    if lines != [] {
      var init := lines[..|lines| - 1];
      var line := lines[|lines| - 1];
      assert lines == init + [line];
      CutText(init);
      FlatSnoc(init, line);
      var c := CutLines(init);
      assert CutLines(lines) == CutStep(c, line);
      hide Flat, Unlines, CutLines;
      CutTextStep(c, line);
    }
  }

  /** One line adds its text after what the blocks and the current part already hold. */
  lemma CutTextStep(c: Cut, line: string)
    requires '\n' !in line
    ensures Unlines(Flat(CutStep(c, line).blocks) + CutStep(c, line).current) == Unlines(Flat(c.blocks) + c.current) + line
  {
    var f := Flat(c.blocks) + c.current;
    hide Flat, Unlines;
    if Utf16Length(c.current + "\n" + line) > PartLimit && |c.current| > 0 {
      FlatSnoc(c.blocks, c.current);
      UnlinesAppend(f, line);
    } else {
      var sep: string := if c.current != "" then "\n" else "";
      assert Flat(c.blocks) + (c.current + sep + line) == f + sep + line;
      UnlinesAppend(f + sep, line);
      UnlinesAppend(f, sep);
      UnlinesBreak(sep);
    }
  }

  lemma UnlinesBreak(sep: string)
    requires sep == "" || sep == "\n"
    ensures Unlines(sep) == ""
  {
  }

  /** Trimming neither lengthens a part nor adds a line break. */
  lemma TrimKeepsShape(s: string)
    requires Fits(s)
    ensures Fits(Trim(s))
  {
    var k :| EdgesTrimmed(s, Trim(s), k);
    Utf16LengthInfix(s, Trim(s), k);
    if '\n' in Trim(s) {
      var j :| 0 <= j < |Trim(s)| && Trim(s)[j] == '\n';
      assert s[k + j] == '\n';
    }
  }

  /** Every part fits the limit unless it is a single oversized line. */
  lemma PartsWithinLimit(message: string)
    ensures forall p :: p in MessageParts(message) ==> Fits(p)
  {
    var lines := Split(message, '\n');
    CutShape(lines);
    hide CutLines, Split, Trim, Fits, MessageParts;
    forall p | p in MessageParts(message)
      ensures Fits(p)
    {
      var b := PartFrom(message, p);
      TrimKeepsShape(b);
    }
  }

  /** A part is the trimmed text of a block or of the remainder. */
  lemma PartFrom(message: string, p: string) returns (b: string)
    requires p in MessageParts(message)
    ensures b in CutLines(Split(message, '\n')).blocks + [CutLines(Split(message, '\n')).current] && p == Trim(b)
  {
    var c := CutLines(Split(message, '\n'));
    hide CutLines, Split, Trim;
    if p in Trims(c.blocks) {
      var k :| 0 <= k < |c.blocks| && Trims(c.blocks)[k] == p;
      b := c.blocks[k];
    } else {
      b := c.current;
    }
  }

  /**
   * The replies that carry a formatted schedule: the message alone when its
   * `.length` is within Telegram's limit, else the parts of `splitMessage`.
   * Either way every reply is within the limit unless it is a single line.
   */
  function Replies(message: string): (r: seq<string>)
    ensures forall p :: p in r ==> Utf16Length(p) <= MaxLength || '\n' !in p
    ensures Utf16Length(message) > MaxLength ==> forall p :: p in r ==> NoSpaceAtEnds(p)
  {
    if Utf16Length(message) > MaxLength then
      PartsWithinLimit(message);
      MessageParts(message)
    else [message]
  }

  /** The parts are cut from the message's lines whole and in order: dropping line breaks, nothing is lost or moved. */
  lemma LinesKeptInOrder(message: string)
    ensures Unlines(Flat(CutLines(Split(message, '\n')).blocks) + CutLines(Split(message, '\n')).current) == Unlines(message)
  {
    CutText(Split(message, '\n'));
    FlatSplit(message);
  }

  /** A trimmed run of spaces is empty. */
  lemma TrimBlank()
    ensures Trim("  ") == ""
  {
    var k :| EdgesTrimmed("  ", Trim("  "), k);
  }

  /** A blank line followed by a line that does not fit is pushed as an empty part. */
  lemma BlankPartEmitted(line: string)
    requires '\n' !in line && Utf16Length(line) > PartLimit - 3
    ensures MessageParts("  \n" + line) != [] && MessageParts("  \n" + line)[0] == ""
  {
    hide Trim, Utf16Length, CutLines;
    var m := "  \n" + line;
    assert m == "  " + ['\n'] + line;
    SplitPrefix("  ", line, '\n');
    SplitNoSep(line, '\n');
    assert Split(m, '\n') == ["  ", line];
    BlankLineCut(line);
    TrimBlank();
    hide Split;
  }

  /** The loop over a blank line and a line that does not fit after it. */
  lemma BlankLineCut(line: string)
    requires Utf16Length(line) > PartLimit - 3
    ensures CutLines(["  ", line]) == Cut(["  "], line)
  {
    var lines := ["  ", line];
    assert lines[..1] == ["  "] && ["  "][..0] == [];
    assert CutLines(["  "]) == Cut([], "  ");
    assert CutLines(lines) == CutStep(Cut([], "  "), line);
    hide CutLines;
    BlankStep(line);
  }

  /** After a blank line, a line of more than `PartLimit - 3` code units overflows the part. */
  lemma BlankStep(line: string)
    requires Utf16Length(line) > PartLimit - 3
    ensures CutStep(Cut([], "  "), line) == Cut(["  "], line)
  {
    hide Utf16Length, Trim, Split;
    Utf16LengthAppend("  \n", line);
    BlankUnits();
    assert "  " + "\n" + line == "  \n" + line;
    assert Utf16Length("  " + "\n" + line) > PartLimit;
  }

  lemma BlankUnits()
    ensures Utf16Length("  \n") == 3
  {
    assert "  \n"[1..] == " \n" && " \n"[1..] == "\n" && "\n"[1..] == "";
  }

  /** The parts with the blank ones left out, as the final guard of `splitMessage` intends for every part. */
  function NonBlank(parts: seq<string>): (r: seq<string>)
    ensures forall p :: p in r <==> p in parts && p != ""
    ensures |r| <= |parts|
  {
    if parts == [] then [] else (if parts[0] != "" then [parts[0]] else []) + NonBlank(parts[1..])
  }

  /** The corrected split: the same parts in the same order, none of them empty, none longer than the limit unless a single line. */
  function IntendedParts(message: string): (r: seq<string>)
    ensures forall p :: p in r ==> p != "" && NoSpaceAtEnds(p) && Fits(p)
    ensures forall p :: p in r <==> p in MessageParts(message) && p != ""
  {
    PartsWithinLimit(message);
    NonBlank(MessageParts(message))
  }
}
