/**
 * The script server of AHKOrganizer: the AutoHotkey version a script declares,
 * and the instrumentation that puts a probe line before each executable line
 * so that the running script reports where it is. Two generations of the server
 * are modelled: the current one (`index.sync-conflict-…js`, with
 * `detectAhkVersion` and the longer list of skipped lines) and the older one
 * (`index.js`, with only the `; @version` tag and the shorter list).
 */
module AhkScripts {
  import opened Wrappers
  import opened Text

  /** `'V1.1'` or `'V2'`. */
  datatype Version = V1 | V2

  function VersionName(v: Version): (r: string)
    ensures r == "V2" <==> v == V2
    ensures r == "V1.1" <==> v == V1
  {
    match v
    case V1 => "V1.1"
    case V2 => "V2"
  }

  // ---------------------------------------------------------------- version tags

  /**
   * The three patterns: `/#Requires\s+AutoHotkey\s+v?(\d+)/i`,
   * `/;\s*@version\s+(V?\d+(?:\.\d+)?)/i` and, in the older server,
   * `/; @version\s+(V\d+(?:\.\d+)?)/i`.
   */
  datatype Tag = RequiresTag | VersionTag | LegacyVersionTag

  /**
   * The version number of a tag at `c`: an optional (or, when `optionalV` is
   * false, required) letter v, a run of digits, then a dot and a run of digits
   * if they follow.
   */
  function VersionNumberAt(s: string, c: nat, optionalV: bool): (r: Option<string>)
    requires c <= |s|
    ensures r.Some? ==> c + |r.value| <= |s| && r.value == s[c..c + |r.value|]
    ensures r.Some? ==> |r.value| >= 1 && (IsDigit(r.value[0]) || (|r.value| >= 2 && LowerChar(r.value[0]) == 'v' && IsDigit(r.value[1])))
    ensures r.Some? && !optionalV ==> LowerChar(r.value[0]) == 'v'
  {
    var hasV := c + 1 < |s| && LowerChar(s[c]) == 'v' && IsDigit(s[c + 1]);
    if !optionalV && !hasV then None
    else
      var d := if hasV then c + 1 else c;
      if !(d < |s| && IsDigit(s[d])) then None
      else
        var e := DigitsEnd(s, d);
        var f := if e + 1 < |s| && s[e] == '.' && IsDigit(s[e + 1]) then DigitsEnd(s, e + 1) else e;
        Some(s[c..f])
  }

  /** The captured group of a match of the tag's pattern that starts at `i`, if one does. */
  function CaptureAt(s: string, i: nat, tag: Tag): (r: Option<string>)
    requires i <= |s|
    ensures r.Some? && tag == RequiresTag ==> i < |s| && s[i] == '#' && r.value != [] && AllDigits(r.value)
    ensures r.Some? && tag != RequiresTag ==> i < |s| && s[i] == ';'
  {
    match tag
    case RequiresTag =>
      if !(i < |s| && s[i] == '#' && MatchesAt(s, i + 1, "requires")) then None
      else
        var a := SpacesEnd(s, i + 9);
        if a == i + 9 || !MatchesAt(s, a, "autohotkey") then None
        else
          var b := SpacesEnd(s, a + 10);
          if b == a + 10 then None
          else
            var d := if b + 1 < |s| && LowerChar(s[b]) == 'v' && IsDigit(s[b + 1]) then b + 1 else b;
            if d < |s| && IsDigit(s[d]) then Some(s[d..DigitsEnd(s, d)]) else None
    case VersionTag =>
      if !(i < |s| && s[i] == ';') then None
      else
        var a := SpacesEnd(s, i + 1);
        if !MatchesAt(s, a, "@version") then None
        else
          var b := SpacesEnd(s, a + 8);
          if b == a + 8 then None else VersionNumberAt(s, b, true)
    case LegacyVersionTag =>
      if !(i + 1 < |s| && s[i] == ';' && s[i + 1] == ' ' && MatchesAt(s, i + 2, "@version")) then None
      else
        var b := SpacesEnd(s, i + 10);
        if b == i + 10 then None else VersionNumberAt(s, b, false)
  }

  /** Where the leftmost match from `from` on starts. */
  function MatchIndex(s: string, tag: Tag, from: nat): (r: Option<nat>)
    requires from <= |s|
    ensures r.Some? ==> from <= r.value <= |s| && CaptureAt(s, r.value, tag).Some?
    ensures forall k :: from <= k <= |s| && (r.None? || k < r.value) ==> CaptureAt(s, k, tag).None?
    decreases |s| - from
  {
    if CaptureAt(s, from, tag).Some? then Some(from)
    else if from == |s| then None
    else MatchIndex(s, tag, from + 1)
  }

  /** `content.match(re)[1]` for the leftmost match, or nothing. */
  function Capture(s: string, tag: Tag): (r: Option<string>)
    ensures r.Some? <==> exists k :: 0 <= k <= |s| && CaptureAt(s, k, tag).Some?
  {
    hide CaptureAt;
    match MatchIndex(s, tag, 0)
    case None => None
    case Some(i) => CaptureAt(s, i, tag)
  }

  /** `tag.toUpperCase().startsWith('V2')`. */
  predicate NamesV2(tag: string) { StartsWith(Upper(tag), "V2") }

  /**
   * `detectAhkVersion`: a `#Requires AutoHotkey v2` directive gives V2; failing
   * that, the first `; @version` tag decides; without either, V1.1.
   */
  function DetectVersion(content: string): (r: Version)
    ensures Capture(content, RequiresTag) == Some("2") ==> r == V2
    ensures Capture(content, RequiresTag) != Some("2") ==>
              (r == V2 <==> Capture(content, VersionTag).Some? && NamesV2(Capture(content, VersionTag).value))
  {
    if Capture(content, RequiresTag) == Some("2") then V2
    else
      match Capture(content, VersionTag)
      case Some(v) => if NamesV2(v) then V2 else V1
      case None => V1
  }

  /** The older server: V2 probes exactly when the first legacy tag names V2. */
  predicate LegacyIsV2(content: string) {
    Capture(content, LegacyVersionTag).Some? && NamesV2(Capture(content, LegacyVersionTag).value)
  }

  /** The older server's version label: the tag upper-cased, or "V1.1". */
  function LegacyLabel(content: string): (r: string)
    ensures Capture(content, LegacyVersionTag).None? ==> r == "V1.1"
    ensures Capture(content, LegacyVersionTag).Some? ==> r == Upper(Capture(content, LegacyVersionTag).value) && r[0] == 'V'
  {
    hide Capture, Upper, UpperChar, LowerChar;
    match Capture(content, LegacyVersionTag)
    case None => "V1.1"
    case Some(v) =>
      LegacyCaptureStartsWithV(content);
      UpperOfV(v[0]);
      Upper(v)
  }

  /** The older pattern requires the letter v, in either case, at the head of its capture. */
  lemma LegacyCaptureStartsWithV(s: string)
    ensures Capture(s, LegacyVersionTag).Some? ==>
              Capture(s, LegacyVersionTag).value != [] && LowerChar(Capture(s, LegacyVersionTag).value[0]) == 'v'
  {
  }

  lemma UpperOfV(c: char)
    requires LowerChar(c) == 'v'
    ensures UpperChar(c) == 'V'
  {
  }

  /** The label and the probe syntax agree: the label starts with "V2" exactly when V2 probes are written. */
  lemma LegacyLabelAgrees(content: string)
    ensures StartsWith(LegacyLabel(content), "V2") <==> LegacyIsV2(content)
  {
    if Capture(content, LegacyVersionTag).None? {
      assert LegacyLabel(content)[..2] == "V1";
    }
  }

  /** A text without `#` has no directive, and one without `;` has no tag. */
  lemma {:induction false} NoCapture(s: string, tag: Tag, from: nat)
    requires from <= |s|
    requires tag == RequiresTag ==> '#' !in s[from..]
    requires tag != RequiresTag ==> ';' !in s[from..]
    ensures MatchIndex(s, tag, from).None?
    decreases |s| - from
  {
    if from < |s| {
      assert s[from] == s[from..][0];
      assert s[from + 1..] == s[from..][1..];
      NoCapture(s, tag, from + 1);
    }
  }

  /** Text before the first `#` (or `;`) is skipped by the search. */
  lemma {:induction false} SkipTo(s: string, tag: Tag, from: nat, i: nat)
    requires from <= i <= |s|
    requires tag == RequiresTag ==> '#' !in s[from..i]
    requires tag != RequiresTag ==> ';' !in s[from..i]
    ensures MatchIndex(s, tag, from) == MatchIndex(s, tag, i)
    decreases i - from
  {
    if from < i {
      assert s[from] == s[from..i][0];
      assert s[from + 1..i] == s[from..i][1..];
      SkipTo(s, tag, from + 1, i);
    }
  }

  /** `#Requires AutoHotkey v2` at `i`, in any letter case and not followed by a digit, captures "2". */
  lemma RequiresDirectiveAt(s: string, i: nat)
    requires i + 23 <= |s| && s[i] == '#' && s[i + 9] == ' ' && s[i + 20] == ' ' && s[i + 21] == 'v' && s[i + 22] == '2'
    requires Lower(s[i + 1..i + 9]) == "requires" && Lower(s[i + 10..i + 20]) == "autohotkey"
    requires i + 23 == |s| || !IsDigit(s[i + 23])
    ensures CaptureAt(s, i, RequiresTag) == Some("2")
  {
    hide Lower;
    assert SpacesEnd(s, i + 9) == i + 10 by {
      assert !IsSpace(s[i + 10]) by { assert LowerChar(s[i + 10]) == 'a'; }
    }
    assert SpacesEnd(s, i + 20) == i + 21;
    DigitsEndRun(s, i + 22, i + 23);
    assert s[i + 22..i + 23] == "2";
  }

  /**
   * A script that begins its `#` characters with `#Requires AutoHotkey v2`,
   * the two words in any letter case, is V2, whatever tags follow.
   */
  lemma RequiresV2Wins(a: string, requires_: string, autohotkey: string, b: string)
    requires '#' !in a && (b == [] || !IsDigit(b[0]))
    requires Lower(requires_) == "requires" && Lower(autohotkey) == "autohotkey"
    ensures DetectVersion(a + "#" + requires_ + " " + autohotkey + " v2" + b) == V2
  {
    var s := a + "#" + requires_ + " " + autohotkey + " v2" + b;
    DirectiveLayout(a, requires_, autohotkey, b);
    RequiresFirst(s, |a|);
  }

  /** A `#Requires AutoHotkey v2` directive at the first `#` makes the script V2. */
  lemma RequiresFirst(s: string, i: nat)
    requires i + 23 <= |s| && '#' !in s[..i] && s[i] == '#' && s[i + 9] == ' ' && s[i + 20] == ' ' && s[i + 21] == 'v' && s[i + 22] == '2'
    requires Lower(s[i + 1..i + 9]) == "requires" && Lower(s[i + 10..i + 20]) == "autohotkey"
    requires i + 23 == |s| || !IsDigit(s[i + 23])
    ensures DetectVersion(s) == V2
  {
    hide Lower, CaptureAt, DetectVersion, NamesV2;
    assert s[0..i] == s[..i];
    SkipTo(s, RequiresTag, 0, i);
    RequiresDirectiveAt(s, i);
    assert MatchIndex(s, RequiresTag, i) == Some(i);
  }

  lemma DirectiveLayout(a: string, r: string, h: string, b: string)
    requires |r| == 8 && |h| == 10
    ensures var s := a + "#" + r + " " + h + " v2" + b;
            var i := |a|;
            && |s| == i + 23 + |b| && s[..i] == a && s[i] == '#' && s[i + 9] == ' ' && s[i + 20] == ' ' && s[i + 21] == 'v' && s[i + 22] == '2'
            && s[i + 1..i + 9] == r && s[i + 10..i + 20] == h && (b == [] || s[i + 23] == b[0])
  {
    var s := a + "#" + r + " " + h + " v2" + b;
    var i := |a|;
    assert s == a + ("#" + r + " " + h + " v2" + b);
    assert s[i + 1..i + 9] == r;
    assert s[i + 10..i + 20] == h;
  }

  /** Without `#` and `;` there is nothing to read and the version is V1.1. */
  lemma UntaggedIsV1(content: string)
    requires '#' !in content && ';' !in content
    ensures DetectVersion(content) == V1 && LegacyLabel(content) == "V1.1" && !LegacyIsV2(content)
  {
    assert content[0..] == content;
    NoCapture(content, RequiresTag, 0);
    NoCapture(content, VersionTag, 0);
    NoCapture(content, LegacyVersionTag, 0);
  }

  /** A `; @version v2…` tag at `i`, the word in any letter case, is read as a V2 tag by both patterns. */
  lemma VersionTagAt(s: string, i: nat)
    requires i + 13 <= |s| && s[i] == ';' && s[i + 1] == ' ' && s[i + 10] == ' ' && s[i + 11] == 'v' && s[i + 12] == '2'
    requires Lower(s[i + 2..i + 10]) == "@version"
    ensures CaptureAt(s, i, VersionTag).Some? && NamesV2(CaptureAt(s, i, VersionTag).value)
    ensures CaptureAt(s, i, LegacyVersionTag).Some? && NamesV2(CaptureAt(s, i, LegacyVersionTag).value)
  {
    hide Lower;
    assert SpacesEnd(s, i + 1) == i + 2 by {
      assert !IsSpace(s[i + 2]) by { assert LowerChar(s[i + 2]) == '@'; }
    }
    assert SpacesEnd(s, i + 10) == i + 11;
    VersionNumberV2(s, i + 11);
  }

  /** A version number written `v2…` is found with or without a required v, and names V2. */
  lemma VersionNumberV2(s: string, c: nat)
    requires c + 2 <= |s| && s[c] == 'v' && s[c + 1] == '2'
    ensures VersionNumberAt(s, c, true) == VersionNumberAt(s, c, false)
    ensures VersionNumberAt(s, c, true).Some? && NamesV2(VersionNumberAt(s, c, true).value)
  {
    var v := VersionNumberAt(s, c, true);
    assert v.Some? && v.value[0] == 'v' && v.value[1] == '2' by {
      assert v.value == s[c..c + |v.value|];
    }
    hide VersionNumberAt;
    assert Upper(v.value)[..2] == [UpperChar('v'), UpperChar('2')];
  }

  lemma TagLayout(a: string, w: string, b: string)
    requires |w| == 8
    ensures var s := a + "; " + w + " v2" + b;
            var i := |a|;
            && |s| == i + 13 + |b| && s[..i] == a && s[i] == ';' && s[i + 1] == ' ' && s[i + 10] == ' ' && s[i + 11] == 'v' && s[i + 12] == '2'
            && s[i + 2..i + 10] == w && (forall k :: 0 <= k < |s| && s[k] == '#' ==> '#' in a || '#' in w || '#' in b)
  {
    var s := a + "; " + w + " v2" + b;
    var i := |a|;
    assert s == a + ("; " + w + " v2" + b);
    assert s[i + 2..i + 10] == w;
    forall k | 0 <= k < |s| && s[k] == '#' ensures '#' in a || '#' in w || '#' in b {
      if k < i { assert s[k] == a[k]; }
      else if i + 2 <= k < i + 10 { assert s[k] == w[k - i - 2]; }
      else if k >= i + 13 { assert s[k] == b[k - i - 13]; }
    }
  }

  /**
   * A `; @version v2…` tag as the first `;`, the word in any letter case, in a
   * script without `#`, makes the script V2 in both servers.
   */
  lemma VersionCommentV2(a: string, version: string, b: string)
    requires '#' !in a && '#' !in b && ';' !in a
    requires Lower(version) == "@version"
    ensures DetectVersion(a + "; " + version + " v2" + b) == V2
    ensures LegacyIsV2(a + "; " + version + " v2" + b)
  {
    hide Lower;
    var s := a + "; " + version + " v2" + b;
    TagLayout(a, version, b);
    assert '#' !in version by {
      forall k | 0 <= k < |version| ensures version[k] != '#' {
        assert LowerChar(version[k]) == "@version"[k];
      }
    }
    assert '#' !in s[0..] by {
      assert s[0..] == s;
    }
    NoCapture(s, RequiresTag, 0);
    SkipTo(s, VersionTag, 0, |a|);
    SkipTo(s, LegacyVersionTag, 0, |a|);
    VersionTagAt(s, |a|);
  }

  // ---------------------------------------------------------------- instrumentation

  /** The current or the older set of rules for which lines get no probe. */
  datatype Rules = Current | Legacy

  const FlowWords: seq<string> := ["if", "else", "loop", "while", "for", "try", "catch", "finally", "switch", "case", "default"]

  /** The trimmed line starts, in any letter case, with a control-flow word (a prefix test: "format" counts as "for"). */
  predicate StartsFlow(t: string) {
    exists k :: 0 <= k < |FlowWords| && StartsWith(Lower(t), FlowWords[k])
  }

  /** A trimmed line outside block comments that gets a probe. */
  predicate Eligible(t: string, rules: Rules) {
    && t != "" && !StartsWith(t, ";") && !StartsWith(t, "#")
    && (rules == Current ==> !EndsWith(t, ":") && t != "{" && t != "}" && !StartsFlow(t))
  }

  /**
   * One step of the map: whether the line gets a probe, and the block-comment
   * flag after it. A line opening a block comment sets the flag; while it is set, lines are
   * left alone and one closing it clears it.
   */
  function LineStep(line: string, inBlock: bool, rules: Rules): (r: (bool, bool))
    ensures r.0 ==> !inBlock && !r.1 && Eligible(Trim(line), rules)
    ensures inBlock || StartsWith(Trim(line), "/*") ==> !r.0 && (r.1 <==> !EndsWith(Trim(line), "*/"))
    ensures !inBlock && !StartsWith(Trim(line), "/*") ==> !r.1 && (r.0 <==> Eligible(Trim(line), rules))
  {
    var t := Trim(line);
    if inBlock || StartsWith(t, "/*") then (false, !EndsWith(t, "*/"))
    else (Eligible(t, rules), false)
  }

  /** The block-comment flag before line `i`. */
  function BlockBefore(lines: seq<string>, i: nat, rules: Rules): (r: bool)
    requires i <= |lines|
    ensures i == 0 ==> !r
  {
    if i == 0 then false else LineStep(lines[i - 1], BlockBefore(lines, i - 1, rules), rules).1
  }

  predicate Probed(lines: seq<string>, i: nat, rules: Rules)
    requires i < |lines|
  {
    LineStep(lines[i], BlockBefore(lines, i, rules), rules).0
  }

  /** The probe for line number `n`: a `FileAppend` of "AHK_LINE_INFO:<file>:<n>" in V2 or V1.1 syntax. */
  function Probe(fileName: string, n: nat, isV2: bool): (r: string)
    ensures var info := "AHK_LINE_INFO:" + fileName + ":" + NatToString(n);
            OccursAt(r, info, 12)
    ensures isV2 ==> StartsWith(r, "FileAppend(\"")
    ensures !isV2 ==> StartsWith(r, "FileAppend, ")
    ensures '\n' !in fileName ==> '\n' !in r
  {
    var info := "AHK_LINE_INFO:" + fileName + ":" + NatToString(n);
    var prefix := if isV2 then "FileAppend(\"" else "FileAppend, ";
    var suffix := if isV2 then "\\n\", \"*\")" else "`n, *";
    Framed(prefix, info, suffix);
    NumberHasNoBreak(n);
    assert '\n' !in fileName ==> '\n' !in info;
    prefix + info + suffix
  }

  /** A piece between a prefix and a suffix occurs right after the prefix, and the line breaks are those of the three. */
  lemma Framed(prefix: string, x: string, suffix: string)
    ensures OccursAt(prefix + x + suffix, x, |prefix|)
    ensures StartsWith(prefix + x + suffix, prefix)
    ensures '\n' !in prefix && '\n' !in x && '\n' !in suffix ==> '\n' !in prefix + x + suffix
  {
    var s := prefix + x + suffix;
    assert s[..|prefix|] == prefix;
    assert s[|prefix|..|prefix| + |x|] == x;
  }

  lemma NumberHasNoBreak(n: nat)
    ensures '\n' !in NatToString(n)
  {
    forall k | 0 <= k < |NatToString(n)| ensures NatToString(n)[k] != '\n' {
      assert IsDigit(NatToString(n)[k]);
    }
  }

  /** Line number `n` as the map returns it: with its probe and a line break before it, or unchanged. */
  function Mapped(fileName: string, line: string, n: nat, probed: bool, isV2: bool): (r: string)
    ensures probed ==> r == Probe(fileName, n, isV2) + "\n" + line
    ensures !probed ==> r == line
  {
    if probed then Probe(fileName, n, isV2) + "\n" + line else line
  }

  /** What the map returns for each line: the line, or the probe, a line break and the line. */
  function Output(fileName: string, lines: seq<string>, isV2: bool, rules: Rules): (r: seq<string>)
    ensures |r| == |lines|
  {
    seq(|lines|, i requires 0 <= i < |lines| =>
      Mapped(fileName, lines[i], i + 1, Probed(lines, i, rules), isV2))
  }

  /** One line of the map, given the flag before it. */
  lemma OutputAt(fileName: string, lines: seq<string>, isV2: bool, rules: Rules, i: nat, inBlock: bool)
    requires i < |lines| && inBlock == BlockBefore(lines, i, rules)
    ensures var step := LineStep(lines[i], inBlock, rules);
            && Output(fileName, lines, isV2, rules)[i] == Mapped(fileName, lines[i], i + 1, step.0, isV2)
            && BlockBefore(lines, i + 1, rules) == step.1
  {
    hide Mapped, Probe, Trim, StartsWith, EndsWith, Eligible;
  }

  /** The map over the lines, carrying the block-comment flag from line to line. */
  method InstrumentLines(fileName: string, lines: seq<string>, isV2: bool, rules: Rules) returns (out: seq<string>)
    ensures out == Output(fileName, lines, isV2, rules)
  {
    hide Output, BlockBefore, LineStep, Mapped, Probed, Probe, Trim, StartsWith, EndsWith, Eligible;
    ghost var expected := Output(fileName, lines, isV2, rules);
    var inBlockComment := false;
    out := [];
    for i := 0 to |lines|
      invariant inBlockComment == BlockBefore(lines, i, rules)
      invariant |out| == i && forall k :: 0 <= k < i ==> out[k] == expected[k]
    {
      var step := LineStep(lines[i], inBlockComment, rules);
      var line := Mapped(fileName, lines[i], i + 1, step.0, isV2);
      OutputAt(fileName, lines, isV2, rules, i, inBlockComment);
      assert line == expected[i];
      ghost var prev := out;
      out := out + [line];
      assert forall k :: 0 <= k < i ==> out[k] == prev[k];
      inBlockComment := step.1;
    }
  }

  /** Whether the script gets V2 probes under each set of rules. */
  predicate WritesV2(content: string, rules: Rules) {
    if rules == Current then DetectVersion(content) == V2 else LegacyIsV2(content)
  }

  /** `instrumentScript`: split into lines, map, join with line breaks. */
  method InstrumentScript(fileName: string, content: string, rules: Rules) returns (text: string)
    ensures text == Join(Output(fileName, Split(content, '\n'), WritesV2(content, rules), rules), "\n")
  {
    var lines := Split(content, '\n');
    var isV2 := WritesV2(content, rules);
    var out := InstrumentLines(fileName, lines, isV2, rules);
    text := Join(out, "\n");
  }

  // ---------------------------------------------------------------- probes removed

  /** The lines of the instrumented text that each original line becomes: the probe and the line, or the line. */
  function Groups(fileName: string, lines: seq<string>, isV2: bool, rules: Rules): (r: seq<seq<string>>)
    ensures |r| == |lines|
    ensures forall i :: 0 <= i < |lines| ==>
              r[i] == if Probed(lines, i, rules) then [Probe(fileName, i + 1, isV2), lines[i]] else [lines[i]]
  {
    hide Probed, Probe;
    seq(|lines|, i requires 0 <= i < |lines| =>
      if Probed(lines, i, rules) then [Probe(fileName, i + 1, isV2), lines[i]] else [lines[i]])
  }

  /** Which of those lines are probes. */
  function Marks(lines: seq<string>, rules: Rules): (r: seq<seq<bool>>)
    ensures |r| == |lines|
    ensures forall i :: 0 <= i < |lines| ==> r[i] == if Probed(lines, i, rules) then [true, false] else [false]
  {
    hide Probed;
    seq(|lines|, i requires 0 <= i < |lines| => if Probed(lines, i, rules) then [true, false] else [false])
  }

  function Concat<T>(groups: seq<seq<T>>): seq<T>
  {
    if groups == [] then [] else groups[0] + Concat(groups[1..])
  }

  /** The elements whose mark is false. */
  function Unmarked<T>(xs: seq<T>, marks: seq<bool>): (r: seq<T>)
    requires |xs| == |marks|
    ensures |r| <= |xs|
  {
    if xs == [] then [] else (if marks[0] then [] else [xs[0]]) + Unmarked(xs[1..], marks[1..])
  }

  lemma {:induction false} UnmarkedAppend<T>(a: seq<T>, b: seq<T>, ma: seq<bool>, mb: seq<bool>)
    requires |a| == |ma| && |b| == |mb|
    ensures Unmarked(a + b, ma + mb) == Unmarked(a, ma) + Unmarked(b, mb)
    decreases |a|
  {
    if a == [] {
      assert a + b == b && ma + mb == mb;
    } else {
      assert (a + b)[1..] == a[1..] + b && (ma + mb)[1..] == ma[1..] + mb;
      UnmarkedAppend(a[1..], b, ma[1..], mb);
    }
  }

  /** Deleting the marked elements group by group leaves one line per group. */
  lemma {:induction false} UnmarkedConcat(pieces: seq<seq<string>>, marks: seq<seq<bool>>, lines: seq<string>)
    requires |pieces| == |marks| == |lines|
    requires forall i :: 0 <= i < |pieces| ==> |pieces[i]| == |marks[i]| && Unmarked(pieces[i], marks[i]) == [lines[i]]
    ensures |Concat(pieces)| == |Concat(marks)|
    ensures Unmarked(Concat(pieces), Concat(marks)) == lines
    decreases |pieces|
  {
    if pieces != [] {
      UnmarkedConcat(pieces[1..], marks[1..], lines[1..]);
      UnmarkedAppend(pieces[0], Concat(pieces[1..]), marks[0], Concat(marks[1..]));
      assert lines == [lines[0]] + lines[1..];
    }
  }

  /** `split` of a joined text splits each part: a break inside a part is a break of the text. */
  lemma {:induction false} SplitAround(a: string, b: string, sep: char)
    ensures Split(a + [sep] + b, sep) == Split(a, sep) + Split(b, sep)
    decreases |a|
  {
    if a == [] {
      assert (a + [sep] + b)[1..] == b;
    } else {
      SplitAround(a[1..], b, sep);
      SplitAroundStep(a, b, sep);
    }
  }

  /** The step of `SplitAround`: its statement for `a` follows from its statement for `a[1..]`. */
  lemma SplitAroundStep(a: string, b: string, sep: char)
    requires a != [] && Split(a[1..] + [sep] + b, sep) == Split(a[1..], sep) + Split(b, sep)
    ensures Split(a + [sep] + b, sep) == Split(a, sep) + Split(b, sep)
  {
    hide Split;
    var s := a + [sep] + b;
    assert s[0] == a[0];
    assert s[1..] == a[1..] + [sep] + b;
    var ra := Split(a[1..], sep);
    var rb := Split(b, sep);
    SplitHead(s, sep);
    SplitHead(a, sep);
    if a[0] == sep {
      assert [""] + (ra + rb) == ([""] + ra) + rb;
    } else {
      var head := [a[0]] + ra[0];
      assert (ra + rb)[0] == ra[0];
      assert (ra + rb)[1..] == ra[1..] + rb;
      assert [head] + (ra[1..] + rb) == ([head] + ra[1..]) + rb;
    }
  }

  /** One step of `split`: the first character opens a new piece or joins the first one. */
  lemma SplitHead(s: string, sep: char)
    requires s != []
    ensures s[0] == sep ==> Split(s, sep) == [""] + Split(s[1..], sep)
    ensures s[0] != sep ==> Split(s, sep) == [[s[0]] + Split(s[1..], sep)[0]] + Split(s[1..], sep)[1..]
  {
  }

  lemma {:induction false} SplitJoined(parts: seq<string>, sep: char)
    requires |parts| >= 1
    ensures Split(Join(parts, [sep]), sep) == Concat(seq(|parts|, i requires 0 <= i < |parts| => Split(parts[i], sep)))
    decreases |parts|
  {
    var g := seq(|parts|, i requires 0 <= i < |parts| => Split(parts[i], sep));
    if |parts| == 1 {
      assert Concat(g) == g[0] + Concat(g[1..]);
      assert g[1..] == [];
    } else {
      SplitJoined(parts[1..], sep);
      SplitAround(parts[0], Join(parts[1..], [sep]), sep);
      assert g[1..] == seq(|parts[1..]|, i requires 0 <= i < |parts[1..]| => Split(parts[1..][i], sep));
    }
  }

  /**
   * The lines of the instrumented text are the original lines, unchanged and in
   * order, each preceded by at most one probe, which carries its 1-based number.
   */
  lemma InstrumentedLines(fileName: string, lines: seq<string>, isV2: bool, rules: Rules)
    requires '\n' !in fileName && |lines| >= 1
    requires forall k :: 0 <= k < |lines| ==> '\n' !in lines[k]
    ensures Split(Join(Output(fileName, lines, isV2, rules), "\n"), '\n') == Concat(Groups(fileName, lines, isV2, rules))
  {
    hide Probed, LineStep, BlockBefore, Trim, StartsWith, EndsWith, Eligible;
    var out := Output(fileName, lines, isV2, rules);
    SplitJoined(out, '\n');
    var g := seq(|out|, i requires 0 <= i < |out| => Split(out[i], '\n'));
    forall i | 0 <= i < |lines| ensures g[i] == Groups(fileName, lines, isV2, rules)[i] {
      if Probed(lines, i, rules) {
        var p := Probe(fileName, i + 1, isV2);
        SplitJoin([p, lines[i]], '\n');
        assert Join([p, lines[i]], "\n") == p + "\n" + lines[i];
      } else {
        SplitNoSep(lines[i], '\n');
      }
    }
    assert g == Groups(fileName, lines, isV2, rules);
  }

  /** Deleting the probe lines from the instrumented script gives the script back. */
  lemma DeletingProbesRestores(fileName: string, content: string, isV2: bool, rules: Rules)
    requires '\n' !in fileName
    ensures var lines := Split(content, '\n');
            var pieces := Split(Join(Output(fileName, lines, isV2, rules), "\n"), '\n');
            |pieces| == |Concat(Marks(lines, rules))|
            && Join(Unmarked(pieces, Concat(Marks(lines, rules))), "\n") == content
  {
    hide Probed, LineStep, BlockBefore, Trim, StartsWith, EndsWith, Eligible, Probe, Output;
    var lines := Split(content, '\n');
    InstrumentedLines(fileName, lines, isV2, rules);
    var gs := Groups(fileName, lines, isV2, rules);
    var ms := Marks(lines, rules);
    forall i | 0 <= i < |lines| ensures |gs[i]| == |ms[i]| && Unmarked(gs[i], ms[i]) == [lines[i]] {
      if Probed(lines, i, rules) {
        assert Unmarked(gs[i], ms[i]) == [] + Unmarked(gs[i][1..], ms[i][1..]);
      }
    }
    UnmarkedConcat(gs, ms, lines);
    JoinSplit(content, '\n');
  }

  /** Every line from one that opens a block comment up to the first that closes it is left without a probe. */
  lemma {:induction false} BlockCommentUnprobed(lines: seq<string>, j: nat, i: nat, rules: Rules)
    requires j <= i < |lines| && StartsWith(Trim(lines[j]), "/*")
    requires forall k :: j <= k < i ==> !EndsWith(Trim(lines[k]), "*/")
    ensures !Probed(lines, i, rules)
    ensures i > j ==> BlockBefore(lines, i, rules)
    decreases i - j
  {
    hide Trim, StartsWith, EndsWith, Eligible;
    if i > j {
      BlockCommentUnprobed(lines, j, i - 1, rules);
    }
  }

  /** Blank lines, comments and directives never get a probe, under either set of rules. */
  lemma SkippedLines(lines: seq<string>, i: nat, rules: Rules)
    requires i < |lines|
    requires var t := Trim(lines[i]); t == "" || StartsWith(t, ";") || StartsWith(t, "#")
    ensures !Probed(lines, i, rules)
  {
  }

  /** The current rules also skip labels and hotkeys, braces and lines that start with a flow word. */
  lemma CurrentSkips(lines: seq<string>, i: nat, w: nat)
    requires i < |lines| && w < |FlowWords|
    requires var t := Trim(lines[i]); EndsWith(t, ":") || t == "{" || t == "}" || StartsWith(Lower(t), FlowWords[w])
    ensures !Probed(lines, i, Current)
  {
  }

  /** Every line the older rules skip, the current rules skip too. */
  lemma CurrentSkipsMore(lines: seq<string>, i: nat)
    requires i < |lines|
    ensures Probed(lines, i, Current) ==> Probed(lines, i, Legacy)
  {
    SameBlocks(lines, i);
  }

  /** The block-comment flag does not depend on the rules. */
  lemma {:induction false} SameBlocks(lines: seq<string>, i: nat)
    requires i <= |lines|
    ensures BlockBefore(lines, i, Current) == BlockBefore(lines, i, Legacy)
  {
    hide Trim, StartsWith, EndsWith, Eligible, LineStep;
    if i > 0 {
      SameBlocks(lines, i - 1);
      BlockFlagOfLine(lines[i - 1], BlockBefore(lines, i - 1, Current));
    }
  }

  /** The flag one line leaves behind does not depend on the rules. */
  lemma BlockFlagOfLine(line: string, inBlock: bool)
    ensures LineStep(line, inBlock, Current).1 == LineStep(line, inBlock, Legacy).1
  {
    hide Trim, StartsWith, EndsWith, Eligible;
  }

  // ---------------------------------------------------------------- executable

  /** The configured interpreters; an empty path is not configured. */
  datatype Config = Config(ahkPath: string, ahkPathV2: string)

  const CommonPaths: seq<string> := [
    "C:\\Program Files\\AutoHotkey\\AutoHotkey.exe",
    "C:\\Program Files (x86)\\AutoHotkey\\AutoHotkey.exe",
    "C:\\Program Files\\AutoHotkey\\v2\\AutoHotkey.exe"]

  /**
   * The interpreter for a script: the V2 path for a V2 script when one is
   * configured; otherwise the configured path or "AutoHotkey.exe", and for the
   * latter the first of the usual install locations that exists.
   */
  method ChooseExecutable(version: Version, config: Config, installed: set<string>) returns (path: string)
    ensures version == V2 && config.ahkPathV2 != "" ==> path == config.ahkPathV2
    ensures !(version == V2 && config.ahkPathV2 != "") && config.ahkPath != "" && config.ahkPath != "AutoHotkey.exe" ==> path == config.ahkPath
    ensures !(version == V2 && config.ahkPathV2 != "") && (config.ahkPath == "" || config.ahkPath == "AutoHotkey.exe") ==>
              if exists k :: 0 <= k < |CommonPaths| && CommonPaths[k] in installed
              then exists k :: 0 <= k < |CommonPaths| && path == CommonPaths[k] && path in installed && forall j :: 0 <= j < k ==> CommonPaths[j] !in installed
              else path == "AutoHotkey.exe"
  {
    if version == V2 && config.ahkPathV2 != "" {
      path := config.ahkPathV2;
    } else {
      path := if config.ahkPath != "" then config.ahkPath else "AutoHotkey.exe";
      if path == "AutoHotkey.exe" {
        var i := 0;
        while i < |CommonPaths| && CommonPaths[i] !in installed
          invariant 0 <= i <= |CommonPaths|
          invariant forall j :: 0 <= j < i ==> CommonPaths[j] !in installed
        {
          i := i + 1;
        }
        if i < |CommonPaths| {
          path := CommonPaths[i];
        }
      }
    }
  }
}
