/** What the text helpers of the comment and the trailer do, told by their input alone. */
module TextLaws {
  import opened Collections
  import opened Closing
  import opened CommentBody
  import opened VerdictTrailer

  // ---- white space ----

  predicate AllSpace(s: string, sp: char -> bool) {
    forall i :: 0 <= i < |s| ==> sp(s[i])
  }

  /** `core` neither starts nor ends with white space. */
  predicate Tight(core: string, sp: char -> bool) {
    core != "" ==> !sp(core[0]) && !sp(core[|core| - 1])
  }

  lemma {:induction false} TrimEndStops(s: string, sp: char -> bool)
    ensures var t := TrimEnd(s, sp); t != "" ==> !sp(t[|t| - 1])
  {
    if s != "" && sp(s[|s| - 1]) { TrimEndStops(s[..|s| - 1], sp); }
  }

  lemma TrimEndExact(s: string, sp: char -> bool)
    ensures var t := TrimEnd(s, sp);
            t <= s && AllSpace(s[|t|..], sp) && (t != "" ==> !sp(t[|t| - 1]))
  {
    TrimEndIsPrefix(s, sp);
    TrimEndStops(s, sp);
    hide TrimEnd;
  }

  lemma {:induction false} TrimStartExact(s: string, sp: char -> bool)
    ensures var t := TrimStart(s, sp);
            |t| <= |s| && s[|s| - |t|..] == t && AllSpace(s[..|s| - |t|], sp) && (t != "" ==> !sp(t[0]))
  {
    if s != "" && sp(s[0]) {
      TrimStartExact(s[1..], sp);
      var t := TrimStart(s[1..], sp);
      assert s[..|s| - |t|] == [s[0]] + s[1..][..|s| - 1 - |t|];
    }
  }

  /** Trimming takes off white space at both ends and nothing else. */
  lemma TrimExact(s: string, sp: char -> bool) returns (before: string, after: string)
    ensures s == before + Trim(s, sp) + after && AllSpace(before, sp) && AllSpace(after, sp) && Tight(Trim(s, sp), sp)
  {
    var t := TrimEnd(s, sp);
    var core := TrimStart(t, sp);
    TrimEndExact(s, sp);
    TrimStartExact(t, sp);
    TrimParts(s, t, core, sp);
    hide TrimEnd, TrimStart, AllSpace, Tight;
    before, after := t[..|t| - |core|], s[|t|..];
  }

  lemma TrimParts(s: string, t: string, core: string, sp: char -> bool)
    requires t <= s && |core| <= |t| && t[|t| - |core|..] == core
    requires (t != "" ==> !sp(t[|t| - 1])) && (core != "" ==> !sp(core[0]))
    ensures s == t[..|t| - |core|] + core + s[|t|..] && Tight(core, sp)
  {
    assert t == t[..|t| - |core|] + core;
    assert s == t + s[|t|..];
  }

  /** A line is blank exactly when it is all white space. */
  lemma BlankMeans(line: string, sp: char -> bool)
    ensures IsBlank(line, sp) <==> AllSpace(line, sp)
  {
    var before, after := TrimExact(line, sp);
    var core := Trim(line, sp);
    hide Trim;
    if core == "" {
      assert line == before + after;
    } else {
      assert line[|before|] == core[0];
    }
  }

  /** The first character that is not white space stands at `i` and starts `part`. */
  ghost predicate StartsAt(line: string, part: string, sp: char -> bool, i: int) {
    0 <= i < |line| && AllSpace(line[..i], sp) && !sp(line[i]) && part <= line[i..]
  }

  /** A table row starts, after white space, with a bar. */
  lemma RowMeans(line: string, sp: char -> bool)
    ensures IsRow(line, sp) <==> exists i :: StartsAt(line, "|", sp, i)
  {
    TrimStartExact(line, sp);
    hide TrimStart;
    StartIs(line, TrimStart(line, sp), "|", sp);
  }

  lemma StartIs(line: string, core: string, part: string, sp: char -> bool)
    requires part != "" && |core| <= |line| && line[|line| - |core|..] == core
    requires AllSpace(line[..|line| - |core|], sp) && (core != "" ==> !sp(core[0]))
    ensures part <= core <==> exists i :: StartsAt(line, part, sp, i)
  {
    var n := |line| - |core|;
    if part <= core { assert StartsAt(line, part, sp, n); }
    if exists i :: StartsAt(line, part, sp, i) {
      var i :| StartsAt(line, part, sp, i);
      assert forall k :: 0 <= k < n ==> line[..n][k] == line[k];
      assert forall k :: 0 <= k < i ==> line[..i][k] == line[k];
      assert i == n;
    }
  }

  lemma StartsLater(t: string, line: string, sp: char -> bool, i: int)
    requires t <= line && StartsAt(t, FENCE, sp, i)
    ensures StartsAt(line, FENCE, sp, i)
  {
    assert t[..i] == line[..i] && t[i..] <= line[i..];
  }

  lemma StartsBefore(t: string, line: string, sp: char -> bool, i: int)
    requires t <= line && StartsAt(line, FENCE, sp, i) && !sp('`') && forall k :: |t| <= k < |line| ==> sp(line[k])
    ensures StartsAt(t, FENCE, sp, i)
  {
    var u := line[i..];
    assert u[..3] == FENCE;
    assert u[2] == u[..3][2] == '`' && line[i + 2] == u[2];
    assert i + 2 < |t|;
    var v := t[i..];
    assert v == u[..|t| - i] && t[..i] == line[..i];
    assert v[..3] == u[..3];
  }

  /** A fence starts, after white space, with three backticks. */
  lemma FenceMeans(line: string, sp: char -> bool)
    requires !sp('`')
    ensures IsFence(line, sp) <==> exists i :: StartsAt(line, FENCE, sp, i)
  {
    var t := TrimEnd(line, sp);
    TrimEndIsPrefix(line, sp);
    TrimStartExact(t, sp);
    StartIs(t, TrimStart(t, sp), FENCE, sp);
    hide TrimEnd, TrimStart, StartsAt;
    if exists i :: StartsAt(t, FENCE, sp, i) {
      var i :| StartsAt(t, FENCE, sp, i);
      StartsLater(t, line, sp, i);
    }
    if exists i :: StartsAt(line, FENCE, sp, i) {
      var i :| StartsAt(line, FENCE, sp, i);
      StartsBefore(t, line, sp, i);
    }
  }

  /** A table has a row, and nothing but rows and blank lines. */
  lemma TableMeans(block: seq<string>, sp: char -> bool)
    ensures IsTable(block, sp) <==>
              && (exists k, i :: 0 <= k < |block| && StartsAt(block[k], "|", sp, i))
              && forall k :: 0 <= k < |block| ==> AllSpace(block[k], sp) || exists i :: StartsAt(block[k], "|", sp, i)
  {
    forall k | 0 <= k < |block|
    ensures (IsRow(block[k], sp) <==> exists i :: StartsAt(block[k], "|", sp, i))
            && (IsBlank(block[k], sp) <==> AllSpace(block[k], sp)) {
      RowMeans(block[k], sp);
      BlankMeans(block[k], sp);
    }
    hide IsRow, IsBlank, StartsAt, AllSpace;
  }

  lemma {:induction false} TrimStartSkips(a: string, b: string, sp: char -> bool)
    requires AllSpace(a, sp) && (b != "" ==> !sp(b[0]))
    ensures TrimStart(a + b, sp) == b
  {
    if a == "" {
      assert a + b == b;
    } else {
      assert (a + b)[1..] == a[1..] + b;
      TrimStartSkips(a[1..], b, sp);
    }
  }

  lemma {:induction false} TrimEndSkips(a: string, b: string, sp: char -> bool)
    requires AllSpace(b, sp) && (a != "" ==> !sp(a[|a| - 1]))
    ensures TrimEnd(a + b, sp) == a
    decreases |b|
  {
    if b == "" {
      assert a + b == a;
    } else {
      assert (a + b)[..|a + b| - 1] == a + b[..|b| - 1];
      TrimEndSkips(a, b[..|b| - 1], sp);
    }
  }

  /** What is left after trimming is the tight text between white space. */
  lemma TrimIs(before: string, core: string, after: string, sp: char -> bool)
    requires AllSpace(before, sp) && AllSpace(after, sp) && Tight(core, sp) && core != ""
    ensures Trim(before + core + after, sp) == core
  {
    TrimEndSkips(before + core, after, sp);
    TrimStartSkips(before, core, sp);
  }

  ghost predicate Around(line: string, before: string, core: string, after: string, sp: char -> bool) {
    line == before + core + after && AllSpace(before, sp) && AllSpace(after, sp)
  }

  /** A machine line is blank or says `[done]` and nothing else. */
  lemma MachineMeans(line: string, sp: char -> bool)
    requires !sp('[') && !sp(']')
    ensures IsMachine(line, sp) <==> AllSpace(line, sp) || exists before, after ::
              Around(line, before, "[done]", after, sp)
  {
    BlankMeans(line, sp);
    if Trim(line, sp) == "[done]" {
      var before, after := TrimExact(line, sp);
      assert Around(line, before, "[done]", after, sp);
    }
    if exists before, after :: Around(line, before, "[done]", after, sp) {
      var before, after :| Around(line, before, "[done]", after, sp);
      TrimIs(before, "[done]", after, sp);
    }
    hide Trim;
  }

  /** A verdict line holds the opening marker somewhere. */
  lemma VerdictMeans(line: string)
    ensures IsVerdict(line) <==> exists before, after :: line == before + "[[verdict:" + after
  {
    if IsVerdict(line) {
      var i :| 0 <= i <= |line| && OccursAt(line, "[[verdict:", i);
      assert line == line[..i] + "[[verdict:" + line[i + 10..];
    }
    if exists before, after :: line == before + "[[verdict:" + after {
      var before, after :| line == before + "[[verdict:" + after;
      assert line[|before|..|before| + 10] == "[[verdict:";
      assert OccursAt(line, "[[verdict:", |before|);
    }
  }

  // ---- lines ----

  predicate OneLine(line: string) {
    forall i :: 0 <= i < |line| ==> line[i] != '\n'
  }

  lemma BreakAt(text: string, i: nat)
    ensures OccursAt(text, "\n", i) <==> i < |text| && text[i] == '\n'
  {
    if i < |text| { assert text[i..i + 1] == [text[i]]; }
  }

  lemma FirstBreak(line: string, rest: string)
    requires OneLine(line)
    ensures FirstFrom(line + "\n" + rest, "\n", 0) == Some(|line|) && FirstFrom(line, "\n", 0) == None
  {
    var text := line + "\n" + rest;
    forall i: nat ensures OccursAt(text, "\n", i) <==> i < |text| && text[i] == '\n' { BreakAt(text, i); }
    forall i: nat ensures OccursAt(line, "\n", i) <==> i < |line| && line[i] == '\n' { BreakAt(line, i); }
    assert text[|line|] == '\n' && forall i :: 0 <= i < |line| ==> text[i] == line[i];
    hide FirstFrom, OccursAt;
    assert OccursAt(text, "\n", |line|);
  }

  /** How a text is split: by line feeds, each with the carriage return before it; the last line may lack one. */
  lemma LinesLaw(line: string, rest: string)
    requires OneLine(line)
    ensures Lines(line + "\n" + rest) == [StripReturn(line)] + Lines(rest)
    ensures Lines(line) == if line == "" then [] else [line]
  {
    FirstBreak(line, rest);
    hide FirstFrom, StripReturn;
    var text := line + "\n" + rest;
    assert text[..|line|] == line && text[|line| + 1..] == rest;
  }

  lemma {:induction false} LinesHaveNoBreaks(text: string)
    ensures forall i :: 0 <= i < |Lines(text)| ==> OneLine(Lines(text)[i])
    decreases |text|
  {
    forall i: nat ensures OccursAt(text, "\n", i) <==> i < |text| && text[i] == '\n' { BreakAt(text, i); }
    if text != "" {
      var cut := FirstFrom(text, "\n", 0);
      if cut.Some? { LinesHaveNoBreaks(text[cut.value + 1..]); }
    }
  }

  /** Lines that joining and splitting give back: none holds a line feed, none before another ends in a carriage
      return, and the last is not empty. */
  predicate Plain(lines: seq<string>) {
    && (forall i :: 0 <= i < |lines| ==> OneLine(lines[i]))
    && (forall i :: 0 <= i < |lines| - 1 ==> StripReturn(lines[i]) == lines[i])
    && (lines != [] ==> lines[|lines| - 1] != "")
  }

  /** Splitting undoes joining exactly on such lines. */
  lemma {:induction false} SplitUndoesJoin(lines: seq<string>)
    ensures Lines(Joined(lines)) == lines <==> Plain(lines)
  {
    hide Lines, StripReturn;
    if lines == [] {
      LinesLaw("", "");
    } else if exists i :: 0 <= i < |lines| && !OneLine(lines[i]) {
      var i :| 0 <= i < |lines| && !OneLine(lines[i]);
      LinesHaveNoBreaks(Joined(lines));
    } else if |lines| == 1 {
      LinesLaw(lines[0], "");
    } else {
      SplitUndoesJoin(lines[1..]);
      LinesLaw(lines[0], Joined(lines[1..]));
      assert lines == [lines[0]] + lines[1..];
      assert Plain(lines) <==> StripReturn(lines[0]) == lines[0] && Plain(lines[1..]) by { PlainStep(lines); }
    }
  }

  lemma PlainStep(lines: seq<string>)
    requires |lines| > 1 && OneLine(lines[0])
    ensures Plain(lines) <==> StripReturn(lines[0]) == lines[0] && Plain(lines[1..])
  {
    hide StripReturn, OneLine;
    var rest := lines[1..];
    if StripReturn(lines[0]) == lines[0] && Plain(rest) {
      forall i | 0 <= i < |lines| ensures OneLine(lines[i]) && (i < |lines| - 1 ==> StripReturn(lines[i]) == lines[i]) {
        if i > 0 { assert lines[i] == rest[i - 1]; }
      }
    }
  }

  /** A text whose line ends are single line feeds, and which does not end in one. */
  predicate Even(text: string) {
    && (forall i :: 0 <= i < |text| - 1 && text[i + 1] == '\n' ==> text[i] != '\r')
    && (text != "" ==> text[|text| - 1] != '\n')
  }

  /** Where the characters of the joined text come from. */
  lemma JoinedAt(line: string, rest: string, i: int)
    requires 0 <= i < |line| + 1 + |rest|
    ensures var text := line + "\n" + rest;
            text[i] == if i < |line| then line[i] else if i == |line| then '\n' else rest[i - |line| - 1]
  {
  }

  lemma EvenStep(line: string, rest: string)
    requires OneLine(line) && rest != ""
    ensures Even(line + "\n" + rest) <==> StripReturn(line) == line && Even(rest)
  {
    var text, n := line + "\n" + rest, |line| + 1;
    forall i | 0 <= i < |text|
    ensures text[i] == if i < |line| then line[i] else if i == |line| then '\n' else rest[i - n] {
      JoinedAt(line, rest, i);
    }
    if Even(text) { EvenParts(text, line, rest); }
    if StripReturn(line) == line && Even(rest) { EvenWhole(text, line, rest); }
  }

  ghost predicate IsJoined(text: string, line: string, rest: string) {
    && |text| == |line| + 1 + |rest|
    && forall i :: 0 <= i < |text| ==>
         text[i] == if i < |line| then line[i] else if i == |line| then '\n' else rest[i - (|line| + 1)]
  }

  lemma EvenParts(text: string, line: string, rest: string)
    requires IsJoined(text, line, rest) && Even(text) && rest != ""
    ensures StripReturn(line) == line && Even(rest)
  {
    var n := |line| + 1;
    if line != "" { assert text[n - 1] == '\n' && text[n - 2] == line[n - 2]; }
    forall i | 0 <= i < |rest| - 1 && rest[i + 1] == '\n' ensures rest[i] != '\r' {
      assert text[n + i] == rest[i] && text[n + i + 1] == rest[i + 1];
    }
    assert text[|text| - 1] == rest[|rest| - 1];
  }

  lemma EvenWhole(text: string, line: string, rest: string)
    requires IsJoined(text, line, rest) && OneLine(line) && StripReturn(line) == line && Even(rest) && rest != ""
    ensures Even(text)
  {
    var n := |line| + 1;
    forall i | 0 <= i < |text| - 1 && text[i + 1] == '\n' ensures text[i] != '\r' {
      if i >= n { assert text[i] == rest[i - n] && text[i + 1] == rest[i + 1 - n]; }
    }
    assert text[|text| - 1] == rest[|rest| - 1];
  }

  /** Joining undoes splitting exactly on such texts; it never makes a text longer. */
  lemma {:induction false} JoinUndoesSplit(text: string)
    ensures Joined(Lines(text)) == text <==> Even(text)
    ensures |Joined(Lines(text))| <= |text|
    decreases |text|
  {
    forall i: nat ensures OccursAt(text, "\n", i) <==> i < |text| && text[i] == '\n' { BreakAt(text, i); }
    var cut := FirstFrom(text, "\n", 0);
    hide FirstFrom, Even, StripReturn;
    if cut.None? {
      LinesLaw(text, "");
      EvenLine(text);
    } else {
      var line, rest := text[..cut.value], text[cut.value + 1..];
      assert text == line + "\n" + rest && OneLine(line);
      JoinUndoesSplit(rest);
      LinesLaw(line, rest);
      Stripped(line);
      if rest == "" {
        EvenEnd(text);
      } else {
        EvenStep(line, rest);
        JoinedStep(StripReturn(line), Lines(rest));
        JoinsAlike(line, StripReturn(line), rest, Joined(Lines(rest)));
      }
    }
  }

  lemma EvenLine(text: string)
    requires OneLine(text)
    ensures Even(text)
  {
  }

  lemma EvenEnd(text: string)
    ensures text != "" && text[|text| - 1] == '\n' ==> !Even(text)
  {
  }

  lemma Stripped(line: string)
    ensures |StripReturn(line)| <= |line| && (|StripReturn(line)| == |line| ==> StripReturn(line) == line)
  {
  }

  lemma JoinedStep(line: string, lines: seq<string>)
    ensures Joined([line] + lines) == if lines == [] then line else line + "\n" + Joined(lines)
  {
    assert ([line] + lines)[1..] == lines;
  }

  lemma JoinsAlike(line: string, line': string, rest: string, rest': string)
    requires |line'| <= |line| && |rest'| <= |rest|
    ensures line + "\n" + rest == line' + "\n" + rest' <==> line == line' && rest == rest'
  {
    var a, b := line + "\n" + rest, line' + "\n" + rest';
    if a == b {
      assert |a| == |b| && |line| == |line'|;
      assert line == a[..|line|] && line' == b[..|line|] && rest == a[|line| + 1..] && rest' == b[|line| + 1..];
    }
  }

  // ---- the findings block ----

  /** The findings text runs from the first opening of a block to the first closing after it, both included. */
  lemma FindingsSpan(text: string, start: nat, end: nat)
    requires OccursAt(text, "<!-- openab-findings", start)
    requires forall k :: 0 <= k < start ==> !OccursAt(text, "<!-- openab-findings", k)
    ensures (start <= end && OccursAt(text, "-->", end) && forall k :: start <= k < end ==> !OccursAt(text, "-->", k))
            ==> FindingsText(text) == Some(text[start..end + 3])
    ensures FindingsText(text) == None <==> forall k: nat :: start <= k ==> !OccursAt(text, "-->", k)
  {
    hide OccursAt;
    assert FirstFrom(text, "<!-- openab-findings", 0) == Some(start);
  }

  lemma NoFindings(text: string)
    requires forall k: nat :: !OccursAt(text, "<!-- openab-findings", k)
    ensures FindingsText(text) == None
  {
    hide OccursAt;
  }

  // ---- the cases of the comment ----

  predicate LastAnchor(text: string, at: nat) {
    OccursAt(text, REPORT_START, at) && forall k :: at < k <= |text| ==> !OccursAt(text, REPORT_START, k)
  }

  /** Without a trailer an anchored text is published from its last anchor on, with the notice under a rule; without
      an anchor the notice is all there is, or the lost report's verdict with the findings block. */
  lemma CommentCases(source: string, trailer: Option<Trailer>, n: Notices, sp: char -> bool, at: nat)
    ensures var text, body := TrimEnd(source, sp), CommentBody.CommentBody(source, trailer, n, sp);
            && (LastAnchor(text, at) && trailer.None? ==>
                  at <= |text| && body == text[at..] + "\n\n---\n" + n.noVerdict)
            && ((forall k :: 0 <= k <= |text| ==> !OccursAt(text, REPORT_START, k)) ==>
                  body == match trailer
                          case None => n.noVerdict
                          case Some(t) => n.degraded(t) + (if FindingsText(text).None? then ""
                                                           else "\n\n" + FindingsText(text).value))
  {
    var text := TrimEnd(source, sp);
    AnchorFound(text, at);
    hide TrimEnd, OccursAt, LastAnchor, FindingsText, LastIndex, Joined, UnfencedFrom, WithoutTail, BeforeVerdict,
    Lines;
  }

  lemma AnchorFound(text: string, at: nat)
    ensures LastAnchor(text, at) ==> at <= |text| && LastIndex(text, REPORT_START) == Some(at)
    ensures (forall k :: 0 <= k <= |text| ==> !OccursAt(text, REPORT_START, k)) ==>
              LastIndex(text, REPORT_START) == None
  {
    if OccursAt(text, REPORT_START, at) { AnchorFits(text, at); }
    hide OccursAt, LastUpTo;
  }

  lemma AnchorFits(text: string, at: nat)
    requires OccursAt(text, REPORT_START, at)
    ensures at + |REPORT_START| <= |text|
  {
  }

  // ---- taking fences off ----

  predicate Fenceless(lines: seq<string>, sp: char -> bool) {
    forall i :: 0 <= i < |lines| ==> !IsFence(lines[i], sp)
  }

  lemma {:induction false} UnfenceSkips(before: seq<string>, lines: seq<string>, i: nat, sp: char -> bool)
    requires i <= |before| && Fenceless(before, sp)
    ensures UnfencedFrom(before + lines, i, sp) == before[i..] + UnfencedFrom(before + lines, |before|, sp)
    decreases |before| - i
  {
    hide IsFence, UnfencedFrom;
    var all := before + lines;
    if i == |before| {
      assert before[i..] == [];
    } else {
      assert all[i] == before[i];
      LineAt(all, i, sp);
      UnfenceSkips(before, lines, i + 1, sp);
      assert before[i..] == [before[i]] + before[i + 1..];
    }
  }

  lemma {:induction false} FenceShift(before: seq<string>, lines: seq<string>, i: nat, sp: char -> bool)
    requires i <= |lines|
    ensures NextFence(before + lines, |before| + i, sp) == |before| + NextFence(lines, i, sp)
    decreases |lines| - i
  {
    hide IsFence;
    if i < |lines| {
      assert (before + lines)[|before| + i] == lines[i];
      FenceShift(before, lines, i + 1, sp);
    }
  }

  lemma OpensShift(before: seq<string>, lines: seq<string>, i: nat, sp: char -> bool)
    requires i < |lines|
    ensures OpensTable(before + lines, |before| + i, sp) <==> OpensTable(lines, i, sp)
  {
    hide IsFence, IsTable, NextFence;
    var all, n := before + lines, |before|;
    FenceShift(before, lines, i + 1, sp);
    assert all[n + i] == lines[i];
    var k := NextFence(lines, i + 1, sp);
    if k < |lines| { assert all[n + i + 1..n + k] == lines[i + 1..k]; }
  }

  lemma {:induction false} UnfenceShift(before: seq<string>, lines: seq<string>, i: nat, sp: char -> bool)
    requires i <= |lines|
    ensures UnfencedFrom(before + lines, |before| + i, sp) == UnfencedFrom(lines, i, sp)
    decreases |lines| - i
  {
    hide IsFence, IsTable, NextFence, UnfencedFrom, OpensTable;
    var all, n := before + lines, |before|;
    if i == |lines| {
      NothingAt(all, sp);
      NothingAt(lines, sp);
    } else {
      OpensShift(before, lines, i, sp);
      if OpensTable(lines, i, sp) {
        TableAt(lines, i, sp);
        TableAt(all, n + i, sp);
        FenceShift(before, lines, i + 1, sp);
        var k := NextFence(lines, i + 1, sp);
        UnfenceShift(before, lines, k + 1, sp);
        assert all[n + i + 1..n + k] == lines[i + 1..k];
      } else {
        LineAt(lines, i, sp);
        LineAt(all, n + i, sp);
        UnfenceShift(before, lines, i + 1, sp);
      }
    }
  }

  /** Lines without fences stay; the first fence goes, with the one that closes it, exactly when only a table stands
      between them, and stays otherwise; the rest follows the same rule. */
  lemma UnfenceLaw(before: seq<string>, open: string, block: seq<string>, close: string, rest: seq<string>,
                   sp: char -> bool)
    requires Fenceless(before, sp) && IsFence(open, sp) && Fenceless(block, sp) && IsFence(close, sp)
    ensures UnfencedFrom(before, 0, sp) == before
    ensures UnfencedFrom(before + ([open] + block), 0, sp) == before + [open] + block
    ensures UnfencedFrom(before + ([open] + block + [close] + rest), 0, sp)
            == before + (if IsTable(block, sp) then block + UnfencedFrom(rest, 0, sp)
                         else [open] + UnfencedFrom(block + [close] + rest, 0, sp))
  {
    hide IsFence, IsTable, UnfencedFrom, OpensTable;
    var closed, unclosed := [open] + block + [close] + rest, [open] + block;
    NoFences(before, sp);
    UnfenceSkips(before, closed, 0, sp);
    UnfenceShift(before, closed, 0, sp);
    UnfenceSkips(before, unclosed, 0, sp);
    UnfenceShift(before, unclosed, 0, sp);
    assert before[0..] == before;
    UnclosedFence(open, block, sp);
    ClosedFence(open, block, close, rest, sp);
  }

  lemma NoFences(lines: seq<string>, sp: char -> bool)
    requires Fenceless(lines, sp)
    ensures UnfencedFrom(lines, 0, sp) == lines
  {
    hide IsFence, UnfencedFrom;
    UnfenceSkips(lines, [], 0, sp);
    NothingAt(lines, sp);
    assert lines + [] == lines && lines[0..] == lines;
  }

  lemma UnclosedFence(open: string, block: seq<string>, sp: char -> bool)
    requires IsFence(open, sp) && Fenceless(block, sp)
    ensures UnfencedFrom([open] + block, 0, sp) == [open] + block
  {
    hide IsFence, UnfencedFrom, IsTable;
    var lines := [open] + block;
    FenceShift([open], block, 0, sp);
    assert NextFence(block, 0, sp) == |block|;
    LineAt(lines, 0, sp);
    UnfenceShift([open], block, 0, sp);
    NoFences(block, sp);
  }

  lemma ClosedFence(open: string, block: seq<string>, close: string, rest: seq<string>, sp: char -> bool)
    requires IsFence(open, sp) && Fenceless(block, sp) && IsFence(close, sp)
    ensures UnfencedFrom([open] + block + [close] + rest, 0, sp)
            == if IsTable(block, sp) then block + UnfencedFrom(rest, 0, sp)
               else [open] + UnfencedFrom(block + [close] + rest, 0, sp)
  {
    hide IsFence, UnfencedFrom, IsTable, NextFence;
    var lines, k := [open] + block + [close] + rest, 1 + |block|;
    assert lines[k] == close && forall i :: 1 <= i < k ==> lines[i] == block[i - 1];
    assert NextFence(lines, 1, sp) == k;
    assert lines[1..k] == block;
    if IsTable(block, sp) {
      TableAt(lines, 0, sp);
      UnfenceShift([open] + block + [close], rest, 0, sp);
    } else {
      LineAt(lines, 0, sp);
      assert lines == [open] + (block + [close] + rest);
      UnfenceShift([open], block + [close] + rest, 0, sp);
    }
  }

  // ---- words ----

  lemma {:induction false} WordsStarted(s: string, started: string, sp: char -> bool)
    requires forall i :: 0 <= i < |s| ==> !sp(s[i])
    ensures WordsWith(s, started, sp) == if started + s == "" then [] else [started + s]
    decreases |s|
  {
    if s == "" {
      assert started + s == started;
    } else {
      WordsStarted(s[1..], started + [s[0]], sp);
      assert started + [s[0]] + s[1..] == started + s;
    }
  }

  lemma {:induction false} WordsSplit(a: string, c: char, b: string, started: string, sp: char -> bool)
    requires sp(c)
    ensures WordsWith(a + [c] + b, started, sp) == WordsWith(a, started, sp) + WordsWith(b, "", sp)
    decreases |a|
  {
    var s := a + [c] + b;
    if a == "" {
      assert s == [c] + b && s[1..] == b;
    } else {
      assert s[0] == a[0] && s[1..] == a[1..] + [c] + b;
      if sp(a[0]) { WordsSplit(a[1..], c, b, "", sp); } else { WordsSplit(a[1..], c, b, started + [a[0]], sp); }
    }
  }

  /** The words of a text: what stands between white space, without empty pieces. */
  lemma WordsLaw(a: string, c: char, b: string, sp: char -> bool)
    ensures (forall i :: 0 <= i < |a| ==> !sp(a[i])) ==> Words(a, sp) == if a == "" then [] else [a]
    ensures sp(c) ==> Words(a + [c] + b, sp) == Words(a, sp) + Words(b, sp)
  {
    if forall i :: 0 <= i < |a| ==> !sp(a[i]) {
      WordsStarted(a, "", sp);
      assert "" + a == a;
    }
    if sp(c) { WordsSplit(a, c, b, "", sp); }
  }
}
