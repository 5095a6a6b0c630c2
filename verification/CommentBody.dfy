/** The comment published for a closed session: the chair's report cut out of the settled text around it. */
module CommentBody {
  import opened Collections
  import opened Closing

  const REPORT_START := "<!-- openab-council -->"
  const VERDICT := "[[verdict:"
  const FENCE := "```"

  // ---- text ----

  /** Which characters count as white space is left open; `sp` says it. */
  function TrimEnd(s: string, sp: char -> bool): string {
    if s != "" && sp(s[|s| - 1]) then TrimEnd(s[..|s| - 1], sp) else s
  }

  function TrimStart(s: string, sp: char -> bool): string {
    if s != "" && sp(s[0]) then TrimStart(s[1..], sp) else s
  }

  function Trim(s: string, sp: char -> bool): string {
    TrimStart(TrimEnd(s, sp), sp)
  }

  /** The last occurrence of `part` that starts at or before `i`. */
  function LastUpTo(text: string, part: string, i: nat): (r: Option<nat>)
    ensures r.Some? ==> r.value <= i && OccursAt(text, part, r.value) && forall k :: r.value < k <= i ==>
              !OccursAt(text, part, k)
    ensures r.None? ==> forall k :: 0 <= k <= i ==> !OccursAt(text, part, k)
  {
    if OccursAt(text, part, i) then Some(i) else if i == 0 then None else LastUpTo(text, part, i - 1)
  }

  function LastIndex(text: string, part: string): Option<nat> {
    LastUpTo(text, part, |text|)
  }

  function FirstFrom(text: string, part: string, i: nat): (r: Option<nat>)
    requires i <= |text|
    ensures r.Some? ==> i <= r.value && OccursAt(text, part, r.value) && forall k :: i <= k < r.value ==>
              !OccursAt(text, part, k)
    ensures r.None? ==> forall k: nat :: i <= k ==> !OccursAt(text, part, k) || part == ""
    decreases |text| - i
  {
    if OccursAt(text, part, i) then Some(i) else if i == |text| then None else FirstFrom(text, part, i + 1)
  }

  function StripReturn(line: string): string {
    if line != "" && line[|line| - 1] == '\r' then line[..|line| - 1] else line
  }

  function Lines(text: string): seq<string> {
    if text == "" then []
    else
      var cut := FirstFrom(text, "\n", 0);
      if cut.None? then [text] else [StripReturn(text[..cut.value])] + Lines(text[cut.value + 1..])
  }

  function Joined(lines: seq<string>): string {
    if lines == [] then "" else if |lines| == 1 then lines[0] else lines[0] + "\n" + Joined(lines[1..])
  }

  // ---- lines ----

  predicate IsFence(line: string, sp: char -> bool) {
    FENCE <= Trim(line, sp)
  }

  predicate IsRow(line: string, sp: char -> bool) {
    "|" <= TrimStart(line, sp)
  }

  predicate IsBlank(line: string, sp: char -> bool) {
    Trim(line, sp) == ""
  }

  predicate IsMachine(line: string, sp: char -> bool) {
    Trim(line, sp) == "" || Trim(line, sp) == "[done]"
  }

  predicate IsVerdict(line: string) {
    Contains(line, VERDICT)
  }

  predicate IsTable(block: seq<string>, sp: char -> bool) {
    (exists i :: 0 <= i < |block| && IsRow(block[i], sp))
    && (forall i :: 0 <= i < |block| ==> IsBlank(block[i], sp) || IsRow(block[i], sp))
  }

  /** The next fence at or after `i`, or the end. */
  function NextFence(lines: seq<string>, i: nat, sp: char -> bool): (k: nat)
    requires i <= |lines|
    ensures i <= k <= |lines| && (k < |lines| ==> IsFence(lines[k], sp)) && forall j :: i <= j < k ==>
              !IsFence(lines[j], sp)
    decreases |lines| - i
  {
    if i == |lines| || IsFence(lines[i], sp) then i else NextFence(lines, i + 1, sp)
  }

  /** A fence at `i` opens a table that the next fence closes. */
  predicate OpensTable(lines: seq<string>, i: nat, sp: char -> bool)
    requires i < |lines|
  {
    IsFence(lines[i], sp)
    && var k := NextFence(lines, i + 1, sp);
       k < |lines| && IsTable(lines[i + 1..k], sp)
  }

  /** The lines from `i` on, with the fences around tables taken off. */
  function UnfencedFrom(lines: seq<string>, i: nat, sp: char -> bool): seq<string>
    requires i <= |lines|
    decreases |lines| - i
  {
    if i == |lines| then []
    else if OpensTable(lines, i, sp) then
      var k := NextFence(lines, i + 1, sp);
      lines[i + 1..k] + UnfencedFrom(lines, k + 1, sp)
    else [lines[i]] + UnfencedFrom(lines, i + 1, sp)
  }

  function NotFence(sp: char -> bool): string -> bool {
    (line: string) => !IsFence(line, sp)
  }

  lemma KeepOne(line: string, p: string -> bool)
    ensures Keep([line], p) == if p(line) then [line] else []
  {
    assert [line][..0] == [];
  }

  lemma KeepBetween(open: string, block: seq<string>, close: string, rest: seq<string>, p: string -> bool)
    requires !p(open) && !p(close)
    ensures Keep([open] + block + [close] + rest, p) == Keep(block, p) + Keep(rest, p)
  {
    hide Keep;
    KeepAppend([open] + block + [close], rest, p);
    KeepAppend([open] + block, [close], p);
    KeepAppend([open], block, p);
    KeepOne(open, p);
    KeepOne(close, p);
  }

  /** How the lines from `i` on split, and what becomes of them. */
  lemma TableAt(lines: seq<string>, i: nat, sp: char -> bool)
    requires i < |lines| && OpensTable(lines, i, sp)
    ensures var k := NextFence(lines, i + 1, sp);
            && k < |lines| && IsFence(lines[i], sp) && IsFence(lines[k], sp)
            && lines[i..] == [lines[i]] + lines[i + 1..k] + [lines[k]] + lines[k + 1..]
            && UnfencedFrom(lines, i, sp) == lines[i + 1..k] + UnfencedFrom(lines, k + 1, sp)
  {
    hide UnfencedFrom, IsFence, IsTable, OpensTable, NextFence;
    FencesAround(lines, i, sp);
    UnfoldTable(lines, i, sp);
    SliceAround(lines, i, NextFence(lines, i + 1, sp));
  }

  lemma FencesAround(lines: seq<string>, i: nat, sp: char -> bool)
    requires i < |lines| && OpensTable(lines, i, sp)
    ensures var k := NextFence(lines, i + 1, sp);
            i < k < |lines| && IsFence(lines[i], sp) && IsFence(lines[k], sp)
  {
    hide IsFence, IsTable;
  }

  lemma UnfoldTable(lines: seq<string>, i: nat, sp: char -> bool)
    requires i < |lines| && OpensTable(lines, i, sp)
    ensures var k := NextFence(lines, i + 1, sp);
            k < |lines| && UnfencedFrom(lines, i, sp) == lines[i + 1..k] + UnfencedFrom(lines, k + 1, sp)
  {
    hide IsFence, IsTable;
  }

  lemma SliceAround(lines: seq<string>, i: nat, k: nat)
    requires i < k < |lines|
    ensures lines[i..] == [lines[i]] + lines[i + 1..k] + [lines[k]] + lines[k + 1..]
  {
  }

  lemma LineAt(lines: seq<string>, i: nat, sp: char -> bool)
    requires i < |lines| && !OpensTable(lines, i, sp)
    ensures lines[i..] == [lines[i]] + lines[i + 1..]
            && UnfencedFrom(lines, i, sp) == [lines[i]] + UnfencedFrom(lines, i + 1, sp)
  {
    hide OpensTable;
  }

  lemma NothingAt(lines: seq<string>, sp: char -> bool)
    ensures lines[|lines|..] == [] && UnfencedFrom(lines, |lines|, sp) == []
  {
  }

  method UnfenceTables(lines: seq<string>, sp: char -> bool) returns (out: seq<string>)
    ensures out == UnfencedFrom(lines, 0, sp)
  {
    hide UnfencedFrom, IsTable, IsFence;
    out := [];
    var i := 0;
    while i < |lines|
      invariant 0 <= i <= |lines| && UnfencedFrom(lines, 0, sp) == out + UnfencedFrom(lines, i, sp)
    {
      if IsFence(lines[i], sp) {
        var k := NextFence(lines, i + 1, sp);
        if k < |lines| && IsTable(lines[i + 1..k], sp) {
          TableAt(lines, i, sp);
          out := out + lines[i + 1..k];
          i := k + 1;
          continue;
        }
      }
      LineAt(lines, i, sp);
      out := out + [lines[i]];
      i := i + 1;
    }
    NothingAt(lines, sp);
  }

  lemma {:induction false} OnlyFencesGo(lines: seq<string>, i: nat, sp: char -> bool)
    requires i <= |lines|
    ensures Keep(UnfencedFrom(lines, i, sp), NotFence(sp)) == Keep(lines[i..], NotFence(sp))
    decreases |lines| - i
  {
    hide Keep, IsFence, OpensTable, UnfencedFrom;
    var p := NotFence(sp);
    if i == |lines| {
      NothingAt(lines, sp);
    } else if OpensTable(lines, i, sp) {
      TableAt(lines, i, sp);
      var k := NextFence(lines, i + 1, sp);
      OnlyFencesGo(lines, k + 1, sp);
      KeepAppend(lines[i + 1..k], UnfencedFrom(lines, k + 1, sp), p);
      KeepBetween(lines[i], lines[i + 1..k], lines[k], lines[k + 1..], p);
    } else {
      LineAt(lines, i, sp);
      OnlyFencesGo(lines, i + 1, sp);
      KeepAppend([lines[i]], UnfencedFrom(lines, i + 1, sp), p);
      KeepAppend([lines[i]], lines[i + 1..], p);
    }
  }

  // ---- the comment ----

  /** The report proper: up to the first verdict line, without trailing blank or `[done]` lines. */
  function BeforeVerdict(lines: seq<string>): seq<string> {
    if lines == [] || IsVerdict(lines[0]) then [] else [lines[0]] + BeforeVerdict(lines[1..])
  }

  function WithoutTail(lines: seq<string>, sp: char -> bool): seq<string> {
    if lines != [] && IsMachine(lines[|lines| - 1], sp) then WithoutTail(lines[..|lines| - 1], sp) else lines
  }

  function FindingsText(text: string): Option<string> {
    var start := FirstFrom(text, "<!-- openab-findings", 0);
    if start.None? then None
    else
      var end := FirstFrom(text, "-->", start.value);
      if end.None? then None else Some(text[start.value..end.value + 3])
  }

  /** The fixed wording; `degraded` states a verdict whose report was lost. */
  datatype Notices = Notices(noVerdict: string, degraded: Trailer -> string)

  function CommentBody(source: string, trailer: Option<Trailer>, n: Notices, sp: char -> bool): string {
    var text := TrimEnd(source, sp);
    var at := LastIndex(text, REPORT_START);
    if at.None? then
      if trailer.None? then n.noVerdict
      else n.degraded(trailer.value) + (if FindingsText(text).Some? then "\n\n" + FindingsText(text).value else "")
    else if trailer.None? then text[at.value..] + "\n\n---\n" + n.noVerdict
    else TrimEnd(Joined(UnfencedFrom(WithoutTail(BeforeVerdict(Lines(text[at.value..])), sp), 0, sp)), sp)
  }

  /** Truncating at the verdict line and popping machine lines. */
  method CutReport(all: seq<string>, sp: char -> bool) returns (lines: seq<string>)
    ensures lines == WithoutTail(BeforeVerdict(all), sp)
  {
    hide IsVerdict, IsMachine;
    var k := 0;
    assert all[0..] == all;
    while k < |all| && !IsVerdict(all[k])
      invariant 0 <= k <= |all| && BeforeVerdict(all) == all[..k] + BeforeVerdict(all[k..])
    {
      assert all[k..][1..] == all[k + 1..] && all[..k] + [all[k]] == all[..k + 1];
      k := k + 1;
    }
    lines := all[..k];
    assert lines == BeforeVerdict(all);
    while lines != [] && IsMachine(lines[|lines| - 1], sp)
      invariant WithoutTail(lines, sp) == WithoutTail(BeforeVerdict(all), sp)
    {
      lines := lines[..|lines| - 1];
    }
  }

  method RenderComment(source: string, trailer: Option<Trailer>, n: Notices, sp: char -> bool) returns (body: string)
    ensures body == CommentBody(source, trailer, n, sp)
  {
    hide TrimEnd, LastUpTo, FindingsText, Lines, WithoutTail, BeforeVerdict, UnfencedFrom, Joined, OccursAt;
    var text := TrimEnd(source, sp);
    var at := LastIndex(text, REPORT_START);
    if at.None? {
      if trailer.None? { return n.noVerdict; }
      var block := FindingsText(text);
      return n.degraded(trailer.value) + (if block.Some? then "\n\n" + block.value else "");
    }
    text := text[at.value..];
    if trailer.None? { return text + "\n\n---\n" + n.noVerdict; }
    var lines := CutReport(Lines(text), sp);
    var out := UnfenceTables(lines, sp);
    return TrimEnd(Joined(out), sp);
  }

  // ---- what is published ----

  lemma {:induction false} BeforeVerdictExact(lines: seq<string>)
    ensures var r := BeforeVerdict(lines);
            && r <= lines && (forall i :: 0 <= i < |r| ==> !IsVerdict(r[i]))
               && (|r| < |lines| ==> IsVerdict(lines[|r|]))
  {
    if lines != [] && !IsVerdict(lines[0]) {
      BeforeVerdictExact(lines[1..]);
      assert lines == [lines[0]] + lines[1..];
    }
  }

  lemma {:induction false} WithoutTailExact(lines: seq<string>, sp: char -> bool)
    ensures var r := WithoutTail(lines, sp);
            && r <= lines && (forall i :: |r| <= i < |lines| ==> IsMachine(lines[i], sp))
               && (r != [] ==> !IsMachine(r[|r| - 1], sp))
  {
    if lines != [] && IsMachine(lines[|lines| - 1], sp) {
      WithoutTailExact(lines[..|lines| - 1], sp);
    }
  }

  /** The report is `lines[..end]`: no verdict line before `verdict`, which is the first one or the end, and only
      blank and `[done]` lines from `end` up to it. */
  ghost predicate Cuts(lines: seq<string>, verdict: nat, end: nat, sp: char -> bool) {
    && end <= verdict <= |lines| && (forall i :: 0 <= i < verdict ==> !IsVerdict(lines[i]))
       && (verdict < |lines| ==> IsVerdict(lines[verdict]))
    && (forall i :: end <= i < verdict ==> IsMachine(lines[i], sp)) && (end > 0 ==> !IsMachine(lines[end - 1], sp))
  }

  /** `out` is `lines` with nothing taken away but fences: the other lines stand in the same order, and of no line
      are there more than before. */
  ghost predicate OnlyFencesGone(out: seq<string>, lines: seq<string>, sp: char -> bool) {
    Keep(out, NotFence(sp)) == Keep(lines, NotFence(sp)) && NoMore(out, lines)
  }

  ghost predicate NoMore(out: seq<string>, lines: seq<string>) {
    multiset(out) <= multiset(lines)
  }

  lemma NoMoreSame(s: seq<string>)
    ensures NoMore(s, s)
  {
  }

  lemma NoMoreAround(open: string, block: seq<string>, close: string, out: seq<string>, rest: seq<string>)
    requires NoMore(out, rest)
    ensures NoMore(block + out, [open] + block + [close] + rest)
  {
  }

  lemma NoMoreAfter(line: string, out: seq<string>, rest: seq<string>)
    requires NoMore(out, rest)
    ensures NoMore([line] + out, [line] + rest)
  {
  }

  lemma {:induction false} NothingAdded(lines: seq<string>, i: nat, sp: char -> bool)
    requires i <= |lines|
    ensures NoMore(UnfencedFrom(lines, i, sp), lines[i..])
    decreases |lines| - i
  {
    hide NoMore, OpensTable, IsFence, UnfencedFrom;
    if i == |lines| {
      NothingAt(lines, sp);
      NoMoreSame(lines[i..]);
    } else if OpensTable(lines, i, sp) {
      TableAt(lines, i, sp);
      var k := NextFence(lines, i + 1, sp);
      NothingAdded(lines, k + 1, sp);
      NoMoreAround(lines[i], lines[i + 1..k], lines[k], UnfencedFrom(lines, k + 1, sp), lines[k + 1..]);
    } else {
      LineAt(lines, i, sp);
      NothingAdded(lines, i + 1, sp);
      NoMoreAfter(lines[i], UnfencedFrom(lines, i + 1, sp), lines[i + 1..]);
    }
  }

  lemma CutsExact(lines: seq<string>, sp: char -> bool)
    ensures var cut := BeforeVerdict(lines); var kept := WithoutTail(cut, sp);
            |kept| <= |lines| && Cuts(lines, |cut|, |kept|, sp) && kept == lines[..|kept|]
  {
    var cut := BeforeVerdict(lines);
    BeforeVerdictExact(lines);
    WithoutTailExact(cut, sp);
    hide IsMachine, IsVerdict;
    assert forall i :: 0 <= i < |cut| ==> lines[i] == cut[i];
  }

  /** `out` is the report found in `lines`: the lines up to the first verdict line, less trailing blank and
      `[done]` lines and some fences. */
  ghost predicate IsReport(out: seq<string>, lines: seq<string>, sp: char -> bool) {
    exists verdict: nat, end: nat :: Cuts(lines, verdict, end, sp) && OnlyFencesGone(out, lines[..end], sp)
  }

  lemma ReportExact(lines: seq<string>, sp: char -> bool)
    ensures IsReport(UnfencedFrom(WithoutTail(BeforeVerdict(lines), sp), 0, sp), lines, sp)
  {
    var kept := WithoutTail(BeforeVerdict(lines), sp);
    var out := UnfencedFrom(kept, 0, sp);
    CutsExact(lines, sp);
    OnlyFencesGo(kept, 0, sp);
    NothingAdded(kept, 0, sp);
    hide Keep, Cuts, UnfencedFrom, NoMore, WithoutTail, BeforeVerdict;
    assert kept[0..] == kept;
    assert OnlyFencesGone(out, lines[..|kept|], sp);
  }

  /** The comment of an anchored report, described without its construction: it is the report found in the lines
      from the last anchor on, joined, with trailing white space taken off. */
  lemma PublishedIsTheReport(source: string, trailer: Option<Trailer>, n: Notices, sp: char -> bool)
    requires LastIndex(TrimEnd(source, sp), REPORT_START).Some? && trailer.Some?
    ensures var text := TrimEnd(source, sp); var at := LastIndex(text, REPORT_START).value;
            && OccursAt(text, REPORT_START, at) && (forall k :: at < k <= |text| ==> !OccursAt(text, REPORT_START, k))
            && exists out :: IsReport(out, Lines(text[at..]), sp)
                             && CommentBody(source, trailer, n, sp) == TrimEnd(Joined(out), sp)
  {
    var text := TrimEnd(source, sp);
    var at := LastIndex(text, REPORT_START).value;
    hide Lines, Joined, TrimEnd, UnfencedFrom, WithoutTail, BeforeVerdict, IsReport, OccursAt;
    ReportExact(Lines(text[at..]), sp);
  }

  // ---- what is never published ----

  lemma {:induction false} TrimEndSplits(a: string, b: string, sp: char -> bool)
    requires TrimEnd(b, sp) != ""
    ensures TrimEnd(a + b, sp) == a + TrimEnd(b, sp)
  {
    if sp(b[|b| - 1]) {
      assert (a + b)[..|a + b| - 1] == a + b[..|b| - 1];
      TrimEndSplits(a, b[..|b| - 1], sp);
    }
  }

  lemma {:induction false} TrimEndIsPrefix(s: string, sp: char -> bool)
    ensures TrimEnd(s, sp) <= s && forall i :: |TrimEnd(s, sp)| <= i < |s| ==> sp(s[i])
  {
    if s != "" && sp(s[|s| - 1]) { TrimEndIsPrefix(s[..|s| - 1], sp); }
  }

  /** The anchor survives trimming. */
  lemma AnchorStays(report: string, sp: char -> bool)
    requires OccursAt(report, REPORT_START, 0) && !sp('>')
    ensures OccursAt(TrimEnd(report, sp), REPORT_START, 0)
  {
    var t, n := TrimEnd(report, sp), |REPORT_START|;
    TrimEndIsPrefix(report, sp);
    assert report[n - 1] == report[0..n][n - 1] == '>';
    assert |t| >= n;
    assert t[0..n] == report[0..n];
  }

  /** What stands before the last anchor has no influence on the comment, whatever it is. */
  lemma NoiseBeforeIsIgnored(noise: string, report: string, trailer: Option<Trailer>, n: Notices, sp: char -> bool)
    requires OccursAt(report, REPORT_START, 0)
             && (forall k :: 0 < k <= |report| ==> !OccursAt(report, REPORT_START, k)) && !sp('>')
    ensures CommentBody(noise + report, trailer, n, sp) == CommentBody(report, trailer, n, sp)
  {
    var t := TrimEnd(report, sp);
    AnchorStays(report, sp);
    TrimEndIsPrefix(report, sp);
    TrimEndSplits(noise, report, sp);
    LastInPrefix(t, report, REPORT_START);
    LastAfter(noise, t, REPORT_START);
    LastAfter("", t, REPORT_START);
    assert "" + t == t && (noise + t)[|noise|..] == t == t[0..];
    hide OccursAt, Lines, UnfencedFrom, LastUpTo;
  }

  /** A prefix has no occurrence the whole does not have. */
  lemma LastInPrefix(t: string, report: string, part: string)
    requires t <= report && forall k :: 0 < k <= |report| ==> !OccursAt(report, part, k)
    ensures forall k :: 0 < k <= |t| ==> !OccursAt(t, part, k)
  {
    forall k | 0 < k <= |t| ensures !OccursAt(t, part, k) {
      assert !OccursAt(report, part, k);
      if k + |part| <= |t| {
        var a, b := report[k..k + |part|], t[k..k + |part|];
        assert forall i :: 0 <= i < |part| ==> a[i] == report[k + i] == t[k + i] == b[i];
        assert a == b;
      }
    }
  }

  /** Text in front only shifts where the last occurrence is found. */
  lemma LastAfter(noise: string, t: string, part: string)
    requires OccursAt(t, part, 0) && forall k :: 0 < k <= |t| ==> !OccursAt(t, part, k)
    ensures LastIndex(noise + t, part) == Some(|noise|)
  {
    var all := noise + t;
    forall k | |noise| <= k <= |all| ensures OccursAt(all, part, k) <==> OccursAt(t, part, k - |noise|) {
      if k + |part| <= |all| {
        var a, b := all[k..k + |part|], t[k - |noise|..k - |noise| + |part|];
        assert forall i :: 0 <= i < |part| ==> a[i] == all[k + i] == t[k - |noise| + i] == b[i];
        assert a == b;
      }
    }
    assert OccursAt(all, part, |noise|);
  }

  /** Without an anchor nothing of the text is published but the findings block between its own markers. */
  lemma OnlyFindingsWithoutAnchor(a: string, b: string, trailer: Option<Trailer>, n: Notices, sp: char -> bool)
    requires LastIndex(TrimEnd(a, sp), REPORT_START).None? && LastIndex(TrimEnd(b, sp), REPORT_START).None?
    requires FindingsText(TrimEnd(a, sp)) == FindingsText(TrimEnd(b, sp))
    ensures CommentBody(a, trailer, n, sp) == CommentBody(b, trailer, n, sp)
  {
  }
}
