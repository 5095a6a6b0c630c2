/** Parsing the verdict trailer a chair ends its report with. */
module VerdictTrailer {
  import opened Collections
  import opened Closing
  import opened CommentBody

  // ---- finding the trailer ----

  /** The text between code fences: every second piece, starting with the first. */
  function Unfenced(text: string): seq<string> {
    var open := FirstFrom(text, FENCE, 0);
    if open.None? then [text]
    else
      var close := FirstFrom(text, FENCE, open.value + 3);
      if close.None? then [text[..open.value]]
      else [text[..open.value]] + Unfenced(text[close.value + 3..])
  }

  /** The last non-blank line outside fences, trimmed. */
  function LastLine(pieces: seq<string>, sp: char -> bool): Option<string> {
    if pieces == [] then None
    else
      var last := LastNonBlank(Lines(pieces[|pieces| - 1]), sp);
      if last.Some? then last else LastLine(pieces[..|pieces| - 1], sp)
  }

  function LastNonBlank(lines: seq<string>, sp: char -> bool): Option<string> {
    if lines == [] then None
    else if Trim(lines[|lines| - 1], sp) != "" then Some(Trim(lines[|lines| - 1], sp))
    else LastNonBlank(lines[..|lines| - 1], sp)
  }

  /** What stands between the last opening marker of the line and the first closing one after it. */
  function Inner(line: string): Option<string> {
    var start := LastIndex(line, VERDICT);
    if start.None? then None
    else
      var from := start.value + |VERDICT|;
      var end := FirstFrom(line, "]]", from);
      if end.None? then None else Some(line[from..end.value])
  }

  function Words(s: string, sp: char -> bool): seq<string> {
    WordsWith(s, "", sp)
  }

  /** The words of `s`, the first of which `started` begins. */
  function WordsWith(s: string, started: string, sp: char -> bool): seq<string>
    decreases |s|
  {
    if s == "" then if started == "" then [] else [started]
    else if !sp(s[0]) then WordsWith(s[1..], started + [s[0]], sp)
    else (if started == "" then [] else [started]) + WordsWith(s[1..], "", sp)
  }

  // ---- the counts ----

  const MAX_COUNT := 0x7fff_ffff_ffff_ffff

  function Digits(s: string): Option<nat> {
    if s == "" then Some(0)
    else
      var high, c := Digits(s[..|s| - 1]), s[|s| - 1];
      if high.None? || !('0' <= c <= '9') then None else Some(high.value * 10 + (c as int - '0' as int))
  }

  /** A signed 64-bit number that is not negative. */
  function Number(s: string): Option<nat> {
    var negative := s != "" && s[0] == '-';
    var digits := if s != "" && (s[0] == '+' || s[0] == '-') then s[1..] else s;
    var n := Digits(digits);
    if digits == "" || n.None? then None
    else if negative then if n.value == 0 then Some(0) else None
    else if n.value > MAX_COUNT then None
    else n
  }

  datatype Counts = Counts(red: Option<int>, yellow: Option<int>, green: Option<int>)

  const NO_COUNTS := Counts(None, None, None)

  function WithCount(counts: Counts, part: string): Option<Counts> {
    var at := FirstFrom(part, "=", 0);
    if at.None? then None
    else
      var key, n := part[..at.value], Number(part[at.value + 1..]);
      if n.None? then None
      else if key == "r" then Some(counts.(red := Some(n.value)))
      else if key == "y" then Some(counts.(yellow := Some(n.value)))
      else if key == "g" then Some(counts.(green := Some(n.value)))
      else None
  }

  function AllCounts(parts: seq<string>): Option<Counts> {
    if parts == [] then Some(NO_COUNTS)
    else
      var before := AllCounts(parts[..|parts| - 1]);
      if before.None? then None else WithCount(before.value, parts[|parts| - 1])
  }

  // ---- the decision ----

  /** The counts outrank the word next to them: blocking counts ask for changes, complete clean counts approve. */
  function Derived(word: string, c: Counts): string {
    if OrZero(c.red) > 0 || OrZero(c.yellow) > 0 then "request_changes"
    else if c.red.Some? && c.yellow.Some? then "approve"
    else word
  }

  function TrailerOf(words: seq<string>): Option<Trailer> {
    if words == [] || words[0] !in {"approve", "request_changes"} then None
    else
      var counts := AllCounts(words[1..]);
      if counts.None? then None
      else Some(Trailer(Derived(words[0], counts.value), counts.value.red, counts.value.yellow, counts.value.green))
  }

  function ParseTrailer(text: string, sp: char -> bool): Option<Trailer> {
    var line := LastLine(Unfenced(text), sp);
    if line.None? then None
    else
      var inner := Inner(line.value);
      if inner.None? then None else TrailerOf(Words(inner.value, sp))
  }

  /** The loop over the counts: a later count of one colour replaces an earlier one, anything else rejects. */
  method ReadCounts(parts: seq<string>) returns (counts: Option<Counts>)
    ensures counts == AllCounts(parts)
  {
    hide WithCount;
    counts := Some(NO_COUNTS);
    for i := 0 to |parts|
      invariant counts.Some? && AllCounts(parts[..i]) == counts
    {
      assert parts[..i + 1][..i] == parts[..i];
      counts := WithCount(counts.value, parts[i]);
      if counts.None? {
        StaysRejected(parts, i + 1);
        return;
      }
    }
    assert parts[..|parts|] == parts;
  }

  method ParseVerdictTrailer(text: string, sp: char -> bool) returns (trailer: Option<Trailer>)
    ensures trailer == ParseTrailer(text, sp)
    ensures trailer.Some? ==> Consistent(trailer.value)
  {
    hide LastLine, Inner, Words, AllCounts, Unfenced, Consistent;
    ParsedTrailerConsistent(text, sp);
    var line := LastLine(Unfenced(text), sp);
    if line.None? { return None; }
    var inner := Inner(line.value);
    if inner.None? { return None; }
    var words := Words(inner.value, sp);
    if words == [] || words[0] !in {"approve", "request_changes"} { return None; }
    var read := ReadCounts(words[1..]);
    if read.None? { return None; }
    var counts, decision := read.value, words[0];
    var blocking := OrZero(counts.red) > 0 || OrZero(counts.yellow) > 0;
    var complete := counts.red.Some? && counts.yellow.Some?;
    if blocking {
      decision := "request_changes";
    } else if complete {
      decision := "approve";
    }
    return Some(Trailer(decision, counts.red, counts.yellow, counts.green));
  }

  lemma {:induction false} StaysRejected(parts: seq<string>, n: nat)
    requires n <= |parts| && AllCounts(parts[..n]).None?
    ensures AllCounts(parts).None?
    decreases |parts|
  {
    if n == |parts| {
      assert parts[..n] == parts;
    } else {
      assert parts[..|parts| - 1][..n] == parts[..n];
      StaysRejected(parts[..|parts| - 1], n);
    }
  }

  /** Every trailer the parser produces is consistent: its word is one of the two, and never `approve` beside
      blocking counts. */
  lemma ParsedTrailerConsistent(text: string, sp: char -> bool)
    ensures ParseTrailer(text, sp).Some? ==> Consistent(ParseTrailer(text, sp).value)
  {
    hide LastLine, Inner, Words, AllCounts;
  }

  // ---- what the counts mean ----

  function KeyOf(part: string): string {
    var at := FirstFrom(part, "=", 0);
    if at.None? then "" else part[..at.value]
  }

  /** A count: one of the three keys, an equals sign, a number. */
  predicate IsCount(part: string) {
    FirstFrom(part, "=", 0).Some? && KeyOf(part) in {"r", "y", "g"} && Number(part[|KeyOf(part)| + 1..]).Some?
  }

  function CountIn(part: string): nat
    requires IsCount(part)
  {
    Number(part[|KeyOf(part)| + 1..]).value
  }

  /** `n` is the number of the last part with this key, or none when no part has it. */
  ghost predicate LastCount(parts: seq<string>, key: string, n: Option<int>) {
    if n.None? then forall i :: 0 <= i < |parts| ==> KeyOf(parts[i]) != key
    else exists i :: 0 <= i < |parts| && IsLast(parts, key, i) && IsCount(parts[i]) && CountIn(parts[i]) == n.value
  }

  predicate IsLast(parts: seq<string>, key: string, i: nat) {
    i < |parts| && KeyOf(parts[i]) == key && forall j :: i < j < |parts| ==> KeyOf(parts[j]) != key
  }

  lemma OneCount(counts: Counts, part: string)
    ensures WithCount(counts, part).Some? <==> IsCount(part)
    ensures IsCount(part) ==>
              WithCount(counts, part).value
              == match KeyOf(part)
                 case "r" => counts.(red := Some(CountIn(part)))
                 case "y" => counts.(yellow := Some(CountIn(part)))
                 case _ => counts.(green := Some(CountIn(part)))
  {
    hide Number, FirstFrom;
  }

  lemma LastCountMore(parts: seq<string>, part: string, key: string, n: Option<int>)
    requires LastCount(parts, key, n)
    ensures KeyOf(part) != key ==> LastCount(parts + [part], key, n)
    ensures KeyOf(part) == key && IsCount(part) ==> LastCount(parts + [part], key, Some(CountIn(part)))
  {
    hide KeyOf, IsCount;
    var all := parts + [part];
    if KeyOf(part) == key && IsCount(part) {
      assert all[|parts|] == part && IsLast(all, key, |parts|);
    } else if KeyOf(part) != key && n.Some? {
      var i :| 0 <= i < |parts| && IsLast(parts, key, i) && IsCount(parts[i]) && CountIn(parts[i]) == n.value;
      assert all[i] == parts[i] && IsLast(all, key, i);
    }
  }

  /** The counts are accepted exactly when every part is one, and each colour is then the last number given for it. */
  lemma {:induction false} CountsMean(parts: seq<string>)
    ensures AllCounts(parts).Some? <==> forall i :: 0 <= i < |parts| ==> IsCount(parts[i])
    ensures var c := AllCounts(parts);
            c.Some? ==> LastCount(parts, "r", c.value.red) && LastCount(parts, "y", c.value.yellow)
                        && LastCount(parts, "g", c.value.green)
  {
    if parts != [] {
      var front, part := parts[..|parts| - 1], parts[|parts| - 1];
      assert parts == front + [part];
      CountsMean(front);
      var c := AllCounts(front);
      hide IsCount, KeyOf, WithCount, LastCount;
      if c.Some? {
        OneCount(c.value, part);
        LastCountMore(front, part, "r", c.value.red);
        LastCountMore(front, part, "y", c.value.yellow);
        LastCountMore(front, part, "g", c.value.green);
        CountKeys(part);
      }
    }
  }

  lemma CountKeys(part: string)
    ensures IsCount(part) ==> KeyOf(part) in {"r", "y", "g"}
  {
  }
}
