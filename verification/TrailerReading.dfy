/** Which text a verdict trailer is read from, and what it then says, for every text a chair can close with. */
module TrailerReading {
  import opened Collections
  import opened Closing
  import opened CommentBody
  import opened VerdictTrailer
  import opened TextLaws

  // ---- outside the fences ----

  /** The pieces with a fence between each two. */
  function Fenced(pieces: seq<string>): string
    requires pieces != []
  {
    if |pieces| == 1 then pieces[0] else pieces[0] + FENCE + Fenced(pieces[1..])
  }

  /** No fence starts inside the piece, not even one that ends in the fence after it. */
  predicate Unbroken(piece: string, last: bool) {
    NoFenceBefore(if last then piece else piece + FENCE, |piece|)
  }

  predicate NoFenceBefore(text: string, n: nat) {
    forall k :: 0 <= k < n ==> !OccursAt(text, FENCE, k)
  }

  /** The text cut at every fence, read from the left. */
  ghost predicate Cut(text: string, pieces: seq<string>) {
    && pieces != [] && text == Fenced(pieces)
    && forall i :: 0 <= i < |pieces| ==> Unbroken(pieces[i], i == |pieces| - 1)
  }

  function Evens(pieces: seq<string>): seq<string> {
    seq((|pieces| + 1) / 2, i requires 0 <= i < (|pieces| + 1) / 2 => pieces[2 * i])
  }

  /** Whether a part occurs at a place depends only on what stands there. */
  lemma OccursInside(before: string, text: string, after: string, part: string, k: nat)
    requires k + |part| <= |text|
    ensures OccursAt(before + text + after, part, |before| + k) <==> OccursAt(text, part, k)
  {
    var all, n := before + text + after, |before|;
    assert all[n + k..n + k + |part|] == text[k..k + |part|];
  }

  lemma FenceAfter(text: string, before: string, piece: string, rest: string)
    requires Unbroken(piece, false) && text == before + (piece + FENCE) + rest
    ensures FirstFrom(text, FENCE, |before|) == Some(|before| + |piece|)
  {
    FenceEnds(piece);
    hide FirstFrom, OccursAt;
    var near, n := piece + FENCE, |before|;
    OccursInside(before, near, rest, FENCE, |piece|);
    forall k | n <= k < n + |piece| ensures !OccursAt(text, FENCE, k) {
      OccursInside(before, near, rest, FENCE, k - n);
      assert !OccursAt(near, FENCE, k - n);
    }
    FirstIs(text, n, n + |piece|);
  }

  lemma FenceEnds(piece: string)
    ensures OccursAt(piece + FENCE, FENCE, |piece|)
  {
  }

  lemma FirstIs(text: string, from: nat, at: nat)
    requires from <= at <= |text| && OccursAt(text, FENCE, at)
    requires forall k :: from <= k < at ==> !OccursAt(text, FENCE, k)
    ensures FirstFrom(text, FENCE, from) == Some(at)
  {
    hide FirstFrom, OccursAt;
  }

  lemma NoFenceAfter(before: string, piece: string)
    requires Unbroken(piece, true)
    ensures FirstFrom(before + piece, FENCE, |before|) == None
  {
    var text, n := before + piece, |before|;
    assert text == before + piece + "";
    forall k | n <= k <= |text| ensures !OccursAt(text, FENCE, k) {
      if k + 3 <= |text| {
        OccursInside(before, piece, "", FENCE, k - n);
        assert !OccursAt(piece, FENCE, k - n);
      }
    }
    hide FirstFrom, OccursAt;
  }

  lemma FencedStep(pieces: seq<string>)
    requires |pieces| > 1
    ensures Fenced(pieces) == pieces[0] + FENCE + Fenced(pieces[1..])
  {
  }

  lemma EvensStep(pieces: seq<string>)
    requires |pieces| > 2
    ensures Evens(pieces) == [pieces[0]] + Evens(pieces[2..])
  {
    var rest := pieces[2..];
    assert forall i :: 0 <= i < (|rest| + 1) / 2 ==> pieces[2 * (i + 1)] == rest[2 * i];
  }

  /** What is kept is every second piece, starting with the first: a fence that is never closed swallows the rest. */
  lemma {:induction false} UnfencedExact(text: string, pieces: seq<string>)
    requires Cut(text, pieces)
    ensures Unfenced(text) == Evens(pieces)
    decreases |pieces|
  {
    hide Unbroken, FirstFrom, Evens;
    var p := pieces[0];
    if |pieces| == 1 {
      assert "" + p == text;
      NoFenceAfter("", p);
      EvensShort(pieces);
    } else {
      FencedStep(pieces);
      var after := Fenced(pieces[1..]);
      assert text == "" + (p + FENCE) + after;
      FenceAfter(text, "", p, after);
      var q := pieces[1];
      assert text[..|p|] == p;
      if |pieces| == 2 {
        assert text == (p + FENCE) + q;
        NoFenceAfter(p + FENCE, q);
        EvensShort(pieces);
      } else {
        FencedStep(pieces[1..]);
        var rest := pieces[2..];
        assert pieces[1..][1..] == rest;
        assert text == (p + FENCE) + (q + FENCE) + Fenced(rest);
        FenceAfter(text, p + FENCE, q, Fenced(rest));
        assert text[|p| + 3 + |q| + 3..] == Fenced(rest);
        UnfencedExact(Fenced(rest), rest);
        EvensStep(pieces);
      }
    }
  }

  lemma EvensShort(pieces: seq<string>)
    requires 1 <= |pieces| <= 2
    ensures Evens(pieces) == [pieces[0]]
  {
  }

  /** Every text can be cut so, and in one way only as far as what is kept goes. */
  lemma {:induction false} CutExists(text: string) returns (pieces: seq<string>)
    ensures Cut(text, pieces)
    decreases |text|
  {
    var at := FirstFrom(text, FENCE, 0);
    if at.None? {
      return [text];
    }
    var p, after := text[..at.value], text[at.value + 3..];
    var rest := CutExists(after);
    pieces := [p] + rest;
    assert pieces[1..] == rest;
    assert text == p + FENCE + after;
    forall k | 0 <= k < |p| ensures !OccursAt(p + FENCE, FENCE, k) {
      assert !OccursAt(text, FENCE, k);
      assert text[k..k + 3] == (p + FENCE)[k..k + 3];
    }
    hide FirstFrom;
    forall i | 0 <= i < |pieces| ensures Unbroken(pieces[i], i == |pieces| - 1) {
      if i > 0 { assert pieces[i] == rest[i - 1]; }
    }
  }

  // ---- the last line ----

  function AllLines(pieces: seq<string>): seq<string> {
    if pieces == [] then [] else AllLines(pieces[..|pieces| - 1]) + Lines(pieces[|pieces| - 1])
  }

  /** `said` is the last line that is not blank, trimmed, or none when all are blank. */
  ghost predicate LastSaid(lines: seq<string>, sp: char -> bool, said: Option<string>) {
    match said
    case None => forall i :: 0 <= i < |lines| ==> Trim(lines[i], sp) == ""
    case Some(line) => line != "" && exists i :: SaidAt(lines, sp, line, i)
  }

  ghost predicate SaidAt(lines: seq<string>, sp: char -> bool, line: string, i: int) {
    0 <= i < |lines| && Trim(lines[i], sp) == line && forall j :: i < j < |lines| ==> Trim(lines[j], sp) == ""
  }

  lemma {:induction false} LastNonBlankExact(lines: seq<string>, sp: char -> bool)
    ensures LastSaid(lines, sp, LastNonBlank(lines, sp))
  {
    if lines != [] {
      var n := |lines| - 1;
      hide Trim;
      if Trim(lines[n], sp) != "" {
        assert SaidAt(lines, sp, Trim(lines[n], sp), n);
      } else {
        var front := lines[..n];
        LastNonBlankExact(front, sp);
        var said := LastNonBlank(front, sp);
        if said.Some? {
          var i :| SaidAt(front, sp, said.value, i);
          assert SaidAt(lines, sp, said.value, i);
        }
      }
    }
  }

  lemma {:induction false} LastOfBoth(a: seq<string>, b: seq<string>, sp: char -> bool)
    ensures LastNonBlank(a + b, sp) == if LastNonBlank(b, sp).Some? then LastNonBlank(b, sp) else LastNonBlank(a, sp)
    decreases |b|
  {
    hide Trim;
    if b == [] {
      assert a + b == a;
    } else {
      assert (a + b)[..|a + b| - 1] == a + b[..|b| - 1];
      LastOfBoth(a, b[..|b| - 1], sp);
    }
  }

  lemma {:induction false} LastLineIsLast(pieces: seq<string>, sp: char -> bool)
    ensures LastLine(pieces, sp) == LastNonBlank(AllLines(pieces), sp)
  {
    if pieces != [] {
      var front := pieces[..|pieces| - 1];
      LastLineIsLast(front, sp);
      LastOfBoth(AllLines(front), Lines(pieces[|pieces| - 1]), sp);
      hide LastNonBlank;
    }
  }

  lemma LastSaidUnique(lines: seq<string>, sp: char -> bool, a: Option<string>, b: Option<string>)
    requires LastSaid(lines, sp, a) && LastSaid(lines, sp, b)
    ensures a == b
  {
    hide Trim;
    if a.Some? {
      var i :| SaidAt(lines, sp, a.value, i);
      if b.Some? {
        var j :| SaidAt(lines, sp, b.value, j);
        assert !(i < j) && !(j < i);
      }
    }
  }

  // ---- inside the markers ----

  /** `inner` stands between the last `[[verdict:` of the line, at `start`, and the first `]]` after it, at `end`. */
  ghost predicate Marks(line: string, inner: string, start: nat, end: nat) {
    && OccursAt(line, "[[verdict:", start) && (forall k :: start < k <= |line| ==> !OccursAt(line, "[[verdict:", k))
    && start + 10 <= end && OccursAt(line, "]]", end)
    && (forall k :: start + 10 <= k < end ==> !OccursAt(line, "]]", k))
    && inner == line[start + 10..end]
  }

  lemma InnerExact(line: string, inner: string)
    ensures Inner(line) == Some(inner) <==> exists start: nat, end: nat :: Marks(line, inner, start, end)
  {
    hide OccursAt, FirstFrom, LastUpTo;
    assert |VERDICT| == 10;
    if Inner(line) == Some(inner) {
      var start := LastIndex(line, VERDICT).value;
      MarkFits(line, start);
      assert Marks(line, inner, start, FirstFrom(line, "]]", start + 10).value);
    }
    if exists start: nat, end: nat :: Marks(line, inner, start, end) {
      var start: nat, end: nat :| Marks(line, inner, start, end);
      assert start + 10 <= |line| by { MarkFits(line, start); }
      assert LastIndex(line, VERDICT) == Some(start);
      assert FirstFrom(line, "]]", start + 10) == Some(end);
    }
  }

  lemma MarkFits(line: string, start: nat)
    requires OccursAt(line, "[[verdict:", start)
    ensures start + 10 <= |line|
  {
  }

  // ---- what the trailer says ----

  /** The trailer the words spell: a decision word and counts. Blocking counts ask for changes; without them it is
      an approval exactly when both red and yellow were counted or the word itself is `approve`. */
  ghost predicate Spells(words: seq<string>, t: Trailer) {
    && words != [] && words[0] in {"approve", "request_changes"}
    && (forall i :: 1 <= i < |words| ==> IsCount(words[i]))
    && LastCount(words[1..], "r", t.red) && LastCount(words[1..], "y", t.yellow) && LastCount(words[1..], "g", t.green)
    && t.decision in {"approve", "request_changes"}
    && (t.decision == "approve" <==>
          && (t.red.None? || t.red.value <= 0) && (t.yellow.None? || t.yellow.value <= 0)
          && ((t.red.Some? && t.yellow.Some?) || words[0] == "approve"))
  }

  lemma LastCountUnique(parts: seq<string>, key: string, a: Option<int>, b: Option<int>)
    requires LastCount(parts, key, a) && LastCount(parts, key, b)
    ensures a == b
  {
    hide KeyOf, IsCount, CountIn;
    if a.Some? {
      var i :| 0 <= i < |parts| && IsLast(parts, key, i) && IsCount(parts[i]) && CountIn(parts[i]) == a.value;
      if b.Some? {
        var j :| 0 <= j < |parts| && IsLast(parts, key, j) && IsCount(parts[j]) && CountIn(parts[j]) == b.value;
        assert !(i < j) && !(j < i);
      }
    }
  }

  lemma SpellsExact(words: seq<string>, t: Trailer)
    ensures TrailerOf(words) == Some(t) <==> Spells(words, t)
  {
    hide IsCount, LastCount, AllCounts;
    if words != [] {
      var parts := words[1..];
      CountsMean(parts);
      var counts := AllCounts(parts);
      assert forall i :: 1 <= i < |words| ==> words[i] == parts[i - 1];
      assert forall i :: 0 <= i < |parts| ==> parts[i] == words[i + 1];
      if Spells(words, t) {
        LastCountUnique(parts, "r", counts.value.red, t.red);
        LastCountUnique(parts, "y", counts.value.yellow, t.yellow);
        LastCountUnique(parts, "g", counts.value.green, t.green);
      }
    }
  }

  // ---- the whole parser ----

  /** `inner` is what the markers hold in the last line said outside fences. */
  ghost predicate ReadFrom(text: string, sp: char -> bool, inner: string) {
    exists pieces, line, start: nat, end: nat ::
      Cut(text, pieces) && LastSaid(AllLines(Evens(pieces)), sp, Some(line)) && Marks(line, inner, start, end)
  }

  lemma ReadFromExact(text: string, sp: char -> bool, inner: string)
    ensures ReadFrom(text, sp, inner) <==>
              var line := LastLine(Unfenced(text), sp); line.Some? && Inner(line.value) == Some(inner)
  {
    hide Cut, LastSaid, Marks, Inner, Unfenced, LastLine, AllLines, Evens, LastNonBlank;
    var line := LastLine(Unfenced(text), sp);
    if line.Some? && Inner(line.value) == Some(inner) {
      var pieces := CutExists(text);
      UnfencedExact(text, pieces);
      LastLineIsLast(Evens(pieces), sp);
      LastNonBlankExact(AllLines(Evens(pieces)), sp);
      InnerExact(line.value, inner);
    }
    if ReadFrom(text, sp, inner) {
      var pieces, said, start: nat, end: nat :|
        Cut(text, pieces) && LastSaid(AllLines(Evens(pieces)), sp, Some(said)) && Marks(said, inner, start, end);
      UnfencedExact(text, pieces);
      LastLineIsLast(Evens(pieces), sp);
      LastNonBlankExact(AllLines(Evens(pieces)), sp);
      LastSaidUnique(AllLines(Evens(pieces)), sp, line, Some(said));
      InnerExact(said, inner);
    }
  }

  /** The parser, exactly: a trailer is read from what the markers hold in the last line said outside fences, and it
      is the trailer those words spell. */
  lemma ParseExact(text: string, sp: char -> bool, t: Trailer)
    ensures ParseTrailer(text, sp) == Some(t) <==>
              exists inner :: ReadFrom(text, sp, inner) && Spells(Words(inner, sp), t)
  {
    hide ReadFrom, Spells, Words, LastLine, Unfenced, Inner, TrailerOf;
    var line := LastLine(Unfenced(text), sp);
    if ParseTrailer(text, sp) == Some(t) {
      var inner := Inner(line.value).value;
      ReadFromExact(text, sp, inner);
      SpellsExact(Words(inner, sp), t);
    }
    if exists inner :: ReadFrom(text, sp, inner) && Spells(Words(inner, sp), t) {
      var inner :| ReadFrom(text, sp, inner) && Spells(Words(inner, sp), t);
      ReadFromExact(text, sp, inner);
      SpellsExact(Words(inner, sp), t);
    }
  }

  /** When a chair's text counts as an approval. */
  lemma ApprovedExactly(text: string, sp: char -> bool)
    ensures ParseTrailer(text, sp).Some? && ParseTrailer(text, sp).value.decision == "approve" <==>
              exists inner, t :: ReadFrom(text, sp, inner) && Spells(Words(inner, sp), t) && t.decision == "approve"
  {
    hide ReadFrom, Spells, Words, ParseTrailer;
    var parsed := ParseTrailer(text, sp);
    if parsed.Some? { ParseExact(text, sp, parsed.value); }
    if exists inner, t :: ReadFrom(text, sp, inner) && Spells(Words(inner, sp), t) && t.decision == "approve" {
      var inner, t :| ReadFrom(text, sp, inner) && Spells(Words(inner, sp), t) && t.decision == "approve";
      ParseExact(text, sp, t);
    }
  }

  // ---- numbers ----

  function Decimal(n: nat): string {
    (if n < 10 then "" else Decimal(n / 10)) + [(n % 10 + '0' as int) as char]
  }

  lemma DigitsMore(high: string, d: nat)
    requires d < 10
    ensures var c := (d + '0' as int) as char;
            '0' <= c <= '9' && Digits(high + [c]) == if Digits(high).None? then None
            else Some(Digits(high).value * 10 + d)
  {
    var c := (d + '0' as int) as char;
    var s := high + [c];
    assert s[..|s| - 1] == high && s[|s| - 1] == c;
  }

  lemma {:induction false} DigitsRead(n: nat)
    ensures Digits(Decimal(n)) == Some(n) && Decimal(n) != "" && '0' <= Decimal(n)[0] <= '9'
  {
    if n >= 10 { DigitsRead(n / 10); }
    DigitsMore(if n < 10 then "" else Decimal(n / 10), n % 10);
    DigitsOfNothing();
    hide Digits;
  }

  lemma DigitsOfNothing()
    ensures Digits("") == Some(0)
  {
  }

  lemma {:induction false} DigitsExact(s: string)
    ensures Digits(s).Some? <==> forall i :: 0 <= i < |s| ==> '0' <= s[i] <= '9'
  {
    if s != "" { DigitsExact(s[..|s| - 1]); }
  }

  /** Numbers are read in decimal, with an optional sign, up to the largest signed 64-bit one; a negative number is
      refused, negative zero is not. */
  lemma NumberExact(n: nat)
    ensures n <= 9223372036854775807 ==> Number(Decimal(n)) == Number("+" + Decimal(n)) == Some(n)
    ensures n > 9223372036854775807 ==> Number(Decimal(n)) == Number("+" + Decimal(n)) == None
    ensures Number("-" + Decimal(n)) == if n == 0 then Some(0) else None
  {
    DigitsRead(n);
    hide Digits, Decimal;
    assert ("+" + Decimal(n))[1..] == Decimal(n) && ("-" + Decimal(n))[1..] == Decimal(n);
  }

  /** Nothing else is a number. */
  lemma NumbersOnly(s: string)
    requires Number(s).Some?
    ensures var digits := if s[0] == '+' || s[0] == '-' then s[1..] else s;
            digits != "" && forall i :: 0 <= i < |digits| ==> '0' <= digits[i] <= '9'
  {
    DigitsExact(if s[0] == '+' || s[0] == '-' then s[1..] else s);
    hide Digits;
  }
}
