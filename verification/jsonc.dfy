/**
 The JSONC cleaner `stripJSONComments` of internal/claude/settings.go.

 Go strings are byte strings. This model works on characters instead. For
 settings text that is valid UTF-8 the two agree: the markers, quotes,
 backslashes, commas, closers and the `\s` class of the comma pass are ASCII
 bytes, which never occur inside a multi-byte sequence, and the blank-line
 test `strings.TrimSpace` decodes UTF-8 runes and tests each with
 `unicode.IsSpace`, whose multi-byte members `IsSpace` lists as characters.

 The cleaner is line-local and heuristic: on each line it looks only at the
 first `#`, then at the first `//` of what is left, and treats a marker as a
 comment when the number of `"` before it, minus the number of `\"` before
 it, is even. A final pass deletes every `,` that is followed by white space
 and then `}` or `]`, wherever it is, string literals included.
 */
module Jsonc {
  import opened Results

  // ---------------------------------------------------------------------------
  // Substring search (strings.Index)
  // ---------------------------------------------------------------------------

  predicate OccursAt(s: string, pat: string, i: int) {
    0 <= i && i + |pat| <= |s| && s[i..i + |pat|] == pat
  }

  function IndexFrom(s: string, pat: string, from: nat): (r: Option<nat>)
    ensures r.Some? ==> from <= r.value && OccursAt(s, pat, r.value) &&
                        forall j :: from <= j < r.value ==> !OccursAt(s, pat, j)
    ensures r.None? ==> forall j :: from <= j ==> !OccursAt(s, pat, j)
    decreases |s| - from
  {
    if from + |pat| > |s| then None
    else if s[from..from + |pat|] == pat then Some(from)
    else IndexFrom(s, pat, from + 1)
  }

  /** strings.Index: the first position at which `pat` occurs. */
  function Index(s: string, pat: string): (r: Option<nat>)
    ensures r.Some? ==> OccursAt(s, pat, r.value) &&
                        forall j :: 0 <= j < r.value ==> !OccursAt(s, pat, j)
    ensures r.None? ==> forall j :: !OccursAt(s, pat, j)
  {
    IndexFrom(s, pat, 0)
  }

  // ---------------------------------------------------------------------------
  // The quote-parity test
  // ---------------------------------------------------------------------------

  /** strings.Count(s, `"`). */
  function CountQuotes(s: string): nat {
    if |s| == 0 then 0 else (if s[0] == '"' then 1 else 0) + CountQuotes(s[1..])
  }

  /**
   strings.Count(s, `\"`). Go counts non-overlapping occurrences; two
   occurrences of `\"` can never overlap, so this counts all of them.
   */
  function CountEscapedQuotes(s: string): nat {
    if |s| < 2 then 0
    else (if s[0] == '\\' && s[1] == '"' then 1 else 0) + CountEscapedQuotes(s[1..])
  }

  /** Every escaped quote ends in a quote, so there are never more of them. */
  lemma {:induction false} EscapedQuotesAtMostQuotes(s: string)
    ensures CountEscapedQuotes(s) <= CountQuotes(s)
    decreases |s|
  {
    if |s| >= 2 {
      if s[0] == '\\' && s[1] == '"' {
        // the escaped quote is charged to the quote at s[1]
        var t := s[1..];
        assert t[1..] == s[2..];
        EscapedQuotesAtMostQuotes(s[2..]);
      } else {
        EscapedQuotesAtMostQuotes(s[1..]);
      }
    }
  }

  /**
   The quote balance the source computes before a marker. It is never
   negative, so the parity test agrees for Go's truncated `%` and Dafny's
   Euclidean `%`.
   */
  function QuoteBalance(s: string): (r: nat)
  {
    EscapedQuotesAtMostQuotes(s);
    CountQuotes(s) - CountEscapedQuotes(s)
  }

  predicate OutsideString(before: string) {
    QuoteBalance(before) % 2 == 0
  }

  // ---------------------------------------------------------------------------
  // One line
  // ---------------------------------------------------------------------------

  /**
   Cut `line` at the FIRST occurrence of `marker` when the quote balance
   before it is even. Later occurrences are never examined.
   */
  function CutComment(line: string, marker: string): (r: string)
    requires |marker| > 0
    ensures r <= line
    ensures |r| < |line| <==>
              (exists i :: OccursAt(line, marker, i)) &&
              OutsideString(line[..Index(line, marker).value])
    ensures |r| < |line| ==>
              OccursAt(line, marker, |r|) &&
              (forall j :: 0 <= j < |r| ==> !OccursAt(line, marker, j)) &&
              OutsideString(r)
  {
    match Index(line, marker)
    case None => line
    case Some(i) => if OutsideString(line[..i]) then line[..i] else line
  }

  /** The per-line step: `#` first, then `//` on what the first cut left. */
  function StripLine(line: string): (r: string)
    ensures var h := CutComment(line, "#");
            && r <= h && h <= line
            && (|r| < |h| <==>
                  (exists i :: OccursAt(h, "//", i)) && OutsideString(h[..Index(h, "//").value]))
            && (|r| < |h| ==>
                  OccursAt(h, "//", |r|) && (forall j :: 0 <= j < |r| ==> !OccursAt(h, "//", j)))
  {
    CutComment(CutComment(line, "#"), "//")
  }

  /** unicode.IsSpace, the test behind strings.TrimSpace. */
  predicate IsSpace(c: char) {
    c == '\t' || c == '\n' || c == '\U{000B}' || c == '\U{000C}' || c == '\r' || c == ' ' ||
    c == '\U{0085}' || c == '\U{00A0}' || c == '\U{1680}' || ('\U{2000}' <= c <= '\U{200A}') ||
    c == '\U{2028}' || c == '\U{2029}' || c == '\U{202F}' || c == '\U{205F}' || c == '\U{3000}'
  }

  /** strings.TrimSpace(s) == "". */
  predicate IsBlank(s: string) {
    forall i :: 0 <= i < |s| ==> IsSpace(s[i])
  }

  /** A line that only held a comment: blank after stripping, not blank before. */
  predicate Dropped(line: string) {
    IsBlank(StripLine(line)) && !IsBlank(line)
  }

  /** The line loop: strip every line and leave out the ones that held only a comment. */
  function CleanLines(lines: seq<string>): seq<string>
  {
    if |lines| == 0 then []
    else (if Dropped(lines[0]) then [] else [StripLine(lines[0])]) + CleanLines(lines[1..])
  }

  lemma {:induction false} CleanLinesAppend(a: seq<string>, b: seq<string>)
    ensures CleanLines(a + b) == CleanLines(a) + CleanLines(b)
    decreases |a|
  {
    if |a| == 0 {
      assert a + b == b;
    } else {
      var head := if Dropped(a[0]) then [] else [StripLine(a[0])];
      assert (a + b)[0] == a[0];
      assert (a + b)[1..] == a[1..] + b;
      CleanLinesAppend(a[1..], b);
      calc {
        CleanLines(a + b);
        head + CleanLines(a[1..] + b);
        head + (CleanLines(a[1..]) + CleanLines(b));
        (head + CleanLines(a[1..])) + CleanLines(b);
      }
    }
  }

  /** The positions, from `from` on, of the lines the loop keeps. */
  function KeptFrom(lines: seq<string>, from: nat): seq<nat>
    requires from <= |lines|
    decreases |lines| - from
  {
    if from == |lines| then []
    else (if Dropped(lines[from]) then [] else [from]) + KeptFrom(lines, from + 1)
  }

  /**
   The kept lines are, in order, the stripped forms of exactly the source lines
   that were not dropped; an originally blank line is never dropped.
   */
  lemma {:induction false} CleanLinesKeepsOrder(lines: seq<string>, from: nat)
    requires from <= |lines|
    ensures var out := CleanLines(lines[from..]);
            var idx := KeptFrom(lines, from);
            && |out| == |idx|
            && (forall k :: 0 <= k < |idx| ==> from <= idx[k] < |lines| && out[k] == StripLine(lines[idx[k]]))
            && (forall k, l :: 0 <= k < l < |idx| ==> idx[k] < idx[l])
            && (forall i :: from <= i < |lines| ==> (i in idx <==> !Dropped(lines[i])))
    decreases |lines| - from
  {
    if from < |lines| {
      CleanLinesKeepsOrder(lines, from + 1);
      assert lines[from..][1..] == lines[from + 1..];
    }
  }

  lemma BlankLinesSurvive(line: string)
    requires IsBlank(line)
    ensures !Dropped(line)
  {
  }

  // ---------------------------------------------------------------------------
  // Lines (strings.Split on "\n" and strings.Join with "\n")
  // ---------------------------------------------------------------------------

  function SplitLines(s: string): (r: seq<string>)
    ensures |r| >= 1
    decreases |s|
  {
    if |s| == 0 then [""]
    else
      var rest := SplitLines(s[1..]);
      if s[0] == '\n' then [""] + rest else [[s[0]] + rest[0]] + rest[1..]
  }

  function JoinLines(lines: seq<string>): string
  {
    if |lines| == 0 then ""
    else if |lines| == 1 then lines[0]
    else lines[0] + "\n" + JoinLines(lines[1..])
  }

  predicate NoNewline(s: string) {
    forall i :: 0 <= i < |s| ==> s[i] != '\n'
  }

  /** Splitting yields newline-free pieces that join back to the text. */
  lemma {:induction false} SplitJoinRoundTrip(s: string)
    ensures JoinLines(SplitLines(s)) == s
    ensures forall k :: 0 <= k < |SplitLines(s)| ==> NoNewline(SplitLines(s)[k])
    decreases |s|
  {
    if |s| > 0 {
      var rest := SplitLines(s[1..]);
      SplitJoinRoundTrip(s[1..]);
      if s[0] == '\n' {
        assert ([""] + rest)[1..] == rest;
      } else {
        var r := [[s[0]] + rest[0]] + rest[1..];
        assert r[1..] == rest[1..];
        if |rest| == 1 {
          assert s == [s[0]] + s[1..];
        } else {
          assert JoinLines(rest) == rest[0] + "\n" + JoinLines(rest[1..]);
          assert s == [s[0]] + s[1..];
        }
        forall k | 0 <= k < |r|
          ensures NoNewline(r[k])
        {
          if k > 0 { assert r[k] == rest[k]; }
        }
      }
    }
  }

  /** Joining newline-free lines and splitting again gives the same lines. */
  lemma {:induction false} JoinSplitRoundTrip(lines: seq<string>)
    requires |lines| >= 1
    requires forall k :: 0 <= k < |lines| ==> NoNewline(lines[k])
    ensures SplitLines(JoinLines(lines)) == lines
    decreases |lines|
  {
    if |lines| == 1 {
      SplitNoNewline(lines[0]);
    } else {
      JoinSplitRoundTrip(lines[1..]);
      SplitPrefix(lines[0], JoinLines(lines[1..]));
      assert [lines[0]] + lines[1..] == lines;
    }
  }

  lemma {:induction false} SplitNoNewline(s: string)
    requires NoNewline(s)
    ensures SplitLines(s) == [s]
    decreases |s|
  {
    if |s| > 0 {
      SplitNoNewline(s[1..]);
      assert [s[0]] + s[1..] == s;
    }
  }

  /** Splitting `a + "\n" + b` for a newline-free `a` puts `a` first. */
  lemma {:induction false} SplitPrefix(a: string, b: string)
    requires NoNewline(a)
    ensures SplitLines(a + "\n" + b) == [a] + SplitLines(b)
    decreases |a|
  {
    var s := a + "\n" + b;
    if |a| == 0 {
      assert s[1..] == b;
    } else {
      assert s[1..] == a[1..] + "\n" + b;
      SplitPrefix(a[1..], b);
      assert [a[0]] + a[1..] == a;
    }
  }

  // ---------------------------------------------------------------------------
  // The trailing-comma pass (regexp `,(\s*[\}\]])` replaced by `$1`)
  // ---------------------------------------------------------------------------

  /** The RE2 class `\s`: ASCII white space without vertical tab. */
  predicate IsRegexSpace(c: char) {
    c == '\t' || c == '\n' || c == '\U{000C}' || c == '\r' || c == ' '
  }

  predicate IsCloser(c: char) {
    c == '}' || c == ']'
  }

  /** From `j` on there is a run of `\s` and then a closer. */
  predicate ClosesAfterSpaces(s: string, j: nat)
    decreases |s| - j
  {
    j < |s| && (IsCloser(s[j]) || (IsRegexSpace(s[j]) && ClosesAfterSpaces(s, j + 1)))
  }

  /** Position `i` holds a comma the pattern matches. */
  predicate TrailingCommaAt(s: string, i: nat) {
    i < |s| && s[i] == ',' && ClosesAfterSpaces(s, i + 1)
  }

  /** `s` from position `from` on, with every matched comma deleted and nothing else changed. */
  function DropTrailingCommasFrom(s: string, from: nat): string
    requires from <= |s|
    decreases |s| - from
  {
    if from == |s| then ""
    else (if TrailingCommaAt(s, from) then "" else [s[from]]) + DropTrailingCommasFrom(s, from + 1)
  }

  function DropTrailingCommas(s: string): string {
    DropTrailingCommasFrom(s, 0)
  }

  /** Over a run of `\s`, "a closer follows the spaces" is decided by the first non-space. */
  lemma {:induction false} ClosesAcrossRun(s: string, j: nat, k: nat)
    requires j <= k <= |s|
    requires forall m :: j <= m < k ==> IsRegexSpace(s[m])
    requires k == |s| || !IsRegexSpace(s[k])
    ensures ClosesAfterSpaces(s, j) <==> k < |s| && IsCloser(s[k])
    decreases k - j
  {
    if j < k {
      ClosesAcrossRun(s, j + 1, k);
    }
  }

  /** A matched comma contributes exactly its group `$1`: the spaces and the closer. */
  lemma {:induction false} DropOverMatch(s: string, j: nat, k: nat)
    requires j <= k < |s|
    requires forall m :: j <= m < k ==> IsRegexSpace(s[m])
    requires IsCloser(s[k])
    ensures DropTrailingCommasFrom(s, j) == s[j..k + 1] + DropTrailingCommasFrom(s, k + 1)
    decreases k - j
  {
    assert !TrailingCommaAt(s, j);
    if j < k {
      DropOverMatch(s, j + 1, k);
      assert s[j..k + 1] == [s[j]] + s[j + 1..k + 1];
    }
  }

  /** Off a match, the character at `j` is copied. */
  lemma DropStep(s: string, j: nat)
    requires j < |s| && !TrailingCommaAt(s, j)
    ensures DropTrailingCommasFrom(s, j) == [s[j]] + DropTrailingCommasFrom(s, j + 1)
  {
  }

  /** A comma at `i`, a run of `\s` up to `k` and a closer at `k`: the whole match becomes its group. */
  lemma DropMatch(s: string, i: nat, k: nat)
    requires i < k < |s| && s[i] == ','
    requires forall m :: i + 1 <= m < k ==> IsRegexSpace(s[m])
    requires IsCloser(s[k])
    ensures TrailingCommaAt(s, i)
    ensures DropTrailingCommasFrom(s, i) == s[i + 1..k + 1] + DropTrailingCommasFrom(s, k + 1)
  {
    ClosesAcrossRun(s, i + 1, k);
    assert TrailingCommaAt(s, i);
    DropOverMatch(s, i + 1, k);
    assert DropTrailingCommasFrom(s, i) == "" + DropTrailingCommasFrom(s, i + 1);
  }

  /** The greedy `\s*`: the end of the run of `\s` that starts at `j`. */
  method SpanSpaces(s: string, j: nat) returns (k: nat)
    requires j <= |s|
    ensures j <= k <= |s|
    ensures forall m :: j <= m < k ==> IsRegexSpace(s[m])
    ensures k == |s| || !IsRegexSpace(s[k])
  {
    k := j;
    while k < |s| && IsRegexSpace(s[k])
      invariant j <= k <= |s|
      invariant forall m :: j <= m < k ==> IsRegexSpace(s[m])
      decreases |s| - k
    {
      k := k + 1;
    }
  }

  /**
   Regexp.ReplaceAllString as RE2 runs it: scan left to right, and at each
   position either take a match (a comma, the longest run of `\s`, a closer),
   emit its group and resume after it, or copy one character.
   */
  method ReplaceTrailingCommas(s: string) returns (out: string)
    ensures out == DropTrailingCommas(s)
  {
    out := "";
    var i := 0;
    while i < |s|
      invariant 0 <= i <= |s|
      invariant out + DropTrailingCommasFrom(s, i) == DropTrailingCommas(s)
      decreases |s| - i
    {
      var k := i + 1;
      if s[i] == ',' {
        k := SpanSpaces(s, i + 1);
        ClosesAcrossRun(s, i + 1, k);
      }
      if s[i] == ',' && k < |s| && IsCloser(s[k]) {
        DropMatch(s, i, k);
        out := out + s[i + 1..k + 1];
        i := k + 1;
      } else {
        DropStep(s, i);
        out := out + [s[i]];
        i := i + 1;
      }
    }
  }

  /** The pass only deletes commas: every other character keeps its count, and the length never grows. */
  lemma {:induction false} DropOnlyDeletesCommas(s: string, from: nat)
    requires from <= |s|
    ensures var r := DropTrailingCommasFrom(s, from);
            |r| <= |s| - from &&
            forall c :: c != ',' ==> multiset(r)[c] == multiset(s[from..])[c]
    decreases |s| - from
  {
    if from < |s| {
      DropOnlyDeletesCommas(s, from + 1);
      assert s[from..] == [s[from]] + s[from + 1..];
    }
  }

  /** A text without a matched comma passes through unchanged. */
  lemma {:induction false} DropNothingToDrop(s: string, from: nat)
    requires from <= |s|
    requires forall i :: from <= i < |s| ==> !TrailingCommaAt(s, i)
    ensures DropTrailingCommasFrom(s, from) == s[from..]
    decreases |s| - from
  {
    if from < |s| {
      DropNothingToDrop(s, from + 1);
      assert s[from..] == [s[from]] + s[from + 1..];
    }
  }

  // ---------------------------------------------------------------------------
  // The whole cleaner
  // ---------------------------------------------------------------------------

  /** What stripJSONComments computes, stage by stage. */
  function CleanText(text: string): string {
    DropTrailingCommas(JoinLines(CleanLines(SplitLines(text))))
  }

  /** stripJSONComments, written as the source's line loop followed by the regexp pass. */
  method StripJsonComments(text: string) returns (out: string)
    ensures out == CleanText(text)
  {
    var lines := SplitLines(text);
    var result: seq<string> := [];
    var n := 0;
    while n < |lines|
      invariant 0 <= n <= |lines|
      invariant result == CleanLines(lines[..n])
      decreases |lines| - n
    {
      var line := lines[n];
      var stripped := StripLine(line);
      assert lines[..n + 1] == lines[..n] + [line];
      CleanLinesAppend(lines[..n], [line]);
      if !(IsBlank(stripped) && !IsBlank(line)) {
        result := result + [stripped];
      }
      n := n + 1;
    }
    assert lines[..n] == lines;
    out := ReplaceTrailingCommas(JoinLines(result));
  }

  // ---------------------------------------------------------------------------
  // Worked cases
  // ---------------------------------------------------------------------------

  /** A trailing comma before a closing brace on the next line is removed. */
  lemma TrailingCommaExample()
    ensures DropTrailingCommas("{\"a\":1,\n}") == "{\"a\":1\n}"
  {
    var s := "{\"a\":1,\n}";
    assert TrailingCommaAt(s, 6);
    DropMatch(s, 6, 8);
    assert forall i :: 0 <= i < 6 ==> !TrailingCommaAt(s, i);
  }

  /** One pass only: of two commas before a brace, the second is removed and the first stays. */
  lemma SinglePassExample()
    ensures DropTrailingCommas(",,}") == ",}"
  {
    var s := ",,}";
    assert !TrailingCommaAt(s, 0);
    DropMatch(s, 1, 2);
  }

  /** The search result is pinned by an occurrence with none before it. */
  lemma IndexIs(s: string, pat: string, i: nat)
    requires OccursAt(s, pat, i)
    requires forall j :: 0 <= j < i ==> !OccursAt(s, pat, j)
    ensures Index(s, pat) == Some(i)
  {
  }

  /** A pattern whose first character does not occur is not found. */
  lemma NotFound(s: string, pat: string)
    requires |pat| > 0
    requires forall j :: 0 <= j < |s| ==> s[j] != pat[0]
    ensures forall j :: !OccursAt(s, pat, j)
  {
    forall j | 0 <= j && j + |pat| <= |s|
      ensures !OccursAt(s, pat, j)
    {
      assert s[j..j + |pat|][0] != pat[0];
    }
  }

  /** A `#` after an odd number of quotes is taken to be inside a string, and the line is kept whole. */
  lemma HashInsideStringExample()
    ensures StripLine("\"#\"") == "\"#\""
  {
    var line := "\"#\"";
    assert OccursAt(line, "#", 1);
    assert line[0..1][0] == '"';
    IndexIs(line, "#", 1);
    var before := line[..1];
    assert before == "\"";
    assert CountQuotes(before) == 1 + CountQuotes(before[1..]);
    assert before[1..] == "";
    NotFound(line, "//");
  }

  /** A `#` after an even number of quotes starts a comment, and the line is cut before it. */
  lemma HashCommentExample()
    ensures StripLine("\"\" # c") == "\"\" "
  {
    var line := "\"\" # c";
    assert OccursAt(line, "#", 3);
    forall j | 0 <= j < 3 ensures !OccursAt(line, "#", j) {
      assert line[j..j + 1][0] == line[j];
    }
    IndexIs(line, "#", 3);
    var cut := line[..3];
    assert cut == "\"\" ";
    assert CountQuotes(cut) == 1 + CountQuotes(cut[1..]);
    assert cut[1..] == "\" ";
    assert CountQuotes(cut[1..]) == 1 + CountQuotes(cut[2..]);
    assert cut[2..] == " ";
    assert CountEscapedQuotes(cut) == CountEscapedQuotes(cut[1..]);
    NotFound(cut, "//");
  }
}
