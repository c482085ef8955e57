/**
 * The heading normaliser applied to the agents' Markdown output.
 *
 * Every substitution of the normaliser is a `re.sub` with `re.MULTILINE`
 * and a pattern anchored at both ends of a line, so it is modelled line by
 * line: the content is split at line feeds, each line that the whole pattern
 * matches is replaced, and the lines are joined again. Inside a line, `\s` is
 * a white-space character other than the line feed.
 *
 * Each pattern is a lead (`\*\*`, nothing, or `#{lo,hi}\s+`), a body and a
 * tail (`\*\*:?\s*$`, `\s*:\s*$` or `\s*$`). Adjacent parts of every pattern
 * start with characters of disjoint classes, so the greedy reading of each
 * repetition taken here is the only way the pattern can match; the two
 * open-ended name patterns `[^\n*]*` overlap the tail and are stated by what
 * a match needs of the rest of the line.
 */
module Markdown {
  import opened Wrappers
  import opened Text

  // ---------------------------------------------------------------------
  // Matching one line
  // ---------------------------------------------------------------------

  /** The `#` run of `hs + rest` is `hs` when `rest` does not go on with `#`. */
  lemma {:induction false} HashRunPrefix(hs: string, rest: string)
    requires forall i :: 0 <= i < |hs| ==> hs[i] == '#'
    requires rest == [] || rest[0] != '#'
    ensures HashRun(hs + rest) == |hs|
    decreases |hs|
  {
    if |hs| > 0 {
      assert (hs + rest)[1..] == hs[1..] + rest;
      HashRunPrefix(hs[1..], rest);
    }
  }

  /** The number of leading white-space characters. */
  function SpaceRun(s: string): (n: nat)
    ensures n <= |s|
    ensures forall i :: 0 <= i < n ==> IsLineSpace(s[i])
    ensures n == |s| || !IsLineSpace(s[n])
  {
    if |s| > 0 && IsLineSpace(s[0]) then 1 + SpaceRun(s[1..]) else 0
  }

  /** The number of leading `#` characters. */
  function HashRun(s: string): (n: nat)
    ensures n <= |s|
    ensures forall i :: 0 <= i < n ==> s[i] == '#'
    ensures n == |s| || s[n] != '#'
  {
    if |s| > 0 && s[0] == '#' then 1 + HashRun(s[1..]) else 0
  }

  /** The class `[A-Za-z0-9\s\-]` of an English word heading. */
  predicate IsWordChar(c: char) { IsAsciiLetter(c) || IsDigit(c) || IsLineSpace(c) || c == '-' }

  function WordRun(s: string): (n: nat)
    ensures n <= |s|
    ensures forall i :: 0 <= i < n ==> IsWordChar(s[i])
    ensures n == |s| || !IsWordChar(s[n])
  {
    if |s| > 0 && IsWordChar(s[0]) then 1 + WordRun(s[1..]) else 0
  }

  predicate AllSpace(s: string) { forall i :: 0 <= i < |s| ==> IsLineSpace(s[i]) }

  /** `\s+`: what follows at least one white-space character, or `None`. */
  function AfterSpaces(s: string): (r: Option<string>)
    ensures r.Some? ==> |r.value| < |s| && r.value == s[|s| - |r.value|..]
    ensures r.Some? ==> r.value == [] || !IsLineSpace(r.value[0])
  {
    var n := SpaceRun(s);
    if n == 0 then None else Some(s[n..])
  }

  /** The three ways a pattern ends. */
  datatype Tail =
    | BoldTail   // `\*\*:?\s*$`
    | ColonTail  // `\s*:\s*$`
    | EndTail    // `\s*$`

  predicate TailMatches(t: Tail, r: string) {
    match t
    case BoldTail =>
      StartsWith(r, "**") && (AllSpace(r[2..]) || (|r| > 2 && r[2] == ':' && AllSpace(r[3..])))
    case ColonTail =>
      var k := SpaceRun(r);
      k < |r| && r[k] == ':' && AllSpace(r[k + 1..])
    case EndTail => AllSpace(r)
  }

  /**
   * `[^\n*]*` followed by a tail. No later part of a pattern matches `*`, so
   * with the bold tail the run ends at the first `*`, and with the other two
   * tails the rest holds no `*`; the colon tail then needs the rest, without
   * its trailing white space, to end with `:`.
   */
  predicate AnyThenTail(t: Tail, r: string) {
    match t
    case BoldTail => '*' in r && TailMatches(BoldTail, r[Find(r, '*')..])
    case ColonTail =>
      var u := TrimEnd(r, LineSpace);
      '*' !in r && |u| > 0 && u[|u| - 1] == ':'
    case EndTail => '*' !in r
  }

  /** A literal name, or a literal name followed by `[^\n*]*`. */
  datatype NamePattern = Exact(text: string) | ExactThenAny(text: string)

  predicate NameThenTail(np: NamePattern, t: Tail, s: string) {
    StartsWith(s, np.text)
    && (if np.Exact? then TailMatches(t, s[|np.text|..]) else AnyThenTail(t, s[|np.text|..]))
  }

  /** The middle of a pattern. */
  datatype Body =
    | SentenceNumber                          // `문장\s+(\d+)`
    | Name(np: NamePattern)                   // a subheading name
    | Numbered(num: char, np: NamePattern)    // `N\.\s+` and a name
    | Word                                    // `([A-Za-z][A-Za-z0-9\s\-]*)`

  /** What the group of a body can hold: digits, an English word, or nothing. */
  predicate CaptureShape(b: Body, c: string) {
    match b
    case SentenceNumber => |c| > 0 && forall i :: 0 <= i < |c| ==> IsDigit(c[i])
    case Word => |c| > 0 && IsAsciiLetter(c[0]) && forall i :: 0 <= i < |c| ==> IsWordChar(c[i])
    case _ => c == ""
  }

  /**
   * The body followed by the tail, matched against the rest of a line: the
   * text of the body's group, `""` for a body without one, or `None`.
   */
  function BodyCapture(b: Body, t: Tail, s: string): (r: Option<string>)
    ensures r.Some? ==> CaptureShape(b, r.value)
    ensures r.Some? && b.SentenceNumber? ==> StartsWith(s, "문장")
    ensures r.Some? && b.Name? ==> StartsWith(s, b.np.text)
    ensures r.Some? && b.Numbered? ==> |s| > 0 && s[0] == b.num
    ensures r.Some? && b.Word? ==> |s| > 0 && IsAsciiLetter(s[0])
  {
    match b
    case SentenceNumber =>
      if !StartsWith(s, "문장") then None
      else
        var r := AfterSpaces(s[2..]);
        if r.None? then None
        else
          var d := DigitRun(r.value);
          if d > 0 && TailMatches(t, r.value[d..]) then Some(r.value[..d]) else None
    case Name(np) => if NameThenTail(np, t, s) then Some("") else None
    case Numbered(num, np) =>
      if |s| >= 2 && s[0] == num && s[1] == '.' then
        var r := AfterSpaces(s[2..]);
        if r.Some? && NameThenTail(np, t, r.value) then Some("") else None
      else None
    case Word =>
      if |s| > 0 && IsAsciiLetter(s[0]) then
        var k := WordRun(s);
        if TailMatches(t, s[k..]) then Some(s[..k]) else None
      else None
  }

  /** The start of a pattern. */
  datatype Lead =
    | BoldLead                     // `\*\*`
    | PlainLead                    // nothing
    | HashLead(lo: nat, hi: nat)   // `#{lo,hi}\s+`

  /**
   * What follows the lead. `#{lo,hi}` is followed by `\s`, so it matches the
   * whole run of leading `#` characters, which must have a length in range.
   */
  function AfterLead(lead: Lead, l: string): Option<string> {
    match lead
    case BoldLead => if StartsWith(l, "**") then Some(l[2..]) else None
    case PlainLead => Some(l)
    case HashLead(lo, hi) =>
      var h := HashRun(l);
      if lo <= h <= hi then AfterSpaces(l[h..]) else None
  }

  /** A line-anchored pattern and its replacement: `replacement` followed by the group, if any. */
  datatype Pattern = Pattern(lead: Lead, body: Body, tail: Tail, replacement: string)

  function Capture(p: Pattern, l: string): Option<string> {
    var r := AfterLead(p.lead, l);
    if r.None? then None else BodyCapture(p.body, p.tail, r.value)
  }

  /** The line a matched line is replaced by. */
  function Target(p: Pattern, l: string): string
    requires Capture(p, l).Some?
  {
    p.replacement + Capture(p, l).value
  }

  /** Whether `o` is a replacement the pattern writes: its replacement text and a group of its body. */
  predicate ProducedBy(p: Pattern, o: string) {
    |p.replacement| <= |o| && o[..|p.replacement|] == p.replacement
    && CaptureShape(p.body, o[|p.replacement|..])
  }

  lemma TargetProduced(p: Pattern, l: string)
    requires Capture(p, l).Some?
    ensures ProducedBy(p, Target(p, l))
  {
    var o := Target(p, l);
    assert o[..|p.replacement|] == p.replacement;
    assert o[|p.replacement|..] == Capture(p, l).value;
  }

  /**
   * The five forms a heading is accepted in: bold with an optional colon,
   * plain with a colon, plain, and two ranges of wrong heading levels.
   */
  function Forms(body: Body, target: string, shallow: Lead, deep: Lead): (r: seq<Pattern>)
    ensures |r| == 5 && forall i :: 0 <= i < 5 ==> r[i].body == body && r[i].replacement == target
  {
    [Pattern(BoldLead, body, BoldTail, target),
     Pattern(PlainLead, body, ColonTail, target),
     Pattern(PlainLead, body, EndTail, target),
     Pattern(shallow, body, EndTail, target),
     Pattern(deep, body, EndTail, target)]
  }

  // ---------------------------------------------------------------------
  // The pattern tables
  // ---------------------------------------------------------------------

  const SentenceTarget: string := "### 문장 "

  /** `_normalize_sentence_headings`: the replacement is followed by the sentence number. */
  const SentencePatterns: seq<Pattern> := Forms(SentenceNumber, SentenceTarget, HashLead(1, 2), HashLead(4, 6))

  /** `_fix_korean_subheading(content, name, target)`. */
  function SubheadingPatterns(name: string, target: string): seq<Pattern> {
    Forms(Name(Exact(name)), target, HashLead(1, 3), HashLead(5, 6))
  }

  const ReadingSubheadings: seq<(string, string)> := [
    ("단위별 해석", "#### 단위별 해석"),
    ("자연스러운 해석", "#### 자연스러운 해석"),
    ("읽기 지시", "#### 읽기 지시")
  ]

  const GrammarSubheadings: seq<(string, string)> := [
    ("문법 포인트", "#### 문법 포인트"),
    ("왜 이 구조?", "#### 왜 이 구조?"),
    ("한국어와의 차이", "#### 한국어와의 차이"),
    ("시험 포인트", "#### 시험 포인트")
  ]

  /** `_normalize_vocab_word_headings`: both replacements are followed by the word. */
  const WordPatterns: seq<Pattern> := [
    Pattern(HashLead(3, 6), Word, EndTail, "## "),
    Pattern(BoldLead, Word, BoldTail, "## ")
  ]

  /** The numbered vocabulary subheadings: number, name pattern, target. */
  const VocabSubheadings: seq<(char, NamePattern, string)> := [
    ('1', Exact("기본 뜻"), "### 1. 기본 뜻"),
    ('2', Exact("문장 속 의미"), "### 2. 문장 속 의미"),
    ('3', Exact("핵심 의미 이미지"), "### 3. 핵심 의미 이미지"),
    ('4', ExactThenAny("어원"), "### 4. 어원 (PIE 어근까지)"),
    ('5', ExactThenAny("같은 어원 파생 단어"), "### 5. 같은 어원 파생 단어 (최소 3개)"),
    ('6', Exact("기억 연결 팁"), "### 6. 기억 연결 팁")
  ]

  function NumberedPatterns(num: char, np: NamePattern, target: string): seq<Pattern> {
    Forms(Numbered(num, np), target, HashLead(1, 2), HashLead(4, 6))
  }

  /** The patterns of a subheading table, in the order the loop applies them. */
  function SubheadingTablePatterns(table: seq<(string, string)>): seq<Pattern> {
    if |table| == 0 then [] else SubheadingPatterns(table[0].0, table[0].1) + SubheadingTablePatterns(table[1..])
  }

  function NumberedTablePatterns(table: seq<(char, NamePattern, string)>): seq<Pattern> {
    if |table| == 0 then [] else NumberedPatterns(table[0].0, table[0].1, table[0].2) + NumberedTablePatterns(table[1..])
  }

  // ---------------------------------------------------------------------
  // One `re.sub` over the content
  // ---------------------------------------------------------------------

  function SplitLines(c: string): seq<string> { Split(c, '\n') }

  function JoinLines(ls: seq<string>): string { Join(ls, "\n") }

  predicate NoLineBreaks(ls: seq<string>) { forall i :: 0 <= i < |ls| ==> '\n' !in ls[i] }

  /**
   * A tail ending in `\s*$` goes on matching white space past the line feed,
   * so a substitution also removes the blank lines after a matched line
   * (all of them, up to the next line with other characters or to the end of
   * the content). The English word pattern `#{3,6}` is the exception: its
   * group takes white space too and writes it back.
   */
  predicate ConsumesBlankLines(p: Pattern) { !(p.body.Word? && p.tail.EndTail?) }

  function DropBlankLines(ls: seq<string>): (r: seq<string>)
    ensures |r| <= |ls| && r == ls[|ls| - |r|..]
    ensures r == [] || !AllSpace(r[0])
    ensures forall i :: 0 <= i < |ls| - |r| ==> AllSpace(ls[i])
  {
    if |ls| > 0 && AllSpace(ls[0]) then DropBlankLines(ls[1..]) else ls
  }

  /** The substitution on a list of lines. */
  function SubLines(p: Pattern, ls: seq<string>): (r: seq<string>)
    ensures |ls| > 0 ==> |r| > 0
    decreases |ls|
  {
    if |ls| == 0 then []
    else
      var c := Capture(p, ls[0]);
      if c.Some? then
        [p.replacement + c.value] + SubLines(p, if ConsumesBlankLines(p) then DropBlankLines(ls[1..]) else ls[1..])
      else [ls[0]] + SubLines(p, ls[1..])
  }

  /** `re.sub(pattern, replacement, content, flags=re.MULTILINE)`. */
  function Sub(p: Pattern, c: string): string {
    JoinLines(SubLines(p, SplitLines(c)))
  }

  /** A sequence of substitutions, each on the result of the one before. */
  function SubAll(ps: seq<Pattern>, c: string): string {
    if |ps| == 0 then c else SubAll(ps[1..], Sub(ps[0], c))
  }

  function SubAllLines(ps: seq<Pattern>, ls: seq<string>): seq<string> {
    if |ps| == 0 then ls else SubAllLines(ps[1..], SubLines(ps[0], ls))
  }

  /** Every line a substitution leaves is an unmatched line of its input or a replacement it wrote. */
  lemma {:induction false} SubLinesOutput(p: Pattern, ls: seq<string>)
    ensures forall k :: 0 <= k < |SubLines(p, ls)| ==>
      (SubLines(p, ls)[k] in ls && Capture(p, SubLines(p, ls)[k]).None?) || ProducedBy(p, SubLines(p, ls)[k])
    decreases |ls|
  {
    if |ls| > 0 {
      var c := Capture(p, ls[0]);
      var rest := if c.Some? && ConsumesBlankLines(p) then DropBlankLines(ls[1..]) else ls[1..];
      var head := if c.Some? then p.replacement + c.value else ls[0];
      assert SubLines(p, ls) == [head] + SubLines(p, rest);
      SubLinesOutput(p, rest);
      if c.Some? {
        TargetProduced(p, ls[0]);
      }
      OutputCons(p, ls, rest, head, SubLines(p, rest), SubLines(p, ls));
    }
  }

  lemma OutputCons(p: Pattern, ls: seq<string>, rest: seq<string>, head: string, later: seq<string>, out: seq<string>)
    requires |ls| > 0 && |rest| <= |ls| && rest == ls[|ls| - |rest|..] && out == [head] + later
    requires (head == ls[0] && Capture(p, head).None?) || ProducedBy(p, head)
    requires forall k :: 0 <= k < |later| ==> (later[k] in rest && Capture(p, later[k]).None?) || ProducedBy(p, later[k])
    ensures forall k :: 0 <= k < |out| ==> (out[k] in ls && Capture(p, out[k]).None?) || ProducedBy(p, out[k])
  {
    forall k | 0 <= k < |out|
      ensures (out[k] in ls && Capture(p, out[k]).None?) || ProducedBy(p, out[k])
    {
      if k > 0 {
        assert out[k] == later[k - 1];
      }
    }
  }

  /** A substitution that matches no line changes nothing. */
  lemma {:induction false} SubLinesUnmatched(p: Pattern, ls: seq<string>)
    requires forall k :: 0 <= k < |ls| ==> Capture(p, ls[k]).None?
    ensures SubLines(p, ls) == ls
    decreases |ls|
  {
    if |ls| > 0 {
      SubLinesUnmatched(p, ls[1..]);
    }
  }

  predicate NoLineBreak(s: string) { '\n' !in s }

  lemma CaptureHasNoLineBreak(b: Body, c: string)
    requires CaptureShape(b, c)
    ensures NoLineBreak(c)
  {
    match b
    case SentenceNumber => assert forall i :: 0 <= i < |c| ==> c[i] != '\n';
    case Word => assert forall i :: 0 <= i < |c| ==> c[i] != '\n';
    case _ =>
  }

  /** Substitution keeps lines free of line feeds when its replacement has none. */
  lemma SubLinesNoLineBreaks(p: Pattern, ls: seq<string>)
    requires NoLineBreak(p.replacement) && NoLineBreaks(ls)
    ensures NoLineBreaks(SubLines(p, ls))
  {
    SubLinesOutput(p, ls);
    var r := SubLines(p, ls);
    forall k | 0 <= k < |r| ensures '\n' !in r[k] {
      if ProducedBy(p, r[k]) {
        CaptureHasNoLineBreak(p.body, r[k][|p.replacement|..]);
        assert r[k] == p.replacement + r[k][|p.replacement|..];
      }
    }
  }

  /** The content-level chain of `re.sub` calls is the line-level chain. */
  lemma {:induction false} SubAllAsLines(ps: seq<Pattern>, ls: seq<string>)
    requires |ls| > 0 && NoLineBreaks(ls)
    requires forall i :: 0 <= i < |ps| ==> NoLineBreak(ps[i].replacement)
    ensures SubAll(ps, JoinLines(ls)) == JoinLines(SubAllLines(ps, ls))
    decreases |ps|
  {
    if |ps| > 0 {
      SplitJoin(ls, '\n');
      var ls' := SubLines(ps[0], ls);
      SubLinesNoLineBreaks(ps[0], ls);
      assert Sub(ps[0], JoinLines(ls)) == JoinLines(ls');
      SubAllAsLines(ps[1..], ls');
    }
  }

  lemma {:induction false} SubAllAppend(a: seq<Pattern>, b: seq<Pattern>, c: string)
    ensures SubAll(a + b, c) == SubAll(b, SubAll(a, c))
    decreases |a|
  {
    if |a| > 0 {
      assert (a + b)[0] == a[0] && (a + b)[1..] == a[1..] + b;
      SubAllAppend(a[1..], b, Sub(a[0], c));
    } else {
      assert a + b == b;
    }
  }

  // ---------------------------------------------------------------------
  // `_ensure_heading_blank_lines`
  // ---------------------------------------------------------------------

  /** `#{1,6}\s+[^\n]+` on a whole line: one to six `#`, white space, and at least one more character. */
  predicate IsHeadingLine(l: string) {
    var h := HashRun(l);
    1 <= h <= 6 && h + 2 <= |l| && IsLineSpace(l[h])
  }

  /**
   * The pass as written: `(^#{1,6}\s+[^\n]+)\n([^\n])` consumes the first
   * character of the line after the heading, and matches do not overlap, so a
   * heading on that line cannot start a match of its own.
   */
  function InsertBlankLinesAsWritten(ls: seq<string>): (r: seq<string>)
    ensures |ls| <= |r| <= |InsertBlankLines(ls)|
    decreases |ls|
  {
    if |ls| >= 2 && IsHeadingLine(ls[0]) && ls[1] != "" then
      assert ls[1..][1..] == ls[2..];
      [ls[0], "", ls[1]] + InsertBlankLinesAsWritten(ls[2..])
    else if |ls| == 0 then []
    else [ls[0]] + InsertBlankLinesAsWritten(ls[1..])
  }

  /** The pass as its description states it: a blank line after every heading followed by a non-blank line. */
  function InsertBlankLines(ls: seq<string>): (r: seq<string>)
    ensures |ls| > 0 ==> |r| > 0 && r[0] == ls[0]
    ensures forall k :: 0 <= k < |r| ==> r[k] == "" || r[k] in ls
    decreases |ls|
  {
    if |ls| >= 2 && IsHeadingLine(ls[0]) && ls[1] != "" then [ls[0], ""] + InsertBlankLines(ls[1..])
    else if |ls| == 0 then []
    else [ls[0]] + InsertBlankLines(ls[1..])
  }

  /** No heading line is directly followed by a non-empty line. */
  predicate Spaced(ls: seq<string>) {
    forall k :: 0 <= k < |ls| - 1 && IsHeadingLine(ls[k]) ==> ls[k + 1] == ""
  }

  lemma {:induction false} InsertBlankLinesSpaced(ls: seq<string>)
    ensures Spaced(InsertBlankLines(ls))
    decreases |ls|
  {
    if |ls| >= 1 {
      InsertBlankLinesSpaced(ls[1..]);
    }
  }

  lemma {:induction false} InsertBlankLinesOfSpaced(ls: seq<string>)
    requires Spaced(ls)
    ensures InsertBlankLines(ls) == ls
    decreases |ls|
  {
    if |ls| >= 1 {
      InsertBlankLinesOfSpaced(ls[1..]);
    }
  }

  /** Inserting the blank lines a second time changes nothing. */
  lemma InsertBlankLinesIdempotent(ls: seq<string>)
    ensures InsertBlankLines(InsertBlankLines(ls)) == InsertBlankLines(ls)
  {
    InsertBlankLinesSpaced(ls);
    InsertBlankLinesOfSpaced(InsertBlankLines(ls));
  }

  /** The pass only inserts: removing the inserted blank lines gives the input back. */
  lemma {:induction false} InsertBlankLinesOnlyInserts(ls: seq<string>)
    ensures |InsertBlankLines(ls)| >= |ls|
    ensures InsertBlankLines(ls) == ls <==> Spaced(ls)
    decreases |ls|
  {
    if |ls| >= 1 {
      InsertBlankLinesOnlyInserts(ls[1..]);
      InsertBlankLinesSpaced(ls);
    }
  }

  /** A heading followed directly by a non-empty line gets one blank line after it. */
  lemma InsertBlankLinesAfterHeading(h: string, x: string, rest: seq<string>)
    requires IsHeadingLine(h) && x != ""
    ensures InsertBlankLines([h, x] + rest) == [h, ""] + InsertBlankLines([x] + rest)
  {
    assert ([h, x] + rest)[1..] == [x] + rest;
  }

  /** A heading already followed by a blank line gets no second one. */
  lemma InsertBlankLinesKeepsBlank(h: string, rest: seq<string>)
    requires IsHeadingLine(h)
    ensures InsertBlankLines([h, ""] + rest) == [h] + InsertBlankLines([""] + rest)
  {
    assert ([h, ""] + rest)[1..] == [""] + rest;
  }

  /** `_ensure_heading_blank_lines` as written. */
  function EnsureHeadingBlankLinesAsWritten(c: string): string {
    JoinLines(InsertBlankLinesAsWritten(SplitLines(c)))
  }

  /** `_ensure_heading_blank_lines` as the rest of the model uses it. */
  function EnsureHeadingBlankLines(c: string): string {
    JoinLines(InsertBlankLines(SplitLines(c)))
  }

  /**
   * Two headings on consecutive lines: the pass as written leaves the second
   * without a blank line, and a second application inserts another one.
   */
  lemma AsWrittenSkipsSecondHeading(a: string, b: string, c: string)
    requires a == "## a" && b == "## b" && c == "c"
    ensures InsertBlankLinesAsWritten([a, b, c]) == [a, "", b, c]
    ensures !Spaced(InsertBlankLinesAsWritten([a, b, c]))
    ensures InsertBlankLinesAsWritten(InsertBlankLinesAsWritten([a, b, c])) != InsertBlankLinesAsWritten([a, b, c])
  {
    assert a == "##" + " a" && b == "##" + " b";
    HashRunPrefix("##", " a");
    HashRunPrefix("##", " b");
    assert IsHeadingLine(a) && IsHeadingLine(b);
    var once := InsertBlankLinesAsWritten([a, b, c]);
    assert once == [a, "", b] + InsertBlankLinesAsWritten([c]);
    assert [c][1..] == [];
    assert InsertBlankLinesAsWritten([c]) == [c] + InsertBlankLinesAsWritten([]);
    assert once == [a, "", b, c];
    assert once[2] == b && once[3] == c;
    var twice := [a] + InsertBlankLinesAsWritten(once[1..]);
    assert once[1..][1..] == [b, c];
    assert InsertBlankLinesAsWritten(once[1..]) == [""] + InsertBlankLinesAsWritten([b, c]);
    assert InsertBlankLinesAsWritten([b, c]) == [b, "", c] + InsertBlankLinesAsWritten([]);
    assert InsertBlankLinesAsWritten(once) == [a, "", b, "", c];
  }

  /** The corrected pass gives both headings their blank line. */
  lemma CorrectedSpacesBothHeadings(a: string, b: string, c: string)
    requires a == "## a" && b == "## b" && c == "c"
    ensures InsertBlankLines([a, b, c]) == [a, "", b, "", c]
  {
    assert a == "##" + " a" && b == "##" + " b";
    HashRunPrefix("##", " a");
    HashRunPrefix("##", " b");
    assert IsHeadingLine(a) && IsHeadingLine(b);
    assert [a, b, c][1..] == [b, c];
    assert InsertBlankLines([a, b, c]) == [a, ""] + InsertBlankLines([b, c]);
    assert [b, c][1..] == [c];
    assert InsertBlankLines([b, c]) == [b, ""] + InsertBlankLines([c]);
    assert [c][1..] == [];
    assert InsertBlankLines([c]) == [c] + InsertBlankLines([]);
  }

  // ---------------------------------------------------------------------
  // Replacements no pattern matches again
  // ---------------------------------------------------------------------

  predicate NoneMatch(ps: seq<Pattern>, l: string) {
    forall p :: p in ps ==> Capture(p, l).None?
  }

  /** A body that cannot start with `#`. */
  predicate BodyAvoidsHash(b: Body) {
    match b
    case SentenceNumber => true
    case Name(np) => |np.text| > 0 && np.text[0] != '#'
    case Numbered(num, _) => num != '#'
    case Word => true
  }

  /** What every pattern of the normaliser satisfies. */
  predicate WellFormedPattern(p: Pattern) {
    BodyAvoidsHash(p.body) && (p.lead.HashLead? ==> 1 <= p.lead.lo) && NoLineBreak(p.replacement)
  }

  /** A line of `n` `#`, one white-space character, and text that starts with neither. */
  predicate HeadingShaped(o: string, n: nat) {
    1 <= n && n + 2 <= |o| && (forall i :: 0 <= i < n ==> o[i] == '#')
    && IsLineSpace(o[n]) && !IsLineSpace(o[n + 1]) && o[n + 1] != '#'
  }

  lemma NotStartsWith(s: string, p: string)
    requires |p| > 0 && (|s| == 0 || s[0] != p[0])
    ensures !StartsWith(s, p)
  {
    if |p| <= |s| {
      assert s[..|p|][0] == s[0];
    }
  }

  /** A line that starts with the prefix `a` does not start with a longer `b` that does not. */
  lemma NotStartsWithLonger(s: string, a: string, b: string)
    requires StartsWith(s, a) && |a| <= |b| && !StartsWith(b, a)
    ensures !StartsWith(s, b)
  {
    if |b| <= |s| {
      assert s[..|b|][..|a|] == s[..|a|];
    }
  }

  lemma BodyRefusesHash(b: Body, t: Tail, s: string)
    requires |s| > 0 && s[0] == '#' && BodyAvoidsHash(b)
    ensures BodyCapture(b, t, s).None?
  {
    match b
    case SentenceNumber => NotStartsWith(s, "문장");
    case Name(np) => NotStartsWith(s, np.text);
    case Numbered(_, _) =>
    case Word =>
  }

  /**
   * On a heading line only a `#{lo,hi}` lead with the line's level in range
   * can match, and its body is then matched against the heading's text.
   */
  lemma PatternOnHeading(p: Pattern, o: string, n: nat)
    requires WellFormedPattern(p) && HeadingShaped(o, n)
    ensures Capture(p, o)
      == (if p.lead.HashLead? && p.lead.lo <= n <= p.lead.hi then BodyCapture(p.body, p.tail, o[n + 1..]) else None)
  {
    assert o[..n] + o[n..] == o;
    HashRunPrefix(o[..n], o[n..]);
    assert o[n..][1..] == o[n + 1..];
    assert SpaceRun(o[n + 1..]) == 0;
    assert SpaceRun(o[n..]) == 1;
    match p.lead
    case BoldLead => NotStartsWith(o, "**");
    case PlainLead => BodyRefusesHash(p.body, p.tail, o);
    case HashLead(lo, hi) =>
  }

  /** An empty line matches no pattern. */
  lemma EmptyLineUnmatched(p: Pattern)
    requires WellFormedPattern(p)
    ensures Capture(p, "").None?
  {
    match p.lead
    case BoldLead =>
    case HashLead(_, _) =>
    case PlainLead =>
      match p.body
      case SentenceNumber => NotStartsWith("", "문장");
      case Name(np) => NotStartsWith("", np.text);
      case Numbered(_, _) =>
      case Word =>
  }

  /**
   * Each pass keeps the invariant that a line matches no pattern at all, or
   * no pattern of the passes already run.
   */
  lemma {:induction false} SubAllLinesClean(ps: seq<Pattern>, all: seq<Pattern>, done: seq<Pattern>, ls: seq<string>)
    requires forall p, o :: p in ps && ProducedBy(p, o) ==> NoneMatch(all, o)
    requires forall k :: 0 <= k < |ls| ==> NoneMatch(all, ls[k]) || NoneMatch(done, ls[k])
    ensures forall k :: 0 <= k < |SubAllLines(ps, ls)| ==>
      NoneMatch(all, SubAllLines(ps, ls)[k]) || NoneMatch(done + ps, SubAllLines(ps, ls)[k])
    decreases |ps|
  {
    if |ps| == 0 {
      assert done + ps == done;
    } else {
      var p := ps[0];
      var ls' := SubLines(p, ls);
      SubLinesOutput(p, ls);
      forall k | 0 <= k < |ls'| ensures NoneMatch(all, ls'[k]) || NoneMatch(done + [p], ls'[k]) {
        if !ProducedBy(p, ls'[k]) {
          var j :| 0 <= j < |ls| && ls[j] == ls'[k];
        }
      }
      assert (done + [p]) + ps[1..] == done + ps;
      SubAllLinesClean(ps[1..], all, done + [p], ls');
    }
  }

  /** Passes that match no line change nothing. */
  lemma {:induction false} SubAllLinesUnmatched(ps: seq<Pattern>, ls: seq<string>)
    requires forall k :: 0 <= k < |ls| ==> NoneMatch(ps, ls[k])
    ensures SubAllLines(ps, ls) == ls
    decreases |ps|
  {
    if |ps| > 0 {
      SubLinesUnmatched(ps[0], ls);
      SubAllLinesUnmatched(ps[1..], ls);
    }
  }

  lemma {:induction false} SubAllLinesShape(ps: seq<Pattern>, ls: seq<string>)
    requires forall p :: p in ps ==> WellFormedPattern(p)
    requires |ls| > 0 && NoLineBreaks(ls)
    ensures |SubAllLines(ps, ls)| > 0 && NoLineBreaks(SubAllLines(ps, ls))
    decreases |ps|
  {
    if |ps| > 0 {
      assert ps[0] in ps;
      assert forall p :: p in ps[1..] ==> p in ps;
      SubLinesNoLineBreaks(ps[0], ls);
      SubAllLinesShape(ps[1..], SubLines(ps[0], ls));
    }
  }

  /** The substitutions followed by the blank-line pass as written, as all three normalisers run them. */
  function Normalize(ps: seq<Pattern>, c: string): string {
    EnsureHeadingBlankLinesAsWritten(SubAll(ps, c))
  }

  /** The substitutions followed by the corrected blank-line pass. */
  function NormalizeIntended(ps: seq<Pattern>, c: string): string {
    EnsureHeadingBlankLines(SubAll(ps, c))
  }

  /** The line form of `Normalize` and of `NormalizeIntended`. */
  lemma NormalizeAsLines(ps: seq<Pattern>, ls: seq<string>)
    requires forall p :: p in ps ==> WellFormedPattern(p)
    requires |ls| > 0 && NoLineBreaks(ls)
    ensures Normalize(ps, JoinLines(ls)) == JoinLines(InsertBlankLinesAsWritten(SubAllLines(ps, ls)))
    ensures NormalizeIntended(ps, JoinLines(ls)) == JoinLines(InsertBlankLines(SubAllLines(ps, ls)))
    ensures |SubAllLines(ps, ls)| > 0 && NoLineBreaks(SubAllLines(ps, ls))
  {
    assert forall i :: 0 <= i < |ps| ==> ps[i] in ps;
    SubAllAsLines(ps, ls);
    SubAllLinesShape(ps, ls);
    SplitJoin(SubAllLines(ps, ls), '\n');
  }

  /**
   * The corrected normaliser is idempotent when no pattern matches a
   * replacement of its own: its output is a fixed point.
   */
  lemma NormalizeIntendedIdempotent(ps: seq<Pattern>, c: string)
    requires forall p :: p in ps ==> WellFormedPattern(p)
    requires forall p, o :: p in ps && ProducedBy(p, o) ==> NoneMatch(ps, o)
    ensures NormalizeIntended(ps, NormalizeIntended(ps, c)) == NormalizeIntended(ps, c)
  {
    var ls := SplitLines(c);
    NormalizeAsLines(ps, ls);
    var s := SubAllLines(ps, ls);
    SubAllLinesClean(ps, ps, [], ls);
    assert [] + ps == ps;
    var f := InsertBlankLines(s);
    forall k | 0 <= k < |f| ensures NoneMatch(ps, f[k]) && '\n' !in f[k] {
      if f[k] == "" {
        forall p | p in ps ensures Capture(p, f[k]).None? { EmptyLineUnmatched(p); }
      } else {
        var j :| 0 <= j < |s| && s[j] == f[k];
      }
    }
    NormalizeAsLines(ps, f);
    SubAllLinesUnmatched(ps, f);
    InsertBlankLinesIdempotent(s);
  }

  /** On lines no pattern matches, the normaliser as written is the blank-line pass alone. */
  lemma NormalizeOfInert(ps: seq<Pattern>, ls: seq<string>)
    requires forall p :: p in ps ==> WellFormedPattern(p)
    requires |ls| > 0 && NoLineBreaks(ls)
    requires forall k :: 0 <= k < |ls| ==> NoneMatch(ps, ls[k])
    ensures Normalize(ps, JoinLines(ls)) == JoinLines(InsertBlankLinesAsWritten(ls))
  {
    NormalizeAsLines(ps, ls);
    SubAllLinesUnmatched(ps, ls);
  }

  /** A heading of `n` `#` in the range 1..6 is a heading line for the blank-line pass. */
  lemma HeadingShapedIsHeading(o: string, n: nat)
    requires HeadingShaped(o, n) && n <= 6
    ensures IsHeadingLine(o)
  {
    assert o[..n] + o[n..] == o;
    HashRunPrefix(o[..n], o[n..]);
  }

  /**
   * Three headings on consecutive lines that the patterns leave alone: the
   * normaliser as written puts a blank line only after the first, and a second
   * run puts one after the second as well. So it is not idempotent.
   */
  lemma {:induction false} AsWrittenNotIdempotent(ps: seq<Pattern>, a: string, b: string, d: string, n: nat)
    requires forall p :: p in ps ==> WellFormedPattern(p)
    requires HeadingShaped(a, n) && n <= 6 && HeadingShaped(b, n + 1) && n + 1 <= 6 && d != ""
    requires NoLineBreak(a) && NoLineBreak(b) && NoLineBreak(d)
    requires NoneMatch(ps, a) && NoneMatch(ps, b) && NoneMatch(ps, d)
    ensures Normalize(ps, JoinLines([a, b, d])) == JoinLines([a, "", b, d])
    ensures Normalize(ps, JoinLines([a, "", b, d])) == JoinLines([a, "", b, "", d])
    ensures Normalize(ps, Normalize(ps, JoinLines([a, b, d]))) != Normalize(ps, JoinLines([a, b, d]))
  {
    HeadingShapedIsHeading(a, n);
    HeadingShapedIsHeading(b, n + 1);
    NormalizeOnTwoHeadings(ps, a, b, d);
    OneMoreBlankDiffers(a, b, d);
  }

  lemma OneMoreBlankDiffers(a: string, b: string, d: string)
    requires NoLineBreak(a) && NoLineBreak(b) && NoLineBreak(d)
    ensures JoinLines([a, "", b, d]) != JoinLines([a, "", b, "", d])
  {
    JoinLinesDiffer([a, "", b, d], [a, "", b, "", d]);
  }

  lemma NormalizeOnTwoHeadings(ps: seq<Pattern>, a: string, b: string, d: string)
    requires forall p :: p in ps ==> WellFormedPattern(p)
    requires IsHeadingLine(a) && IsHeadingLine(b) && d != ""
    requires NoLineBreak(a) && NoLineBreak(b) && NoLineBreak(d)
    requires NoneMatch(ps, a) && NoneMatch(ps, b) && NoneMatch(ps, d)
    ensures Normalize(ps, JoinLines([a, b, d])) == JoinLines([a, "", b, d])
    ensures Normalize(ps, JoinLines([a, "", b, d])) == JoinLines([a, "", b, "", d])
  {
    AsWrittenOnce(a, b, d);
    InertLines(ps, [a, b, d]);
    NormalizeSecondRun(ps, a, b, d);
  }

  /** The second run of `NormalizeOnTwoHeadings`, on the text the first run gave. */
  lemma NormalizeSecondRun(ps: seq<Pattern>, a: string, b: string, d: string)
    requires forall p :: p in ps ==> WellFormedPattern(p)
    requires IsHeadingLine(a) && IsHeadingLine(b) && d != ""
    requires NoLineBreak(a) && NoLineBreak(b) && NoLineBreak(d)
    requires NoneMatch(ps, a) && NoneMatch(ps, b) && NoneMatch(ps, d)
    ensures Normalize(ps, JoinLines([a, "", b, d])) == JoinLines([a, "", b, "", d])
  {
    AsWrittenTwice(a, b, d);
    assert NoneMatch(ps, "") by {
      forall p | p in ps ensures Capture(p, "").None? { EmptyLineUnmatched(p); }
    }
    InertLines(ps, [a, "", b, d]);
  }

  /** `NormalizeOfInert` for a short list whose lines are checked one by one. */
  lemma InertLines(ps: seq<Pattern>, ls: seq<string>)
    requires forall p :: p in ps ==> WellFormedPattern(p)
    requires |ls| > 0 && forall k :: 0 <= k < |ls| ==> NoLineBreak(ls[k]) && NoneMatch(ps, ls[k])
    ensures Normalize(ps, JoinLines(ls)) == JoinLines(InsertBlankLinesAsWritten(ls))
  {
    NormalizeOfInert(ps, ls);
  }

  /** Line lists of different lengths join to different texts. */
  lemma JoinLinesDiffer(xs: seq<string>, ys: seq<string>)
    requires |xs| > 0 && |ys| > 0 && NoLineBreaks(xs) && NoLineBreaks(ys) && |xs| != |ys|
    ensures JoinLines(xs) != JoinLines(ys)
  {
    SplitJoin(xs, '\n');
    SplitJoin(ys, '\n');
  }

  /** The pass as written on two heading lines followed by a non-empty line, run once and twice. */
  lemma AsWrittenOnTwoHeadings(a: string, b: string, d: string)
    requires IsHeadingLine(a) && IsHeadingLine(b) && d != ""
    ensures InsertBlankLinesAsWritten([a, b, d]) == [a, "", b, d]
    ensures InsertBlankLinesAsWritten([a, "", b, d]) == [a, "", b, "", d]
  {
    AsWrittenOnce(a, b, d);
    AsWrittenTwice(a, b, d);
  }

  lemma AsWrittenOnce(a: string, b: string, d: string)
    requires IsHeadingLine(a) && IsHeadingLine(b) && d != ""
    ensures InsertBlankLinesAsWritten([a, b, d]) == [a, "", b, d]
  {
    assert [a, b, d][2..] == [d] && [d][1..] == [];
    assert InsertBlankLinesAsWritten([d]) == [d] + InsertBlankLinesAsWritten([]);
  }

  lemma AsWrittenTwice(a: string, b: string, d: string)
    requires IsHeadingLine(a) && IsHeadingLine(b) && d != ""
    ensures InsertBlankLinesAsWritten([a, "", b, d]) == [a, "", b, "", d]
  {
    var once := [a, "", b, d];
    assert once[1..] == ["", b, d] && once[1..][1..] == [b, d];
    assert [b, d][2..] == [] && [b, d][1..] == [d];
    assert InsertBlankLinesAsWritten([b, d]) == [b, "", d];
    assert InsertBlankLinesAsWritten(["", b, d]) == [""] + [b, "", d];
  }

  // ---------------------------------------------------------------------
  // The reading and grammar tables
  // ---------------------------------------------------------------------

  /** A subheading name the sentence patterns cannot take for a sentence heading. */
  predicate GoodName(b: string) {
    |b| >= 2 && !StartsWith(b, "문장") && !IsLineSpace(b[0]) && b[0] != '#' && b[0] != '*' && NoLineBreak(b)
  }

  /** Every target of the table is the name as a level-4 heading. */
  predicate SubheadingTableOk(t: seq<(string, string)>) {
    forall i :: 0 <= i < |t| ==> GoodName(t[i].0) && t[i].1 == "#### " + t[i].0
  }

  lemma GoodNameOf(b: string)
    requires |b| >= 2 && (b[0] != '문' || b[1] != '장') && !IsLineSpace(b[0]) && b[0] != '#' && b[0] != '*' && '\n' !in b
    ensures GoodName(b)
  {
    assert b[..2][0] == b[0] && b[..2][1] == b[1];
  }

  lemma SubheadingTablesOk()
    ensures SubheadingTableOk(ReadingSubheadings) && SubheadingTableOk(GrammarSubheadings)
  {
    ReadingTableOk();
    GrammarTableOk();
  }

  lemma ReadingTableOk()
    ensures SubheadingTableOk(ReadingSubheadings)
  {
    GoodNameOf("단위별 해석");
    GoodNameOf("자연스러운 해석");
    GoodNameOf("읽기 지시");
  }

  lemma GrammarTableOk()
    ensures SubheadingTableOk(GrammarSubheadings)
  {
    GoodNameOf("문법 포인트");
    GoodNameOf("왜 이 구조?");
    GoodNameOf("한국어와의 차이");
    GoodNameOf("시험 포인트");
  }

  /** The lines the reading and grammar replacements have: a sentence heading, or a level-4 subheading. */
  predicate SectionShaped(o: string) {
    (HeadingShaped(o, 3) && StartsWith(o[4..], "문장")) || (HeadingShaped(o, 4) && !StartsWith(o[5..], "문장"))
  }

  lemma SentencePatternsWellFormed()
    ensures forall p :: p in SentencePatterns ==> WellFormedPattern(p)
  {
  }

  lemma SentencePatternsRefuse(o: string)
    requires SectionShaped(o)
    ensures NoneMatch(SentencePatterns, o)
  {
    SentencePatternsWellFormed();
    forall p | p in SentencePatterns ensures Capture(p, o).None? {
      if HeadingShaped(o, 3) && StartsWith(o[4..], "문장") {
        PatternOnHeading(p, o, 3);
      } else {
        PatternOnHeading(p, o, 4);
      }
    }
  }

  lemma {:induction false} SubheadingPatternsRefuse(t: seq<(string, string)>, o: string)
    requires SubheadingTableOk(t) && SectionShaped(o)
    ensures forall p :: p in SubheadingTablePatterns(t) ==> WellFormedPattern(p)
    ensures NoneMatch(SubheadingTablePatterns(t), o)
    decreases |t|
  {
    if |t| > 0 {
      var b := t[0].0;
      forall p | p in SubheadingPatterns(b, t[0].1) ensures WellFormedPattern(p) && Capture(p, o).None? {
        if HeadingShaped(o, 3) && StartsWith(o[4..], "문장") {
          PatternOnHeading(p, o, 3);
          NotStartsWithLonger(o[4..], "문장", b);
        } else {
          PatternOnHeading(p, o, 4);
        }
      }
      SubheadingPatternsRefuse(t[1..], o);
    }
  }

  lemma SentenceProduced(o: string)
    requires ProducedBy(Pattern(HashLead(1, 2), SentenceNumber, EndTail, SentenceTarget), o)
    ensures SectionShaped(o)
  {
    assert |SentenceTarget| == 7 && o[..7] == SentenceTarget;
    assert o[0] == '#' && o[1] == '#' && o[2] == '#' && o[3] == ' ' && o[4] == '문' && o[5] == '장';
    assert o[4..][..2] == "문장";
  }

  lemma {:induction false} SubheadingProduced(t: seq<(string, string)>, p: Pattern, o: string)
    requires SubheadingTableOk(t) && p in SubheadingTablePatterns(t) && ProducedBy(p, o)
    ensures SectionShaped(o)
    decreases |t|
  {
    if p in SubheadingPatterns(t[0].0, t[0].1) {
      var b := t[0].0;
      assert o[..|p.replacement|] == p.replacement && o[|p.replacement|..] == "";
      assert o == "#### " + b;
      assert o[5..] == b;
    } else {
      SubheadingProduced(t[1..], p, o);
    }
  }

  /** The patterns `normalize_reading_output` or `normalize_grammar_output` applies, in order. */
  function SectionPatterns(t: seq<(string, string)>): seq<Pattern> {
    SentencePatterns + SubheadingTablePatterns(t)
  }

  /** No replacement of the reading or grammar normaliser matches any of its patterns again. */
  lemma SectionPatternsInert(t: seq<(string, string)>)
    requires SubheadingTableOk(t)
    ensures forall p :: p in SectionPatterns(t) ==> WellFormedPattern(p)
    ensures forall p, o :: p in SectionPatterns(t) && ProducedBy(p, o) ==> NoneMatch(SectionPatterns(t), o)
  {
    SentencePatternsWellFormed();
    SubheadingPatternsRefuse(t, SentenceTarget + "1");
    forall p, o | p in SectionPatterns(t) && ProducedBy(p, o) ensures NoneMatch(SectionPatterns(t), o) {
      if p in SentencePatterns {
        assert p.replacement == SentenceTarget && p.body == SentenceNumber;
        SentenceProduced(o);
      } else {
        SubheadingProduced(t, p, o);
      }
      SentencePatternsRefuse(o);
      SubheadingPatternsRefuse(t, o);
    }
  }

  // ---------------------------------------------------------------------
  // The vocabulary tables
  // ---------------------------------------------------------------------

  /** The lines the vocabulary replacements have: an English word heading, or a numbered subheading. */
  predicate EntryShaped(o: string) {
    (HeadingShaped(o, 2) && IsAsciiLetter(o[3])) || (HeadingShaped(o, 3) && IsDigit(o[4]))
  }

  /** Every entry has a digit and a target `### ` followed by a digit. */
  predicate NumberedTableOk(t: seq<(char, NamePattern, string)>) {
    forall i :: 0 <= i < |t| ==>
      IsDigit(t[i].0) && |t[i].2| >= 5 && t[i].2[..4] == "### " && IsDigit(t[i].2[4]) && NoLineBreak(t[i].2)
  }

  lemma NumberedTargetShaped(t: string)
    requires |t| >= 5 && t[0] == '#' && t[1] == '#' && t[2] == '#' && t[3] == ' ' && IsDigit(t[4]) && '\n' !in t
    ensures |t| >= 5 && t[..4] == "### " && IsDigit(t[4]) && NoLineBreak(t)
  {
  }

  lemma VocabSubheadingsOk()
    ensures NumberedTableOk(VocabSubheadings)
  {
    forall i | 0 <= i < |VocabSubheadings|
      ensures IsDigit(VocabSubheadings[i].0) && |VocabSubheadings[i].2| >= 5
      ensures VocabSubheadings[i].2[..4] == "### " && IsDigit(VocabSubheadings[i].2[4]) && NoLineBreak(VocabSubheadings[i].2)
    {
      NumberedTargetShaped(VocabSubheadings[i].2);
    }
  }

  lemma WordPatternsRefuse(o: string)
    requires EntryShaped(o)
    ensures forall p :: p in WordPatterns ==> WellFormedPattern(p)
    ensures NoneMatch(WordPatterns, o)
  {
    forall p | p in WordPatterns ensures WellFormedPattern(p) && Capture(p, o).None? {
      if HeadingShaped(o, 2) && IsAsciiLetter(o[3]) {
        PatternOnHeading(p, o, 2);
      } else {
        PatternOnHeading(p, o, 3);
      }
    }
  }

  lemma {:induction false} NumberedPatternsRefuse(t: seq<(char, NamePattern, string)>, o: string)
    requires NumberedTableOk(t) && EntryShaped(o)
    ensures forall p :: p in NumberedTablePatterns(t) ==> WellFormedPattern(p)
    ensures NoneMatch(NumberedTablePatterns(t), o)
    decreases |t|
  {
    if |t| > 0 {
      forall p | p in NumberedPatterns(t[0].0, t[0].1, t[0].2) ensures WellFormedPattern(p) && Capture(p, o).None? {
        if HeadingShaped(o, 2) && IsAsciiLetter(o[3]) {
          PatternOnHeading(p, o, 2);
        } else {
          PatternOnHeading(p, o, 3);
        }
      }
      NumberedPatternsRefuse(t[1..], o);
    }
  }

  lemma WordProduced(p: Pattern, o: string)
    requires p in WordPatterns && ProducedBy(p, o)
    ensures EntryShaped(o)
  {
    assert o[..3] == "## ";
    assert o[0] == '#' && o[1] == '#' && o[2] == ' ';
    assert o[3..][0] == o[3];
  }

  lemma {:induction false} NumberedProduced(t: seq<(char, NamePattern, string)>, p: Pattern, o: string)
    requires NumberedTableOk(t) && p in NumberedTablePatterns(t) && ProducedBy(p, o)
    ensures EntryShaped(o)
    decreases |t|
  {
    if p in NumberedPatterns(t[0].0, t[0].1, t[0].2) {
      var target := t[0].2;
      assert o[..|p.replacement|] == p.replacement && o[|p.replacement|..] == "";
      assert o == target;
      assert o[..4] == "### ";
      assert o[0] == '#' && o[1] == '#' && o[2] == '#' && o[3] == ' ';
    } else {
      NumberedProduced(t[1..], p, o);
    }
  }

  /** The patterns `normalize_vocabulary_output` applies, in order. */
  function EntryPatterns(t: seq<(char, NamePattern, string)>): seq<Pattern> {
    WordPatterns + NumberedTablePatterns(t)
  }

  /** No replacement of the vocabulary normaliser matches any of its patterns again. */
  lemma EntryPatternsInert(t: seq<(char, NamePattern, string)>)
    requires NumberedTableOk(t)
    ensures forall p :: p in EntryPatterns(t) ==> WellFormedPattern(p)
    ensures forall p, o :: p in EntryPatterns(t) && ProducedBy(p, o) ==> NoneMatch(EntryPatterns(t), o)
  {
    WordPatternsRefuse("## a");
    NumberedPatternsRefuse(t, "## a");
    forall p, o | p in EntryPatterns(t) && ProducedBy(p, o) ensures NoneMatch(EntryPatterns(t), o) {
      if p in WordPatterns {
        WordProduced(p, o);
      } else {
        NumberedProduced(t, p, o);
      }
      WordPatternsRefuse(o);
      NumberedPatternsRefuse(t, o);
    }
  }

  // ---------------------------------------------------------------------
  // The normalisers
  // ---------------------------------------------------------------------

  /** `_normalize_sentence_headings`. */
  function NormalizeSentenceHeadings(c: string): string { SubAll(SentencePatterns, c) }

  /**
   * `_fix_korean_subheading`. On content of a single line it is that line
   * folded through the name's five forms, which the line lemmas below describe.
   */
  function FixKoreanSubheading(c: string, name: string, target: string): (r: string)
    ensures NoLineBreak(c) && NoLineBreak(target) ==> r == LineFold(SubheadingPatterns(name, target), c)
  {
    if NoLineBreak(c) && NoLineBreak(target) then
      SubAllOneLine(SubheadingPatterns(name, target), c);
      SubAll(SubheadingPatterns(name, target), c)
    else SubAll(SubheadingPatterns(name, target), c)
  }

  /** The loop of `_normalize_reading_subheadings` and `_normalize_grammar_subheadings` over a table. */
  function FixSubheadings(t: seq<(string, string)>, c: string): (r: string)
    ensures r == SubAll(SubheadingTablePatterns(t), c)
    decreases |t|
  {
    if |t| == 0 then c
    else
      SubAllAppend(SubheadingPatterns(t[0].0, t[0].1), SubheadingTablePatterns(t[1..]), c);
      FixSubheadings(t[1..], FixKoreanSubheading(c, t[0].0, t[0].1))
  }

  /** `_normalize_vocab_word_headings`. */
  function NormalizeVocabWordHeadings(c: string): string { SubAll(WordPatterns, c) }

  /** The loop of `_normalize_vocab_subheadings` over its table. */
  function FixNumberedSubheadings(t: seq<(char, NamePattern, string)>, c: string): (r: string)
    ensures r == SubAll(NumberedTablePatterns(t), c)
    decreases |t|
  {
    if |t| == 0 then c
    else
      SubAllAppend(NumberedPatterns(t[0].0, t[0].1, t[0].2), NumberedTablePatterns(t[1..]), c);
      FixNumberedSubheadings(t[1..], SubAll(NumberedPatterns(t[0].0, t[0].1, t[0].2), c))
  }

  /** A helper of a public normaliser: one content-to-content step. */
  type Step = string -> string

  /**
   * The helpers in order inside `try`. `raisesAt == Some(k)` stands for the
   * k-th helper raising; the handler returns `content`, which by then holds
   * the result of the helpers before it.
   */
  function Run(steps: seq<Step>, c: string, raisesAt: Option<nat>): string {
    if |steps| == 0 || raisesAt == Some(0) then c
    else Run(steps[1..], steps[0](c), if raisesAt.Some? then Some(raisesAt.value - 1) else None)
  }

  /** A helper raising returns the content as the helpers before it left it. */
  lemma {:induction false} RaisingKeepsContentSoFar(steps: seq<Step>, c: string, k: nat)
    requires k <= |steps|
    ensures Run(steps, c, Some(k)) == Run(steps[..k], c, None)
    ensures k == 0 ==> Run(steps, c, Some(k)) == c
    decreases k
  {
    if k > 0 {
      RaisingKeepsContentSoFar(steps[1..], steps[0](c), k - 1);
      assert steps[..k][1..] == steps[1..][..k - 1];
    }
  }

  const ReadingSteps: seq<Step> :=
    [NormalizeSentenceHeadings, c => FixSubheadings(ReadingSubheadings, c), EnsureHeadingBlankLinesAsWritten]
  const GrammarSteps: seq<Step> :=
    [NormalizeSentenceHeadings, c => FixSubheadings(GrammarSubheadings, c), EnsureHeadingBlankLinesAsWritten]
  const VocabularySteps: seq<Step> :=
    [NormalizeVocabWordHeadings, c => FixNumberedSubheadings(VocabSubheadings, c), EnsureHeadingBlankLinesAsWritten]

  /**
   * `normalize_reading_output`: the sentence and reading-subheading
   * substitutions as one chain, then the blank-line pass as written.
   */
  function NormalizeReadingOutput(c: string): (r: string)
    ensures r == Normalize(SectionPatterns(ReadingSubheadings), c)
  {
    RunThree(ReadingSteps[0], ReadingSteps[1], ReadingSteps[2], c);
    ReadingPatterns(c);
    Run(ReadingSteps, c, None)
  }

  /** `normalize_grammar_output`: the same chain over the grammar subheadings. */
  function NormalizeGrammarOutput(c: string): (r: string)
    ensures r == Normalize(SectionPatterns(GrammarSubheadings), c)
  {
    RunThree(GrammarSteps[0], GrammarSteps[1], GrammarSteps[2], c);
    GrammarPatterns(c);
    Run(GrammarSteps, c, None)
  }

  /** `normalize_vocabulary_output`: the word and numbered substitutions, then the blank-line pass as written. */
  function NormalizeVocabularyOutput(c: string): (r: string)
    ensures r == Normalize(EntryPatterns(VocabSubheadings), c)
  {
    RunThree(VocabularySteps[0], VocabularySteps[1], VocabularySteps[2], c);
    VocabularyPatterns(c);
    Run(VocabularySteps, c, None)
  }

  lemma RunThree(s1: Step, s2: Step, s3: Step, c: string)
    ensures Run([s1, s2, s3], c, None) == s3(s2(s1(c)))
  {
    assert [s1, s2, s3][1..] == [s2, s3] && [s2, s3][1..] == [s3] && [s3][1..] == [];
    assert Run([s3], s2(s1(c)), None) == Run([], s3(s2(s1(c))), None);
    assert Run([s2, s3], s1(c), None) == Run([s3], s2(s1(c)), None);
  }

  /** The substitutions of the reading normaliser's first two helpers, as one chain. */
  lemma ReadingPatterns(c: string)
    ensures FixSubheadings(ReadingSubheadings, NormalizeSentenceHeadings(c)) == SubAll(SectionPatterns(ReadingSubheadings), c)
  {
    SubAllAppend(SentencePatterns, SubheadingTablePatterns(ReadingSubheadings), c);
  }

  lemma GrammarPatterns(c: string)
    ensures FixSubheadings(GrammarSubheadings, NormalizeSentenceHeadings(c)) == SubAll(SectionPatterns(GrammarSubheadings), c)
  {
    SubAllAppend(SentencePatterns, SubheadingTablePatterns(GrammarSubheadings), c);
  }

  lemma VocabularyPatterns(c: string)
    ensures FixNumberedSubheadings(VocabSubheadings, NormalizeVocabWordHeadings(c)) == SubAll(EntryPatterns(VocabSubheadings), c)
  {
    SubAllAppend(WordPatterns, NumberedTablePatterns(VocabSubheadings), c);
  }

  /**
   * `normalize_reading_output` on a sentence heading directly followed by two
   * subheadings (say "### 문장 1", "#### 단위별 해석", "#### 자연스러운 해석"):
   * only the first heading gets its blank line, the second subheading gets its
   * own only on a second run.
   */
  lemma NormalizeReadingOutputNotIdempotent(i: nat, j: nat, c: string)
    requires i < |ReadingSubheadings| && j < |ReadingSubheadings|
    requires c == JoinLines(["### 문장 1", ReadingSubheadings[i].1, ReadingSubheadings[j].1])
    ensures NormalizeReadingOutput(c) == JoinLines(["### 문장 1", "", ReadingSubheadings[i].1, ReadingSubheadings[j].1])
    ensures NormalizeReadingOutput(NormalizeReadingOutput(c)) != NormalizeReadingOutput(c)
  {
    SubheadingTablesOk();
    SectionLayoutNotIdempotent(ReadingSubheadings, i, j);
  }

  /** `normalize_grammar_output` on the same layout is not idempotent either. */
  lemma NormalizeGrammarOutputNotIdempotent(i: nat, j: nat, c: string)
    requires i < |GrammarSubheadings| && j < |GrammarSubheadings|
    requires c == JoinLines(["### 문장 1", GrammarSubheadings[i].1, GrammarSubheadings[j].1])
    ensures NormalizeGrammarOutput(c) == JoinLines(["### 문장 1", "", GrammarSubheadings[i].1, GrammarSubheadings[j].1])
    ensures NormalizeGrammarOutput(NormalizeGrammarOutput(c)) != NormalizeGrammarOutput(c)
  {
    SubheadingTablesOk();
    SectionLayoutNotIdempotent(GrammarSubheadings, i, j);
  }

  /**
   * `normalize_vocabulary_output` on a word heading directly followed by two
   * numbered subheadings (say "## apple", "### 1. 기본 뜻", "### 2. 문장 속 의미").
   */
  lemma NormalizeVocabularyOutputNotIdempotent(w: string, i: nat, j: nat, c: string)
    requires |w| > 0 && IsAsciiLetter(w[0]) && NoLineBreak(w)
    requires i < |VocabSubheadings| && j < |VocabSubheadings|
    requires c == JoinLines(["## " + w, VocabSubheadings[i].2, VocabSubheadings[j].2])
    ensures NormalizeVocabularyOutput(c) == JoinLines(["## " + w, "", VocabSubheadings[i].2, VocabSubheadings[j].2])
    ensures NormalizeVocabularyOutput(NormalizeVocabularyOutput(c)) != NormalizeVocabularyOutput(c)
  {
    EntryLayoutNotIdempotent(w, i, j);
  }

  /** The section layout above, at the level of `Normalize`. */
  lemma SectionLayoutNotIdempotent(t: seq<(string, string)>, i: nat, j: nat)
    requires SubheadingTableOk(t) && i < |t| && j < |t|
    ensures Normalize(SectionPatterns(t), JoinLines(["### 문장 1", t[i].1, t[j].1])) == JoinLines(["### 문장 1", "", t[i].1, t[j].1])
    ensures Normalize(SectionPatterns(t), JoinLines(["### 문장 1", "", t[i].1, t[j].1])) != JoinLines(["### 문장 1", "", t[i].1, t[j].1])
  {
    SectionLinesInert(t, i, j);
    AsWrittenNotIdempotent(SectionPatterns(t), "### 문장 1", t[i].1, t[j].1, 3);
  }

  /** The entry layout above, at the level of `Normalize`. */
  lemma EntryLayoutNotIdempotent(w: string, i: nat, j: nat)
    requires |w| > 0 && IsAsciiLetter(w[0]) && NoLineBreak(w)
    requires i < |VocabSubheadings| && j < |VocabSubheadings|
    ensures Normalize(EntryPatterns(VocabSubheadings), JoinLines(["## " + w, VocabSubheadings[i].2, VocabSubheadings[j].2]))
         == JoinLines(["## " + w, "", VocabSubheadings[i].2, VocabSubheadings[j].2])
    ensures Normalize(EntryPatterns(VocabSubheadings), JoinLines(["## " + w, "", VocabSubheadings[i].2, VocabSubheadings[j].2]))
         != JoinLines(["## " + w, "", VocabSubheadings[i].2, VocabSubheadings[j].2])
  {
    EntryLinesInert(w, i, j);
    AsWrittenNotIdempotent(EntryPatterns(VocabSubheadings), "## " + w, VocabSubheadings[i].2, VocabSubheadings[j].2, 2);
  }

  lemma SectionLinesInert(t: seq<(string, string)>, i: nat, j: nat)
    requires SubheadingTableOk(t) && i < |t| && j < |t|
    ensures forall p :: p in SectionPatterns(t) ==> WellFormedPattern(p)
    ensures HeadingShaped("### 문장 1", 3) && HeadingShaped(t[i].1, 4) && t[j].1 != ""
    ensures NoLineBreak("### 문장 1") && NoLineBreak(t[i].1) && NoLineBreak(t[j].1)
    ensures NoneMatch(SectionPatterns(t), "### 문장 1")
    ensures NoneMatch(SectionPatterns(t), t[i].1) && NoneMatch(SectionPatterns(t), t[j].1)
  {
    SectionPatternsInert(t);
    var a := "### 문장 1";
    assert a[4..][..2] == "문장";
    assert t[i].1[5..] == t[i].0 && t[j].1[5..] == t[j].0;
    forall o | o in [a, t[i].1, t[j].1] ensures SectionShaped(o) && NoneMatch(SectionPatterns(t), o) {
      SentencePatternsRefuse(o);
      SubheadingPatternsRefuse(t, o);
    }
  }

  /** A numbered subheading of the vocabulary table is an entry line. */
  lemma NumberedTargetEntryShaped(t: seq<(char, NamePattern, string)>, i: nat)
    requires NumberedTableOk(t) && i < |t|
    ensures EntryShaped(t[i].2) && HeadingShaped(t[i].2, 3) && NoLineBreak(t[i].2)
  {
    var b := t[i].2;
    assert b[..4] == "### ";
    assert b[0] == b[..4][0] && b[1] == b[..4][1] && b[2] == b[..4][2] && b[3] == b[..4][3];
  }

  lemma EntryLinesInert(w: string, i: nat, j: nat)
    requires |w| > 0 && IsAsciiLetter(w[0]) && NoLineBreak(w)
    requires i < |VocabSubheadings| && j < |VocabSubheadings|
    ensures forall p :: p in EntryPatterns(VocabSubheadings) ==> WellFormedPattern(p)
    ensures HeadingShaped("## " + w, 2) && HeadingShaped(VocabSubheadings[i].2, 3) && VocabSubheadings[j].2 != ""
    ensures NoLineBreak("## " + w) && NoLineBreak(VocabSubheadings[i].2) && NoLineBreak(VocabSubheadings[j].2)
    ensures NoneMatch(EntryPatterns(VocabSubheadings), "## " + w)
    ensures NoneMatch(EntryPatterns(VocabSubheadings), VocabSubheadings[i].2)
    ensures NoneMatch(EntryPatterns(VocabSubheadings), VocabSubheadings[j].2)
  {
    VocabSubheadingsOk();
    EntryPatternsInert(VocabSubheadings);
    NumberedTargetEntryShaped(VocabSubheadings, i);
    NumberedTargetEntryShaped(VocabSubheadings, j);
    var a := "## " + w;
    assert EntryShaped(a);
    forall o | o in [a, VocabSubheadings[i].2, VocabSubheadings[j].2]
      ensures NoneMatch(EntryPatterns(VocabSubheadings), o)
    {
      WordPatternsRefuse(o);
      NumberedPatternsRefuse(VocabSubheadings, o);
    }
  }

  /**
   * The three normalisers with the corrected blank-line pass in place of the
   * regex as written (the corrected half of the blank-line finding).
   */
  function NormalizeReadingOutputIntended(c: string): string {
    EnsureHeadingBlankLines(FixSubheadings(ReadingSubheadings, NormalizeSentenceHeadings(c)))
  }

  function NormalizeGrammarOutputIntended(c: string): string {
    EnsureHeadingBlankLines(FixSubheadings(GrammarSubheadings, NormalizeSentenceHeadings(c)))
  }

  function NormalizeVocabularyOutputIntended(c: string): string {
    EnsureHeadingBlankLines(FixNumberedSubheadings(VocabSubheadings, NormalizeVocabWordHeadings(c)))
  }

  /** With the corrected pass, normalising reading output twice is normalising it once. */
  lemma NormalizeReadingOutputIntendedIdempotent(c: string)
    ensures NormalizeReadingOutputIntended(NormalizeReadingOutputIntended(c)) == NormalizeReadingOutputIntended(c)
  {
    SubheadingTablesOk();
    SectionPatternsInert(ReadingSubheadings);
    ReadingPatterns(c);
    ReadingPatterns(NormalizeReadingOutputIntended(c));
    NormalizeIntendedIdempotent(SectionPatterns(ReadingSubheadings), c);
  }

  /** With the corrected pass, normalising grammar output twice is normalising it once. */
  lemma NormalizeGrammarOutputIntendedIdempotent(c: string)
    ensures NormalizeGrammarOutputIntended(NormalizeGrammarOutputIntended(c)) == NormalizeGrammarOutputIntended(c)
  {
    SubheadingTablesOk();
    SectionPatternsInert(GrammarSubheadings);
    GrammarPatterns(c);
    GrammarPatterns(NormalizeGrammarOutputIntended(c));
    NormalizeIntendedIdempotent(SectionPatterns(GrammarSubheadings), c);
  }

  /** With the corrected pass, normalising vocabulary output twice is normalising it once. */
  lemma NormalizeVocabularyOutputIntendedIdempotent(c: string)
    ensures NormalizeVocabularyOutputIntended(NormalizeVocabularyOutputIntended(c)) == NormalizeVocabularyOutputIntended(c)
  {
    VocabSubheadingsOk();
    EntryPatternsInert(VocabSubheadings);
    VocabularyPatterns(c);
    VocabularyPatterns(NormalizeVocabularyOutputIntended(c));
    NormalizeIntendedIdempotent(EntryPatterns(VocabSubheadings), c);
  }

  // ---------------------------------------------------------------------
  // What happens to one heading line
  // ---------------------------------------------------------------------

  /** The line one line becomes under a sequence of substitutions. */
  function LineFold(ps: seq<Pattern>, l: string): string {
    if |ps| == 0 then l
    else LineFold(ps[1..], if Capture(ps[0], l).Some? then Target(ps[0], l) else l)
  }

  /**
   * A line followed by lines no pattern matches, the first of them not blank,
   * ends as `LineFold` says and the lines after it are kept.
   */
  lemma {:induction false} SubAllLinesHeadLine(ps: seq<Pattern>, l: string, rest: seq<string>)
    requires forall k :: 0 <= k < |rest| ==> NoneMatch(ps, rest[k])
    requires rest == [] || !AllSpace(rest[0])
    ensures SubAllLines(ps, [l] + rest) == [LineFold(ps, l)] + rest
    decreases |ps|
  {
    if |ps| > 0 {
      var p := ps[0];
      assert ([l] + rest)[1..] == rest;
      SubLinesUnmatched(p, rest);
      var l' := if Capture(p, l).Some? then Target(p, l) else l;
      assert SubLines(p, [l] + rest) == [l'] + rest;
      assert forall k :: 0 <= k < |rest| ==> NoneMatch(ps[1..], rest[k]);
      SubAllLinesHeadLine(ps[1..], l', rest);
    }
  }

  /** On one line, a chain of substitutions is that line's fold. */
  lemma SubAllOneLine(ps: seq<Pattern>, l: string)
    requires NoLineBreak(l) && forall i :: 0 <= i < |ps| ==> NoLineBreak(ps[i].replacement)
    ensures SubAll(ps, l) == LineFold(ps, l)
  {
    assert JoinLines([l]) == l;
    assert NoLineBreaks([l]);
    SubAllAsLines(ps, [l]);
    assert [l] + [] == [l];
    SubAllLinesHeadLine(ps, l, []);
    assert JoinLines([LineFold(ps, l)]) == LineFold(ps, l);
  }

  lemma {:induction false} FoldUnmatched(ps: seq<Pattern>, l: string)
    requires NoneMatch(ps, l)
    ensures LineFold(ps, l) == l
    decreases |ps|
  {
    if |ps| > 0 {
      assert ps[0] in ps;
      FoldUnmatched(ps[1..], l);
    }
  }

  /** The first pattern that matches rewrites the line; the patterns after it see the replacement. */
  lemma {:induction false} FoldFirstMatch(ps: seq<Pattern>, k: nat, l: string)
    requires k < |ps|
    requires forall j :: 0 <= j < k ==> Capture(ps[j], l).None?
    requires Capture(ps[k], l).Some?
    ensures LineFold(ps, l) == LineFold(ps[k + 1..], Target(ps[k], l))
    decreases k
  {
    if k > 0 {
      FoldFirstMatch(ps[1..], k - 1, l);
      assert ps[1..][k..] == ps[k + 1..];
    }
  }

  /** A replacement no pattern matches is the line's final value. */
  lemma FoldFirstMatchFinal(ps: seq<Pattern>, k: nat, l: string)
    requires k < |ps|
    requires forall j :: 0 <= j < k ==> Capture(ps[j], l).None?
    requires Capture(ps[k], l).Some? && NoneMatch(ps, Target(ps[k], l))
    ensures LineFold(ps, l) == Target(ps[k], l)
  {
    FoldFirstMatch(ps, k, l);
    assert forall p :: p in ps[k + 1..] ==> p in ps;
    FoldUnmatched(ps[k + 1..], Target(ps[k], l));
  }

  lemma {:induction false} DigitRunPrefix(d: string, rest: string)
    requires forall i :: 0 <= i < |d| ==> IsDigit(d[i])
    requires rest == [] || !IsDigit(rest[0])
    ensures DigitRun(d + rest) == |d|
    decreases |d|
  {
    if |d| > 0 {
      assert (d + rest)[1..] == d[1..] + rest;
      DigitRunPrefix(d[1..], rest);
    }
  }

  predicate AllDigits(d: string) { |d| > 0 && forall i :: 0 <= i < |d| ==> IsDigit(d[i]) }

  lemma SentenceBody(d: string, tail: string, t: Tail)
    requires AllDigits(d)
    requires tail == [] || !IsDigit(tail[0])
    ensures BodyCapture(SentenceNumber, t, "문장 " + d + tail) == (if TailMatches(t, tail) then Some(d) else None)
  {
    var s := "문장 " + d + tail;
    assert s[..2] == "문장";
    assert s[2..] == " " + (d + tail);
    assert (" " + (d + tail))[1..] == d + tail;
    assert (d + tail)[0] == d[0];
    DigitRunPrefix(d, tail);
    assert (d + tail)[..|d|] == d && (d + tail)[|d|..] == tail;
  }

  lemma SentenceTargetInert(d: string)
    requires AllDigits(d)
    ensures NoneMatch(SentencePatterns, SentenceTarget + d)
  {
    var o := SentenceTarget + d;
    assert o[..|SentenceTarget|] == SentenceTarget && o[|SentenceTarget|..] == d;
    SentenceProduced(o);
    SentencePatternsRefuse(o);
  }

  predicate IsHashes(h: string) { forall i :: 0 <= i < |h| ==> h[i] == '#' }

  /** A run of `#`, a space and text is heading-shaped. */
  lemma HeadingShapedOf(h: string, text: string)
    requires |h| >= 1 && IsHashes(h)
    requires |text| > 0 && !IsLineSpace(text[0]) && text[0] != '#'
    ensures HeadingShaped(h + " " + text, |h|) && (h + " " + text)[|h| + 1..] == text
  {
    var o := h + " " + text;
    assert forall i :: 0 <= i < |h| ==> o[i] == h[i];
    assert o[|h|] == ' ' && o[|h| + 1] == text[0];
  }

  /** A pattern on a line of `#`, a space and a text. */
  lemma PatternOnHashes(p: Pattern, h: string, text: string)
    requires WellFormedPattern(p) && |h| >= 1 && IsHashes(h)
    requires |text| > 0 && !IsLineSpace(text[0]) && text[0] != '#'
    ensures Capture(p, h + " " + text)
      == (if p.lead.HashLead? && p.lead.lo <= |h| <= p.lead.hi then BodyCapture(p.body, p.tail, text) else None)
  {
    HeadingShapedOf(h, text);
    PatternOnHeading(p, h + " " + text, |h|);
  }

  /** The bold form `**…**` or `**…**:` is captured by the first pattern of its family. */
  lemma FormsBold(body: Body, target: string, shallow: Lead, deep: Lead, x: string, cap: string)
    requires BodyCapture(body, BoldTail, x) == Some(cap)
    ensures Capture(Forms(body, target, shallow, deep)[0], "**" + x) == Some(cap)
  {
    var l := "**" + x;
    assert l[..2] == "**" && l[2..] == x;
  }

  /** The plain form with a colon is captured by the second pattern and not the first. */
  lemma FormsColon(body: Body, target: string, shallow: Lead, deep: Lead, l: string, cap: string)
    requires !StartsWith(l, "**") && BodyCapture(body, ColonTail, l) == Some(cap)
    ensures var ps := Forms(body, target, shallow, deep);
      Capture(ps[0], l).None? && Capture(ps[1], l) == Some(cap)
  {
    var ps := Forms(body, target, shallow, deep);
    assert ps[0] == Pattern(BoldLead, body, BoldTail, target);
    assert AfterLead(BoldLead, l) == None;
    assert ps[1] == Pattern(PlainLead, body, ColonTail, target);
    assert AfterLead(PlainLead, l) == Some(l);
  }

  /** The plain form without a colon is captured by the third pattern and neither before it. */
  lemma FormsPlain(body: Body, target: string, shallow: Lead, deep: Lead, l: string, cap: string)
    requires !StartsWith(l, "**") && BodyCapture(body, ColonTail, l).None? && BodyCapture(body, EndTail, l) == Some(cap)
    ensures var ps := Forms(body, target, shallow, deep);
      Capture(ps[0], l).None? && Capture(ps[1], l).None? && Capture(ps[2], l) == Some(cap)
  {
    var ps := Forms(body, target, shallow, deep);
    assert ps[0] == Pattern(BoldLead, body, BoldTail, target);
    assert AfterLead(BoldLead, l) == None;
    assert AfterLead(PlainLead, l) == Some(l);
    assert ps[1] == Pattern(PlainLead, body, ColonTail, target);
    assert ps[2] == Pattern(PlainLead, body, EndTail, target);
  }

  /** The three forms without `#` refuse a heading line. */
  lemma FormsRefuseHeading(body: Body, target: string, shallow: Lead, deep: Lead, h: string, text: string)
    requires BodyAvoidsHash(body) && NoLineBreak(target)
    requires |h| >= 1 && IsHashes(h) && |text| > 0 && !IsLineSpace(text[0]) && text[0] != '#'
    ensures var ps := Forms(body, target, shallow, deep);
      Capture(ps[0], h + " " + text).None? && Capture(ps[1], h + " " + text).None?
      && Capture(ps[2], h + " " + text).None?
  {
    var ps := Forms(body, target, shallow, deep);
    PatternOnHashes(ps[0], h, text);
    PatternOnHashes(ps[1], h, text);
    PatternOnHashes(ps[2], h, text);
  }

  /** A heading at a level of the shallow wrong range is captured by the fourth pattern. */
  lemma FormsShallow(body: Body, target: string, lo: nat, hi: nat, deep: Lead, h: string, text: string, cap: string)
    requires BodyAvoidsHash(body) && 1 <= lo && NoLineBreak(target)
    requires lo <= |h| <= hi && IsHashes(h) && |text| > 0 && !IsLineSpace(text[0]) && text[0] != '#'
    requires BodyCapture(body, EndTail, text) == Some(cap)
    ensures Capture(Forms(body, target, HashLead(lo, hi), deep)[3], h + " " + text) == Some(cap)
  {
    PatternOnHashes(Pattern(HashLead(lo, hi), body, EndTail, target), h, text);
  }

  /** A heading at a level of the deep wrong range, outside the shallow one, is captured by the fifth pattern. */
  lemma FormsDeep(body: Body, target: string, lo1: nat, hi1: nat, lo2: nat, hi2: nat, h: string, text: string, cap: string)
    requires BodyAvoidsHash(body) && 1 <= lo1 && 1 <= lo2 && NoLineBreak(target)
    requires !(lo1 <= |h| <= hi1) && lo2 <= |h| <= hi2
    requires IsHashes(h) && |text| > 0 && !IsLineSpace(text[0]) && text[0] != '#'
    requires BodyCapture(body, EndTail, text) == Some(cap)
    ensures var ps := Forms(body, target, HashLead(lo1, hi1), HashLead(lo2, hi2));
      Capture(ps[3], h + " " + text).None? && Capture(ps[4], h + " " + text) == Some(cap)
  {
    PatternOnHashes(Pattern(HashLead(lo1, hi1), body, EndTail, target), h, text);
    PatternOnHashes(Pattern(HashLead(lo2, hi2), body, EndTail, target), h, text);
  }

  /** The patterns after any position leave a sentence target as it is. */
  lemma SentenceTargetRest(k: nat, d: string)
    requires k <= 5 && AllDigits(d)
    ensures LineFold(SentencePatterns[k..], SentenceTarget + d) == SentenceTarget + d
  {
    SentenceTargetInert(d);
    assert forall p :: p in SentencePatterns[k..] ==> p in SentencePatterns;
    FoldUnmatched(SentencePatterns[k..], SentenceTarget + d);
  }

  /** A line the `k`-th sentence pattern is the first to capture becomes `### 문장 N`. */
  lemma SentenceLine(l: string, k: nat, d: string)
    requires k < 5 && AllDigits(d)
    requires forall j :: 0 <= j < k ==> Capture(SentencePatterns[j], l).None?
    requires Capture(SentencePatterns[k], l).Some? && Target(SentencePatterns[k], l) == SentenceTarget + d
    ensures LineFold(SentencePatterns, l) == SentenceTarget + d
  {
    FoldFirstMatch(SentencePatterns, k, l);
    SentenceTargetRest(k + 1, d);
  }

  lemma SentenceBoldFacts(x: string, d: string)
    requires BodyCapture(SentenceNumber, BoldTail, x) == Some(d)
    ensures Capture(SentencePatterns[0], "**" + x).Some?
    ensures Target(SentencePatterns[0], "**" + x) == SentenceTarget + d
  {
    FormsBold(SentenceNumber, SentenceTarget, HashLead(1, 2), HashLead(4, 6), x, d);
  }

  lemma SentenceBoldLine(x: string, d: string)
    requires AllDigits(d) && BodyCapture(SentenceNumber, BoldTail, x) == Some(d)
    ensures LineFold(SentencePatterns, "**" + x) == SentenceTarget + d
  {
    SentenceBoldFacts(x, d);
    SentenceLine("**" + x, 0, d);
  }

  /** `**문장 N**` and `**문장 N**:` become `### 문장 N`. */
  lemma BoldSentenceHeading(d: string, tail: string)
    requires AllDigits(d) && (tail == "**" || tail == "**:")
    ensures LineFold(SentencePatterns, "**" + ("문장 " + d + tail)) == SentenceTarget + d
  {
    SentenceBody(d, tail, BoldTail);
    SentenceBoldLine("문장 " + d + tail, d);
  }

  lemma SentenceColonCapture(d: string)
    requires AllDigits(d)
    ensures !StartsWith("문장 " + d + ":", "**")
    ensures BodyCapture(SentenceNumber, ColonTail, "문장 " + d + ":") == Some(d)
  {
    NotStartsWith("문장 " + d + ":", "**");
    assert SpaceRun(":") == 0;
    SentenceBody(d, ":", ColonTail);
  }

  lemma SentenceColonFacts(l: string, d: string)
    requires !StartsWith(l, "**") && BodyCapture(SentenceNumber, ColonTail, l) == Some(d)
    ensures forall j :: 0 <= j < 1 ==> Capture(SentencePatterns[j], l).None?
    ensures Capture(SentencePatterns[1], l).Some? && Target(SentencePatterns[1], l) == SentenceTarget + d
  {
    FormsColon(SentenceNumber, SentenceTarget, HashLead(1, 2), HashLead(4, 6), l, d);
  }

  lemma SentenceColonLine(l: string, d: string)
    requires AllDigits(d) && !StartsWith(l, "**") && BodyCapture(SentenceNumber, ColonTail, l) == Some(d)
    ensures LineFold(SentencePatterns, l) == SentenceTarget + d
  {
    SentenceColonFacts(l, d);
    SentenceLine(l, 1, d);
  }

  /** `문장 N:` becomes `### 문장 N`. */
  lemma PlainSentenceHeadingColon(d: string)
    requires AllDigits(d)
    ensures LineFold(SentencePatterns, "문장 " + d + ":") == SentenceTarget + d
  {
    SentenceColonCapture(d);
    SentenceColonLine("문장 " + d + ":", d);
  }

  lemma SentencePlainCapture(d: string)
    requires AllDigits(d)
    ensures !StartsWith("문장 " + d, "**")
    ensures BodyCapture(SentenceNumber, ColonTail, "문장 " + d).None?
    ensures BodyCapture(SentenceNumber, EndTail, "문장 " + d) == Some(d)
  {
    var l := "문장 " + d;
    assert l == "문장 " + d + "";
    NotStartsWith(l, "**");
    SentenceBody(d, "", ColonTail);
    SentenceBody(d, "", EndTail);
  }

  lemma SentencePlainFacts(l: string, d: string)
    requires !StartsWith(l, "**") && BodyCapture(SentenceNumber, ColonTail, l).None?
    requires BodyCapture(SentenceNumber, EndTail, l) == Some(d)
    ensures forall j :: 0 <= j < 2 ==> Capture(SentencePatterns[j], l).None?
    ensures Capture(SentencePatterns[2], l).Some? && Target(SentencePatterns[2], l) == SentenceTarget + d
  {
    var ps := SentencePatterns;
    FormsPlain(SentenceNumber, SentenceTarget, HashLead(1, 2), HashLead(4, 6), l, d);
    forall j | 0 <= j < 2 ensures Capture(ps[j], l).None? {
      if j == 1 {
        assert Capture(ps[1], l).None?;
      }
    }
    SentenceTargetOf(ps[2], l, d);
  }

  lemma SentenceTargetOf(p: Pattern, l: string, d: string)
    requires p == SentencePatterns[2] && Capture(p, l) == Some(d)
    ensures Target(p, l) == SentenceTarget + d
  {
    assert p.replacement == SentenceTarget;
  }

  lemma SentencePlainLine(l: string, d: string)
    requires AllDigits(d) && !StartsWith(l, "**") && BodyCapture(SentenceNumber, ColonTail, l).None?
    requires BodyCapture(SentenceNumber, EndTail, l) == Some(d)
    ensures LineFold(SentencePatterns, l) == SentenceTarget + d
  {
    SentencePlainFacts(l, d);
    SentenceLine(l, 2, d);
  }

  /** `문장 N` alone on its line becomes `### 문장 N`. */
  lemma PlainSentenceHeading(d: string)
    requires AllDigits(d)
    ensures LineFold(SentencePatterns, "문장 " + d) == SentenceTarget + d
  {
    SentencePlainCapture(d);
    SentencePlainLine("문장 " + d, d);
  }

  lemma SentenceTextCapture(d: string)
    requires AllDigits(d)
    ensures var text := "문장 " + d;
      |text| > 0 && !IsLineSpace(text[0]) && text[0] != '#' && BodyCapture(SentenceNumber, EndTail, text) == Some(d)
  {
    var text := "문장 " + d;
    assert text == "문장 " + d + "";
    SentenceBody(d, "", EndTail);
  }

  lemma SentenceHeadingCaptures(h: string, text: string, d: string)
    requires 1 <= |h| <= 6 && |h| != 3 && IsHashes(h) && |text| > 0 && !IsLineSpace(text[0]) && text[0] != '#'
    requires BodyCapture(SentenceNumber, EndTail, text) == Some(d)
    ensures var l := h + " " + text;
      Capture(SentencePatterns[0], l).None? && Capture(SentencePatterns[1], l).None? && Capture(SentencePatterns[2], l).None?
    ensures var l := h + " " + text;
      if |h| <= 2 then Capture(SentencePatterns[3], l) == Some(d)
      else Capture(SentencePatterns[3], l).None? && Capture(SentencePatterns[4], l) == Some(d)
  {
    FormsRefuseHeading(SentenceNumber, SentenceTarget, HashLead(1, 2), HashLead(4, 6), h, text);
    if |h| <= 2 {
      FormsShallow(SentenceNumber, SentenceTarget, 1, 2, HashLead(4, 6), h, text, d);
    } else {
      FormsDeep(SentenceNumber, SentenceTarget, 1, 2, 4, 6, h, text, d);
    }
  }

  lemma SentenceShallowFacts(l: string, d: string)
    requires Capture(SentencePatterns[0], l).None? && Capture(SentencePatterns[1], l).None? && Capture(SentencePatterns[2], l).None?
    requires Capture(SentencePatterns[3], l) == Some(d)
    ensures forall j :: 0 <= j < 3 ==> Capture(SentencePatterns[j], l).None?
    ensures Capture(SentencePatterns[3], l).Some? && Target(SentencePatterns[3], l) == SentenceTarget + d
  {
    forall j | 0 <= j < 3 ensures Capture(SentencePatterns[j], l).None? {
      if j == 0 {} else if j == 1 {} else {}
    }
  }

  lemma SentenceDeepFacts(l: string, d: string)
    requires Capture(SentencePatterns[0], l).None? && Capture(SentencePatterns[1], l).None? && Capture(SentencePatterns[2], l).None?
    requires Capture(SentencePatterns[3], l).None? && Capture(SentencePatterns[4], l) == Some(d)
    ensures forall j :: 0 <= j < 4 ==> Capture(SentencePatterns[j], l).None?
    ensures Capture(SentencePatterns[4], l).Some? && Target(SentencePatterns[4], l) == SentenceTarget + d
  {
    forall j | 0 <= j < 4 ensures Capture(SentencePatterns[j], l).None? {
      if j == 0 {} else if j == 1 {} else if j == 2 {} else {}
    }
  }


  lemma SentenceLevelLine(h: string, text: string, d: string)
    requires 1 <= |h| <= 6 && |h| != 3 && IsHashes(h) && AllDigits(d)
    requires |text| > 0 && !IsLineSpace(text[0]) && text[0] != '#'
    requires BodyCapture(SentenceNumber, EndTail, text) == Some(d)
    ensures LineFold(SentencePatterns, h + " " + text) == SentenceTarget + d
  {
    SentenceHeadingCaptures(h, text, d);
    if |h| <= 2 {
      SentenceShallowFacts(h + " " + text, d);
      SentenceLine(h + " " + text, 3, d);
    } else {
      SentenceDeepFacts(h + " " + text, d);
      SentenceLine(h + " " + text, 4, d);
    }
  }

  /** A sentence heading at any level but 3 becomes `### 문장 N`. */
  lemma SentenceHeadingLevel(h: string, d: string)
    requires 1 <= |h| <= 6 && |h| != 3 && IsHashes(h) && AllDigits(d)
    ensures LineFold(SentencePatterns, h + " " + ("문장 " + d)) == SentenceTarget + d
  {
    SentenceTextCapture(d);
    SentenceLevelLine(h, "문장 " + d, d);
  }

  /** A sentence heading already in the target form is kept. */
  lemma SentenceHeadingKept(d: string)
    requires AllDigits(d)
    ensures LineFold(SentencePatterns, SentenceTarget + d) == SentenceTarget + d
  {
    SentenceTargetInert(d);
    FoldUnmatched(SentencePatterns, SentenceTarget + d);
  }
  // What `_fix_korean_subheading(content, name, "#### " + name)` does to one line

  /** The level-4 heading of a name is a target none of the name's patterns match. */
  lemma SubheadingTargetInert(name: string)
    requires GoodName(name)
    ensures NoneMatch(SubheadingPatterns(name, "#### " + name), "#### " + name)
  {
    var o := "#### " + name;
    assert o[5..] == name && o[5] == name[0];
    assert HeadingShaped(o, 4);
    assert SectionShaped(o);
    var t := [(name, o)];
    assert SubheadingTableOk(t);
    assert SubheadingTablePatterns(t) == SubheadingPatterns(name, o) + SubheadingTablePatterns([]);
    SubheadingPatternsRefuse(t, o);
  }

  lemma SubheadingTargetRest(name: string, k: nat)
    requires GoodName(name) && k <= 5
    ensures LineFold(SubheadingPatterns(name, "#### " + name)[k..], "#### " + name) == "#### " + name
  {
    var ps := SubheadingPatterns(name, "#### " + name);
    SubheadingTargetInert(name);
    assert forall p :: p in ps[k..] ==> p in ps;
    FoldUnmatched(ps[k..], "#### " + name);
  }

  /** A line the `k`-th pattern of a name is the first to capture becomes `#### name`. */
  lemma SubheadingLine(name: string, l: string, k: nat)
    requires GoodName(name) && k < 5
    requires forall j :: 0 <= j < k ==> Capture(SubheadingPatterns(name, "#### " + name)[j], l).None?
    requires Capture(SubheadingPatterns(name, "#### " + name)[k], l).Some?
    requires Target(SubheadingPatterns(name, "#### " + name)[k], l) == "#### " + name
    ensures LineFold(SubheadingPatterns(name, "#### " + name), l) == "#### " + name
  {
    FoldFirstMatch(SubheadingPatterns(name, "#### " + name), k, l);
    SubheadingTargetRest(name, k + 1);
  }

  /** The name followed by a tail is captured, with an empty group, exactly when the tail matches. */
  lemma NameCapture(name: string, tail: string, t: Tail)
    ensures BodyCapture(Name(Exact(name)), t, name + tail) == (if TailMatches(t, tail) then Some("") else None)
  {
    assert (name + tail)[..|name|] == name && (name + tail)[|name|..] == tail;
  }

  lemma NameStartsPlain(name: string, tail: string)
    requires GoodName(name)
    ensures !StartsWith(name + tail, "**")
  {
    assert (name + tail)[0] == name[0];
  }

  /** `**name**` and `**name**:` become `#### name`. */
  lemma BoldSubheading(name: string, tail: string)
    requires GoodName(name) && (tail == "**" || tail == "**:")
    ensures LineFold(SubheadingPatterns(name, "#### " + name), "**" + (name + tail)) == "#### " + name
  {
    NameCapture(name, tail, BoldTail);
    FormsBold(Name(Exact(name)), "#### " + name, HashLead(1, 3), HashLead(5, 6), name + tail, "");
    SubheadingLine(name, "**" + (name + tail), 0);
  }

  lemma SubheadingColonFacts(name: string, l: string)
    requires !StartsWith(l, "**") && BodyCapture(Name(Exact(name)), ColonTail, l) == Some("")
    ensures forall j :: 0 <= j < 1 ==> Capture(SubheadingPatterns(name, "#### " + name)[j], l).None?
    ensures Capture(SubheadingPatterns(name, "#### " + name)[1], l).Some?
    ensures Target(SubheadingPatterns(name, "#### " + name)[1], l) == "#### " + name
  {
    FormsColon(Name(Exact(name)), "#### " + name, HashLead(1, 3), HashLead(5, 6), l, "");
  }

  /** `name:` becomes `#### name`. */
  lemma ColonSubheading(name: string)
    requires GoodName(name)
    ensures LineFold(SubheadingPatterns(name, "#### " + name), name + ":") == "#### " + name
  {
    NameStartsPlain(name, ":");
    assert SpaceRun(":") == 0;
    NameCapture(name, ":", ColonTail);
    SubheadingColonFacts(name, name + ":");
    SubheadingLine(name, name + ":", 1);
  }

  lemma SubheadingPlainFacts(name: string, l: string)
    requires !StartsWith(l, "**") && BodyCapture(Name(Exact(name)), ColonTail, l).None?
    requires BodyCapture(Name(Exact(name)), EndTail, l) == Some("")
    ensures forall j :: 0 <= j < 2 ==> Capture(SubheadingPatterns(name, "#### " + name)[j], l).None?
    ensures Capture(SubheadingPatterns(name, "#### " + name)[2], l).Some?
    ensures Target(SubheadingPatterns(name, "#### " + name)[2], l) == "#### " + name
  {
    FormsPlain(Name(Exact(name)), "#### " + name, HashLead(1, 3), HashLead(5, 6), l, "");
  }

  /** The name alone on its line becomes `#### name`. */
  lemma PlainSubheading(name: string)
    requires GoodName(name)
    ensures LineFold(SubheadingPatterns(name, "#### " + name), name) == "#### " + name
  {
    assert name + "" == name;
    NameStartsPlain(name, "");
    NameCapture(name, "", ColonTail);
    NameCapture(name, "", EndTail);
    SubheadingPlainFacts(name, name);
    SubheadingLine(name, name, 2);
  }

  lemma SubheadingHeadingCaptures(h: string, name: string)
    requires GoodName(name) && 1 <= |h| <= 6 && |h| != 4 && IsHashes(h)
    ensures var l := h + " " + name; var ps := SubheadingPatterns(name, "#### " + name);
      Capture(ps[0], l).None? && Capture(ps[1], l).None? && Capture(ps[2], l).None?
    ensures var l := h + " " + name; var ps := SubheadingPatterns(name, "#### " + name);
      if |h| <= 3 then Capture(ps[3], l) == Some("")
      else Capture(ps[3], l).None? && Capture(ps[4], l) == Some("")
  {
    assert name + "" == name;
    NameCapture(name, "", EndTail);
    FormsRefuseHeading(Name(Exact(name)), "#### " + name, HashLead(1, 3), HashLead(5, 6), h, name);
    if |h| <= 3 {
      FormsShallow(Name(Exact(name)), "#### " + name, 1, 3, HashLead(5, 6), h, name, "");
    } else {
      FormsDeep(Name(Exact(name)), "#### " + name, 1, 3, 5, 6, h, name, "");
    }
  }

  lemma SubheadingShallowFacts(name: string, l: string)
    requires var ps := SubheadingPatterns(name, "#### " + name);
      Capture(ps[0], l).None? && Capture(ps[1], l).None? && Capture(ps[2], l).None? && Capture(ps[3], l) == Some("")
    ensures forall j :: 0 <= j < 3 ==> Capture(SubheadingPatterns(name, "#### " + name)[j], l).None?
    ensures Capture(SubheadingPatterns(name, "#### " + name)[3], l).Some?
    ensures Target(SubheadingPatterns(name, "#### " + name)[3], l) == "#### " + name
  {
    var ps := SubheadingPatterns(name, "#### " + name);
    forall j | 0 <= j < 3 ensures Capture(ps[j], l).None? {
      if j == 0 {} else if j == 1 {} else {}
    }
  }

  lemma SubheadingDeepFacts(name: string, l: string)
    requires var ps := SubheadingPatterns(name, "#### " + name);
      Capture(ps[0], l).None? && Capture(ps[1], l).None? && Capture(ps[2], l).None? && Capture(ps[3], l).None?
      && Capture(ps[4], l) == Some("")
    ensures forall j :: 0 <= j < 4 ==> Capture(SubheadingPatterns(name, "#### " + name)[j], l).None?
    ensures Capture(SubheadingPatterns(name, "#### " + name)[4], l).Some?
    ensures Target(SubheadingPatterns(name, "#### " + name)[4], l) == "#### " + name
  {
    var ps := SubheadingPatterns(name, "#### " + name);
    forall j | 0 <= j < 4 ensures Capture(ps[j], l).None? {
      if j == 0 {} else if j == 1 {} else if j == 2 {} else {}
    }
  }

  /** A heading of the name at any level but 4 becomes `#### name`. */
  lemma SubheadingLevel(h: string, name: string)
    requires GoodName(name) && 1 <= |h| <= 6 && |h| != 4 && IsHashes(h)
    ensures LineFold(SubheadingPatterns(name, "#### " + name), h + " " + name) == "#### " + name
  {
    SubheadingHeadingCaptures(h, name);
    if |h| <= 3 {
      SubheadingShallowFacts(name, h + " " + name);
      SubheadingLine(name, h + " " + name, 3);
    } else {
      SubheadingDeepFacts(name, h + " " + name);
      SubheadingLine(name, h + " " + name, 4);
    }
  }

  /** A subheading already in the target form is kept. */
  lemma SubheadingKept(name: string)
    requires GoodName(name)
    ensures LineFold(SubheadingPatterns(name, "#### " + name), "#### " + name) == "#### " + name
  {
    SubheadingTargetRest(name, 0);
  }

  // What `_normalize_vocab_word_headings` does to one line

  lemma {:induction false} WordRunPrefix(w: string, rest: string)
    requires forall i :: 0 <= i < |w| ==> IsWordChar(w[i])
    requires rest == [] || !IsWordChar(rest[0])
    ensures WordRun(w + rest) == |w|
    decreases |w|
  {
    if |w| > 0 {
      assert (w + rest)[1..] == w[1..] + rest;
      WordRunPrefix(w[1..], rest);
    }
  }

  /** A word followed by a tail that does not go on with a word character. */
  lemma WordCapture(w: string, tail: string, t: Tail)
    requires CaptureShape(Word, w) && (tail == [] || !IsWordChar(tail[0]))
    ensures BodyCapture(Word, t, w + tail) == (if TailMatches(t, tail) then Some(w) else None)
  {
    WordRunPrefix(w, tail);
    assert (w + tail)[0] == w[0];
    assert (w + tail)[..|w|] == w && (w + tail)[|w|..] == tail;
  }

  /** A word heading `## w` is left as it is by both word patterns. */
  lemma WordTargetInert(w: string)
    requires CaptureShape(Word, w)
    ensures NoneMatch(WordPatterns, "## " + w)
  {
    var o := "## " + w;
    assert o[3] == w[0] && IsAsciiLetter(o[3]);
    assert HeadingShaped(o, 2);
    WordPatternsRefuse(o);
  }

  lemma WordTargetRest(k: nat, w: string)
    requires k <= 2 && CaptureShape(Word, w)
    ensures LineFold(WordPatterns[k..], "## " + w) == "## " + w
  {
    WordTargetInert(w);
    assert forall p :: p in WordPatterns[k..] ==> p in WordPatterns;
    FoldUnmatched(WordPatterns[k..], "## " + w);
  }

  lemma WordHeadingFacts(h: string, w: string)
    requires 3 <= |h| <= 6 && IsHashes(h) && CaptureShape(Word, w)
    ensures Capture(WordPatterns[0], h + " " + w).Some?
    ensures Target(WordPatterns[0], h + " " + w) == "## " + w
  {
    assert w + "" == w;
    WordCapture(w, "", EndTail);
    PatternOnHashes(WordPatterns[0], h, w);
  }

  /** `### w` down to `###### w`, for an English word `w`, become `## w`. */
  lemma WordHeadingLevel(h: string, w: string)
    requires 3 <= |h| <= 6 && IsHashes(h) && CaptureShape(Word, w)
    ensures LineFold(WordPatterns, h + " " + w) == "## " + w
  {
    WordHeadingFacts(h, w);
    FoldFirstMatch(WordPatterns, 0, h + " " + w);
    WordTargetRest(1, w);
  }

  lemma BoldWordFacts(w: string, tail: string)
    requires CaptureShape(Word, w) && (tail == "**" || tail == "**:")
    ensures forall j :: 0 <= j < 1 ==> Capture(WordPatterns[j], "**" + (w + tail)).None?
    ensures Capture(WordPatterns[1], "**" + (w + tail)).Some?
    ensures Target(WordPatterns[1], "**" + (w + tail)) == "## " + w
  {
    var l := "**" + (w + tail);
    assert l[..2] == "**" && l[2..] == w + tail;
    assert HashRun(l) == 0;
    WordCapture(w, tail, BoldTail);
  }

  /** `**w**` and `**w**:`, for an English word `w`, become `## w`. */
  lemma BoldWordHeading(w: string, tail: string)
    requires CaptureShape(Word, w) && (tail == "**" || tail == "**:")
    ensures LineFold(WordPatterns, "**" + (w + tail)) == "## " + w
  {
    BoldWordFacts(w, tail);
    FoldFirstMatch(WordPatterns, 1, "**" + (w + tail));
    WordTargetRest(2, w);
  }

  /** A heading no word pattern takes: level 1 or 2, or a text that is not an English word. */
  lemma WordPatternsKeepHeading(h: string, text: string)
    requires IsHashes(h) && |text| > 0 && !IsLineSpace(text[0]) && text[0] != '#'
    requires 1 <= |h| <= 2 || (|h| >= 1 && !IsAsciiLetter(text[0]))
    ensures LineFold(WordPatterns, h + " " + text) == h + " " + text
  {
    PatternOnHashes(WordPatterns[0], h, text);
    PatternOnHashes(WordPatterns[1], h, text);
    forall p | p in WordPatterns ensures Capture(p, h + " " + text).None? {
    }
    FoldUnmatched(WordPatterns, h + " " + text);
  }

  /** A single `#` heading of an English word is not a word heading and is kept. */
  lemma SingleHashWordKept(w: string)
    requires CaptureShape(Word, w)
    ensures LineFold(WordPatterns, "# " + w) == "# " + w
  {
    assert "#" + " " + w == "# " + w;
    WordPatternsKeepHeading("#", w);
  }

  /** A numbered subheading such as `### 1. 기본 뜻` is never turned into a word heading. */
  lemma NumberedHeadingNotWord(h: string, num: char, rest: string)
    requires 1 <= |h| && IsHashes(h) && IsDigit(num)
    ensures LineFold(WordPatterns, h + " " + ([num] + rest)) == h + " " + ([num] + rest)
  {
    WordPatternsKeepHeading(h, [num] + rest);
  }

  // What one entry of `_normalize_vocab_subheadings` does to one line

  /** The number is a digit and the target is `### ` and a digit, on one line. */
  predicate NumberedEntryOk(num: char, target: string) {
    IsDigit(num) && |target| >= 5 && target[..4] == "### " && IsDigit(target[4]) && NoLineBreak(target)
  }

  lemma NumberedTargetInert(num: char, np: NamePattern, target: string)
    requires NumberedEntryOk(num, target)
    ensures NoneMatch(NumberedPatterns(num, np, target), target)
  {
    assert target[0] == '#' && target[1] == '#' && target[2] == '#' && target[3] == ' ';
    assert HeadingShaped(target, 3);
    var t := [(num, np, target)];
    assert NumberedTableOk(t);
    assert NumberedTablePatterns(t) == NumberedPatterns(num, np, target) + NumberedTablePatterns([]);
    NumberedPatternsRefuse(t, target);
  }

  lemma NumberedTargetRest(num: char, np: NamePattern, target: string, k: nat)
    requires NumberedEntryOk(num, target) && k <= 5
    ensures LineFold(NumberedPatterns(num, np, target)[k..], target) == target
  {
    var ps := NumberedPatterns(num, np, target);
    NumberedTargetInert(num, np, target);
    assert forall p :: p in ps[k..] ==> p in ps;
    FoldUnmatched(ps[k..], target);
  }

  /** A line the `k`-th pattern of an entry is the first to capture becomes the entry's target. */
  lemma NumberedLine(num: char, np: NamePattern, target: string, l: string, k: nat)
    requires NumberedEntryOk(num, target) && k < 5
    requires forall j :: 0 <= j < k ==> Capture(NumberedPatterns(num, np, target)[j], l).None?
    requires Capture(NumberedPatterns(num, np, target)[k], l).Some?
    ensures LineFold(NumberedPatterns(num, np, target), l) == target
  {
    var ps := NumberedPatterns(num, np, target);
    assert Target(ps[k], l) == target;
    FoldFirstMatch(ps, k, l);
    NumberedTargetRest(num, np, target, k + 1);
  }

  /** `N. ` and a text that starts with no white space: the name pattern decides. */
  lemma NumberedCapture(num: char, np: NamePattern, x: string, t: Tail)
    requires |x| > 0 && !IsLineSpace(x[0])
    ensures BodyCapture(Numbered(num, np), t, [num] + ". " + x) == (if NameThenTail(np, t, x) then Some("") else None)
  {
    var s := [num] + ". " + x;
    assert s[0] == num && s[1] == '.' && s[2..] == " " + x;
    assert SpaceRun(" " + x) == 1 by {
      assert (" " + x)[1..] == x;
    }
    assert (" " + x)[1..] == x;
  }

  lemma NumberedStartsPlain(num: char, x: string)
    requires IsDigit(num)
    ensures !StartsWith([num] + ". " + x, "**")
  {
    NotStartsWith([num] + ". " + x, "**");
  }

  lemma NumberedBoldFacts(num: char, np: NamePattern, target: string, x: string)
    requires |x| > 0 && !IsLineSpace(x[0]) && NameThenTail(np, BoldTail, x)
    ensures Capture(NumberedPatterns(num, np, target)[0], "**" + ([num] + ". " + x)).Some?
  {
    NumberedCapture(num, np, x, BoldTail);
    FormsBold(Numbered(num, np), target, HashLead(1, 2), HashLead(4, 6), [num] + ". " + x, "");
  }

  /** `**N. name**` and `**N. name**:` become the entry's target. */
  lemma BoldNumberedHeading(num: char, np: NamePattern, target: string, x: string)
    requires NumberedEntryOk(num, target) && |x| > 0 && !IsLineSpace(x[0]) && NameThenTail(np, BoldTail, x)
    ensures LineFold(NumberedPatterns(num, np, target), "**" + ([num] + ". " + x)) == target
  {
    NumberedBoldFacts(num, np, target, x);
    NumberedLine(num, np, target, "**" + ([num] + ". " + x), 0);
  }

  lemma NumberedColonFacts(num: char, np: NamePattern, target: string, x: string)
    requires IsDigit(num) && |x| > 0 && !IsLineSpace(x[0]) && NameThenTail(np, ColonTail, x)
    ensures forall j :: 0 <= j < 1 ==> Capture(NumberedPatterns(num, np, target)[j], [num] + ". " + x).None?
    ensures Capture(NumberedPatterns(num, np, target)[1], [num] + ". " + x).Some?
  {
    NumberedStartsPlain(num, x);
    NumberedCapture(num, np, x, ColonTail);
    FormsColon(Numbered(num, np), target, HashLead(1, 2), HashLead(4, 6), [num] + ". " + x, "");
  }

  /** `N. name:` becomes the entry's target. */
  lemma ColonNumberedHeading(num: char, np: NamePattern, target: string, x: string)
    requires NumberedEntryOk(num, target) && |x| > 0 && !IsLineSpace(x[0]) && NameThenTail(np, ColonTail, x)
    ensures LineFold(NumberedPatterns(num, np, target), [num] + ". " + x) == target
  {
    NumberedColonFacts(num, np, target, x);
    NumberedLine(num, np, target, [num] + ". " + x, 1);
  }

  lemma NumberedPlainFacts(num: char, np: NamePattern, target: string, x: string, l: string)
    requires IsDigit(num) && |x| > 0 && !IsLineSpace(x[0]) && l == [num] + ". " + x
    requires !NameThenTail(np, ColonTail, x) && NameThenTail(np, EndTail, x)
    ensures !StartsWith(l, "**")
    ensures BodyCapture(Numbered(num, np), ColonTail, l).None?
    ensures BodyCapture(Numbered(num, np), EndTail, l) == Some("")
  {
    NumberedStartsPlain(num, x);
    NumberedCapture(num, np, x, ColonTail);
    NumberedCapture(num, np, x, EndTail);
  }

  /** `N. name` alone on its line becomes the entry's target. */
  lemma PlainNumberedHeading(num: char, np: NamePattern, target: string, x: string)
    requires NumberedEntryOk(num, target) && |x| > 0 && !IsLineSpace(x[0])
    requires !NameThenTail(np, ColonTail, x) && NameThenTail(np, EndTail, x)
    ensures LineFold(NumberedPatterns(num, np, target), [num] + ". " + x) == target
  {
    var l := [num] + ". " + x;
    var ps := NumberedPatterns(num, np, target);
    NumberedPlainFacts(num, np, target, x, l);
    FormsPlain(Numbered(num, np), target, HashLead(1, 2), HashLead(4, 6), l, "");
    assert forall j :: 0 <= j < 2 ==> Capture(ps[j], l).None? by {
      assert Capture(ps[0], l).None? && Capture(ps[1], l).None?;
    }
    NumberedLine(num, np, target, l, 2);
  }

  lemma NumberedHeadingCaptures(num: char, np: NamePattern, target: string, h: string, x: string)
    requires NumberedEntryOk(num, target) && 1 <= |h| <= 6 && |h| != 3 && IsHashes(h)
    requires |x| > 0 && !IsLineSpace(x[0]) && NameThenTail(np, EndTail, x)
    ensures var l := h + " " + ([num] + ". " + x); var ps := NumberedPatterns(num, np, target);
      Capture(ps[0], l).None? && Capture(ps[1], l).None? && Capture(ps[2], l).None?
    ensures var l := h + " " + ([num] + ". " + x); var ps := NumberedPatterns(num, np, target);
      if |h| <= 2 then Capture(ps[3], l).Some? else Capture(ps[3], l).None? && Capture(ps[4], l).Some?
  {
    var text := [num] + ". " + x;
    NumberedCapture(num, np, x, EndTail);
    FormsRefuseHeading(Numbered(num, np), target, HashLead(1, 2), HashLead(4, 6), h, text);
    if |h| <= 2 {
      FormsShallow(Numbered(num, np), target, 1, 2, HashLead(4, 6), h, text, "");
    } else {
      FormsDeep(Numbered(num, np), target, 1, 2, 4, 6, h, text, "");
    }
  }

  lemma NumberedShallowFacts(num: char, np: NamePattern, target: string, l: string)
    requires var ps := NumberedPatterns(num, np, target);
      Capture(ps[0], l).None? && Capture(ps[1], l).None? && Capture(ps[2], l).None? && Capture(ps[3], l).Some?
    ensures forall j :: 0 <= j < 3 ==> Capture(NumberedPatterns(num, np, target)[j], l).None?
    ensures Capture(NumberedPatterns(num, np, target)[3], l).Some?
  {
    var ps := NumberedPatterns(num, np, target);
    forall j | 0 <= j < 3 ensures Capture(ps[j], l).None? {
      if j == 0 {} else if j == 1 {} else {}
    }
  }

  lemma NumberedDeepFacts(num: char, np: NamePattern, target: string, l: string)
    requires var ps := NumberedPatterns(num, np, target);
      Capture(ps[0], l).None? && Capture(ps[1], l).None? && Capture(ps[2], l).None? && Capture(ps[3], l).None?
      && Capture(ps[4], l).Some?
    ensures forall j :: 0 <= j < 4 ==> Capture(NumberedPatterns(num, np, target)[j], l).None?
    ensures Capture(NumberedPatterns(num, np, target)[4], l).Some?
  {
    var ps := NumberedPatterns(num, np, target);
    forall j | 0 <= j < 4 ensures Capture(ps[j], l).None? {
      if j == 0 {} else if j == 1 {} else if j == 2 {} else {}
    }
  }

  /** `#`/`##` and `####`–`######` headings of `N. name` become the entry's target. */
  lemma NumberedHeadingLevel(num: char, np: NamePattern, target: string, h: string, x: string)
    requires NumberedEntryOk(num, target) && 1 <= |h| <= 6 && |h| != 3 && IsHashes(h)
    requires |x| > 0 && !IsLineSpace(x[0]) && NameThenTail(np, EndTail, x)
    ensures LineFold(NumberedPatterns(num, np, target), h + " " + ([num] + ". " + x)) == target
  {
    var l := h + " " + ([num] + ". " + x);
    NumberedHeadingCaptures(num, np, target, h, x);
    if |h| <= 2 {
      NumberedShallowFacts(num, np, target, l);
      NumberedLine(num, np, target, l, 3);
    } else {
      NumberedDeepFacts(num, np, target, l);
      NumberedLine(num, np, target, l, 4);
    }
  }

  /** The target of an entry is kept. */
  lemma NumberedKept(num: char, np: NamePattern, target: string)
    requires NumberedEntryOk(num, target)
    ensures LineFold(NumberedPatterns(num, np, target), target) == target
  {
    NumberedTargetRest(num, np, target, 0);
  }

  /**
   * A name with `[^\n*]*` after it takes any rest without `*`, with or
   * without a colon: every such line collapses to the one target.
   */
  lemma VariantCollapses(num: char, name: string, target: string, rest: string)
    requires NumberedEntryOk(num, target) && |name| > 0 && !IsLineSpace(name[0]) && '*' !in rest
    ensures LineFold(NumberedPatterns(num, ExactThenAny(name), target), [num] + ". " + (name + rest)) == target
  {
    var x := name + rest;
    assert x[0] == name[0] && x[..|name|] == name && x[|name|..] == rest;
    if NameThenTail(ExactThenAny(name), ColonTail, x) {
      ColonNumberedHeading(num, ExactThenAny(name), target, x);
    } else {
      PlainNumberedHeading(num, ExactThenAny(name), target, x);
    }
  }

  /** Every entry of the vocabulary table has a digit and a `### N. …` target. */
  lemma VocabEntryOk(i: nat)
    requires i < |VocabSubheadings|
    ensures NumberedEntryOk(VocabSubheadings[i].0, VocabSubheadings[i].2)
  {
    VocabSubheadingsOk();
  }

  /** Entries 4 and 5 are the two whose name is followed by `[^\n*]*`. */
  lemma VocabVariantEntries(i: nat)
    requires i < |VocabSubheadings|
    ensures VocabSubheadings[i].1.ExactThenAny? <==> VocabSubheadings[i].0 == '4' || VocabSubheadings[i].0 == '5'
  {
  }

  /** Any line `N. name…` of entries 4 and 5, whatever follows the name without `*`, becomes the one target. */
  lemma VocabVariantsCollapse(i: nat, rest: string)
    requires i < |VocabSubheadings| && VocabSubheadings[i].1.ExactThenAny? && '*' !in rest
    ensures var e := VocabSubheadings[i];
      LineFold(NumberedPatterns(e.0, e.1, e.2), [e.0] + ". " + (e.1.text + rest)) == e.2
  {
    var e := VocabSubheadings[i];
    VocabEntryOk(i);
    assert |e.1.text| > 0 && !IsLineSpace(e.1.text[0]);
    VariantCollapses(e.0, e.1.text, e.2, rest);
  }

}
