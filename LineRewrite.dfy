/**
 * The per-line indent/outdent rewrite and the loop that applies it to the
 * lines of each selection.
 */
module LineRewrite {
  import opened Ladder
  import opened DepthInference

  /**
   * A character matched by `\s` in an ECMAScript regular expression: the
   * WhiteSpace characters (tab, vertical tab, form feed, space, no-break space,
   * byte order mark and the Unicode space separators) and the LineTerminator
   * characters (line feed, carriage return, line and paragraph separators).
   */
  predicate IsWs(c: char): (r: bool)
    ensures c == ' ' || c == '\t' ==> r
    ensures ('0' <= c <= '9' || 'a' <= c <= 'z' || 'A' <= c <= 'Z') ==> !r
  {
    c == '\t' || c == '\n' || c == '\U{000B}' || c == '\U{000C}' || c == '\r' || c == ' '
    || c == '\U{00A0}' || c == '\U{1680}' || ('\U{2000}' <= c <= '\U{200A}')
    || c == '\U{2028}' || c == '\U{2029}' || c == '\U{202F}' || c == '\U{205F}'
    || c == '\U{3000}' || c == '\U{FEFF}'
  }

  /**
   * The length of the match of the anchored pattern `^\s*`: the run of whitespace at the start of
   * the line. Every whitespace character, a tab included, counts as one.
   */
  function LeadingWhitespace(line: string): (n: nat)
    ensures n <= |line|
    ensures forall i :: 0 <= i < n ==> IsWs(line[i])
    ensures n < |line| ==> !IsWs(line[n])
  {
    if |line| > 0 && IsWs(line[0]) then 1 + LeadingWhitespace(line[1..]) else 0
  }

  /** The run-length characterisation determines `LeadingWhitespace` completely. */
  lemma LeadingWhitespaceUnique(line: string, n: nat)
    requires n <= |line|
    requires forall i :: 0 <= i < n ==> IsWs(line[i])
    requires n < |line| ==> !IsWs(line[n])
    ensures LeadingWhitespace(line) == n
  {
  }

  /** `' '.repeat(n)`. */
  function Blanks(n: nat): (s: string)
    ensures |s| == n && forall i :: 0 <= i < n ==> s[i] == ' '
  {
    seq(n, _ => ' ')
  }

  /**
   * One indent step (`isTab`) adds a level; one outdent step removes a level
   * but never goes below depth 0.
   */
  function NewDepth(depth: nat, isTab: bool): (r: nat)
    ensures isTab ==> r == depth + 1
    ensures !isTab ==> r <= depth && depth <= r + 1 && (r == depth <==> depth == 0)
  {
    if isTab then depth + 1 else if depth - 1 < 0 then 0 else depth - 1
  }

  /**
   * The column count a line gets from one step: its inferred depth, stepped, mapped
   * back onto the ladder. Indenting lands strictly above the inferred depth's rung,
   * outdenting never above it.
   */
  function NewWidth(line: string, isTab: bool): (w: nat)
    ensures isTab ==> Spaces(InferredDepth(LeadingWhitespace(line))) < w
    ensures !isTab ==> w <= Spaces(InferredDepth(LeadingWhitespace(line)))
  {
    var depth := InferredDepth(LeadingWhitespace(line));
    SpacesOrder(depth, NewDepth(depth, isTab));
    Spaces(NewDepth(depth, isTab))
  }

  /**
   * The text of a line after one step: its leading whitespace run is replaced
   * by exactly `NewWidth` space characters, and the text after the run is kept.
   */
  function RewriteLine(line: string, isTab: bool): (r: string)
    ensures var n, k := NewWidth(line, isTab), LeadingWhitespace(line);
      && |r| == n + |line| - k
      && (forall i :: 0 <= i < n ==> r[i] == ' ')
      && r[n..] == line[k..]
      && LeadingWhitespace(r) == n
  {
    var k := LeadingWhitespace(line);
    var r := Blanks(NewWidth(line, isTab)) + line[k..];
    LeadingWhitespaceUnique(r, NewWidth(line, isTab));
    r
  }

  /** The body of the per-line loop of `applyIndentation`: measure, infer, step, map back and replace the run. */
  method IndentLine(line: string, isTab: bool) returns (newLine: string)
    ensures newLine == RewriteLine(line, isTab)
  {
    var currentLeadingSpaces := LeadingWhitespace(line);
    var currentLogicalDepth := InferDepth(currentLeadingSpaces);
    var newLogicalDepth: nat;
    if isTab {
      newLogicalDepth := currentLogicalDepth + 1;
    } else {
      var lowered := currentLogicalDepth as int - 1;
      newLogicalDepth := if 0 > lowered then 0 else lowered;
    }
    var newSpaces := GetSpacesForDepth(newLogicalDepth);
    var newIndentString := Blanks(newSpaces);
    newLine := newIndentString + line[currentLeadingSpaces..];
  }

  /** A selection as far as the command uses it: the lines from `startLine` to `endLine`, both included. */
  datatype Selection = Selection(startLine: nat, endLine: nat)
  {
    predicate Covers(i: int)
    {
      startLine <= i <= endLine
    }

    /** A selection of a document with `lineCount` lines starts no later than it ends, on existing lines. */
    predicate WithinDocument(lineCount: nat)
    {
      startLine <= endLine < lineCount
    }
  }

  /** No two selections share a line, so the edit batch holds no two replacements of one line. */
  predicate Disjoint(selections: seq<Selection>)
  {
    forall a, b :: 0 <= a < b < |selections| ==>
      selections[a].endLine < selections[b].startLine || selections[b].endLine < selections[a].startLine
  }

  /** Line `i` lies in one of the selections. */
  predicate Selected(selections: seq<Selection>, i: int)
  {
    exists j :: 0 <= j < |selections| && selections[j].Covers(i)
  }

  /**
   * The loop of `applyIndentation` over one selection's lines: each line from `startLine` to
   * `endLine` of `doc` becomes the rewrite of that line's text in `original`, the
   * document as it was before the edit batch; every other line of `doc` is kept.
   */
  method RewriteSelection(original: seq<string>, doc: seq<string>, selection: Selection, isTab: bool)
    returns (result: seq<string>)
    requires |doc| == |original|
    requires selection.WithinDocument(|original|)
    ensures |result| == |doc|
    ensures forall k :: 0 <= k < |doc| ==>
      result[k] == if selection.Covers(k) then RewriteLine(original[k], isTab) else doc[k]
  {
    result := doc;
    for i := selection.startLine to selection.endLine + 1
      invariant |result| == |doc|
      invariant forall k :: 0 <= k < |doc| ==>
        result[k] == if selection.startLine <= k < i then RewriteLine(original[k], isTab) else doc[k]
    {
      var newLine := IndentLine(original[i], isTab);
      result := result[i := newLine];
    }
  }

  /**
   * The whole command: every line in some selection gets the rewrite of its
   * original text, every other line is unchanged. All replacements are computed
   * against the document as it was before the edit batch. `Disjoint` is not
   * needed by the proof; it marks the batches the host applies as written.
   */
  method ApplyIndentation(lines: seq<string>, selections: seq<Selection>, isTab: bool)
    returns (result: seq<string>)
    requires forall j :: 0 <= j < |selections| ==> selections[j].WithinDocument(|lines|)
    requires Disjoint(selections)
    ensures |result| == |lines|
    ensures forall i :: 0 <= i < |lines| ==>
      result[i] == if Selected(selections, i) then RewriteLine(lines[i], isTab) else lines[i]
  {
    result := lines;
    for j := 0 to |selections|
      invariant |result| == |lines|
      invariant forall i :: 0 <= i < |lines| ==>
        result[i] == if Selected(selections[..j], i) then RewriteLine(lines[i], isTab) else lines[i]
    {
      result := RewriteSelection(lines, result, selections[j], isTab);
      forall i | 0 <= i < |lines|
        ensures result[i] == if Selected(selections[..j + 1], i) then RewriteLine(lines[i], isTab) else lines[i]
      {
        SelectedExtend(selections, j, i);
      }
    }
    assert selections[..|selections|] == selections;
  }

  /** Extending the list of selections by one adds exactly the lines of the new selection. */
  lemma SelectedExtend(selections: seq<Selection>, j: nat, k: int)
    requires j < |selections|
    ensures Selected(selections[..j + 1], k) <==> Selected(selections[..j], k) || selections[j].Covers(k)
  {
  }

  /** A tab, like every other whitespace character, adds exactly one to the measured run. */
  lemma TabCountsAsOne(rest: string)
    ensures LeadingWhitespace(['\t'] + rest) == 1 + LeadingWhitespace(rest)
  {
  }

  /** So a line holding one tab before its text sits at depth 0 and indents to two spaces. */
  lemma TabbedLineIndents()
    ensures RewriteLine("\tx", true) == "  x"
  {
  }

  /** After a step the line's run is the new depth's rung, from which inference reads back the new depth. */
  lemma RewriteReadsBack(line: string, isTab: bool)
    requires NewDepth(InferredDepth(LeadingWhitespace(line)), isTab) <= MaxScan - 2
    ensures InferredDepth(LeadingWhitespace(RewriteLine(line, isTab)))
         == NewDepth(InferredDepth(LeadingWhitespace(line)), isTab)
  {
    InferRoundTrip(NewDepth(InferredDepth(LeadingWhitespace(line)), isTab));
  }

  /** A run between two rungs is first floored onto the lower one, so indenting moves to the rung above it. */
  lemma IndentFromFloor(line: string, d: nat)
    requires d <= MaxScan - 2 && IsFloorDepth(LeadingWhitespace(line), d)
    ensures NewWidth(line, true) == Spaces(d + 1)
  {
    InferFromFloor(LeadingWhitespace(line), d);
  }

  /** A run between two rungs is first floored onto the lower one, so outdenting moves to the rung below it. */
  lemma OutdentFromFloor(line: string, d: nat)
    requires d <= MaxScan - 2 && IsFloorDepth(LeadingWhitespace(line), d)
    ensures NewWidth(line, false) == Spaces(if d == 0 then 0 else d - 1)
  {
    InferFromFloor(LeadingWhitespace(line), d);
  }

  /** Outdenting a line with fewer than two leading whitespace characters leaves no indentation at all. */
  lemma OutdentBelowFirstRung(line: string)
    requires LeadingWhitespace(line) < Spaces(1)
    ensures RewriteLine(line, false) == line[LeadingWhitespace(line)..]
  {
  }

  /**
   * A run at least as wide as the last rung scanned is read as depth 0: indenting
   * gives it the first rung and outdenting removes it.
   */
  lemma BeyondLastRung(line: string)
    requires !WithinScan(LeadingWhitespace(line))
    ensures NewWidth(line, true) == Spaces(1) && NewWidth(line, false) == 0
  {
  }

  /**
   * Indenting and then outdenting a line whose run sits on a rung gives back that
   * rung, with the run now made of spaces and the rest of the line untouched.
   */
  lemma IndentThenOutdent(line: string, d: nat)
    requires d + 1 <= MaxScan - 2 && LeadingWhitespace(line) == Spaces(d)
    ensures RewriteLine(RewriteLine(line, true), false) == Blanks(Spaces(d)) + line[Spaces(d)..]
  {
    InferRoundTrip(d);
    assert NewWidth(line, true) == Spaces(d + 1);
    var once := RewriteLine(line, true);
    assert LeadingWhitespace(once) == Spaces(d + 1);
    InferRoundTrip(d + 1);
    assert NewWidth(once, false) == Spaces(d);
    assert once[Spaces(d + 1)..] == line[Spaces(d)..];
  }

  /** Outdenting and then indenting a line whose run sits on a rung above depth 0 gives back that rung. */
  lemma OutdentThenIndent(line: string, d: nat)
    requires 1 <= d <= MaxScan - 2 && LeadingWhitespace(line) == Spaces(d)
    ensures RewriteLine(RewriteLine(line, false), true) == Blanks(Spaces(d)) + line[Spaces(d)..]
  {
    InferRoundTrip(d);
    assert NewWidth(line, false) == Spaces(d - 1);
    var once := RewriteLine(line, false);
    assert LeadingWhitespace(once) == Spaces(d - 1);
    InferRoundTrip(d - 1);
    assert NewWidth(once, true) == Spaces(d);
    assert once[Spaces(d - 1)..] == line[Spaces(d)..];
  }

  /**
   * At the last rung the scan reports, the round trip breaks: indenting reaches
   * `Spaces(MaxScan - 1)`, which reads as depth 0, so outdenting then removes the run.
   */
  lemma IndentThenOutdentAtLastRung(line: string)
    requires LeadingWhitespace(line) == Spaces(MaxScan - 2)
    ensures RewriteLine(RewriteLine(line, true), false) == line[Spaces(MaxScan - 2)..]
  {
    var d := MaxScan - 2;
    InferRoundTrip(d);
    assert NewWidth(line, true) == Spaces(d + 1);
    var once := RewriteLine(line, true);
    assert LeadingWhitespace(once) == Spaces(d + 1);
    InferRoundTrip(d + 1);
    assert NewWidth(once, false) == 0;
    assert once[Spaces(d + 1)..] == line[Spaces(d)..];
  }

  /** A line whose first `n` characters are spaces is those `n` blanks followed by the rest of it. */
  lemma SpacePrefix(line: string, n: nat)
    requires n <= |line| && forall i :: 0 <= i < n ==> line[i] == ' '
    ensures Blanks(n) + line[n..] == line
  {
    assert line == line[..n] + line[n..];
    assert line[..n] == Blanks(n);
  }

  /** When the run was already made of spaces, indenting then outdenting gives back the very same line. */
  lemma IndentThenOutdentRestores(line: string, d: nat)
    requires d + 1 <= MaxScan - 2 && LeadingWhitespace(line) == Spaces(d)
    requires forall i :: 0 <= i < Spaces(d) ==> line[i] == ' '
    ensures RewriteLine(RewriteLine(line, true), false) == line
  {
    IndentThenOutdent(line, d);
    SpacePrefix(line, Spaces(d));
  }
}
