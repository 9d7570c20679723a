# Fibonacci tabbing: a Dafny model of the indentation arithmetic

This project models the core of the `fibonacci-tabbing` VS Code extension
(`src/extension.ts`): the commands that indent (Tab) and outdent (Shift+Tab)
the selected lines onto a ladder of column counts derived from the Fibonacci
numbers, and proves the properties that arithmetic promises.

- **Fibonacci numbers** (`Fibonacci.dfy`, module `FibonacciNumbers`): the
  recursive definition `Fib` and the method `Fibonacci`, the two-accumulator
  loop of `fibonacci`, proved to compute it.
- **The ladder** (`Ladder.dfy`): `Spaces(depth)` is 0 at depth 0 and
  `2 * Fib(depth + 1)` otherwise, giving 0, 2, 4, 6, 10, 16, ... columns.
  It is even, at least twice the depth, and strictly increasing, including the
  step from depth 0 to depth 1.
- **Depth inference** (`DepthInference.dfy`): the source scans
  `d = 0 .. 99` and stops at the first rung wider than the measured
  whitespace run, taking `d - 1` clamped at 0. `FloorDepth` is the unbounded
  floor match, meaning the depth of the widest rung not exceeding the width.
  `InferredDepth` is what the bounded scan yields. `InferDepth` is the loop with
  its early `break`, proved equal to `InferredDepth`. When no scanned rung is
  wider than the run (`WithinScan` fails), the result keeps its initial value 0.
- **Line rewrite** (`LineRewrite.dfy`): the leading run of `\s` characters is
  measured (each counts as one, a tab included). The depth is inferred and
  then stepped: +1 for indent, -1 clamped at 0 for outdent. The run is replaced
  by exactly `Spaces(newDepth)` spaces, and the rest of the line is kept.
  `ApplyIndentation` runs this over the lines of every selection. Each
  replacement is computed from the document as it was before the edit batch.

The code and its comments disagree in one place; the model follows the code.
The doc comment of `getFibonacciSpacesForDepth` (src/extension.ts:25) gives
3 spaces for depth 2, but the code gives 4 (2, 4, 6, 10 as noted at :39).

Inference is a left inverse of the ladder only for depths 0 to 98: a run of
`Spaces(99)` or more columns finds no wider scanned rung, so inference yields 0
(`InferRoundTrip`, `BeyondLastRung`). So indenting then outdenting restores a
ladder width only up to rung 97: indenting from rung 98 reaches `Spaces(99)`,
which reads as depth 0, and outdenting from there removes the indentation
(`IndentThenOutdentAtLastRung`). That is why `IndentThenOutdent` stops at
d <= 97.

Inputs that come from the editor are parameters: the document's lines as
`seq<string>`, the selections as line ranges, and the direction `isTab`.

## Model

| member | source | states |
|---|---|---|
| FibonacciNumbers.Fibonacci | src/extension.ts:10-21 | the loop returns F(n): n itself for n <= 1, and for n >= 2 the accumulators hold F(i-1), F(i) after step i |
| Ladder.Spaces | src/extension.ts:29-42 | every rung is even and at least twice its depth |
| Ladder.GetSpacesForDepth | src/extension.ts:29-42 | the statement-level computation through the iterative `fibonacci` yields the ladder value: 0 at depth 0, else 2 * F(depth + 1) |
| Ladder.FirstRungs | src/extension.ts:36-39 | the first rungs are 0, 2, 4, 6, 10, 16 |
| Ladder.SpacesStep | src/extension.ts:29-42 | each rung is strictly wider than the one below, including 0 < 2 |
| Ladder.SpacesIncreasing | src/extension.ts:29-42 | the ladder is strictly increasing for all depths |
| Ladder.SpacesOrder | src/extension.ts:29-42 | comparing rungs is comparing depths, in both directions; distinct depths have distinct widths |
| DepthInference.FloorDepthFrom | src/extension.ts:85-90 | searching upwards from a rung not above the width ends at the floor match at or above the start |
| DepthInference.FloorDepth | src/extension.ts:85-90 | the result's rung is <= the width and the next rung is > the width; twice the depth never exceeds the width |
| DepthInference.FloorDepthUnique | src/extension.ts:85-90 | the floor match is unique: FloorDepth(w) == d exactly when d's rung is <= w < the next rung |
| DepthInference.WithinScanMeans | src/extension.ts:87-89 | the scan finds a rung wider than the width exactly when some d < 100 has Spaces(d) > width |
| DepthInference.WithinScanBelowLastRung | src/extension.ts:87-89 | the scan finds a wider rung exactly when the width is below Spaces(99) |
| DepthInference.FloorBelowRung | src/extension.ts:87-89 | the floor match lies below depth m exactly when the width lies below rung m |
| DepthInference.InferredDepth | src/extension.ts:86-94 | the inferred depth never exceeds 98 |
| DepthInference.FirstWiderRung | src/extension.ts:89-92 | the first scanned rung wider than the width is at depth >= 1 and sits just above the floor match, which is the result |
| DepthInference.InferDepth | src/extension.ts:86-94 | the scan with `break` returns the floor match when some scanned rung exceeds the width, and keeps its initial 0 when none does |
| DepthInference.InferRoundTrip | src/extension.ts:86-94 | inferring from an exact rung gives back its depth for depths <= 98, and 0 for depths >= 99 |
| DepthInference.InferBetween | src/extension.ts:89-90 | within the scan, a width between two rungs infers the lower depth and no other |
| DepthInference.InferFromFloor | src/extension.ts:89-90 | a floor match at depth <= 98 is what the scan reports |
| DepthInference.InferBelowFirstRung | src/extension.ts:89-91 | a run of fewer than 2 columns infers depth 0 |
| DepthInference.InferMonotone | src/extension.ts:86-94 | within the scan, a wider run never infers a shallower depth |
| LineRewrite.IsWs | src/extension.ts:83 | exactly the ECMAScript WhiteSpace and LineTerminator characters, so space and tab are whitespace and letters and digits are not |
| LineRewrite.LeadingWhitespace | src/extension.ts:83 | the measured count is the length of the longest prefix of whitespace characters: all before it are whitespace, the one at it is not |
| LineRewrite.LeadingWhitespaceUnique | src/extension.ts:83 | the longest-prefix description determines the measured count |
| LineRewrite.Blanks | src/extension.ts:104 | `' '.repeat(n)` is n characters, all spaces |
| LineRewrite.NewDepth | src/extension.ts:96-101 | indent adds one level; outdent removes one level, never below 0, and leaves depth 0 unchanged |
| LineRewrite.NewWidth | src/extension.ts:96-103 | the ladder width of the stepped inferred depth: indenting lands strictly above the inferred depth's rung, outdenting never above it |
| LineRewrite.RewriteLine | src/extension.ts:103-108 | the new line is NewWidth spaces followed by the old text after its whitespace run; its own run is exactly NewWidth long |
| LineRewrite.IndentLine | src/extension.ts:79-108 | the per-line statements (measure, scan, step, ladder, replace) produce RewriteLine of the line |
| LineRewrite.RewriteSelection | src/extension.ts:78-109 | lines startLine..endLine inclusive get the rewrite of their original text; all other lines are unchanged |
| LineRewrite.ApplyIndentation | src/extension.ts:76-111 | a line in some selection gets the rewrite of its own original text, every other line is unchanged, and the line count is kept |
| LineRewrite.TabCountsAsOne | src/extension.ts:83 | a tab adds exactly one to the measured run |
| LineRewrite.TabbedLineIndents | src/extension.ts:83-108 | a line of one tab before `x` sits at depth 0 and indents to two spaces before `x` |
| LineRewrite.RewriteReadsBack | src/extension.ts:86-108 | re-inferring the rewritten line gives back the new depth, when that depth is <= 98 |
| LineRewrite.IndentFromFloor | src/extension.ts:89-98 | a run between rungs d and d+1 indents to rung d+1 |
| LineRewrite.OutdentFromFloor | src/extension.ts:89-103 | a run between rungs d and d+1 outdents to rung d-1, or to no indentation from depth 0 |
| LineRewrite.OutdentBelowFirstRung | src/extension.ts:96-108 | outdenting a line with fewer than 2 leading whitespace characters leaves no indentation and keeps the rest of the line |
| LineRewrite.BeyondLastRung | src/extension.ts:86-103 | a run of Spaces(99) or more columns is read as depth 0: indent gives 2 columns, outdent none |
| LineRewrite.IndentThenOutdent | src/extension.ts:96-108 | indenting then outdenting a line whose run is exactly Spaces(d), d <= 97, gives Spaces(d) spaces and the same remainder |
| LineRewrite.OutdentThenIndent | src/extension.ts:96-108 | outdenting then indenting a line whose run is exactly Spaces(d), 1 <= d <= 98, gives Spaces(d) spaces and the same remainder |
| LineRewrite.IndentThenOutdentAtLastRung | src/extension.ts:86-108 | indenting then outdenting a line whose run is exactly Spaces(98) leaves no indentation, only the text after the run |
| LineRewrite.IndentThenOutdentRestores | src/extension.ts:96-108 | if that run was made of spaces, indenting then outdenting gives back the very same line |

## Left out

- The VS Code API is not modelled: `activate`, `deactivate`, command registration, `console.log`, `activeTextEditor` (including the early return when there is none), `document.lineAt`, `vscode.Range` and `editor.revealRange` are foreign calls or UI. The document's lines, the selections and the direction are parameters.
- The asynchronous `editor.edit` batch is not modelled as a host transaction. `ApplyIndentation` requires the selections' line ranges to be pairwise disjoint. Where two selections share a line the batch holds two replacements of one range, which the host rejects or applies in its own way.
- A selection is modelled by its start and end line only; its character positions do not affect which lines are rewritten.
- JavaScript `number` arithmetic is not modelled: the model uses unbounded integers. In the source `fibonacci` is exact only up to about F(78), so ladder values from about depth 78 on, including `Spaces(99)` in the scan, are rounded doubles there.
- `fibonacci` is modelled on natural numbers. The source returns a negative argument unchanged, but its only caller passes `depth + 1 >= 1`. Likewise depths are natural numbers, since every caller clamps them at 0.
- `\s` is modelled by `IsWs` as the ECMAScript WhiteSpace and LineTerminator characters, with the space separators as listed in current Unicode. LF and CR never occur inside a line's text. U+2028 and U+2029 can, and `IsWs` counts them, as `\s` does.
