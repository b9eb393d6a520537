# partial-pretty-printer, modelled in Dafny

This project models the core of the `partial-pretty-printer` Rust library. The library
pretty-prints documents described by *notations*: literal text, newlines, indentation,
concatenation, a choice between two layouts, "flat" sections that must fit on one line, and
repetition over a node's children. Its distinguishing feature is *partial* printing: a printer
starts at a focus point inside a document and produces lines downward and upward from there,
looking only at the part of the document it needs.

The model has one Dafny module per core source file. Code built from expressions and recursion
becomes datatypes, functions and lemmas. The printers and the pane machinery work by changing
state step by step, so they become classes whose fields hold the stacks and buffers the Rust
structs hold, with loops carrying invariants. Every such method is proved against a
specification function. Each specification function is related either to a reference
definition (an oracle printer, a min-plus reading of measures, the layout a notation denotes) or
to the state it preserves.

Conventions used throughout:

- `Width`, `Height`, `Row` and `Col` are `nat`. Where the source subtracts unsigned numbers, the
  model either uses a `requires` (when the source asserts it) or models the underflow as a panic.
- A Rust `panic!`, `assert!` failure, out-of-bounds index or `unwrap` on `None` that input can
  reach is an explicit outcome: `Outcome.Panic` or a `Result` with a panic case.
- Character width is the length of the string (`Text.StrWidth`), one column per `char`.
- Documents are values: each tree datatype carries its notation, its children and its text.
  A `PrettyDoc` is a resolved tree whose accessors never fail (see `Consolidated.Eval` under "## Left out").

## Model

| member | source | states |
|---|---|---|
| Measure.Flat | src/measure.rs:14-19 | a flat measure has only a flat length, n, and no non-flat length |
| Measure.Nonflat | src/measure.rs:21-26 | a non-flat measure has only a first-line length, n |
| Measure.Flattened | src/measure.rs:28-33 | keeps the flat length and always drops the non-flat length |
| Measure.Concat | src/measure.rs:35-48 | the flat length is the sum, or absent if either side lacks one. The non-flat length is the min-plus minimum of the left's non-flat length and the left's flat length plus the right's non-flat length |
| Measure.Choice | src/measure.rs:50-63 | each length is the pointwise minimum of the present lengths. It is absent iff absent on both sides |
| Measure.IsValid | src/measure.rs:65-70 | valid iff some length is present |
| Measure.FitsInWidth | src/measure.rs:72-78 | fits iff the smaller present length is at most w |
| Measure.ExtInjective | src/measure.rs:4-11 | the extended-natural reading of an optional length loses nothing |
| Measure.FitsImpliesValid | src/measure.rs:65-78 | a measure that fits some width is valid |
| Measure.FitsMonotone | src/measure.rs:72-78 | fitting in a width implies fitting in any larger width |
| Measure.ChoiceCommutative | src/measure.rs:50-63 | choice is symmetric |
| Measure.ChoiceAssociative | src/measure.rs:50-63 | choice is associative |
| Measure.ChoiceIdempotent | src/measure.rs:50-63 | choice of a measure with itself is that measure |
| Measure.ConcatAssociative | src/measure.rs:35-48 | concatenation is associative |
| Measure.ConcatUnit | src/measure.rs:14-19 | the flat measure of length 0 is a two-sided unit of concatenation |
| Measure.ConcatDistributesOverChoice | src/measure.rs:35-63 | concatenation distributes over choice on both sides |
| Measure.ChoiceThenConcat | src/measure.rs:35-63 | concatenation distributes over a choice on the left |
| Measure.ConcatThenChoice | src/measure.rs:35-63 | concatenation distributes over a choice on the right |
| Measure.FlattenedChoice | src/measure.rs:28-70 | flattening commutes with choice. A flattened measure is valid iff it had a flat length |
| Choose.AndThen | src/pretty_printing/choose.rs:53-61 | `NoFit` and `MultiLine` pass through unchanged. `f` is applied only to a `SingleLine` remainder |
| Choose.OrElse | src/pretty_printing/choose.rs:63-75 | the result is the least upper bound of the two under the order NoFit < SingleLine(smaller) < SingleLine(larger) < MultiLine |
| Choose.Fits | src/pretty_printing/choose.rs:112-157 | a literal or text fits iff its length is at most the width, and then exactly its length is used. A newline gives NoFit when flat and MultiLine otherwise. A SingleLine remainder never exceeds the width |
| Choose.FitsMonotone | src/pretty_printing/choose.rs:112-157 | more width never gives a worse result |
| Choose.IsValidRules | src/pretty_printing/choose.rs:166-179 | a newline is valid iff not flat. Concat needs both sides. A choice needs one side. A child is valid when not flat or when its body is valid flat. Leaves are valid |
| Choose.IsValidFlatImpliesNonflat | src/pretty_printing/choose.rs:166-179 | a notation valid when flat is also valid when not flat |
| Choose.NewlineFreeSingleLine | src/pretty_printing/choose.rs:112-157 | a notation without newlines never reports MultiLine |
| Choose.FitsAll | src/pretty_printing/choose.rs:79-97 | the loop returns exactly the specification: thread the remaining width left to right, false at the first NoFit, true at the first MultiLine or at the end |
| Choose.FitsAllMonotone | src/pretty_printing/choose.rs:79-97 | if the chunks fit in a width they fit in any larger width |
| Choose.SuffixFromTop | src/pretty_printing/choose.rs:21-27 | the suffix stack is read from the top. Each entry's flat flag is "its indent is absent" |
| Choose.Choose | src/pretty_printing/choose.rs:10-39 | opt2 whenever width < prefix length. Otherwise, with distinct options, opt1 iff (the chunks fit in the remaining width and opt1 is valid) or opt2 is invalid |
| Choose.ChooseValid | src/pretty_printing/choose.rs:29-38 | when the prefix fits and either option is valid, the chosen option is valid |
| Choose.PicksFirstMonotone | src/pretty_printing/choose.rs:32-38 | if opt1 is picked at some width it is picked at every larger width |
| IfFlatPartialPrint.Size | src/if_flat/notation.rs:7-31 | every notation has size at least 1. It is the measure that makes the printer loops terminate |
| IfFlatPartialPrint.MeasureIsSuffixLen | src/if_flat/partial_print.rs:201-212 | counting from a running total gives the total plus the suffix length, and fails exactly when the suffix length fails |
| IfFlatPartialPrint.ComputeSuffixLen | src/if_flat/partial_print.rs:201-212 | the loop returns the suffix length: the first-line lengths summed from the top of the stack down, up to and including the first chunk with a newline. An `unwrap` on a missing length is a failure |
| IfFlatPartialPrint.ScanStep | src/if_flat/partial_print.rs:57-80 | one iteration of `print_first_line`'s loop. Every step that continues shrinks the stack, and so does every stop at a newline |
| IfFlatPartialPrint.ScanLine | src/if_flat/partial_print.rs:55-84 | a scan that stops at a newline leaves a smaller stack |
| IfFlatPartialPrint.Prefixed | src/if_flat/partial_print.rs:22-27 | puts lines in front of the rest, and keeps a panic as a panic |
| IfFlatPartialPrint.DownLines | src/if_flat/partial_print.rs:48-85 | unless at the end, the lines still to come are at least one, and the first is indented by the current `spaces` |
| IfFlatPartialPrint.FirstLineStepLines | src/if_flat/partial_print.rs:48-85 | one call of `print_first_line` returns the first of the lines still to come and leaves the rest to come. It returns nothing iff none are left, and panics only when the whole run would. Each printed line makes the state smaller |
| IfFlatPartialPrint.DownwardPrinter.constructor | src/if_flat/partial_print.rs:39-46 | the stack holds the root notation at indent 0, no spaces yet, not at the end |
| IfFlatPartialPrint.DownwardPrinter.PrintFirstLine | src/if_flat/partial_print.rs:48-85 | the call performs exactly one step of the specification: the line, the new stack, the new `spaces` and the end flag |
| IfFlatPartialPrint.RenderAll | src/if_flat/partial_print.rs:25 | one string per line, each line's spaces in front of its text |
| IfFlatPartialPrint.RenderAllAppend | src/if_flat/partial_print.rs:25 | rendering distributes over appending lines |
| IfFlatPartialPrint.PrintDownwardForTesting | src/if_flat/partial_print.rs:22-27 | the driver loop collects exactly the lines of the specification, or reports the panic |
| IfFlatPartialPrint.PrefixedAppend | src/if_flat/partial_print.rs:22-27 | prefixing one line at a time is prefixing them together |
| IfFlatPartialPrint.ScanPlain | src/if_flat/partial_print.rs:55-84 | on a stack without choices, flats or children, the scan never panics and emits the stack's text up to the first newline |
| IfFlatPartialPrint.DownLinesPlain | src/if_flat/partial_print.rs:48-85 | printing such a stack downward prints its text, the first line indented by `spaces` |
| IfFlatPartialPrint.DownwardMatchesPrettyPrint | src/if_flat/partial_print.rs:22-27 | for a choice-free, flat-free notation the downward printer prints the same text as the whole-document printer of src/if_flat/pretty_print.rs |
| IfFlatPartialPrint.Reversed | src/if_flat/partial_print.rs:34 | element k of the result is element n-1-k of the input |
| IfFlatPartialPrint.StackSizeReversed | src/if_flat/partial_print.rs:152-156 | moving `next` onto `prev` in reverse keeps the total size |
| IfFlatPartialPrint.Expanded | src/if_flat/partial_print.rs:176-181 | expanding an indent, flat or concat replaces it by strictly smaller chunks |
| IfFlatPartialPrint.SeekStart | src/if_flat/partial_print.rs:162-186 | the stacks never grow. When a newline was found and deleted, `prev` got strictly smaller. When none was found, `prev` is empty. If `next` held only literals and choices it still does |
| IfFlatPartialPrint.SeekStep | src/if_flat/partial_print.rs:166-184 | one iteration shrinks `prev`, keeps `next` atomic, and stops only at a newline whose indent it returns |
| IfFlatPartialPrint.NewlineFreeExpanded | src/if_flat/partial_print.rs:176-181 | expanding a chunk adds no newline outside a choice and removes none |
| IfFlatPartialPrint.SeekFindsNewline | src/if_flat/partial_print.rs:158-186 | the seek reaches the beginning of the document iff no chunk it walks over holds a newline outside a choice |
| IfFlatPartialPrint.WalkStep | src/if_flat/partial_print.rs:115-131 | one iteration of `print_last_line`'s loop: a literal moves back to `prev`; a choice is resolved and the line sought again. Every step makes the state smaller |
| IfFlatPartialPrint.UpLoop | src/if_flat/partial_print.rs:113-131 | the loop ends with everything back on `prev` and never enlarges the stacks |
| IfFlatPartialPrint.LastLine | src/if_flat/partial_print.rs:106-150 | nothing is returned iff at the beginning. The last line of the document has indent 0 and empties `prev`. Any other line leaves a smaller `prev` |
| IfFlatPartialPrint.UpLines | src/if_flat/partial_print.rs:106-150 | unless at the beginning, at least one line is still to come upward |
| IfFlatPartialPrint.LastLineStepLines | src/if_flat/partial_print.rs:106-150 | one call of `print_last_line` returns the next line upward and leaves the rest to come. It returns nothing iff none are left, and panics only when the whole run would. `next` is left empty and the state shrinks |
| IfFlatPartialPrint.UpwardPrinter.constructor | src/if_flat/partial_print.rs:97-104 | the root notation is on `prev` at indent 0, `next` is empty, not at the beginning |
| IfFlatPartialPrint.UpwardPrinter.SeekEnd | src/if_flat/partial_print.rs:152-156 | `next` is moved onto `prev` in reverse order and left empty |
| IfFlatPartialPrint.UpwardPrinter.SeekStartOfLastLine | src/if_flat/partial_print.rs:162-186 | the loop performs exactly the seek of the specification, panics exactly when it does, and returns its indent |
| IfFlatPartialPrint.UpwardPrinter.WalkLastLine | src/if_flat/partial_print.rs:115-131 | the loop ends in exactly the state of the specification loop, or panics exactly when it does |
| IfFlatPartialPrint.UpwardPrinter.WalkChunk | src/if_flat/partial_print.rs:116-130 | one iteration gives exactly the specification's walk step |
| IfFlatPartialPrint.UpwardPrinter.TakeLiterals | src/if_flat/partial_print.rs:142-148 | the text is the literals of `next` joined from the top. Any other chunk is a panic |
| IfFlatPartialPrint.UpwardPrinter.PrintLastLine | src/if_flat/partial_print.rs:106-150 | the call performs exactly one step of the specification: the line, the new `prev` and `next`, and the beginning flag |
| IfFlatPartialPrint.PrintUpwardForTesting | src/if_flat/partial_print.rs:29-36 | the driver loop collects exactly the lines of the specification, in document order, or reports the panic |
| IfFlatNotation.FlatHasNoNewline | src/pretty_print.rs:231-279 | a first line measured flat never ends in a newline |
| IfFlatNotation.FlatFreePossible | src/pretty_print.rs:231-279 | a notation with no `Flat` always has a non-flat first line |
| IfFlatNotation.EmptyUnit | src/if_flat/notation.rs:78-85 | `Empty` is a unit of `+` for the first-line measure |
| IfFlatNotation.PlusAssociative | src/if_flat/notation.rs:78-85 | `+` is associative for the first-line measure |
| IfFlatNotation.AboveFirstLine | src/if_flat/notation.rs:96-103 | `a ^ b` has the first line of `a` ended by a newline, and no flat layout |
| IfFlatNotation.NestFirstLine | src/if_flat/notation.rs:105-112 | `i >> n` starts with an empty line ended by a newline, and has no flat layout |
| IfFlatNotation.OrFirstLine | src/pretty_print.rs:261-264 | a choice is measured by its second option when that has a layout, else by its first |
| IfFlatNotation.FitsWhenFlat | src/if_flat/pretty_print.rs:34-35 | the reconstructed `fits_when_flat(available_len)` that the `Choice` arm calls: a length is returned iff the notation has a flat layout at most `width` long, and it is that layout's length |
| IfFlatNotation.FitsWhenFlatMonotone | src/if_flat/pretty_print.rs:34-35 | for the reconstructed `fits_when_flat`: when the `Choice` arm finds that the first option fits flat in `available_len`, it also fits, with the same length, in any larger `available_len` |
| IfFlatNotation.Choose | src/pretty_print.rs:294-323 | the result is one of the two options |
| IfFlatNotation.ChooseRule | src/pretty_print.rs:294-323 | with distinct options, the first is chosen iff it has a layout whose first line fits after the prefix (and before the suffix when no newline ends it), or the second has no layout |
| IfFlatNotation.Repeat | src/if_flat/notation.rs:35-58 | the loop builds exactly the specification: `empty` for 0, `lone($0)` for 1, otherwise `surround` of the children right-nested with `join` |
| IfFlatNotation.Range | src/if_flat/notation.rs:42-44 | the indices lo, lo+1, ..., hi-1 |
| IfFlatNotation.JoinedShowsRange | src/if_flat/notation.rs:49-55 | with a join that keeps its arguments' children in order, the fold shows children lo..hi-1 in order |
| IfFlatNotation.RepeatShowsEachChild | src/if_flat/notation.rs:35-58 | with two or more elements, a repeat shows each child exactly once, from the first to the last |
| IfFlatNotationExamples.CommaList | src/if_flat/notation.rs:35-58 | three children joined with commas build `$0 + "," + ($1 + "," + $2)` |
| IfFlatPrint.PrintableFlatFree | src/if_flat/pretty_print.rs:25-50 | a notation the walk has cases for contains no `Flat`, so it always has a non-flat first line |
| IfFlatPrint.ExtendsTransitive | src/if_flat/pretty_print.rs:22-51 | growing the line list (earlier lines kept, last line extended, lines appended) composes |
| IfFlatPrint.PrintLines | src/if_flat/pretty_print.rs:22-51 | the walk never removes a line |
| IfFlatPrint.PrintLinesExtends | src/if_flat/pretty_print.rs:22-51 | the walk only appends lines or extends the last one: earlier lines are unchanged and the old last line is a prefix of the new one |
| IfFlatPrint.PrettyPrint | src/if_flat/pretty_print.rs:3-7 | the output has at least one line |
| IfFlatPrint.NewLinesIndented | src/if_flat/pretty_print.rs:28-32 | every line the walk adds begins with at least the indentation in effect |
| IfFlatPrint.PrintsTextOf | src/if_flat/pretty_print.rs:22-51 | a choice-free notation prints exactly its text (literals in order, each newline followed by the indentation in effect), whatever the width |
| IfFlatPrint.PrintsTextOfConcat | src/if_flat/pretty_print.rs:39-49 | a concatenation prints the left part's text, then the right part's text after the lines the left part left |
| IfFlatPrint.PrettyPrinter.constructor | src/if_flat/pretty_print.rs:15-20 | the printer starts with one empty line |
| IfFlatPrint.PrettyPrinter.Print | src/if_flat/pretty_print.rs:22-51 | the lines after the call are exactly the specification walk applied to the lines before it |
| IfFlatPrint.PrettyPrintLines | src/if_flat/pretty_print.rs:3-7 | returns exactly the lines of the specification |
| IfFlatPrintExamples.ChoiceByWidth | src/if_flat/pretty_print.rs:33-38 | `"ab" \| ("a" ^ "b")` prints on one line at width 2 and on two lines at width 1 |
| Oracle.IndentString | src/oracle.rs:63-72 | the indentation of a newline is the indent-node segments concatenated from the root down: a node's string is its parent's followed by its own segment |
| Oracle.EmptyLayout | src/oracle.rs:136-141 | one empty line and no end-of-line mark: it displays as the empty string |
| Oracle.AppendNewline | src/oracle.rs:143-147 | adds exactly one line holding the indentation and clears the end-of-line mark. The display grows by a newline and the indentation |
| Oracle.AppendText | src/oracle.rs:149-155 | panics iff the last line ends in an end-of-line mark. Otherwise the number of lines is kept and the display grows by exactly the text |
| Oracle.LastLineLen | src/oracle.rs:157-160 | the width of the last line |
| Oracle.ExtendsTransitive | src/oracle.rs:34-101 | "printing only appends" composes |
| Oracle.FirstLineLen | src/oracle.rs:107-133 | a newline gives 0. Empty and the focus mark give the suffix unchanged. Text adds its width to a known suffix. An end-of-line mark gives 0 iff followed by a newline |
| Oracle.Forward | src/oracle.rs:73-98 | a failed part is passed on with its error, a panicking part as a panic |
| Oracle.Clamp | src/oracle.rs:77 | a known suffix is capped at `MAX_WIDTH` and never grows |
| Oracle.FirstLineLenMonotone | src/oracle.rs:107-133 | a longer suffix never gives a shorter first line. "Unknown" counts as longest |
| Oracle.Fits | src/oracle.rs:84-93 | the first option fits only when its first line is known, the last line has no end-of-line mark unless that first line is empty, and the two fit in the width |
| Oracle.PP | src/oracle.rs:34-101 | a result always extends the prefix: earlier lines kept, the last one extended, lines appended. Empty and the focus mark leave it unchanged |
| Oracle.ChoiceRule | src/oracle.rs:81-98 | with both options evaluated, the choice prints the first option iff it fits by the rule above, else the second |
| Oracle.ChoiceFreeIgnoresWidth | src/oracle.rs:34-101 | without choices, neither the width nor the suffix changes the printed layout |
| Oracle.FirstLineLenTotalDone | src/oracle.rs:107-133 | when every part evaluated, `first_line_len` never fails |
| Oracle.OracularPrettyPrint | src/oracle.rs:24-32 | never reports an error: every error and every width of `MAX_WIDTH` or more is a panic. A result is the display of `pp` from the empty layout with suffix 0 |
| IndentOracle.EmptyLayout | src/pretty_printing/oracle.rs:108-113 | one empty line and an empty indentation stack |
| IndentOracle.AppendText | src/pretty_printing/oracle.rs:115-118 | changes only the last line: the stack and the number of lines are kept, and the display grows by exactly the text |
| IndentOracle.AppendNewline | src/pretty_printing/oracle.rs:120-124 | adds one line equal to the concatenation of the indentation stack, and keeps the stack |
| IndentOracle.PushIndent | src/pretty_printing/oracle.rs:126-129 | pushes the string on the stack and leaves the lines alone |
| IndentOracle.PopIndent | src/pretty_printing/oracle.rs:131-134 | pops the top of the stack, leaves an empty stack empty, and leaves the lines alone |
| IndentOracle.PopUndoesPush | src/pretty_printing/oracle.rs:126-134 | popping after a push restores the layout |
| IndentOracle.LastLineLen | src/pretty_printing/oracle.rs:136-139 | the width of the last line |
| IndentOracle.ExtendsTransitive | src/pretty_printing/oracle.rs:33-79 | "printing only appends" composes |
| IndentOracle.Forward | src/pretty_printing/oracle.rs:54-74 | a failed part is passed on with its error |
| IndentOracle.FirstLineLen | src/pretty_printing/oracle.rs:84-105 | never fails when every part evaluated. Without a newline, the result is at least the suffix (capped at `MAX_WIDTH`) |
| IndentOracle.FirstLineLenMonotone | src/pretty_printing/oracle.rs:84-105 | a longer suffix never gives a shorter first line |
| IndentOracle.PP | src/pretty_printing/oracle.rs:33-79 | a result extends the prefix. A tree without push or pop leaves the indentation stack as it found it. Never fails when every part evaluated |
| IndentOracle.ChoiceRule | src/pretty_printing/oracle.rs:62-75 | with both options evaluated, the choice prints the first option iff the last line's length plus its first-line length is at most the width, else the second |
| IndentOracle.OracularPrettyPrint | src/pretty_printing/oracle.rs:24-31 | never reports an error: errors and widths of `MAX_WIDTH` or more panic. With every part evaluated and a width below `MAX_WIDTH` it produces a string |
| Consolidated.NSize | src/notation.rs:1-65 | every notation has size at least 1 |
| Consolidated.NumChildren | src/doc_examples/tree.rs:176-181 | a count iff the node has children, and then it is their number |
| Consolidated.UnwrapChild | src/doc_examples/tree.rs:190-195 | the i-th child when the node has one; any other index panics and nothing reports an error |
| Consolidated.NormalizeChildIndex | src/consolidated_notation.rs:350-360 | an index is accepted iff -len <= i < len. Non-negative indices count from the front, negative ones from the back |
| Consolidated.ExtendsTransitive | src/consolidated_notation.rs:282-298 | an indentation built by pushing onto one built by pushing onto a third extends the third |
| Consolidated.New | src/consolidated_notation.rs:224-244 | starts at the document's own notation, not flat, with no indentation and no fold position |
| Consolidated.Delays | src/consolidated_notation.rs:300-316 | the delayed parts of a consolidated node: two for a concatenation or choice, the child for a child, none otherwise |
| Consolidated.Eval | src/consolidated_notation.rs:251-440 | terminates, and its outcome satisfies the contract of the walk. Under flat no choice is returned. Flatness is kept and indentation only grows in every part. Text comes from the node's own contents. Each mismatch error is true of the node, and no printing-stage error is raised. A child result holds the child it names. Parts keep the fold position consistent |
| Consolidated.ContinueAdvances | src/consolidated_notation.rs:277-425 | a step that re-evaluates stays in the same node, keeps flatness, only adds indentation, keeps the fold position consistent, and moves down the termination order |
| Consolidated.ContinuePrecedes | src/consolidated_notation.rs:277-425 | every re-evaluation moves down the lexicographic order (join bound, join index, notation size) |
| Consolidated.ContinueKeeps | src/consolidated_notation.rs:277-425 | every re-evaluation keeps the node and flatness, only pushes indentation, and keeps consistency |
| Consolidated.StopResolves | src/consolidated_notation.rs:251-440 | a step that returns returns an outcome the walk's contract describes |
| Consolidated.ResolvesCarriesBack | src/consolidated_notation.rs:251-440 | what the walk guarantees from a later step it guarantees from an earlier one |
| Consolidated.CheckedDoc | src/consolidated_notation.rs:318-341 | `Here` is the node itself. `Child(i)` fails with the childless error iff the node is textual, and with the out-of-bounds error exactly when the index does not normalise. `RightChild` is the fold's current child, and `LeftChild` the child before it. Both panic outside a fold |
| Consolidated.FoldPositions | src/consolidated_notation.rs:403-438 | inside the k-th join of a fold, `Right` is the k-th child. `Left` is `first` when k = 1 and otherwise the (k-1)-th join |
| Consolidated.FoldRight | src/consolidated_notation.rs:426-438 | inside the k-th join of a fold, `Right` evaluates to child k, with the fold position cleared |
| Consolidated.FoldLeft | src/consolidated_notation.rs:403-425 | inside the k-th join of a fold, `Left` evaluates as `first` when k = 1, and otherwise as the join at k-1 with a consistent position |
| Consolidated.FoldStart | src/consolidated_notation.rs:384-402 | a fold over no children is empty and over one child is `first`. Over n >= 2 children it starts at the last child's join with a consistent position |
| Consolidated.SplitAt | src/consolidated_notation.rs:105-130 | the two halves concatenate to the text. The left half has `charPos` characters, or all of them when the text is shorter. Widths are the halves' lengths, and the text/literal flag is kept |
| FoldDoc.NSize | src/pretty_printing/consolidated_notation.rs:97-216 | every notation has size at least 1. It is part of the order that makes the walks terminate |
| FoldDoc.NumChildren | src/pretty_printing/pretty_doc.rs:18-23 | a count iff the node has children, and then it is their number |
| FoldDoc.New | src/pretty_printing/consolidated_notation.rs:82-90 | starts at the node's own notation, not flat, indent 0, no fold position |
| FoldDoc.SameJoinSmaller | src/pretty_printing/consolidated_notation.rs:112-180 | a step to a strictly smaller notation with the same fold position moves down the termination order |
| ConsolidatedLoop.UnwrapChild | src/pretty_printing/pretty_doc.rs:25-32 | the i-th child when it exists; otherwise a panic, never an error |
| ConsolidatedLoop.ContinueAdvances | src/pretty_printing/consolidated_notation.rs:112-213 | a pass that goes on moves down the termination order and keeps flatness. Indentation never shrinks. The node stays the same unless the pass was `Right`, which leaves `Right` with no fold position behind |
| ConsolidatedLoop.StopResolves | src/pretty_printing/consolidated_notation.rs:100-216 | a pass that returns returns an outcome the walk's contract describes |
| ConsolidatedLoop.EvalSpec | src/pretty_printing/consolidated_notation.rs:97-216 | under flat no choice is returned. The parts keep flatness, indentation and the node. Text is the node's own. Every error is true of the node, and a child is never produced: the node is asked for child n of n |
| ConsolidatedLoop.RightThenPanic | src/pretty_printing/consolidated_notation.rs:205-208 | `Right` outside a fold panics |
| ConsolidatedLoop.RightAlwaysPanics | src/pretty_printing/consolidated_notation.rs:205-213 | `Right` always panics: inside a fold it keeps the notation `Right` and clears the fold position, so the next pass panics |
| ConsolidatedLoop.ChildNeverResolves | src/pretty_printing/consolidated_notation.rs:147-160 | a `Child(i)` on a node with n children reports out-of-bounds when i >= n, and otherwise panics on `unwrap_child(n)` |
| ConsolidatedLoop.Unfold | src/pretty_printing/consolidated_notation.rs:100-215 | the walk from a state is the result of its pass, or the walk from the state the pass leaves |
| ConsolidatedLoop.Pass | src/pretty_printing/consolidated_notation.rs:101-214 | one pass of the loop body is exactly one step of the specification |
| ConsolidatedLoop.Eval | src/pretty_printing/consolidated_notation.rs:97-216 | the loop returns exactly the specification's outcome |
| NotationWalker.ChildAt | src/pretty_printing/notation_walker.rs:105-112 | the i-th child exactly when the node is a branch with more than i children |
| NotationWalker.ContinueAdvances | src/pretty_printing/notation_walker.rs:66-165 | a pass that goes on moves down the termination order and keeps flatness. Indentation never shrinks. The node stays the same unless the pass was `Right` |
| NotationWalker.StopResolves | src/pretty_printing/notation_walker.rs:66-113 | a pass that returns returns a walker the contract of `force` describes |
| NotationWalker.ForceSpec | src/pretty_printing/notation_walker.rs:62-168 | under flat no choice is returned. The parts keep flatness, indentation and the node. Text is the node's own. A child walker is never returned, because the node is asked for child n of n |
| NotationWalker.SingleChildFoldLeftPanics | src/pretty_printing/notation_walker.rs:121-150 | a fold over one child whose join starts with `Left` panics, because the index 0 underflows |
| NotationWalker.RightAlwaysPanics | src/pretty_printing/notation_walker.rs:157-165 | `Right` always panics: inside a fold it leaves the notation `Right` with no fold position, so the next pass panics |
| NotationWalker.Unfold | src/pretty_printing/notation_walker.rs:65-166 | the walk from a walker is the result of its pass, or the walk from the walker the pass leaves |
| NotationWalker.Pass | src/pretty_printing/notation_walker.rs:66-165 | one pass of the loop body is exactly one step of the specification |
| NotationWalker.Force | src/pretty_printing/notation_walker.rs:62-168 | the loop returns exactly the specification's result |
| RepeatNotation.NSize | src/pretty_printing/notation_ref.rs:142-205 | every notation has size at least 1. It is part of the order that makes the walk terminate |
| RepeatNotation.RSize | src/pretty_printing/notation_ref.rs:144-160 | a repeat is larger than each of its four parts, so replacing `Repeat` by one of them moves down the order |
| RepeatNotation.NumChildren | src/pretty_printing/pretty_doc.rs:18-23 | a count iff the node has children, and then it is their number |
| NotationRef.UnwrapText | src/pretty_printing/pretty_doc.rs:11-16 | the text exactly when the node is texty; otherwise a panic |
| NotationRef.UnwrapChild | src/pretty_printing/pretty_doc.rs:25-32 | the i-th child exactly when it exists; otherwise a panic |
| NotationRef.ContinueAdvances | src/pretty_printing/notation_ref.rs:142-205 | a pass that goes on, other than the one from a `Right` past the last join once the walk has passed the top of a join, keeps the repeat bound, moves down the termination order and stays in the node. Flatness is kept and indentation never shrinks |
| NotationRef.RepeatStepAdvances | src/pretty_printing/notation_ref.rs:144-186 | the `Repeat`, `Surrounded` and `Right` passes, including `Right` moving on past the last join before any join top was passed, move down the order and change neither flatness nor indentation |
| NotationRef.StopSettles | src/pretty_printing/notation_ref.rs:144-202 | a pass panics exactly where the source does (a `Repeat` inside a repeat or on a texty node, `Surrounded` outside `surround`, `Left` outside `join`, `Right` outside `join` or on a texty node, `IfEmptyText` on a node with children). It stops with the reference unchanged exactly when that is settled, and otherwise goes on |
| NotationRef.Walk | src/pretty_printing/notation_ref.rs:142-205 | the reference returned is settled and within the repeat bound; it is in the same node, keeps flatness and has indentation no smaller. It is `None` where the source panics, and (`WalkFromLoops`) wherever the loop meets a `Right` past the last join after the top of a join |
| NotationRef.SettledIsFixed | src/pretty_printing/notation_ref.rs:165-202 | a reference that is already settled is returned as it is |
| NotationRef.FromPartsSpec | src/pretty_printing/notation_ref.rs:125-208 | the reference built from the parts is settled and in the same node, keeps flatness and has indentation no smaller; there is none where the source panics or (`WalkFromLoops`) its loop never ends |
| NotationRef.Unfold | src/pretty_printing/notation_ref.rs:142-205 | the walk from a reference is the result of its pass, or the walk from the reference the pass leaves (with the join top marked passed after `Surrounded` or `Right`); at a `Right` past the last join after a join top it is `None` |
| NotationRef.Pass | src/pretty_printing/notation_ref.rs:143-204 | one pass of the loop body is exactly one step of the specification, including `Right` moving on to the join `i+1` whenever `i+2` is not the number of children |
| NotationRef.FromParts | src/pretty_printing/notation_ref.rs:125-208 | the loop builds exactly the specification's reference; it stops with `None` where the source's loop would go on forever |
| NotationRef.WalkFrom | src/pretty_printing/notation_ref.rs:142-205 | the walk from a reference part-way through the loop returns a settled reference in the same node, keeping flatness and not lowering indentation |
| NotationRef.WalkFromLoops | src/pretty_printing/notation_ref.rs:175-182 | wherever the walk loops, it returns no reference |
| NotationRef.RunReachesWalk | src/pretty_printing/notation_ref.rs:142-205 | unless the walk loops, running the loop body `Passes` times stops it, with the walk's result |
| NotationRef.AlikeLoops | src/pretty_printing/notation_ref.rs:175-182 | two references with the same node and notation, at the same position or both at joins of the same repeat past the last one, loop alike |
| NotationRef.LoopRunsForever | src/pretty_printing/notation_ref.rs:142-205 | on a walk that loops, no number of passes of the loop body stops it |
| NotationRef.NeverEnds | src/pretty_printing/notation_ref.rs:142-205 | the source's loop either stops after finitely many passes with the walk's result, or, exactly where the walk loops, never stops |
| NotationRef.LoneSurroundedLoops | src/pretty_printing/notation_ref.rs:150-182 | a one-child node whose `lone` is `Surrounded` and whose `join` is `Right` makes the loop run forever; the model's `New` gives `None` |
| NotationRef.RightPastLastJoinMovesOn | src/pretty_printing/notation_ref.rs:175-182 | with one child, a `Right` in the join at 0 is not at the last join and moves on to the join at 1 |
| NotationRef.New | src/pretty_printing/notation_ref.rs:106-108 | the reference to a whole node is settled and refers to that node |
| NotationRef.FakeStartOfDocNewline | src/pretty_printing/notation_ref.rs:110-119 | a settled, unflattened, unindented newline in the same node |
| NotationRef.Subnotation | src/pretty_printing/notation_ref.rs:211-213 | a settled reference in the same node that keeps flatness |
| NotationRef.ChildRef | src/pretty_printing/notation_ref.rs:215-224 | only for an existing child i, and then a settled reference to that child that keeps flatness and indentation |
| NotationRef.Case | src/pretty_printing/notation_ref.rs:69-104 | text only from a texty node. A child only when it exists, and `Left`/`Right` in the join between i and i+1 stand for children i and i+1. Both sides of a concatenation or choice are settled references in the same node |
| NotationRef.ChildCase | src/pretty_printing/notation_ref.rs:81-94 | the case is child i, and i exists, with a settled reference to it |
| NotationRef.SeparatedBy | src/pretty_printing/notation_ref.rs:144-186 | the join puts the separator between `Left` and `Right` |
| NotationRef.ChildVisit | src/pretty_printing/notation_ref.rs:81-94 | `Child(i)`, or `Left`/`Right` standing for child i, meets child i and nothing else |
| NotationRef.JoinAt | src/pretty_printing/notation_ref.rs:170-177 | the join between two children is a settled concatenation |
| NotationRef.RightStep | src/pretty_printing/notation_ref.rs:178-189 | `Right` stays itself at the last join; elsewhere it moves on to the next join |
| NotationRef.VisitsConcat | src/pretty_printing/notation_ref.rs:75-77 | a concatenation meets what its left side meets, then what its right side meets |
| NotationRef.LastTailCase | src/pretty_printing/notation_ref.rs:178-182 | at the last join, the part after `Left` is the separator followed by the last child |
| NotationRef.MoreTailCase | src/pretty_printing/notation_ref.rs:183-186 | before the last join, the part after `Left` is the separator followed by the next join |
| NotationRef.TailVisits | src/pretty_printing/notation_ref.rs:178-186 | the part after `Left` in the join at i meets children i+1 up to the last, in order |
| NotationRef.LastTailVisits | src/pretty_printing/notation_ref.rs:178-182 | at the last join that part meets only the last child |
| NotationRef.MoreTailVisits | src/pretty_printing/notation_ref.rs:183-186 | before the last join, that part meets what the next join meets |
| NotationRef.JoinCase | src/pretty_printing/notation_ref.rs:75-77 | the join at i is `Left` followed by the rest of the join |
| NotationRef.JoinVisits | src/pretty_printing/notation_ref.rs:170-186 | the join at i meets children i up to the last, each once, in order |
| NotationRef.JoinVisitsStep | src/pretty_printing/notation_ref.rs:170-186 | the join at i meets child i and then what the rest of the join meets |
| NotationRef.VisitsCons | src/pretty_printing/notation_ref.rs:75-77 | meeting child i and then i+1 up to k is meeting i up to k |
| NotationRef.JoinLeftVisit | src/pretty_printing/notation_ref.rs:82-87 | `Left` in the join at i meets child i |
| NotationRef.NewSeparated | src/pretty_printing/notation_ref.rs:144-164 | a separated list settles at `empty` for no children and at `lone` for one. For more it settles at the first join |
| NotationRef.RepeatVisitsEachChild | src/pretty_printing/notation_ref.rs:144-186 | a separated list meets each child exactly once, in order |
| NotationRef.EmptyVisit | src/pretty_printing/notation_ref.rs:150 | with no children a separated list meets none |
| NotationRef.LoneVisit | src/pretty_printing/notation_ref.rs:151 | with one child a separated list meets it |
| NotationRef.ManyVisit | src/pretty_printing/notation_ref.rs:152-163 | with two or more children a separated list meets all of them, in order |
| Validate.PartContext | src/validate.rs:183-200 | as written, a part of a `Repeat` is checked in the repeat's own context; the intended revision checks it in the context of its part |
| Validate.ValidateRec | src/validate.rs:107-200 | the recursive check never itself reports flattened children; that error comes only from the top |
| Validate.Both | src/validate.rs:173-177 | succeeds iff both parts succeed, and then answers their conjunction. Otherwise it reports the first error |
| Validate.Either | src/validate.rs:165-182 | succeeds iff both parts succeed, and then answers their disjunction. Otherwise it reports the first error |
| Validate.Validate | src/validate.rs:91-101 | accepts iff the recursive check from outside any repeat, not flat, succeeds with true; the accepted notation keeps its arity |
| Validate.ValidateIntended | src/validate.rs:91-101 | the same acceptance with every part of a `Repeat` checked in its own context |
| Validate.ValidateWith | src/validate.rs:91-101 | when the recursive check succeeds but answers false, the error is flattened children |
| Validate.FreeChildrenMeaning | src/validate.rs:103-106 | a successful recursive check answers true iff some choice of options puts no child (nor `Left`, `Right`, `Surrounded`) under a `Flat` |
| Validate.FreeLeaf | src/validate.rs:117-164 | a leaf has such a layout iff it is not a child under a `Flat` |
| Validate.FreeFlat | src/validate.rs:125 | `Flat(x)` has such a layout iff x has one when flat |
| Validate.FreeIndent | src/validate.rs:126 | indentation changes nothing |
| Validate.FreeConcat | src/validate.rs:173-177 | a concatenation has such a layout iff both sides have one |
| Validate.FreeConcatFromParts | src/validate.rs:173-177 | layouts of both sides make one for the concatenation |
| Validate.FreeConcatToParts | src/validate.rs:173-177 | a layout of the concatenation gives one for each side |
| Validate.FreeEither | src/validate.rs:165-182 | a choice or `IfEmptyText` has such a layout iff one of its options has |
| Validate.FreeRepeat | src/validate.rs:190-197 | a `Repeat` has such a layout iff all four of its parts have one |
| Validate.FreeRepeatFromParts | src/validate.rs:190-197 | layouts of the four parts make one for the repeat |
| Validate.FreeRepeatToParts | src/validate.rs:190-197 | a layout of the repeat gives one for each part |
| Validate.ValidHasFreeLayout | src/validate.rs:91-101 | an accepted notation has a layout that flattens no child |
| Validate.AsWrittenRejectsMarkers | src/validate.rs:127-148 | as written, any notation mentioning `Left`, `Right` or `Surrounded` is rejected wherever the marker is |
| Validate.IntendedIffWellPlaced | src/validate.rs:107-200 | with the intended contexts, and no newline under a flat, the check succeeds iff every marker, child, text and repeat is where the node's arity and the context allow it |
| Validate.FlatNewlineRejected | src/validate.rs:118-124 | a newline under a `Flat` is rejected |
| ValidateExamples.ListNotation | src/validate.rs:183-200 | a separated list whose `lone` is `Child(0)` |
| ValidateExamples.ListNotationRejected | src/validate.rs:157-161 | as written, the separated list on a listy node is rejected for its `Child(0)` |
| ValidateExamples.ListNotationAccepted | src/validate.rs:183-200 | the intended revision accepts the separated list |
| ValidateExamples.ListPartsAccepted | src/validate.rs:157-163 | `Child(0)` in `lone` and the join `Left sep Right` in `join` are accepted |
| ValidNotation.AndThen | src/valid_notation.rs:90-121 | succeeds iff both checks succeed; the first error wins |
| ValidNotation.ValidateRec | src/valid_notation.rs:80-127 | text is accepted iff it is outside any `Count` or `Fold`. `Left` and `Right` are accepted iff they sit in a fold's `join`. A child is accepted iff it is not inside `IfEmptyText` nor in a count's `zero`, and in a count's `one` it is child 0 |
| ValidNotation.Validate | src/valid_notation.rs:75-78 | accepts iff the recursive check from the top succeeds, and returns the notation unchanged |
| ValidNotation.FlatIrrelevant | src/valid_notation.rs:80-127 | whether a notation is under `Flat` never changes the verdict |
| ValidNotation.NoTextInCount | src/valid_notation.rs:86-98 | whatever checks out inside a `Count` or `Fold` holds no text and no `IfEmptyText` |
| ValidNotation.ValidIsScoped | src/valid_notation.rs:108-124 | whatever checks out has every `Left`/`Right` in a fold's `join` and every `Fold` in a count's `one` or `many` |
| ValidNotation.ChildInTextRejected | src/valid_notation.rs:99-103 | a child under an `IfEmptyText` (outside counts) is rejected |
| ValidNotation.ValidatedIsScoped | src/valid_notation.rs:75-78 | a validated notation is scoped from the top |
| PrettyPrint.Size | src/pretty_print.rs:84-108 | every notation has size at least 1; stepping into a part or a child makes the stack smaller |
| PrettyPrint.StackSizePush | src/pretty_print.rs:96-107 | pushing a chunk adds its size to the stack's |
| PrettyPrint.Inline | src/pretty_print.rs:107 | the notation with every child replaced by the child's own notation shows no child |
| PrettyPrint.InlineStack | src/pretty_print.rs:36 | inlining a stack keeps its length, chunk by chunk |
| PrettyPrint.InlinePush | src/pretty_print.rs:96-107 | inlining commutes with a push |
| PrettyPrint.InlineAppend | src/pretty_print.rs:96-107 | inlining commutes with concatenating stacks |
| PrettyPrint.InlinePop | src/pretty_print.rs:84 | inlining commutes with a pop |
| PrettyPrint.MinFirstLineLen | src/pretty_print.rs:231-279 | a flat first line never ends in a newline |
| PrettyPrint.MinFirstLineLenInlined | src/pretty_print.rs:277 | measuring a child measures its notation: the measure equals that of the inlined notation |
| PrettyPrint.MeasurePop | src/pretty_print.rs:281-292 | the suffix measure of a stack is built from its top chunk's measure and the rest's |
| PrettyPrint.ComputeSuffixLen | src/pretty_print.rs:281-292 | the loop computes the suffix length of the stack, as the specification of the inlined stack defines it |
| PrettyPrint.Choose | src/pretty_print.rs:294-323 | the result is one of the two options. When they differ it is the first iff the first has a layout whose first line fits after the prefix (before the suffix, when that line has no newline), or the second has no layout |
| PrettyPrint.ChooseInlined | src/pretty_print.rs:294-323 | choosing and then inlining is choosing between the inlined options |
| PrettyPrint.LiftedStep | src/pretty_print.rs:84-108 | a loop iteration on a chunk that is neither child nor choice is the same iteration on the inlined stack |
| PrettyPrint.LiftedIndent | src/pretty_print.rs:96 | likewise for `Indent` |
| PrettyPrint.LiftedFlat | src/pretty_print.rs:97 | likewise for `Flat` |
| PrettyPrint.LiftedConcat | src/pretty_print.rs:98-101 | likewise for `Concat` |
| PrettyPrint.LiftedLeaf | src/pretty_print.rs:86-95 | likewise for `Empty`, `Literal` and `Newline` |
| PrettyPrint.ChoiceScanned | src/pretty_print.rs:102-106 | a choice on top of the inlined stack is replaced by the option chosen against the rest's suffix length |
| PrettyPrint.ChoiceScanPanics | src/pretty_print.rs:102-106 | a choice whose suffix has no layout panics |
| PrettyPrint.ChoiceStepScanned | src/pretty_print.rs:102-106 | the same choice step on the stack with children |
| PrettyPrint.ChoiceStepPanics | src/pretty_print.rs:102-106 | the same panic on the stack with children |
| PrettyPrint.LiftedChoice | src/pretty_print.rs:102-106 | the choice step lifts to the inlined stack |
| PrettyPrint.ChildStep | src/pretty_print.rs:107 | a child is replaced by its notation. The inlined stack is unchanged and the stack gets smaller |
| PrettyPrint.ScanStepInlined | src/pretty_print.rs:84-108 | every iteration shrinks the stack, or stops at a newline, or panics, exactly as the scan of the inlined stack does |
| PrettyPrint.DownwardPrinter.constructor | src/pretty_print.rs:66-73 | the stack holds the whole notation at indentation 0; no spaces, not at the end |
| PrettyPrint.DownwardPrinter.ScanChunk | src/pretty_print.rs:85-108 | one iteration is one step of the specification |
| PrettyPrint.DownwardPrinter.PrintFirstLine | src/pretty_print.rs:75-113 | the printed line and the new stack are exactly what the inlined notation's downward step gives |
| PrettyPrint.PrintDownwardForTesting | src/pretty_print.rs:41-50 | the lines printed are exactly those of the inlined notation |
| PrettyPrint.InlineCons | src/pretty_print.rs:96-107 | inlining commutes with putting a chunk first |
| PrettyPrint.InlineReversed | src/pretty_print.rs:180-188 | inlining commutes with reversing a stack |
| PrettyPrint.Expanded | src/pretty_print.rs:196-209 | expanding `Empty`, `Indent`, `Flat` or `Concat` yields at most two chunks |
| PrettyPrint.LiftedSeekStep | src/pretty_print.rs:194-213 | a backward step on a chunk that is not a child is the same step on the inlined stacks |
| PrettyPrint.SeekMoves | src/pretty_print.rs:197-210 | a literal or choice moves from `prev` to `next`, on the inlined stacks |
| PrettyPrint.MovesStep | src/pretty_print.rs:197-210 | the same move on the stacks with children |
| PrettyPrint.AtomStep | src/pretty_print.rs:197-210 | the move, stated on any inlined stacks |
| PrettyPrint.SeekExpands | src/pretty_print.rs:196-209 | an `Empty`, `Indent`, `Flat` or `Concat` is expanded in place, on the inlined stacks |
| PrettyPrint.ExpandsStep | src/pretty_print.rs:196-209 | the same expansion on the stacks with children |
| PrettyPrint.ExpandStep | src/pretty_print.rs:196-209 | the expansion, stated on any inlined stacks |
| PrettyPrint.InlineExpanded | src/pretty_print.rs:196-209 | expanding and inlining commute |
| PrettyPrint.ChildSeekStep | src/pretty_print.rs:211 | stepping back into a child replaces it by its notation. The inlined stack is unchanged and the stack gets smaller |
| PrettyPrint.SeekStepInlined | src/pretty_print.rs:194-213 | every backward step shrinks `prev`, finds the newline or panics, exactly as the inlined step does |
| PrettyPrint.SeekChunk | src/pretty_print.rs:195-212 | one iteration is one step of the specification and keeps `next` made of literals and choices |
| PrettyPrint.SeekStartOf | src/pretty_print.rs:190-215 | panics iff the inlined seek panics; otherwise it leaves the inlined seek's stacks and the indentation of the newline found, keeping `next` made of literals and choices |
| PrettyPrint.WalkLiteral | src/pretty_print.rs:145-148 | a literal on `next` moves back to `prev` and advances the column by its length |
| PrettyPrint.Resumed | src/pretty_print.rs:149-156 | resuming after a choice panics iff the seek it runs panics |
| PrettyPrint.ChoiceWalkPanics | src/pretty_print.rs:149-156 | a choice whose suffix has no layout panics |
| PrettyPrint.ChoiceWalkResumes | src/pretty_print.rs:149-156 | a choice is resolved against its suffix length and the seek restarts from the line's start |
| PrettyPrint.WalkChoicePanics | src/pretty_print.rs:149-156 | the same panic on the stacks with children |
| PrettyPrint.WalkChoiceResumes | src/pretty_print.rs:149-156 | the same resolution on the stacks with children |
| PrettyPrint.Prepend | src/pretty_print.rs:171-175 | a literal put before a line of text: the text grows by the literal, which comes first |
| PrettyPrint.LiteralTop | src/pretty_print.rs:173 | a stack topped by a literal reads as that literal followed by the rest |
| PrettyPrint.ChoiceTop | src/pretty_print.rs:174 | a stack topped by a choice cannot be read as text |
| PrettyPrint.JoinLiterals | src/pretty_print.rs:169-177 | the loop reads the stack exactly as the specification does; a choice left on it is a panic |
| PrettyPrint.Finished | src/pretty_print.rs:159-178 | the second half of printing the last line never reports the document exhausted |
| PrettyPrint.LastLineSplits | src/pretty_print.rs:134-178 | printing the last line is walking back over it and then finishing it |
| PrettyPrint.UpwardPrinter.constructor | src/pretty_print.rs:125-132 | the stack behind holds the whole notation at indentation 0; nothing ahead, not at the beginning |
| PrettyPrint.UpwardPrinter.SeekEnd | src/pretty_print.rs:180-188 | everything ahead is moved behind, in reverse order |
| PrettyPrint.UpwardPrinter.SeekStartOfLastLine | src/pretty_print.rs:190-215 | panics iff the inlined seek does; otherwise the stacks are the seek's |
| PrettyPrint.UpwardPrinter.WalkLastLine | src/pretty_print.rs:142-158 | panics iff the inlined walk does; otherwise the stacks are the walk's |
| PrettyPrint.UpwardPrinter.WalkChunk | src/pretty_print.rs:144-157 | one iteration is one step of the inlined walk |
| PrettyPrint.UpwardPrinter.TakeLiterals | src/pretty_print.rs:169-177 | reads the stack ahead as text and empties it; a choice on it leaves it and reports the panic |
| PrettyPrint.UpwardPrinter.WalkBack | src/pretty_print.rs:134-158 | panics iff walking back over the last line panics; otherwise the stack behind is that walk's |
| PrettyPrint.UpwardPrinter.FinishLastLine | src/pretty_print.rs:159-178 | the line, the stack behind and whether the beginning was reached are those of the specification |
| PrettyPrint.UpwardPrinter.PrintLastLine | src/pretty_print.rs:134-178 | the printed line and the new stacks are exactly what the inlined notation's upward step gives |
| PrettyPrint.PrintUpwardForTesting | src/pretty_print.rs:52-63 | the lines printed, bottom to top, are exactly those of the inlined notation |
| CursorPrinter.Size | src/pretty_printing/pretty_print_2.rs:106-121 | every notation has size at least 1; unfolding a chunk makes the stack smaller |
| CursorPrinter.StackSizePush | src/pretty_printing/pretty_print_2.rs:106-121 | pushing a chunk adds its size to the stack's |
| CursorPrinter.Atoms | src/pretty_printing/pretty_print_2.rs:106-121 | a chunk spells out a sequence of atomic chunks (literal, text, newline, child, choice) |
| CursorPrinter.BehindPush | src/pretty_printing/pretty_print_2.rs:132-147 | pushing a chunk behind the cursor adds its atoms at the end of what is behind |
| CursorPrinter.AheadPush | src/pretty_printing/pretty_print_2.rs:106-121 | pushing a chunk ahead of the cursor puts its atoms first in what is ahead |
| CursorPrinter.AheadAppend | src/pretty_printing/pretty_print_2.rs:106-121 | what a stack spells ahead is read from its top down, and sizes add up |
| CursorPrinter.BehindAppend | src/pretty_printing/pretty_print_2.rs:132-147 | what a stack spells behind is read from its bottom up, and sizes add up |
| CursorPrinter.UnfoldAheadAtoms | src/pretty_printing/pretty_print_2.rs:110-116 | unfolding a chunk ahead spells the same atoms with a smaller stack |
| CursorPrinter.UnfoldBehindAtoms | src/pretty_printing/pretty_print_2.rs:136-142 | unfolding a chunk behind spells the same atoms with a smaller stack |
| CursorPrinter.AheadUnfold | src/pretty_printing/pretty_print_2.rs:110-116 | unfolding the top of the stack ahead keeps what it spells and shrinks it |
| CursorPrinter.BehindUnfold | src/pretty_printing/pretty_print_2.rs:136-142 | unfolding the top of the stack behind keeps what it spells and shrinks it |
| CursorPrinter.ForwardStep | src/pretty_printing/pretty_print_2.rs:106-117 | one forward iteration shrinks the stack ahead |
| CursorPrinter.BackwardStep | src/pretty_printing/pretty_print_2.rs:132-143 | one backward iteration shrinks the stack behind |
| CursorPrinter.AtomsOfAtom | src/pretty_printing/pretty_print_2.rs:108-109 | an atomic chunk spells itself |
| CursorPrinter.ForwardAtomAhead | src/pretty_printing/pretty_print_2.rs:108-109 | an atom ahead moves behind the cursor |
| CursorPrinter.ForwardUnfoldAhead | src/pretty_printing/pretty_print_2.rs:110-116 | a non-atom ahead is unfolded in place |
| CursorPrinter.ForwardStepAhead | src/pretty_printing/pretty_print_2.rs:106-117 | a forward iteration never changes the document the two stacks spell |
| CursorPrinter.BackwardAtomBehind | src/pretty_printing/pretty_print_2.rs:134-135 | an atom behind moves ahead of the cursor |
| CursorPrinter.BackwardUnfoldBehind | src/pretty_printing/pretty_print_2.rs:136-142 | a non-atom behind is unfolded in place |
| CursorPrinter.BackwardStepBehind | src/pretty_printing/pretty_print_2.rs:132-143 | a backward iteration never changes the document and only adds on top of the stack ahead |
| CursorPrinter.SeekForwardKeepsDocument | src/pretty_printing/pretty_print_2.rs:101-123 | seeking forward never changes the document |
| CursorPrinter.SeekBackwardKeepsDocument | src/pretty_printing/pretty_print_2.rs:127-149 | seeking backward never changes the document and keeps what was ahead underneath |
| CursorPrinter.StopsAfterFirstExtend | src/pretty_printing/pretty_print_2.rs:118-120 | a chunk that does not stop the seek can be dropped from what was passed |
| CursorPrinter.ForwardAtom | src/pretty_printing/pretty_print_2.rs:108-109 | a forward step over an atom puts exactly that atom behind |
| CursorPrinter.ForwardUnfolds | src/pretty_printing/pretty_print_2.rs:110-116 | a forward step that unfolds leaves what is behind alone |
| CursorPrinter.BackwardAtom | src/pretty_printing/pretty_print_2.rs:134-135 | a backward step over an atom puts exactly that atom ahead |
| CursorPrinter.BackwardUnfolds | src/pretty_printing/pretty_print_2.rs:136-142 | a backward step that unfolds leaves what is ahead alone |
| CursorPrinter.SeekForwardStopsAtFirst | src/pretty_printing/pretty_print_2.rs:101-123 | seeking forward passes no chunk the predicate accepts except the last one passed, and stops right after it unless it runs out of document |
| CursorPrinter.SeekBackwardStopsAtFirst | src/pretty_printing/pretty_print_2.rs:127-149 | the same for seeking backward |
| CursorPrinter.SeekForwardToEnd | src/pretty_printing/pretty_print_2.rs:106-122 | a predicate that never holds moves the whole rest of the document behind the cursor |
| CursorPrinter.SeekBackwardEmpties | src/pretty_printing/pretty_print_2.rs:132-148 | a predicate that never holds empties the stack behind |
| CursorPrinter.SeekBackwardToStart | src/pretty_printing/pretty_print_2.rs:132-148 | a predicate that never holds moves the whole document ahead of the cursor |
| CursorPrinter.TextOf | src/pretty_printing/pretty_print_2.rs:223-230 | a literal or text contributes its one string; its length is the width it adds to the line |
| CursorPrinter.Choose | src/pretty_printing/pretty_print_2.rs:286-309 | the result is one of the options. It is the first when the second has no valid layout, and the second when only it has one. With both valid, it is the first iff the first line of the first option and of the suffix fits in the width left after the prefix |
| CursorPrinter.ChooseIsValid | src/pretty_printing/pretty_print_2.rs:286-309 | whenever either option has a valid layout, the option picked has one |
| CursorPrinter.ChooseMonotone | src/pretty_printing/pretty_print_2.rs:286-309 | an option picked first at some width is picked first at every larger width |
| CursorPrinter.FitChunks | src/pretty_printing/pretty_print_2.rs:298-302 | the chunks measured are the suffix's, with their flatness, and the first option last, on top |
| CursorPrinter.WeightPush | src/pretty_printing/pretty_print_2.rs:320-355 | pushing a chunk adds its size to the measured stack's weight |
| CursorPrinter.FitsMonotone | src/pretty_printing/pretty_print_2.rs:312-358 | chunks whose first line fits in some space fit in any larger space |
| CursorPrinter.Fits | src/pretty_printing/pretty_print_2.rs:312-358 | the loop answers exactly the specification of whether the first line fits |
| CursorPrinter.ResolveChunk | src/pretty_printing/pretty_print_2.rs:189-198 | a child resolves to its notation and a choice to one of its options; the indentation stays and the size shrinks |
| CursorPrinter.ResolveLoop | src/pretty_printing/pretty_print_2.rs:166-200 | the loop after the newline never panics |
| CursorPrinter.ResolvedOneFrom | src/pretty_printing/pretty_print_2.rs:155-201 | resolving from a cursor that spells the same document resolves the same way |
| CursorPrinter.ResolveInPlace | src/pretty_printing/pretty_print_2.rs:189-198 | a child or choice on top of the stack ahead is replaced in place by what it resolves to |
| CursorPrinter.ResolveLoopResolvesOne | src/pretty_printing/pretty_print_2.rs:166-200 | the loop resolves at most one chunk. With none, the document is unchanged and the cursor is at the end or before a newline. With one, the chunk sits exactly where its resolution sits ahead |
| CursorPrinter.ResolveResolvesOne | src/pretty_printing/pretty_print_2.rs:155-201 | `resolve_next_child_or_choice` resolves at most one chunk of the line after the newline and keeps the rest of the document |
| CursorPrinter.LineLoop | src/pretty_printing/pretty_print_2.rs:220-246 | the loop stops at the end of the document or before a newline |
| CursorPrinter.NextLine | src/pretty_printing/pretty_print_2.rs:204-251 | reports the end exactly when nothing is ahead; a printed line leaves the stack at its end or before the next newline |
| CursorPrinter.SplitLine | src/pretty_printing/pretty_print_2.rs:220-246 | what is left after the line starts with a newline, or is empty |
| CursorPrinter.SplitText | src/pretty_printing/pretty_print_2.rs:223-230 | reading a literal or text adds its string in front of the rest of the line |
| CursorPrinter.UnsettledTop | src/pretty_printing/pretty_print_2.rs:242-245 | a stack topped by a child or choice is not settled |
| CursorPrinter.LineLoopOfSettled | src/pretty_printing/pretty_print_2.rs:220-246 | with no child or choice left ahead, the line is the texts before the first newline, and the rest starts at that newline |
| CursorPrinter.LineLoopUnfold | src/pretty_printing/pretty_print_2.rs:234-238 | unfolding a chunk ahead does not change the line printed and shrinks the stack |
| CursorPrinter.ToString | src/pretty_printing/pretty_print_2.rs:76-85 | the indentation in spaces followed by the contents, of the summed length |
| CursorPrinter.StepForward | src/pretty_printing/pretty_print_2.rs:106-117 | one iteration of the forward loop is one forward step |
| CursorPrinter.StepBackward | src/pretty_printing/pretty_print_2.rs:132-143 | one iteration of the backward loop is one backward step |
| CursorPrinter.ResolveLine | src/pretty_printing/pretty_print_2.rs:166-200 | the loop computes exactly the specification's resolution |
| CursorPrinter.LineStep | src/pretty_printing/pretty_print_2.rs:220-246 | one iteration shrinks the stack and does not change the line the loop will print |
| CursorPrinter.Printer.constructor | src/pretty_printing/pretty_print_2.rs:88-99 | a start-of-document newline behind, the whole notation at indentation 0 ahead |
| CursorPrinter.Printer.SeekForwardUntil | src/pretty_printing/pretty_print_2.rs:101-123 | the cursor ends where the forward seek specification puts it |
| CursorPrinter.Printer.SeekBackwardUntil | src/pretty_printing/pretty_print_2.rs:127-149 | the cursor ends where the backward seek specification puts it |
| CursorPrinter.Printer.ResolveNextChildOrChoice | src/pretty_printing/pretty_print_2.rs:155-201 | panics iff the specification does; otherwise the cursor and the resolved chunk are the specification's |
| CursorPrinter.Printer.PrintLine | src/pretty_printing/pretty_print_2.rs:204-251 | the line printed and the stack left ahead are the specification's; nothing behind changes |
| BlockPrinter.Collected | src/pretty_printing/pretty_print_3.rs:134-155 | the indentation stays. Only a prefix of the chunks is left, and it does not start with text. The text is only extended |
| BlockPrinter.CollectedTextLen | src/pretty_printing/pretty_print_3.rs:143-150 | the recorded text width stays the total width of the text |
| BlockPrinter.CollectedWf | src/pretty_printing/pretty_print_3.rs:134-155 | a collected block is well formed: its chunks start with a child or choice, and its width is its text's |
| BlockPrinter.CollectedView | src/pretty_printing/pretty_print_3.rs:134-155 | collecting never changes what the block stands for |
| BlockPrinter.CollectText | src/pretty_printing/pretty_print_3.rs:134-155 | the loop computes exactly the collected block |
| BlockPrinter.ItemsAppend | src/pretty_printing/pretty_print_3.rs:170-201 | what a run of atoms stands for is what its parts stand for, one after the other |
| BlockPrinter.InsertLoop | src/pretty_printing/pretty_print_3.rs:177-199 | the current block keeps its indentation and text, and its chunks stay texts, children and choices |
| BlockPrinter.InsertLoopView | src/pretty_printing/pretty_print_3.rs:170-201 | the loop puts exactly the atoms of the pending chunks between the block's text and its chunks, cutting blocks at newlines; nothing else changes |
| BlockPrinter.InsertView | src/pretty_printing/pretty_print_3.rs:170-201 | `insert_chunk` puts exactly the atoms of the chunk between the current block's text and its chunks; nothing else the blocks stand for changes |
| BlockPrinter.InsertLoopKeeps | src/pretty_printing/pretty_print_3.rs:177-199 | the loop keeps the blocks well formed and only pushes new blocks after the current one. Nothing grows by more than the inserted size, and chunks with layouts never make it panic |
| BlockPrinter.InsertKeepsAll | src/pretty_printing/pretty_print_3.rs:170-201 | `insert_chunk` keeps the block well formed, its indentation and its text. It only pushes new blocks after it and grows by no more than the chunk's size. A chunk with a layout never makes it panic |
| BlockPrinter.FitsAllMeaning | src/pretty_printing/pretty_print_3.rs:305-351 | `fits` answers true iff it meets no flat newline and the texts it meets (the second option of each choice when valid) fit in the space |
| BlockPrinter.FitsAllMonotone | src/pretty_printing/pretty_print_3.rs:305-351 | whatever fits in some space fits in any larger one |
| BlockPrinter.FitsAllOrderFree | src/pretty_printing/pretty_print_3.rs:285-302 | the answer does not depend on the order of the entries, so putting the first option at the bottom changes nothing |
| BlockPrinter.InvalidBreaks | src/pretty_printing/pretty_print_3.rs:353-368 | a notation with no layout meets a flat newline when measured |
| BlockPrinter.FitsAllValid | src/pretty_printing/pretty_print_3.rs:305-351 | every entry of chunks that fit has a layout |
| BlockPrinter.Entries | src/pretty_printing/pretty_print_3.rs:296-298 | each suffix chunk is measured with its own flatness |
| BlockPrinter.ResolveChoice | src/pretty_printing/pretty_print_3.rs:285-302 | the result is one of the options, and it is the first whenever the second has no layout |
| BlockPrinter.ResolveChoiceFits | src/pretty_printing/pretty_print_3.rs:285-302 | when the second option has a layout, the first is taken iff neither it nor the rest of the block meets a flat newline and their texts fit in the width left after the prefix |
| BlockPrinter.ResolveChoiceValid | src/pretty_printing/pretty_print_3.rs:285-302 | whenever either option has a layout, the option picked has one |
| BlockPrinter.Fits | src/pretty_printing/pretty_print_3.rs:305-351 | the loop answers exactly the specification's `fits` |
| BlockPrinter.Resolving | src/pretty_printing/pretty_print_3.rs:204-227 | a child resolves to its notation and a choice to one of its options. The indentation stays, the size shrinks, and a layout is kept |
| BlockPrinter.ResolveFirst | src/pretty_printing/pretty_print_3.rs:204-227 | reports nothing to resolve exactly when the block has no chunks |
| BlockPrinter.ResolveFirstKeeps | src/pretty_printing/pretty_print_3.rs:204-227 | keeps the block well formed with its indentation and text. It only pushes blocks after it and strictly shrinks what is left to resolve. On chunks with layouts it never panics and keeps them so |
| BlockPrinter.ResolveFirstView | src/pretty_printing/pretty_print_3.rs:204-227 | the hole the first chunk leaves is filled by the atoms of what it resolves to; nothing else changes |
| BlockPrinter.Reversed | src/pretty_printing/pretty_print_3.rs:88-93 | reversing keeps the length |
| BlockPrinter.NextBlockOrder | src/pretty_printing/pretty_print_3.rs:245-252 | moving to the next block keeps the blocks and their order |
| BlockPrinter.NextBlockWf | src/pretty_printing/pretty_print_3.rs:245-252 | moving keeps the blocks well formed and with layouts |
| BlockPrinter.NextBlockSize | src/pretty_printing/pretty_print_3.rs:245-252 | moving does not change what is left to resolve |
| BlockPrinter.LastBlock | src/pretty_printing/pretty_print_3.rs:255-257 | no block is after the last |
| BlockPrinter.LastBlockKeeps | src/pretty_printing/pretty_print_3.rs:255-257 | moving to the last block keeps the order, only pushes behind, keeps well-formedness and layouts, and changes nothing to resolve |
| BlockPrinter.FindFromStops | src/pretty_printing/pretty_print_3.rs:230-241 | `find_block` stops at the first block with a chunk that passes the predicate, or at the last block; the blocks passed have no such chunk, and the order is kept |
| BlockPrinter.TakeKeeps | src/pretty_printing/pretty_print_3.rs:261-272 | gives back the current block. Unless the blocks ran out, it is removed from the order and nothing else changes; otherwise an empty block is left in its place |
| BlockPrinter.ResolveAllKeeps | src/pretty_printing/pretty_print_3.rs:474 | the downward loop leaves the block with nothing to resolve, its indentation, its text only extended and blocks only pushed after it. On chunks with layouts it never panics |
| BlockPrinter.UpTurnKeeps | src/pretty_printing/pretty_print_3.rs:492-499 | each turn of the upward loop shrinks what is left to resolve, so the loop terminates |
| BlockPrinter.UpResolveKeeps | src/pretty_printing/pretty_print_3.rs:492-499 | the upward loop leaves the block with nothing to resolve, only pushes behind, and stays at the last block. On chunks with layouts it never panics |
| BlockPrinter.HasMatch | src/pretty_printing/pretty_print_3.rs:232-236 | answers whether any chunk of the block passes the predicate |
| BlockPrinter.InsertStep | src/pretty_printing/pretty_print_3.rs:177-198 | one iteration panics exactly on a flat newline; otherwise it shrinks the stack and leaves the loop's result unchanged |
| BlockPrinter.BlockSet.constructor | src/pretty_printing/pretty_print_3.rs:158-166 | an empty current block, no blocks before or after |
| BlockPrinter.BlockSet.InsertChunk | src/pretty_printing/pretty_print_3.rs:170-201 | panics iff the specification does; otherwise the current block and those after it are the specification's. The blocks before are untouched |
| BlockPrinter.BlockSet.ResolveFirstChunk | src/pretty_printing/pretty_print_3.rs:204-227 | resolves iff the block has chunks, and panics iff the specification does. Otherwise the state is the specification's and stays well formed |
| BlockPrinter.BlockSet.GotoNextBlock | src/pretty_printing/pretty_print_3.rs:245-252 | moves iff there is a next block, to where the specification says |
| BlockPrinter.BlockSet.GotoLastBlock | src/pretty_printing/pretty_print_3.rs:255-257 | ends at the last block, as the specification says |
| BlockPrinter.BlockSet.FindBlock | src/pretty_printing/pretty_print_3.rs:230-241 | ends where the specification of `find_block` says |
| BlockPrinter.BlockSet.TakeBlock | src/pretty_printing/pretty_print_3.rs:261-272 | the block, whether the blocks ran out, and the new place are the specification's |
| BlockPrinter.NewBlockSet | src/pretty_printing/pretty_print_3.rs:158-167 | panics iff inserting the root does. Otherwise the blocks are those of the root inserted at indentation 0, with none before |
| BlockPrinter.NewBlockSetView | src/pretty_printing/pretty_print_3.rs:158-167 | a new block set stands for exactly the atoms of the whole document |
| BlockPrinter.TakeWf | src/pretty_printing/pretty_print_3.rs:261-272 | taking a block keeps the blocks well formed and with layouts |
| BlockPrinter.DownNextPrintsLine | src/pretty_printing/pretty_print_3.rs:468-480 | the line printed has the block's indentation and extends its text. The blocks before are untouched. On chunks with layouts it never panics and keeps them so |
| BlockPrinter.UpNextPrintsLast | src/pretty_printing/pretty_print_3.rs:486-503 | once fully resolved no block is after the one printed. On chunks with layouts it never panics and keeps them so |
| BlockPrinter.DownwardPrinter.constructor | src/pretty_printing/pretty_print_3.rs:376-379 | holds the blocks and whether it is done |
| BlockPrinter.DownwardPrinter.Next | src/pretty_printing/pretty_print_3.rs:468-480 | at the end nothing more; otherwise the line, the done flag and the new place are the specification's |
| BlockPrinter.UpwardPrinter.constructor | src/pretty_printing/pretty_print_3.rs:381-384 | holds the blocks and whether it is done |
| BlockPrinter.UpwardPrinter.Next | src/pretty_printing/pretty_print_3.rs:486-503 | at the end nothing more; otherwise the line, the done flag and the new place are the specification's |
| FocusPrinter.NewBlockOf | src/pretty_printing/pretty_print.rs:205-219 | a block built from an indentation and atomic chunks is well formed: its prefix length is the total width of its indentation segments |
| FocusPrinter.PushText | src/pretty_printing/pretty_print.rs:221-230 | pushing a text keeps the chunks and the segments already there, and adds exactly one segment on the right, holding the text, its width and the doc id; well-formedness is kept |
| FocusPrinter.ExpandFirstView | src/pretty_printing/pretty_print.rs:437-462 | expanding at the first block succeeds exactly when every concatenation evaluates, and then lays what the chunk stands for out at the focus, before the focused block's chunks and the blocks after it |
| FocusPrinter.ExpandFirstKeepsAll | src/pretty_printing/pretty_print.rs:437-462 | expanding at the first block only pushes blocks on `next_blocks`, adds no more weight than the chunk had, and keeps every block well formed |
| FocusPrinter.ExpandLastView | src/pretty_printing/pretty_print.rs:470-504 | expanding at the last block succeeds exactly when every concatenation evaluates, and lays what the chunk stands for out at the focus, the lines before its last one going onto `prev_blocks` |
| FocusPrinter.ExpandLastKeepsAll | src/pretty_printing/pretty_print.rs:470-504 | expanding at the last block only pushes blocks on `prev_blocks`, keeps the focused block's chunks, and keeps every block well formed |
| FocusPrinter.ExpandLastKeepsOne | src/pretty_printing/pretty_print.rs:470-504 | on one chunk: only pushes on `prev_blocks`, puts no more than the chunk's size on the focused block, keeps well-formedness |
| FocusPrinter.FitsMeaning | src/pretty_printing/pretty_print.rs:581-630 | `fits` holds exactly when the first line, with every later choice read by its second option, is no wider than the room left, wherever what it reads evaluates |
| FocusPrinter.ChooseMeaning | src/pretty_printing/pretty_print.rs:509-526 | `choose` gives one of the two options or the first option's evaluation error; it gives the first option exactly when the block's prefix, that option and the chunks after it fit on one line |
| FocusPrinter.PickedSize | src/pretty_printing/pretty_print.rs:509-526 | what replaces a child or a choice is strictly smaller than it, so resolving always ends |
| FocusPrinter.DownExpand | src/pretty_printing/pretty_print.rs:268-290 | expanding a notation while printing down only pushes blocks, keeps the block's segments and prefix, adds no more weight than the notation's size, keeps well-formedness and never panics |
| FocusPrinter.DownStep | src/pretty_printing/pretty_print.rs:276-288 | one turn of `print_next_line` strictly lowers the weight, extends the segments on the right, only pushes blocks, and on well-formed blocks never panics |
| FocusPrinter.DownResolveKeeps | src/pretty_printing/pretty_print.rs:276-288 | the chunk loop of `print_next_line` empties the block, extends its segments, keeps the blocks below, and on well-formed blocks never panics |
| FocusPrinter.BlockLine | src/pretty_printing/pretty_print.rs:232-238 | a block with no chunks left prints as the line of its segments |
| FocusPrinter.PrintNextKeeps | src/pretty_printing/pretty_print.rs:268-290 | `print_next_line` prints nothing exactly when no block is after the focus; otherwise it prints the top block, keeps `prev_blocks`, lowers the weight of `next_blocks`, and on well-formed blocks never panics |
| FocusPrinter.DownExpandView | src/pretty_printing/pretty_print.rs:268-290 | expanding while printing down lays what the notation stands for out between the block's segments and its chunks |
| FocusPrinter.DownStepView | src/pretty_printing/pretty_print.rs:276-288 | one turn of printing down keeps what the blocks stand for, a child or choice giving way to what replaces it |
| FocusPrinter.UpExpand | src/pretty_printing/pretty_print.rs:292-312 | expanding a notation while printing up only pushes on `prev_blocks`, keeps the block's other chunks and well-formedness, and never panics |
| FocusPrinter.UpStep | src/pretty_printing/pretty_print.rs:300-310 | one turn of `print_prev_line` strictly lowers the weight, keeps the block's other chunks, only pushes blocks, and on well-formed blocks never panics |
| FocusPrinter.UpResolveKeeps | src/pretty_printing/pretty_print.rs:300-310 | the chunk loop of `print_prev_line` empties the block, keeps the blocks below, and on well-formed blocks never panics |
| FocusPrinter.PrintPrevKeeps | src/pretty_printing/pretty_print.rs:292-312 | `print_prev_line` prints nothing exactly when no block is before the focus; otherwise it keeps `next_blocks`, lowers the weight of `prev_blocks`, and on well-formed blocks never panics |
| FocusPrinter.UpExpandView | src/pretty_printing/pretty_print.rs:292-312 | expanding while printing up lays what the notation stands for out at the focus, the lines before its last going onto `prev_blocks` |
| FocusPrinter.UpStepView | src/pretty_printing/pretty_print.rs:300-310 | one turn of printing up keeps what the blocks stand for, a child or choice giving way to what replaces it |
| FocusPrinter.FindRelevant | src/pretty_printing/pretty_print.rs:373-387 | step 1 of `seek_child` leaves a prefix of `next_blocks` |
| FocusPrinter.FindRelevantMoves | src/pretty_printing/pretty_print.rs:373-387 | step 1 of `seek_child` moves the blocks it passes onto `prev_blocks`, the top first, passes only blocks without a relevant chunk, and stops at the first block with one |
| FocusPrinter.SeekChunks | src/pretty_printing/pretty_print.rs:393-427 | when step 2 of `seek_child` resolves another child or choice, the weight strictly drops, so the loop ends |
| FocusPrinter.SeekChunksKeeps | src/pretty_printing/pretty_print.rs:393-427 | step 2 keeps the blocks below, leaves the wanted child as the leftmost chunk when it does not expand it, and on well-formed blocks never panics |
| FocusPrinter.SeekChunksFinds | src/pretty_printing/pretty_print.rs:393-427 | a block with a relevant chunk always reaches a child or choice before its texts run out, so the step never falls through |
| FocusPrinter.SeekTurn | src/pretty_printing/pretty_print.rs:367-428 | a turn of the `loop` of `seek_child` that goes round again strictly lowers the weight of `next_blocks` |
| FocusPrinter.SeekChildInvalidPath | src/pretty_printing/pretty_print.rs:388-391 | `seek_child` fails with `InvalidPath` when no block after the focus holds the wanted child or a choice of the parent |
| FocusPrinter.SeekLoopKeeps | src/pretty_printing/pretty_print.rs:367-428 | the `loop` of `seek_child` only pushes on `prev_blocks`, ends with a block after the focus, and leaves the wanted child as the leftmost chunk right of the focus when it does not expand it |
| FocusPrinter.SeekLoopMeets | src/pretty_printing/pretty_print.rs:367-428 | the loop ends with a block after the focus and, unless expanded, the wanted child there |
| FocusPrinter.SeekLoopWf | src/pretty_printing/pretty_print.rs:367-428 | on well-formed blocks the loop of `seek_child` never panics and keeps them well formed |
| FocusPrinter.MoveAllButOne | src/pretty_printing/pretty_print.rs:324-329 | all blocks of `next_blocks` but the bottom one move to `prev_blocks`, the top first; one or no block is left unchanged |
| FocusPrinter.SeekEndResolveKeeps | src/pretty_printing/pretty_print.rs:337-350 | resolving up to `num_chunks_after` chunks leaves exactly the block's rightmost ones, only pushes on `prev_blocks`, and on well-formed blocks never panics |
| FocusPrinter.SeekChildKeeps | src/pretty_printing/pretty_print.rs:360-429 | `seek_child` only pushes on `prev_blocks`, leaves a block after the focus, leaves the child as the leftmost chunk when it does not expand it, and keeps well-formedness |
| FocusPrinter.SeekPathKeeps | src/pretty_printing/pretty_print.rs:321-323 | the `for` loop of `seek` only pushes on `prev_blocks`, and after a non-empty path the leftmost chunk right of the focus is the child with the path's last index |
| FocusPrinter.SeekPathWf | src/pretty_printing/pretty_print.rs:321-323 | the `for` loop of `seek` keeps well-formed blocks well formed |
| FocusPrinter.SeekToEnd | src/pretty_printing/pretty_print.rs:324-352 | `seek(&[], true)` on well-formed blocks never panics and leaves one block with no chunks after the focus, at the end of the document |
| FocusPrinter.SeekEndPastChild | src/pretty_printing/pretty_print.rs:330-352 | seeking the end past a child moves the focus past it: the chunks after the focus are those after the child |
| FocusPrinter.SeekPastChild | src/pretty_printing/pretty_print.rs:317-354 | for a non-empty path the focus ends just past the child found; `block.chunks.len() - 1` never underflows, and nothing panics on well-formed blocks |
| FocusPrinter.LineOf | src/pretty_printing/pretty_print.rs:156-162 | the line of a focused line is its left segments followed by its right ones |
| FocusPrinter.FocusedLineAgrees | src/pretty_printing/pretty_print.rs:127-186 | a focused line's string is its left string then its right string, and its width is the sum of both sides' widths, as for the line it becomes |
| FocusPrinter.NewPrinterMeaning | src/pretty_printing/pretty_print.rs:255-266 | `Printer::new` never panics; on success the blocks are well formed, nothing is before the focus, and together they stand for the whole document |
| FocusPrinter.FocusedPrintKeeps | src/pretty_printing/pretty_print.rs:30-68 | printing the focused line on well-formed blocks never panics; its left part is what was resolved before the focus, and the upward printer gets `prev_blocks` unchanged |
| FocusPrinter.PrettyPrintEmptyPath | src/pretty_printing/pretty_print.rs:30-68 | with the empty path `pretty_print` never panics; without `seek_end` nothing is left of or above the focus, with it nothing is right of or below it |
| FocusPrinter.FocusedPrintAtEnd | src/pretty_printing/pretty_print.rs:30-68 | with one block without chunks left, the focused line is that block's and nothing follows |
| FocusPrinter.DownLinesNoPanic | src/pretty_printing/pretty_print.rs:642-650 | the downward printer never panics on well-formed blocks and keeps them well formed |
| FocusPrinter.PrettyPrintToStringNoPanic | src/pretty_printing/pretty_print.rs:74-85 | `pretty_print_to_string` never panics: it gives the text or an evaluation error |
| FocusPrinter.NewBlock | src/pretty_printing/pretty_print.rs:205-219 | the loop of `Block::new` builds the block of `NewBlockOf`: the indentation's segments, root first, and their total width as prefix |
| FocusPrinter.FitsCheck | src/pretty_printing/pretty_print.rs:581-630 | the loop of `fits` answers exactly as the function `Fits`, whose meaning `FitsMeaning` states |
| FocusPrinter.Printer.constructor | src/pretty_printing/pretty_print.rs:245-252 | holds the width and the two stacks |
| FocusPrinter.Printer.ChooseOption | src/pretty_printing/pretty_print.rs:509-526 | picks the option `Choose` picks, or gives the first option's evaluation error |
| FocusPrinter.Printer.ExpandFocusingFirstBlock | src/pretty_printing/pretty_print.rs:437-462 | the loop leaves the block and `next_blocks` as `ExpandFirst` says; `prev_blocks` unchanged |
| FocusPrinter.Printer.ExpandFocusingLastBlock | src/pretty_printing/pretty_print.rs:470-504 | the loop leaves the block and `prev_blocks` as `ExpandLast` says; `next_blocks` unchanged |
| FocusPrinter.Printer.StepDown | src/pretty_printing/pretty_print.rs:276-288 | one chunk of `print_next_line` resolved as `DownStep` says |
| FocusPrinter.Printer.StepUp | src/pretty_printing/pretty_print.rs:300-310 | one chunk of `print_prev_line` resolved as `UpStep` says |
| FocusPrinter.Printer.PrintNextLine | src/pretty_printing/pretty_print.rs:268-290 | the line, error or panic and the new stacks are those of `PrintNext` |
| FocusPrinter.Printer.PrintPrevLine | src/pretty_printing/pretty_print.rs:292-312 | the line, error or panic and the new stacks are those of `PrintPrev` |
| FocusPrinter.Printer.SeekInBlock | src/pretty_printing/pretty_print.rs:393-427 | step 2 of `seek_child` on one block, as `SeekChunks` says |
| FocusPrinter.Printer.SeekTurnOnce | src/pretty_printing/pretty_print.rs:367-428 | one turn of the `loop` of `seek_child`, as `SeekTurn` says |
| FocusPrinter.Printer.SeekChildNode | src/pretty_printing/pretty_print.rs:360-429 | `seek_child` moves the focus as `SeekChild` says |
| FocusPrinter.Printer.MoveToBottomBlock | src/pretty_printing/pretty_print.rs:324-329 | the stacks become those of `MoveAllButOne` |
| FocusPrinter.Printer.SeekEndOfNode | src/pretty_printing/pretty_print.rs:324-352 | the end of `seek`, as `SeekEnd` says |
| FocusPrinter.Printer.ResolveToLast | src/pretty_printing/pretty_print.rs:337-350 | resolves until `num_chunks_after` chunks are left, as `SeekEndResolve` says |
| FocusPrinter.Printer.SeekFocus | src/pretty_printing/pretty_print.rs:317-354 | `seek` moves the focus as `Seek` says |
| FocusPrinter.Printer.New | src/pretty_printing/pretty_print.rs:255-266 | a fresh printer with no blocks before the focus and the blocks of `NewPrinter` after it |
| FocusPrinter.SegmentsString | src/pretty_printing/pretty_print.rs:139-183 | the string of a line, or of one side of a focused line, is its segments' strings left to right |
| FocusPrinter.SegmentsWidth | src/pretty_printing/pretty_print.rs:127-137 | the width of a line is the sum of its segments' widths |
| FocusPrinter.FocusedString | src/pretty_printing/pretty_print.rs:176-186 | a focused line's string is its left segments' strings then its right ones' |
| FocusPrinter.PrettyPrintPrinters | src/pretty_printing/pretty_print.rs:30-68 | `pretty_print` gives two fresh, distinct printers and the focused line, all as `PrettyPrint` says |
| FocusPrinter.AppendDownLines | src/pretty_printing/pretty_print.rs:80-83 | the `for` loop of `pretty_print_to_string` appends each line of `DownLines` after a newline |
| FocusPrinter.PrettyPrintString | src/pretty_printing/pretty_print.rs:74-85 | the string, error or panic of `pretty_print_to_string` is that of `PrettyPrintToString` |
| Geometry.Width | src/geometry.rs:59-61 | the width of a rectangle is what separates its left column from its right one |
| Geometry.Height | src/geometry.rs:63-65 | the height of a rectangle is what separates its top line from its bottom one |
| Geometry.CoversReflexive | src/geometry.rs:67-73 | every rectangle covers itself |
| Geometry.CoversTransitive | src/geometry.rs:67-73 | covering is transitive |
| Geometry.CoversMeansContains | src/geometry.rs:67-73 | a rectangle that covers another contains every position the other contains |
| Geometry.WithLo | src/geometry.rs:110-113 | moving a rectangle's low edge along an axis sets it and keeps the high edge |
| Geometry.WithHi | src/geometry.rs:106-109 | moving a rectangle's high edge along an axis sets it and keeps the low edge |
| Geometry.SplitStep | src/geometry.rs:101-119 | one `next` of `HorzSplits`/`VertSplits` succeeds exactly when the size fits in what is left; the piece starts where the rectangle does and has that size, the rest starts where the piece ends, and both keep the other axis |
| Geometry.SplitsPanicIff | src/geometry.rs:75-148 | splitting along all sizes never hits the `assert!` exactly when the sizes add up to no more than the rectangle's extent |
| Geometry.SplitsPieces | src/geometry.rs:75-148 | there is one piece per size, the first starts at the rectangle's edge, each has its size, abuts the previous one, keeps the other axis and is covered by the rectangle |
| Geometry.SplitsOffsets | src/geometry.rs:75-148 | piece `i` starts at the rectangle's edge plus the sum of the sizes before it |
| Geometry.HorzSplitWidths | src/geometry.rs:75-80 | each piece of `horz_splits` has the width asked for and the rectangle's lines |
| Geometry.VertSplitHeights | src/geometry.rs:82-90 | each piece of `vert_splits` has the height asked for and the rectangle's columns |
| Geometry.Splitter.constructor | src/geometry.rs:78-90 | a splitter holds the axis, the rectangle and the sizes |
| Geometry.Splitter.Next | src/geometry.rs:98-148 | `next`: nothing once the sizes are used up; otherwise the rectangle shrinks past the split and the piece is yielded, or the `assert!` fails; the pieces yielded are exactly those `Splits` lists |
| Geometry.Add | src/geometry.rs:151-160 | adding a size to a position succeeds exactly when neither coordinate overflows its integer type |
| Geometry.CornerPlusSize | src/geometry.rs:151-160 | a representable rectangle's top-left corner plus its size is its bottom-right corner |
| Geometry.AddZero | src/geometry.rs:151-160 | adding the empty size leaves a position unchanged |
| GeometryExamples.HorzSplitsExample | src/geometry.rs:75-119 | splitting columns 1..5 into widths 1 and 3 gives columns 1..2 and 2..5, both on the rectangle's lines |
| GeometryExamples.HorzSplitsOverflow | src/geometry.rs:101-119 | widths that do not fit, first or second, hit the `assert!` |
| Divvy.SatSub | src/pane/divvy.rs:65-66 | the cookies left after giving `min(cookies, hunger)`: zero, or exactly the difference |
| Divvy.Count | src/pane/divvy.rs:45-51 | the number of panes of one kind is at most the number of panes |
| Divvy.Weights | src/pane/divvy.rs:77-82 | there is one hunger per proportional pane |
| Divvy.FixedAlloc | src/pane/divvy.rs:62-70 | `allocate_fixed` gives one allocation per pane |
| Divvy.FixedAllocAt | src/pane/divvy.rs:62-70 | a fixed pane gets the least of its request and what the panes before it left; other panes get nothing |
| Divvy.FixedLeftIs | src/pane/divvy.rs:62-70 | the cookies left after `allocate_fixed` are what the fixed requests leave, and what is given plus what is left is all there was |
| Divvy.FixedAllSatisfied | src/pane/divvy.rs:59-70 | when there are enough cookies every fixed pane gets its full request |
| Divvy.ShortStarvesLater | src/pane/divvy.rs:59-61 | first come, first served: once a fixed pane is short-changed every later pane gets nothing |
| Divvy.PlaceSomeIff | src/pane/divvy.rs:40-57 | handing out one value per pane of a kind runs neither short nor long exactly when there are as many values as panes of that kind |
| Divvy.PlaceAt | src/pane/divvy.rs:40-57 | a pane of the kind gets the value at its rank among panes of that kind; other panes keep their allocation |
| Divvy.PlaceSum | src/pane/divvy.rs:40-57 | placing values where the allocation was zero adds their sum to the total |
| Divvy.ProportionalSome | src/pane/divvy.rs:76-115 | `allocate_proportional` divides by zero exactly when there are proportional panes whose hungers sum to zero; otherwise it leaves no cookie unless there is no proportional pane |
| Divvy.AllocationPanics | src/pane/divvy.rs:15-57 | `new` then `finish` panics exactly when the dynamic sizes exceed what the fixed panes leave, their number is not the number of dynamic panes, or the proportional hungers sum to zero |
| Divvy.AllocationFixedSlot | src/pane/divvy.rs:15-38 | in the final allocation a fixed pane keeps what `allocate_fixed` gave it |
| Divvy.AllocationDynamicSlot | src/pane/divvy.rs:40-57 | a dynamic pane gets the dynamic size at its rank |
| Divvy.AllocationProportionalSlot | src/pane/divvy.rs:76-115 | a proportional pane gets its share of the fair division of what is left |
| Divvy.AllocationSum | src/pane/divvy.rs:15-38 | the final allocation never exceeds the available space, and uses all of it when some pane is proportional |
| Divvy.Divvier.constructor | src/pane/divvy.rs:15-23 | `new` allocates the fixed panes at once; the rest is unallocated, and the divvier is `Valid`: every pane has an allocation and, with the space left, they add up to the space available |
| Divvy.Divvier.AllocateFixed | src/pane/divvy.rs:62-70 | the loop of `allocate_fixed` leaves the allocation and the cookies of `FixedAlloc` and `FixedLeft`; the allocation and the cookies left add up to what they did before (no space lost or made up) |
| Divvy.Divvier.AllocateDynamic | src/pane/divvy.rs:40-57 | `allocate_dynamic` panics or succeeds as `AfterDynamic` says, leaving its allocation and cookies; on success the divvier stays `Valid` and the proportional panes are still unserved |
| Divvy.Divvier.PlaceSizes | src/pane/divvy.rs:47-56 | the loop of `allocate_dynamic` places the sizes on the dynamic panes in order, exactly as `Place` does, and fails where there is not one size per dynamic pane |
| Divvy.DynamicBalance | src/pane/divvy.rs:40-57 | the dynamic round moves space from what is left to the dynamic panes, losing and making up none, and leaves the proportional panes empty |
| Divvy.Divvier.AllocateProportional | src/pane/divvy.rs:76-115 | `allocate_proportional` panics or succeeds as `AfterProportional` says, leaving its allocation and cookies; on success the divvier stays `Valid` |
| Divvy.Divvier.PlaceShares | src/pane/divvy.rs:107-114 | the last loop of `allocate_proportional` places the shares on the proportional panes and takes them from the cookies |
| Divvy.Divvier.CollectWeights | src/pane/divvy.rs:77-82 | the first loop of `allocate_proportional` collects the hungers of the proportional panes, in order |
| Divvy.Divvier.Finish | src/pane/divvy.rs:34-38 | `finish` gives the allocation `Settle` describes, or panics as it says; the allocation it returns is the divvier's and, with what is left, adds up to the space there was |
| Divvy.SumOf | src/pane/divvy.rs:41 | the loop summing the dynamic sizes computes their sum |
| Divvy.DivvyUp | src/pane/divvy.rs:15-38 | `new` then `finish` gives the allocation `Allocation` describes |
| DivvyExamples.ProportionalTie | src/pane/divvy.rs:130-131 | one cookie between two equal hungers goes to the leftmost |
| DivvyExamples.OneOfEach | src/pane/divvy.rs:15-38 | ten cookies for a fixed pane of 3, a dynamic pane of 2 and one proportional pane give 3, 2 and 5 |
| DivvyExamples.OneOfEachFixed | src/pane/divvy.rs:62-70 | the fixed pass of that example gives 3 and leaves 7 |
| DivvyExamples.OneOfEachDynamic | src/pane/divvy.rs:40-57 | the dynamic pass of that example gives 2 and leaves 5 |
| DivvyExamples.OneOfEachProportional | src/pane/divvy.rs:76-115 | the proportional pass of that example gives the last 5 |
| DivvyExamples.OneOfEachShares | src/pane/divvy.rs:77-105 | the proportional pane's share of 5 cookies is 5 |
| DivvyExamples.DynamicTooLarge | src/pane/divvy.rs:40-43 | a dynamic size larger than what the fixed panes leave panics |
| FairDivision.Insert | src/pane_printing/pane.rs:164 | inserting an index into a sorted order makes it one longer |
| FairDivision.InsertMultiset | src/pane_printing/pane.rs:164 | inserting adds exactly that index |
| FairDivision.Order | src/pane_printing/pane.rs:159-164 | the sorted order of the remainders lists as many indices as there are children |
| FairDivision.OrderCount | src/pane_printing/pane.rs:159-164 | the order is a permutation of the children's indices: each appears exactly once |
| FairDivision.OrderMember | src/pane_printing/pane.rs:159-164 | an index is in the order exactly when it is a child's |
| FairDivision.InsertOrdered | src/pane_printing/pane.rs:164 | inserting a larger index into an order that is largest remainder first, ties leftmost, keeps it so |
| FairDivision.OrderOrdered | src/pane_printing/pane.rs:164 | the stable sort orders the children largest remainder first and, among equal remainders, leftmost first |
| FairDivision.OrderedOnce | src/pane_printing/pane.rs:164 | an ordered list holds no index twice |
| FairDivision.Bump | src/pane_printing/pane.rs:165-168 | giving extra cookies keeps the number of children |
| FairDivision.BumpNext | src/pane_printing/pane.rs:165-168 | one more extra cookie adds one to that child's allocation |
| FairDivision.BumpSum | src/pane_printing/pane.rs:165-168 | giving extras to listed children adds one cookie per listed child |
| FairDivision.FloorsAndRemainders | src/pane_printing/pane.rs:149-163 | cookies times the total hunger is the total hunger times the floors' sum plus the remainders' sum |
| FairDivision.RemaindersBelow | src/pane_printing/pane.rs:159-163 | remainders below the total hunger add up to less than one total hunger per child |
| FairDivision.FloorsFit | src/pane_printing/pane.rs:149-155 | the floors never take more than the cookies, and leave fewer cookies than there are children, so `leftover` never underflows |
| FairDivision.LeftoverFacts | src/pane_printing/pane.rs:154-155 | the floors and the leftover make up the cookies, and the leftover is below the number of children |
| FairDivision.GivenBelow | src/pane_printing/pane.rs:165-168 | every child given an extra cookie is a real child, so `cookie_allocation[i] += 1` never indexes out of range |
| FairDivision.Divide | src/pane_printing/pane.rs:145-171 | a division, when it exists, has one share per child |
| FairDivision.GiveExtras | src/pane_printing/pane.rs:165-168 | the loop giving the extras bumps the first `leftover` children of the order |
| FairDivision.ProportionallyDivide | src/pane_printing/pane.rs:145-171 | the loops of `proportionally_divide` give the division `Divide` describes, or its division-by-zero panic |
| FairDivision.DivideSum | src/pane_printing/pane.rs:145-171 | with a nonzero total hunger the shares add up to exactly the cookies, and to nothing when there are no children |
| FairDivision.DividePanics | src/pane_printing/pane.rs:146-151 | `proportionally_divide` panics exactly when there are children and their hungers sum to zero |
| FairDivision.GivenOrdered | src/pane_printing/pane.rs:159-168 | the children given extras come largest remainder first, ties leftmost |
| FairDivision.DivideFloorOrNext | src/pane_printing/pane.rs:145-171 | each child gets the floor of its exact share, or one more |
| FairDivision.DivideLargestRemainders | src/pane_printing/pane.rs:141-171 | a child that got an extra cookie has a larger remainder than one that did not, or an equal one and lies to its left |
| FairDivision.FirstComeFirst | src/pane_printing/pane.rs:164-168 | in an ordered list, a child taken before another lies before it in the order |
| FairDivisionExamples.TieGoesLeft | src/pane_printing/pane.rs:180 | one cookie for hungers 1 and 1 gives 1 and 0 |
| FairDivisionExamples.ThreeForTwo | src/pane_printing/pane.rs:182 | three cookies for hungers 1 and 1 give 2 and 1 |
| FairDivisionExamples.ZeroHunger | src/pane_printing/pane.rs:187 | five cookies for hungers 2, 0 and 1 give 3, 0 and 2 |
| FairDivisionExamples.Sixths | src/pane_printing/pane.rs:188 | 61 cookies for hungers 1, 2 and 3 give 10, 20 and 31 |
| FairDivisionExamples.Uneven | src/pane_printing/pane.rs:189-192 | 34583 cookies for hungers 55, 98, 55, 7, 12 and 200 give 4455, 7937, 4454, 567, 972 and 16198: three leftovers go to children 3, 4 and 0 |
| PanePrinting.ProportionalCount | src/pane_printing/pane.rs:119-122 | there are no more proportional demands than demands |
| PanePrinting.Hungers | src/pane_printing/pane.rs:119-122 | one hunger per proportional demand |
| PanePrinting.Assign | src/pane_printing/pane.rs:127-138 | the allocation, when it exists, has one size per demand |
| PanePrinting.AssignSomeIff | src/pane_printing/pane.rs:127-138 | the mapping over the demands does not panic exactly when no demand is `DynHeight` |
| PanePrinting.AssignAt | src/pane_printing/pane.rs:127-138 | a fixed demand gets its size; a proportional one gets the share at its rank |
| PanePrinting.AssignSum | src/pane_printing/pane.rs:127-138 | the sizes add up to the fixed demands plus the shares |
| PanePrinting.DivvyFailIff | src/pane_printing/pane.rs:113-117 | `divvy` returns `None` exactly when the fixed demands exceed the cookies |
| PanePrinting.DivvyPanicIff | src/pane_printing/pane.rs:113-139 | `divvy` panics exactly when the fixed demands fit but a demand is `DynHeight` or the proportional hungers sum to zero |
| PanePrinting.DivvyDone | src/pane_printing/pane.rs:113-139 | on success each fixed demand gets its size, each proportional one its fair share of what is left, and all cookies are used when some demand is proportional |
| PanePrinting.Clip | src/pane_printing/pane.rs:65-79 | `print` writes nothing at or past the right edge; otherwise a prefix of the string that ends inside the pane, the whole string when it fits, and one reaching the edge exactly when it is cut |
| PanePrinting.FillCalls | src/pane_printing/pane.rs:81-88 | `fill` writes nothing at or past the right edge; otherwise one run from the position to the right edge |
| PanePrinting.PrintedAppend | src/pane_printing/pane.rs:55-63 | what a sequence of window calls prints is what its parts print, in order |
| PanePrinting.PrintedClip | src/pane_printing/pane.rs:65-79 | `print` shows the first characters of the string, as many as there is room for |
| PanePrinting.LineShowsPrefix | src/pane_printing/pane.rs:55-63 | `print_line` shows the first characters of its strings joined together, as many as the pane leaves room for after the indentation |
| PanePrinting.LineCallsInside | src/pane_printing/pane.rs:55-63 | every call of `print_line` stays on its line and inside the pane's right edge |
| PanePrinting.FillRows | src/pane_printing/pane.rs:98-104 | filling gives one call per row when the pane has width, none otherwise |
| PanePrinting.FillRowsAt | src/pane_printing/pane.rs:98-104 | the `k`th call fills row `first + k` from the pane's left edge to its right edge |
| PanePrinting.FillStaysInside | src/pane_printing/pane.rs:98-104 | filling from the pane's top line writes each row inside the pane |
| PanePrinting.FillAsWrittenLeavesPane | src/pane_printing/pane.rs:99-103 | filling from line 0, as written, writes outside a pane that does not start at line 0 |
| PanePrinting.Window.constructor | src/pane_printing/pane.rs:10-16 | a window starts with no calls |
| PanePrinting.Pane.constructor | src/pane_printing/pane.rs:10-16 | a pane holds its window and its rectangle |
| PanePrinting.Pane.SubPane | src/pane_printing/pane.rs:41-53 | `sub_pane` gives `None` exactly when the pane does not cover the rectangle; otherwise a new pane on the same window |
| PanePrinting.Pane.Print | src/pane_printing/pane.rs:65-79 | the window records the calls `PrintCalls` describes |
| PanePrinting.Pane.Fill | src/pane_printing/pane.rs:81-88 | the window records the calls `FillCalls` describes |
| PanePrinting.Pane.PrintLine | src/pane_printing/pane.rs:55-63 | the loop of `print_line` records the calls `LineCalls` describes, starting after the indentation |
| PanePrinting.Pane.Render | src/pane_printing/pane.rs:92-110 | `render` fails only on the notations it does not implement; `Fill`, as written, fills lines `0 .. height` of the pane from its left column (the calls sent are `FillRows(rect, ch, 0, Height(rect))`), and `Empty` writes nothing |
| PanePrinting.Pane.RenderIntended | src/pane_printing/pane.rs:92-110 | `render` with the fill corrected to the pane's own lines `min_line .. min_line + height`: the calls sent are `FillRows(rect, ch, rect.minLine, Height(rect))`, which `FillStaysInside` keeps within the pane |
| PanePrintingExamples.FixedThenTwoEqual | src/pane_printing/pane.rs:113-139 | ten cookies for a fixed 3 and two equal proportional demands give 3, 4 and 3 |
| PanePrintingExamples.FixedTooLarge | src/pane_printing/pane.rs:113-117 | fixed demands of 3 and 2 for 4 cookies cannot be met |
| PanePrintingExamples.PrintTruncated | src/pane_printing/pane.rs:65-79 | printing "hello" at column 3 of a pane 5 wide shows "he" |
| RenderOptions.Choose | src/pane_printing/render_options.rs:29-36 | `Full` gives the available width, `Fixed(w)` gives `w` even when wider, `NoMoreThan(w)` gives the smaller of the two; only `Fixed` can exceed the available width |
| PrintingOptions.ChooseWidth | src/pane/printing_options.rs:56-62 | `Full` gives the available width, `Fixed(w)` gives `w` whatever is available, `NoMoreThan(w)` gives the smaller of the two; only `Fixed` can exceed the available width |
| PlainTextGrid.Copies | src/pane/plain_text.rs:84-86 | padding is a run of the given character of the given length |
| PlainTextGrid.EmptyLines | src/pane/plain_text.rs:78-80 | new rows are empty |
| PlainTextGrid.PutCharEffect | src/pane/plain_text.rs:69-92 | `display_char` grows the grid to at least `row + 1` rows and the row to at least `col + width` cells, padding with spaces, writes the character at `col` and, when full width, the sentinel after it; every other cell and row is unchanged |
| PlainTextGrid.Visible | src/pane/plain_text.rs:26-38 | the sentinel is never shown |
| PlainTextGrid.VisibleCount | src/pane/plain_text.rs:26-38 | showing a row keeps every character except the sentinels |
| PlainTextGrid.RenderLineBreaks | src/pane/plain_text.rs:26-38 | the display ends each row with exactly one line break |
| PlainTextGrid.PlainText.constructor | src/pane/plain_text.rs:42-49 | a new grid has no rows and no focus points |
| PlainTextGrid.PlainText.DisplayChar | src/pane/plain_text.rs:69-92 | the grid becomes what `PutChar` gives; the focus points are unchanged |
| PlainTextGrid.PlainText.SetFocus | src/pane/plain_text.rs:94-97 | the position is appended to the focus points, in call order; the grid is unchanged |
| PlainTextGrid.PlainText.Show | src/pane/plain_text.rs:26-38 | the loops of `Display` give the text `Render` describes |
| PlainTextGridExamples.FullWidthChar | src/pane/plain_text.rs:69-92 | a full-width character at column 1 of an empty grid pads column 0 and puts the sentinel at column 2, which the display hides |
| PlainTextLines.Overwrite | src/pane_printing/plain_text.rs:61-78 | the new line is as long as the old one or reaches the end of the string, whichever is further |
| PlainTextLines.OverwriteAt | src/pane_printing/plain_text.rs:61-78 | the new line holds the string from `col`, the old characters elsewhere, and spaces where the old line was too short |
| PlainTextLines.OverwriteIdempotent | src/pane_printing/plain_text.rs:56-80 | printing the same string at the same place twice is printing it once |
| PlainTextLines.Grow | src/pane_printing/plain_text.rs:41-46 | `get_mut_line` grows the lines with empty ones up to the index asked for, keeping the others |
| PlainTextLines.PrintAtOnlyThatLine | src/pane_printing/plain_text.rs:56-80 | `print` changes no other line, and none at all at or below the height |
| PlainTextLines.KeptLeft | src/pane_printing/plain_text.rs:65-67 | the loop keeps the old line's first `col` characters, padded with spaces |
| PlainTextLines.KeptRight | src/pane_printing/plain_text.rs:73-76 | the loop keeps the old characters after the string's end |
| PlainTextLines.PlainText.constructor | src/pane_printing/plain_text.rs:25-30 | a new screen has no lines and the given size |
| PlainTextLines.PlainText.GetMutLine | src/pane_printing/plain_text.rs:41-46 | the lines become those `Grow` gives |
| PlainTextLines.PlainText.Print | src/pane_printing/plain_text.rs:56-80 | the lines become those `PrintAt` gives |
| PlainTextLines.PlainText.Fill | src/pane_printing/plain_text.rs:82-85 | `fill` is `print` of the character repeated `len` times |
| PlainTextLines.PlainText.Highlight | src/pane_printing/plain_text.rs:87-95 | `highlight` changes nothing |
| PlainTextLines.PlainText.Show | src/pane_printing/plain_text.rs:14-21 | the display is the lines concatenated with no separator |
| PlainTextLinesExamples.OverwriteExamples | src/pane_printing/plain_text.rs:56-80 | printing past the end pads with spaces; printing inside keeps both sides |
| Trees.IdCounter.constructor | src/examples/tree.rs:8-11 | the per-thread counter starts at the given first id (1 for the older tree, 0 for the newer) |
| Trees.IdCounter.NextId | src/doc_examples/tree.rs:18-22 | `next_id` returns the counter and increments it |
| Trees.IdCounter.Reset | src/examples/tree.rs:106-108 | `reset_id` puts the counter back at its first id |
| Trees.NonCommentsPositive | src/doc_examples/tree.rs:96-104 | there is a non-comment child exactly when the count of them is positive |
| Trees.MarkedCount | src/doc_examples/tree.rs:96-104 | starting from unmarked children, `new_branch` marks exactly one fewer than the non-comment children: all but the last |
| Trees.MarkSeparatorsIdempotent | src/doc_examples/tree.rs:96-104 | marking separators twice is marking them once |
| Trees.NewText | src/doc_examples/tree.rs:83-93 | a text node takes the next id, the default style, no overrides and neither flag |
| Trees.NewBranch | src/doc_examples/tree.rs:96-115 | the loop of `new_branch` marks every non-comment child but the last non-comment one and changes nothing else; the branch takes the next id, the default style, no overrides and neither flag |
| Trees.IntoComment | src/doc_examples/tree.rs:117-121 | `into_comment` sets `is_comment` and changes nothing else |
| Trees.WithStyle | src/doc_examples/tree.rs:123-127 | `with_style` sets the node style and changes nothing else |
| Trees.WithStyleOverride | src/doc_examples/tree.rs:129-133 | `with_style_override` appends one override after the others and changes nothing else |
| Trees.FirstOverrideIsFirst | src/doc_examples/tree.rs:167-174 | the lookup finds an override exactly when one has the label, and then gives the first such one |
| Trees.OverrideAfter | src/doc_examples/tree.rs:129-133 | an override added later never hides an earlier one with the same label |
| Trees.LookupStyle | src/doc_examples/tree.rs:167-174 | the loop of `lookup_style` gives the first override with the label, or the style made from the label |
| Trees.NumChildren | src/doc_examples/tree.rs:176-181 | `None` for a text, the number of children for a branch |
| Trees.UnwrapText | src/doc_examples/tree.rs:183-188 | the text of a text node; anything else panics |
| Trees.UnwrapChild | src/doc_examples/tree.rs:190-195 | the child at the index of a branch; a text or an index out of range panics |
| Trees.BranchChildConditions | src/doc_examples/tree.rs:197-206 | in a new branch a child needs a separator exactly when it is not a comment and a non-comment follows it; its other conditions are unchanged |
| Trees.FreshTextConditions | src/doc_examples/tree.rs:197-206 | a new text is empty text exactly when its string is empty, needs no separator and is no comment until `into_comment` |
| TreesExamples.SeparatorsSkipTrailingComment | src/doc_examples/tree.rs:96-115 | with children text, text, comment only the first is marked, and the branch takes id 3 after its three children |
| TreesExamples.FirstOverrideWins | src/doc_examples/tree.rs:167-174 | of two overrides with the same label the first wins; an absent label finds none |
| RandomTesting.PickKeepsIndex | tests/standard/random_testing.rs:90-100 | `pick` moves the index on by one, keeps the recorded choices and records one more only when it has run past them |
| RandomTesting.PickBelowMax | tests/standard/random_testing.rs:45-46 | with a positive bound the value picked is below it, and every recorded choice stays below its bound |
| RandomTesting.Advanced | tests/standard/random_testing.rs:77-88 | advancing never lengthens the stack |
| RandomTesting.AdvancedEmptyIff | tests/standard/random_testing.rs:83-87 | the stack empties, so `done` is set, exactly when no choice can be incremented |
| RandomTesting.AdvancedCounting | tests/standard/random_testing.rs:77-88 | advancing keeps every choice below its bound |
| RandomTesting.AdvanceAddsOne | tests/standard/random_testing.rs:77-88 | read as a number whose digits have the bounds as bases, advancing adds one, or wraps round exactly when all choices were at their last value |
| RandomTesting.CollectSteps | tests/standard/random_testing.rs:119-131 | the enumeration ends exactly when the iterator yields nothing, and otherwise is the item yielded followed by the rest |
| RandomTesting.GenAll.constructor | tests/standard/random_testing.rs:69-75 | a new generator has index 0, no recorded choices and is not done |
| RandomTesting.GenAll.Pick | tests/standard/random_testing.rs:90-100 | `pick` replays the recorded choice at the index or records `(0, max)` and gives 0, as `PickFrom` says |
| RandomTesting.GenAll.Advance | tests/standard/random_testing.rs:77-88 | the loop of `advance` resets the index, pops exhausted choices, increments the deepest that can be, and sets `done` when none can |
| RandomTesting.Pick | tests/standard/random_testing.rs:44-52 | a zero bound panics and changes nothing; otherwise the value and the new state are those of `PickFrom` |
| RandomTesting.Make | tests/standard/random_testing.rs:179-194 | the test's tree generator builds the tree `MakeTree` describes and leaves the generator where it says |
| RandomTesting.GenAllIter.constructor | tests/standard/random_testing.rs:110-116 | a new iterator holds the size and a fresh generator |
| RandomTesting.GenAllIter.Next | tests/standard/random_testing.rs:122-130 | once done nothing more; otherwise one item is made and the generator advanced, as `NextStep` says |
| RandomTesting.CollectAll | tests/standard/random_testing.rs:29-31 | collecting the iterator gives the items `Collect` lists |
| RandomTestingExamples.PickStep | tests/standard/random_testing.rs:90-100 | replaying a recorded choice or recording a new one, case by case |
| RandomTestingExamples.AdvancedBump | tests/standard/random_testing.rs:79-83 | a top choice that can be incremented is |
| RandomTestingExamples.AdvancedPop | tests/standard/random_testing.rs:79-84 | a top choice at its last value is popped |
| RandomTestingExamples.Made1 | tests/standard/random_testing.rs:179-194 | the first tree of size 3 is a root with two leaves |
| RandomTestingExamples.Round1 | tests/standard/random_testing.rs:122-130 | the first round yields it and leaves the first choice at 1 |
| RandomTestingExamples.Made2 | tests/standard/random_testing.rs:179-194 | the second tree of size 3 is a path of three nodes |
| RandomTestingExamples.Round2 | tests/standard/random_testing.rs:122-130 | the second round yields it and the enumeration is done |
| RandomTestingExamples.TreesOfSizeThree | tests/standard/random_testing.rs:196-202 | there are exactly two trees of size 3, enumerated in that order |

## Left out

- Character width: `str_width`, `is_char_full_width` and `chars().count()` become the length of the string (`Text.StrWidth`), because Unicode width tables are outside the model; whether a character is full-width is passed in as a flag to the plain-text grid (`PlainTextGrid.PutChar`).
- Integer widths: `u16`, `u32` and `usize` are unbounded `nat`. Overflow and wrap-around are not modelled, except in `Geometry.Add`. This includes the `as u16` truncation when `print_line` in src/pane_printing/pane.rs advances the column.
- Floating point: `choose_focus_line_row` (src/pane/printing_options.rs:49) and the `f32` focus height it reads are left out, because the model has no floats.
- `wrap_line` (src/pane/printing_options.rs:66) is left out. `Line::split_at` and `Line::new`, which it relies on, are not part of this model.
- Styles, shades, marks and highlighting are carried as opaque values or dropped. No property depends on them, and `with_optional_style` keeps only its wrapper shape.
- Sharing and laziness: `Rc` notations, shared indentation lists and `DelayedConsolidatedNotation` become plain values. A sub-notation carries the result of evaluating it, so the order in which errors would surface lazily is not modelled. A `&mut Block` argument becomes a returned block.
- The oracle printers get their documents with every part already evaluated.
- In src/pretty_printing/pretty_print_2.rs, the following are not part of this model: the entry points `pretty_print` and `pretty_print_to_string`, the `Seeker`, the two line iterators, and `next_doc_id`, `highlight`, `at_end` and `is_empty`. They only drive the modelled printers or look up documents by id.
- In src/pretty_printing/pretty_print_3.rs, the entry points `pretty_print` and `pretty_print_to_string` and the `Seeker` are not part of this model, for the same reason.
- The `Display` and `Debug` printers of notations and chunks are left out, except the oracle's. They only format values for humans.
- The window output of `render` and `fill` is reduced to an ordered log of the calls sent to the window (`Window.calls`), and the window never fails, so the `PrettyWindowErr` propagation of `render` (src/pane_printing/pane.rs:102) and the window errors of `fill` are not modelled. `display_pane.rs`, `pane_print.rs` and `blocky_pretty_print.rs` are not part of this model.
- IfFlatPrint.PrettyPrinter.Print: the `print` match in src/if_flat/pretty_print.rs has arms only for `Empty`, `Literal`, `Newline`, `Indent`, `Choice` and `Concat`. The model therefore requires `Printable`, which excludes `Flat` and `Child`. The partial printers in src/if_flat/partial_print.rs, which share that gap, panic on `Child`.
- PrettyPrint.JoinLiterals requires `AtomsOnly`. The source only ever calls it on a stack of literals and choices, where a child would make it panic.
- IfFlatNotation.FitsWhenFlat: `fits_when_flat`, which the `Choice` arm of src/if_flat/pretty_print.rs calls, is defined in no file of the repository. It is reconstructed as the length of the notation's flat layout, if that is at most the width.
- IfFlatNotation.FitsWhenFlatMonotone is stated about that reconstruction, not about a definition in the source.
- NotationRef.FromParts: a `Right` past the last join (`i + 2` above the number of children, reachable only when `Surrounded` stands in `empty` or `lone`, which the intended validation rejects) moves on to the join `i + 1`, as the source does. Once the walk has passed the top of a join, that leads back to the same join top forever, so the source's loop never ends; `NeverEnds` proves this, and the method returns `None` there instead of running forever.
- PanePrinting.Pane.Render: the `unimplemented!` arm (`Horz`, `Vert` and `Doc`, all one `Other` case) returns failure rather than panicking, and only `Fill` and `Empty` are modelled.
- Some source behaviour is kept exactly as written rather than as evidently intended. The source never reaches these paths with valid input, so none is listed as a finding:
  - `unwrap_child(n)` (src/pretty_printing/consolidated_notation.rs:156, src/pretty_printing/notation_walker.rs:112) indexes past the end and so panics;
  - `Right` keeps its notation in the evaluator and walker, so the next pass panics;
  - `Right` outside a join reports `LeftOutsideJoin` (src/validate.rs:138);
  - `resolve_choice` in pretty_print_3.rs puts the first option at the bottom of the stack, which `BlockPrinter.FitsAllOrderFree` shows is harmless.
- Consolidated.Eval: the document accessors (`notation`, `node_style`, `num_children`, `unwrap_text`, `lookup_style`, `unwrap_child`, `unwrap_prev_sibling`, `condition`, `unwrap_last_child`) never fail in the model, because a document is a total tree value. So the `PrettyDoc(E)` error of src/consolidated_notation.rs:220, which `eval` propagates with `?` from each of them (lines 234-434), has no variant in `PrintingError` and is not modelled.
- The thread-local id counter of src/doc_examples/tree.rs is an `IdCounter` object passed explicitly.
- The random generator behind `Gen::random` (a seeded `rand` RNG) is left out. Only the exhaustive generator is modelled.
- RandomTestingExamples.TreesOfSizeThree: the test's count of 14 trees of size 5 is not proved. The model proves the smaller instance instead: exactly two trees of size 3, in enumeration order.

## Findings

| source | as written | input that shows it | evidently intended | confidence | as-written member | corrected member |
|---|---|---|---|---|---|---|
| src/validate.rs:191-194 | the four parts of a `Repeat` are validated with the context unchanged (`None` at the top level), so `Left`/`Right` in `join`, `Surrounded` in `surround` and `Child(0)` in `lone` are always rejected | the list notation `Repeat{empty: Empty, lone: Child(0), join: Left + sep + Right, surround: Surrounded}` with arity `Listy` fails with `ArityMismatchChild(Listy)` | each part is validated in its own context (`Empty`, `Lone`, `Join`, `Surround`), so the list notation is accepted | not executed | ValidateExamples.ListNotationRejected | ValidateExamples.ListNotationAccepted |
| src/pane_printing/pane.rs:99-103 | the `Fill` loop writes lines `0..height` of the pane's rectangle rather than `min_line..min_line+height` | a rectangle with lines 2..3 and columns 0..1: the fill writes at line 0, outside the rectangle | fill the lines of the rectangle itself, as pane_print.rs does with `min_row..max_row` | not executed | PanePrinting.FillAsWrittenLeavesPane | PanePrinting.FillStaysInside |
