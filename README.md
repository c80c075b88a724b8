# marina-ui, modelled in Dafny

marina-ui is the Next.js front end of Marina, a remote SAT solver. A user types a
propositional formula into an editor (with a toolbar that inserts connectives),
presses "Solve SAT", and the page posts `{prop: formula}` to the solver service.
The answer comes back as text such as `(a,true) (b,false)` or the sentinel
`(,false)`. The result panel shows it as a verdict ("Satisfiable",
"Unsatisfiable" or "Error") and as coloured chips, one per variable. Around this
sit:

- a proxy route `/api/solve` that forwards to the solver;
- an examples page with a category filter and a "copied" mark;
- a syntax guide stating the grammar, the connectives and some laws;
- a documentation page whose cards link to anchors derived from section titles;
- a navigation bar that highlights the current page.

The project models each of these in its own module:

- `Js` holds the JavaScript values the code relies on: `null`/`undefined` as
  `None`, truthiness, thrown values, and JSON objects.
- `Text` holds the string built-ins the code calls: `split`, `includes`,
  `startsWith`, `trim`, `toLowerCase`, `replace` of the first occurrence,
  removal of parentheses, and decimal rendering of a status.
- `MarinaClient` models `solveSAT`. The network is a parameter: `transport` maps
  the request sent to the outcome observed.
- `SolveRoute` models the `POST` handler of the proxy route.
- `ResultDisplay` models the view as a function of the `result` and `error`
  props. It also proves that an encoded assignment parses back into its chips,
  and characterises exactly when the verdict reads "Satisfiable".
- `FormulaInput` models the editor. It is a class whose fields are the
  component's state: the text and the selection. Its methods are the handlers:
  typing, inserting at the cursor, syncing from the parent, and submitting.
- `SolverPage` models the four state slots (`result`, `error`, `isLoading`,
  `currentFormula`) and `handleSubmit`. The solver page and the home page share
  both.
- `HomePage` models the home page. It wires the editor to the page's
  `currentFormula` in both directions.
- `Guide` models the proposition grammar as a datatype, with its meaning, the
  laws the guide lists, and the two different variable-name rules.
- `ExamplesPage`, `Documentation` and `Navbar` model the rest of the site's
  logic.

The verdict is modelled as the code computes it. The code calls a result
satisfiable when it is truthy, contains no `,false)` and is not `(,false)`. So
an answer that sets any variable to false reads "Unsatisfiable"
(`ResultDisplay.EncodedVerdict`). On such an answer, the chips and the "What
does this mean?" note still appear (`ResultDisplay.MeaningShownWhileUnsatisfiable`).
The comparison with `(,false)` in that test is redundant, because the sentinel
already contains `,false)` (`ResultDisplay.IsSatisfiable`).

The home page and the guide print different rules for variable names. The
model keeps both and proves that they disagree in both directions
(`Guide.RulesDisagree`).

## Model

| member | source | states |
|---|---|---|
| Text.IncludesAt | components/solver/ResultDisplay.tsx:17 | `includes` holds as soon as the substring occurs at some index |
| Text.IncludesWitness | components/solver/ResultDisplay.tsx:17 | conversely, when `includes` holds there is an index where the substring occurs |
| Text.IncludesAfter | components/solver/ResultDisplay.tsx:17 | a substring of the right part is a substring of a concatenation |
| Text.IncludesBefore | components/solver/ResultDisplay.tsx:17 | a substring of the left part is a substring of a concatenation |
| Text.IndexOf | components/solver/ResultDisplay.tsx:124 | the position of the first occurrence of a character, or the length when it is absent; no earlier position holds it |
| Text.Split | components/solver/ResultDisplay.tsx:123-124 | `split(sep)` gives at least one piece and no piece contains the separator |
| Text.SplitHead | components/solver/ResultDisplay.tsx:124 | the first piece is the text before the first separator; there are two or more pieces exactly when the separator occurs |
| Text.SplitTail | components/solver/ResultDisplay.tsx:124 | the pieces after the first are the split of the text after the first separator |
| Text.JoinSplit | components/solver/ResultDisplay.tsx:123 | joining the pieces of a split with the separator gives back the text |
| Text.SplitAfterPlain | components/solver/ResultDisplay.tsx:123 | splitting `a + b`, where `a` holds no separator, glues `a` to the first piece of `b` |
| Text.SplitJoin | components/solver/ResultDisplay.tsx:123 | splitting the join of separator-free pieces gives back exactly those pieces |
| Text.RemoveAll | components/solver/ResultDisplay.tsx:124 | `replace(/[()]/g, '')` never lengthens the text and leaves none of the removed characters |
| Text.RemoveAllAppend | components/solver/ResultDisplay.tsx:124 | removal distributes over concatenation |
| Text.RemoveAllNothing | components/solver/ResultDisplay.tsx:124 | a text without the removed characters is left as it is |
| Text.TrimStart | components/solver/FormulaInput.tsx:27 | drops exactly the leading whitespace: what remains is a suffix that starts with a non-blank, and what was dropped is blank |
| Text.TrimEnd | components/solver/FormulaInput.tsx:27 | drops exactly the trailing whitespace, symmetrically |
| Text.TrimEmptyIffBlank | components/solver/FormulaInput.tsx:27 | `trim()` is empty exactly when every character is whitespace |
| Text.ToLower | app/documentation/page.tsx:47 | `toLowerCase` keeps the length, leaves no upper-case letter, moves each upper-case letter to its lower-case partner and leaves every other character as it was |
| Text.ToLowerIdempotent | app/documentation/page.tsx:47 | lower-casing an already lower-cased title changes nothing |
| Text.ReplaceFirst | app/documentation/page.tsx:47 | `replace(' ', '-')` with a string pattern: only the first occurrence changes; a text without the target is unchanged |
| Text.DecimalString | lib/marinaClient.ts:19 | a status is rendered as a non-empty string of digits |
| Text.DecimalRoundTrip | lib/marinaClient.ts:19 | reading the rendered digits back gives the number |
| Text.DecimalInjective | lib/marinaClient.ts:19 | distinct numbers render differently |
| MarinaClient.BackendUrl | lib/marinaClient.ts:1 | `NEXT_PUBLIC_API_URL` when it is non-empty, otherwise the fixed onrender.com URL; never empty |
| MarinaClient.MarinaRequestInjective | lib/marinaClient.ts:10-16 | the request determines the base URL and the `prop` value it was built from: nothing about the formula is lost or merged |
| MarinaClient.HttpErrorTextRoundTrip | lib/marinaClient.ts:18-19 | the error text is `HTTP error! status: ` followed by digits that read back as the status |
| MarinaClient.ResponseRoundTrip | lib/marinaClient.ts:22-26 | a 2xx answer whose JSON body is `{assignment, error}` (null for absent) is read back as exactly that response |
| MarinaClient.Fold | lib/marinaClient.ts:18-33 | a 2xx JSON answer gives its `assignment` and `error`; every failure gives a null assignment and an error: the rejection's message or "Network error occurred", the status text for non-2xx, or the parse error's message |
| MarinaClient.OneRequest | lib/marinaClient.ts:8-16 | exactly one request is made, to base + `/marina`, carrying the formula unmodified: networks that agree on it give the same response |
| MarinaClient.SolveSAT | lib/marinaClient.ts:8-34 | an assignment comes back only when the one exchange succeeded, and a failed exchange always gives an error and no assignment |
| MarinaClient.AssignmentOnlyFromSuccess | lib/marinaClient.ts:22-33 | an assignment is returned only from a 2xx JSON answer that holds it as a string |
| MarinaClient.DistinctStatusesDistinctErrors | lib/marinaClient.ts:18-19 | two different non-2xx statuses give different error texts |
| SolveRoute.FormulaOf | app/api/solve/route.ts:5-6 | destructuring fails exactly on a malformed or `null` body; a present `formula` is the body's own field |
| SolveRoute.Post | app/api/solve/route.ts:3-34 | a body that is not JSON, or is `null`, gives 500; a falsy `formula` gives 400 and no upstream call; otherwise one upstream request carries the formula, and the answer's status and JSON pass through; any failure on the way gives 500 |
| SolveRoute.ResponsesAreFixedOrUpstream | app/api/solve/route.ts:24-33 | every response is the fixed 400, the fixed 500, or exactly the upstream status and body |
| SolveRoute.FailureTextIrrelevant | app/api/solve/route.ts:27-33 | what was thrown never reaches the client: failures with different messages give the same response |
| SolveRoute.BlankFormulaForwarded | app/api/solve/route.ts:9-22 | a formula of blanks is truthy, so it is forwarded unchanged rather than refused |
| SolveRoute.UpstreamStatusKept | app/api/solve/route.ts:24-26 | an upstream error status with a JSON body is passed through, not turned into 500 |
| SolveRoute.MalformedBodyIs500 | app/api/solve/route.ts:5-6 | a body that is not JSON gives 500 without an upstream call |
| ResultDisplay.SentinelIncludesMarker | components/solver/ResultDisplay.tsx:17 | the sentinel `(,false)` itself contains `,false)` |
| ResultDisplay.IsSatisfiable | components/solver/ResultDisplay.tsx:17 | the verdict holds exactly for a truthy answer without `,false)`; the comparison with the sentinel adds nothing |
| ResultDisplay.ParseToken | components/solver/ResultDisplay.tsx:124-125 | a token gives a chip exactly when its text without parentheses has a non-empty part before the first comma; the chip's value is the part after it, cut at the next comma, and is absent without a comma |
| ResultDisplay.CommaPieces | components/solver/ResultDisplay.tsx:124 | the first two pieces of the comma split are the text before the first comma and the text between the first and second |
| ResultDisplay.ChipsOf | components/solver/ResultDisplay.tsx:123-126 | at most one chip per token; every chip is what some token parses to; when every token parses, the chips are exactly the tokens' chips, in token order |
| ResultDisplay.ChipsOfAppend | components/solver/ResultDisplay.tsx:123-126 | the chips of two runs of tokens are the chips of the first followed by those of the second: a skipped token drops out without reordering the rest |
| ResultDisplay.ParseChips | components/solver/ResultDisplay.tsx:123 | every chip of any answer has a plain non-empty name; an answer without a space shows at most one chip |
| ResultDisplay.ChipNamesArePlain | components/solver/ResultDisplay.tsx:123-125 | every chip name is free of spaces, commas and parentheses |
| ResultDisplay.RemoveAllFrom | components/solver/ResultDisplay.tsx:124 | every character left after removing parentheses comes from the token |
| ResultDisplay.Render | components/solver/ResultDisplay.tsx:51-172 | nothing is shown when both props are falsy; the error panel is shown exactly when the error is truthy, and shows it verbatim; otherwise the verdict is `isSatisfiable`, the sentinel shows "No assignment exists", any other result shows its chips and the "What does this mean?" note |
| ResultDisplay.HeadingOfRender | components/solver/ResultDisplay.tsx:77 | the heading is "Error" for a truthy error, otherwise "Satisfiable" or "Unsatisfiable" by the verdict of line 17 |
| ResultDisplay.ErrorWins | components/solver/ResultDisplay.tsx:62-77 | with a non-empty error, whatever the result, the panel is the error and the heading reads "Error" |
| ResultDisplay.SentinelShowsNoAssignment | components/solver/ResultDisplay.tsx:119-120 | the sentinel shows "No assignment exists" under the heading "Unsatisfiable", without the note |
| ResultDisplay.MeaningShownWhileUnsatisfiable | components/solver/ResultDisplay.tsx:167-172 | `(a,false)` is headed "Unsatisfiable" yet shows its chip and the note that it makes the formula true |
| ResultDisplay.TokenWithoutComma | components/solver/ResultDisplay.tsx:124-133 | `(a)` gives a chip with no value, coloured as not true |
| ResultDisplay.EmptyNamesYieldNoChip | components/solver/ResultDisplay.tsx:125 | an empty token, and a token whose name is empty, give no chip |
| ResultDisplay.TokensOf | components/solver/ResultDisplay.tsx:123 | one token per binding, in order |
| ResultDisplay.ChipsFor | components/solver/ResultDisplay.tsx:123-133 | one chip per binding, in order |
| ResultDisplay.BareToken | components/solver/ResultDisplay.tsx:124 | removing parentheses from `(name,value)` leaves `name,value` |
| ResultDisplay.ValueColour | components/solver/ResultDisplay.tsx:124-135 | a token `(name,value)` shows `value` verbatim, and its chip is green only for the exact text `true` |
| ResultDisplay.ParseBinding | components/solver/ResultDisplay.tsx:124-135 | the token of a binding parses back to its chip, which is green exactly when the value is true |
| ResultDisplay.TokenHasNoSpace | components/solver/ResultDisplay.tsx:123 | a binding's token holds no space |
| ResultDisplay.TokensHaveNoSpace | components/solver/ResultDisplay.tsx:123 | no token of an encoded assignment holds a space |
| ResultDisplay.ChipsOfTokens | components/solver/ResultDisplay.tsx:123-125 | the tokens of a list of bindings parse to their chips |
| ResultDisplay.DoubledSpaceSkipped | components/solver/ResultDisplay.tsx:123-126 | two well-formed tokens separated by a doubled space still show exactly their two chips, in order; the empty token between them is skipped |
| ResultDisplay.ParseEncode | components/solver/ResultDisplay.tsx:123-135 | an assignment encoded as `(x,true) (y,false)` is shown as exactly its chips, in order, each green exactly when its value is true |
| ResultDisplay.CommasBeforeTJoin | components/solver/ResultDisplay.tsx:17 | texts where every comma is followed by `t` keep that property when joined by a space |
| ResultDisplay.TrueTokenCommas | components/solver/ResultDisplay.tsx:17 | in the token of a true binding, the comma is followed by `t` |
| ResultDisplay.NoFalseMarker | components/solver/ResultDisplay.tsx:17 | a text whose commas are all followed by `t` does not include `,false)` |
| ResultDisplay.AllTrueCommas | components/solver/ResultDisplay.tsx:17 | an encoding of all-true bindings has every comma followed by `t` |
| ResultDisplay.SomeFalseIncludesMarker | components/solver/ResultDisplay.tsx:17 | an encoding with one false binding includes `,false)` |
| ResultDisplay.EncodedVerdict | components/solver/ResultDisplay.tsx:17 | an encoded assignment reads "Satisfiable" exactly when it is non-empty and every variable is true |
| ResultDisplay.MixedAnswerText | components/solver/ResultDisplay.tsx:123 | a = true, b = false encodes as `(a,true) (b,false)` |
| ResultDisplay.MixedAnswerExample | components/solver/ResultDisplay.tsx:17 | `(a,true) (b,false)` shows chips a = true and b = false and is headed "Unsatisfiable" |
| FormulaInput.Splice | components/solver/FormulaInput.tsx:65 | the selection is replaced by the text: the prefix before it and the suffix after it are kept, and the length changes by the difference |
| FormulaInput.SpliceUndo | components/solver/FormulaInput.tsx:65 | splicing the old selection back over the inserted text restores the formula |
| FormulaInput.SpliceNotBlank | components/solver/FormulaInput.tsx:65 | inserting a non-blank snippet makes the formula non-blank |
| FormulaInput.SubmitDisabled | components/solver/FormulaInput.tsx:184 | the button is disabled exactly while loading or when the formula is blank |
| FormulaInput.ToolbarSnippetsNotBlank | components/solver/FormulaInput.tsx:120-169 | every toolbar snippet has a visible character |
| FormulaInput.Editor.constructor | components/solver/FormulaInput.tsx:16-17 | the editor starts with `initialValue` and the caret at the start |
| FormulaInput.Editor.Select | components/solver/FormulaInput.tsx:63-64 | a selection within the text is recorded; the text is unchanged |
| FormulaInput.Editor.HandleFormulaChange | components/solver/FormulaInput.tsx:52-57 | the slot takes the value, and the same value is forwarded exactly when the parent listens |
| FormulaInput.Editor.InsertAtCursor | components/solver/FormulaInput.tsx:59-74 | without a text area nothing changes; otherwise the selection is spliced out for the text, the caret lands at start + length, and the new text is forwarded |
| FormulaInput.Editor.SyncInitialValue | components/solver/FormulaInput.tsx:20-23 | the parent's `initialValue` replaces the text; a different value puts the caret at its end, while the value already shown leaves the caret and selection where they were |
| FormulaInput.Editor.Submit | components/solver/FormulaInput.tsx:25-31 | a blank formula is refused; otherwise the formula is submitted exactly as held, untrimmed |
| FormulaInput.ToolbarThenSubmit | components/solver/FormulaInput.tsx:120-169 | after any toolbar click, submission always goes through, with the spliced text |
| SolverPage.Settle | app/solver/page.tsx:22-37 | never both slots set; a truthy `apiError` wins, then a truthy assignment; a throw records its message or "Unknown error"; a response with neither leaves both empty |
| SolverPage.SettledView | app/solver/page.tsx:25-31 | after a resolved submit, an error shows the error panel, an assignment shows its verdict, and a response with neither shows nothing |
| SolverPage.HttpFailureShown | app/solver/page.tsx:25-27 | a non-2xx answer always ends on the error panel with the status text |
| SolverPage.ResultOnlyFromSuccess | app/solver/page.tsx:28-29 | a failed exchange never fills the result slot; a shown result is a 2xx JSON answer's string assignment with a falsy error |
| SolverPage.Session.constructor | app/solver/page.tsx:11-14 | both slots empty, not loading, empty formula |
| SolverPage.Session.BeginSubmit | app/solver/page.tsx:17-20 | loading on, both slots cleared, formula recorded |
| SolverPage.Session.Complete | app/solver/page.tsx:22-37 | the slots become the settled outcome and loading is off |
| SolverPage.Session.HandleSubmit | app/solver/page.tsx:16-38 | after one submit the slots are the settled outcome, loading is off, and the formula is recorded |
| SolverPage.Session.Solve | app/solver/page.tsx:23 | `handleSubmit` through the solver client: the slots settle the client's response |
| HomePage.Home.constructor | app/page.tsx:16-19 | the page starts empty, with the editor in step with `currentFormula` |
| HomePage.Home.SelectExample | app/page.tsx:21-24 | picking an example sets `currentFormula` and the editor follows; a new formula puts the caret at the end, re-picking the formula already shown leaves the caret where it was; the result slots and loading flag are kept |
| HomePage.Home.Type | app/page.tsx:60-61 | a keystroke reaches `currentFormula` through `onFormulaChange`, the caret is where the browser left it, the two stay in step, and the slots and loading flag are kept |
| HomePage.Home.ReselectKeepsCaret | app/page.tsx:21-22 | after typing `a & b` with the caret after `a `, re-picking `a & b` and clicking the disjunction button splices the snippet at the user's caret, not at the end of the text |
| HomePage.Home.Insert | app/page.tsx:60-61 | a toolbar insertion splices the selection, reaches `currentFormula`, puts the caret after the snippet, and keeps the slots and loading flag |
| HomePage.Home.Submit | app/page.tsx:26-48 | a blank formula changes nothing; otherwise the slots settle the solver's answer for the editor's text; the editor's text and selection are kept |
| Guide.TruthTables | app/guide/page.tsx:7-43 | each connective means what its table row says |
| Guide.EvalOnlyReadsAtoms | app/solver/page.tsx:72 | valuations that agree on a formula's atoms agree on the formula, so missing variables do not matter |
| Guide.MinimalWitness | app/solver/page.tsx:72 | a satisfiable formula has a satisfying valuation that is false outside its atoms |
| Guide.Contradiction | app/guide/page.tsx:66-69 | `a & ~a` is false under every valuation |
| Guide.ExcludedMiddle | app/guide/page.tsx:71-74 | `a \| ~a` is true under every valuation |
| Guide.DeMorgan | app/guide/page.tsx:56-59 | `~(a & b) <-> (~a \| ~b)` is valid |
| Guide.Distributive | app/guide/page.tsx:61-64 | `a & (b \| c) <-> (a & b) \| (a & c)` is valid |
| Guide.DoubleNegation | app/guide/page.tsx:97-101 | `~~a` has the value of `a` |
| Guide.IsAtom | app/guide/page.tsx:141 | a guide atom is non-empty, starts with neither a digit nor an underscore, and has no upper-case letter or dash |
| Guide.IsHomeAtom | app/page.tsx:151 | a home-page atom is non-empty, does not start with a digit, and has no upper-case letter or dash |
| Guide.WordPrefix | app/page.tsx:151 | the length of the longest leading run of `[a-z_]` |
| Guide.HomeAtomIsRegex | app/page.tsx:151 | the home-page rule holds exactly when the name splits into `[a-z_]+` followed by `[0-9]*` |
| Guide.HomeSplitUnique | app/page.tsx:151 | such a split can only sit where the longest run of `[a-z_]` ends |
| Guide.HomeAtomWithLetterIsAtom | app/guide/page.tsx:141 | a name that starts with a letter and meets the home-page rule also meets the guide's rule |
| Guide.ValidExamples | app/guide/page.tsx:188-194 | `a`, `b1`, `var_name` and `x_123` meet `[a-z][a-z0-9_]*` |
| Guide.InvalidExamples | app/guide/page.tsx:201-207 | `A`, `var-name`, `1var` and `_var` do not |
| Guide.RulesDisagree | app/guide/page.tsx:141 | `_var` meets only the home-page rule, and `a1b` meets only the guide's rule |
| Navbar.OwnPageActive | components/layout/Navbar.tsx:18-48 | each item is active on its own page |
| Navbar.PrefixMatching | components/layout/Navbar.tsx:15 | `/solver/x` and `/solverx` both highlight Solver, and neither highlights Home |
| Navbar.AtMostOneActive | components/layout/Navbar.tsx:13-48 | whatever the pathname, at most one item is highlighted |
| Navbar.Menu.constructor | components/layout/Navbar.tsx:10 | the mobile menu starts closed |
| Navbar.Menu.Toggle | components/layout/Navbar.tsx:97 | the menu button flips the open flag |
| Navbar.Menu.FollowLink | components/layout/Navbar.tsx:118-132 | following a menu link closes the menu |
| ExamplesPage.FilterCategory | app/examples/page.tsx:83 | the filter keeps exactly the examples of the category and never lengthens the list |
| ExamplesPage.FilterIsSubsequence | app/examples/page.tsx:83 | the filter keeps the original order |
| ExamplesPage.FilterCounts | app/examples/page.tsx:83 | the filter keeps every copy of a matching example and no copy of any other |
| ExamplesPage.Filtered | app/examples/page.tsx:81-83 | "All" shows every example; any other category shows exactly its examples |
| ExamplesPage.FilteredIsSubsequence | app/examples/page.tsx:81-83 | whatever is selected, the cards are examples from the list, in list order |
| ExamplesPage.SubsequenceOfSelf | app/examples/page.tsx:82 | the unfiltered list is in list order |
| ExamplesPage.EveryCategoryNonEmpty | app/examples/page.tsx:188 | no category button leads to "No examples found" |
| ExamplesPage.ExamplesView.constructor | app/examples/page.tsx:78-79 | the page starts on "All" with no card marked |
| ExamplesPage.ExamplesView.SelectCategory | app/examples/page.tsx:121 | a category button changes the selection and keeps the mark |
| ExamplesPage.ExamplesView.CopyExample | app/examples/page.tsx:85-87 | the shown card's formula goes to the clipboard, and exactly that position reads "✓ Copied!" |
| ExamplesPage.FilterSkips | app/examples/page.tsx:83 | the first filtered card is the first example of its category |
| ExamplesPage.FirstOfCategory | app/examples/page.tsx:81-83 | the first card shown for a category is its first example in list order |
| ExamplesPage.FirstBasicCard | app/examples/page.tsx:16-30 | the first Basic card is "Simple AND", with formula `a & b` |
| ExamplesPage.FirstAdvancedCard | app/examples/page.tsx:16-51 | the first Advanced card is "De Morgan" |
| ExamplesPage.CopiedMarkFollowsPosition | app/examples/page.tsx:85-88 | on a fresh page, choosing Basic, copying its first card ("a & b" to the clipboard) and switching to Advanced leaves the mark on position 0, now "De Morgan" |
| Documentation.LowerKeepsSpaces | app/documentation/page.tsx:47 | lower-casing keeps the first space where it was |
| Documentation.Slug | app/documentation/page.tsx:47 | the slug is the title lower-cased with only its first space turned into `-` |
| Documentation.Href | app/documentation/page.tsx:47 | a card's link is `#` followed by the anchor id of the same section |
| Documentation.SectionId | app/documentation/page.tsx:78 | an anchor is as long as its title and has no upper-case letter |
| Documentation.LinkTargetsOwnSection | app/documentation/page.tsx:47-78 | each card's link is `#` plus its own section's anchor, and no other section's |
| Documentation.NoSpaceLeft | app/documentation/page.tsx:47 | a title with at most one space gives a slug without spaces |
| Documentation.SecondSpaceKept | app/documentation/page.tsx:47 | a second space survives in the slug |
| Documentation.SlugAt | app/documentation/page.tsx:47 | the slug of a title whose first space is at a known index |
| Documentation.SlugIs | app/documentation/page.tsx:47 | the slug equals an expected text when it is that title lower-cased with a dash at the first space |
| Documentation.SlugWithoutSpace | app/documentation/page.tsx:47 | the slug of a title without spaces is the title lower-cased |
| Documentation.LoweredTitle | app/documentation/page.tsx:7-28 | the four titles lower-cased |
| Documentation.GettingStartedSlug | app/documentation/page.tsx:9 | `getting-started` |
| Documentation.ApiReferenceSlug | app/documentation/page.tsx:14 | `api-reference` |
| Documentation.AlgorithmDetailsSlug | app/documentation/page.tsx:19 | `algorithm-details` |
| Documentation.ExamplesSlug | app/documentation/page.tsx:24 | `examples` |
| Documentation.SectionSlugs | app/documentation/page.tsx:7-28 | the four anchors are `getting-started`, `api-reference`, `algorithm-details` and `examples` |
| Documentation.SlugsDistinct | app/documentation/page.tsx:7-28 | different sections get different anchors |

## Left out

- The network, `process.env` and `console.error` are not modelled as such. The network is the `transport` parameter and the environment variable is the `env` parameter. Logging has no effect on any value.
- `MarinaClient.StringField`: JSON values of `assignment` or `error` that are not strings (numbers, booleans, objects) are read as null. The code would pass them through untyped.
- JSON values are scalars only (`Js.JsonValue`): arrays, nested objects and fractional numbers are not modelled. So a request `{formula: []}` or `{formula: {}}`, which is truthy and forwarded by the route, is outside the model. So is an upstream body with nested fields, which the route passes through and the client reads.
- JSON numbers are integers. A request body that is JSON but not an object is reduced to "null or not" (`SolveRoute.RequestBody`). An upstream body that is JSON but not an object is not modelled.
- Animations (framer-motion, gsap), toasts, icons, class names and layout are not modelled: they carry no state that the logic reads.
- The result panel's copy, download and clear buttons are not modelled. `copyResult` and `downloadResult` write to the clipboard and to a file with a timestamp. `clearResults` reloads the page.
- The clipboard is modelled only as the value written to it (`ExamplesPage.ExamplesView.CopyExample`). The editor's `copyToClipboard` and the examples page's `handleUseExample` only write the clipboard and show a toast, so they are not modelled.
- The `setTimeout` in `insertAtCursor` is not modelled: the caret is placed at once. The 2-second timer that clears the examples page's copied mark is not modelled either, so the mark stays until the next copy.
- Overlapping submissions, where a second `handleSubmit` starts before the first settles, are not modelled: each submit runs to completion.
- Where the browser puts the caret after a keystroke is outside the code. It is a parameter of `FormulaInput.Editor.HandleFormulaChange`.
- `Text.ToLower` lower-cases ASCII letters only. The section titles are ASCII.
- The solver itself and a formula parser are not part of this repository. Formulas appear as syntax trees (`Guide.Prop`) only to state the guide's laws.
- The presentational components (hero, features, footer, about page, the syntax-guide card) and the home page's examples panel are not part of this model, beyond the callback `HomePage.Home.SelectExample`.
