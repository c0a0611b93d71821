# DefaultRowProcessor, modelled in Dafny

The project models the placeholder-resolution core of the spreadsheet templating
library: `DefaultRowProcessor`. That class fills `${...}` markers in the text of
spreadsheet cells with values from a map.

- `resolve` works on one cell's text in two loops.
  - **Phase 1** replaces the leftmost plain marker `${key}` by the string that
    the map holds for `key`. It then rescans from the start, until no plain
    marker is left.
  - **Phase 2** takes the leftmost dotted marker `${root.attr}`. It rewrites
    that marker, inside the whole content, into the template expression
    `#{attr}`. It hands the whole rewritten content to the template evaluator,
    with the object the map holds under `root`. The evaluator's result becomes
    the new content, which is rescanned.
  - A parse or evaluation failure in phase 2 is caught. `resolve` then returns
    the content from before the failing pass.
- `dealRow` rewrites, in place, every string cell of a row with `resolve` of
  its text, and returns 1.
- `support` returns 0.

Files:

- `options.dfy`: the `Option` type.
- `markers.dfy`:
  - the marker grammar as a reference definition (`IsPlainMarkerAt`,
    `IsDottedMarkerAt`, `IsFirstPlainMarker`, ...);
  - the leftmost-match scanners that stand for `Matcher.find` (`FindPlain`,
    `FindDotted`), proved sound and complete against that grammar.
- `resolver.dfy`:
  - the specification of `resolve` as functions (`PlainPhase`, `DottedPhase`,
    `Resolution`);
  - the source's two loops as the method `Resolve`, proved to compute
    `Resolution`;
  - the properties of one pass of each loop.
- `resolver_examples.dfy`: `resolve` on concrete cells, including the demo
  input of `main`.
- `row_processor.dfy`: `support`, and `dealRow` as a method over an array of
  optional cells.

Assumptions and modelling choices:

- **Marker grammar.** The regular expressions live in `Constants`, which is not
  part of this model. The grammar is fixed as:
  - plain marker: `${` word `}`;
  - dotted marker: `${` word `.` word `}`;
  - a word is one or more of Java's `\w` characters (ASCII letters, digits,
    underscore).

  The dotted pattern is taken to capture `{` as group 1, `root.` (dot
  included) as group 2 and `attr}` as group 3. The rewrite `#$1$3` then gives
  `#{attr}`, and removing the last character of group 2 gives the root name.
  The plain pattern never matches a dotted marker.
- **Template evaluator.** SpEL with `TemplateParserContext` is a foreign
  library. It is a parameter `eval(root, template)`. The root is `None` when
  the map has no entry. The evaluator returns a string (`Rendered`), null
  (`RenderedNull`) or a parse/evaluation failure (`EvaluationFailed`).
- **Exceptions.** Where `resolve` throws, the result is `Failed` with:
  - `MissingKey`: the null replacement given to `replaceFirst`;
  - `NotText`: the `(String)` cast of a non-string value;
  - `NullContent`: an evaluator that returns null. The loop update at line 72
    then calls `pattern.matcher(null)`, which throws a `NullPointerException`.
    That happens inside the `try`, but the `catch` at line 80 names only
    `EvaluationException` and `ParseException`, so the exception escapes.

  A `Failed` result aborts `dealRow` at that cell. The cells before it are
  already rewritten.
- **Termination.** Neither loop of the source terminates on every input.
  - Phase 1 is modelled for maps whose string values hold no `$` and no `\`
    (`SafeReplacements`). Under that condition `replaceFirst` inserts the
    value literally, and each pass removes exactly one `$`.
  - Phase 2 is modelled for evaluators whose result holds no more `$` than the
    template they are given (`KeepsDollarBound`). Each pass then removes at
    least one `$`.

  The number of `$` in the content is the loop measure.

Three behaviours of the code are worth stating plainly, because a reader might
expect otherwise:

- **Phase 2 hands the whole content to the evaluator.** The rewrite of line 76
  replaces only the marker, and line 77 evaluates the whole rewritten content
  as a template. Whether the text around the marker survives is the
  evaluator's business, and it is not fixed here.
- **A missing root reaches the evaluator as null.** Line 75 looks the root up
  and passes whatever `get` returns, null included, to the evaluator, so the
  outcome again belongs to the evaluator.
- **A missing key makes `replaceFirst(null)` throw** (line 66). The model calls
  this failure `MissingKey`.

## Model

| member | source | states |
|---|---|---|
| Markers.RootName | src/main/java/com/kvn/poi/processor/DefaultRowProcessor.java:73-74 | The root name is group 2 without its last character, the dot: group 2 is the name followed by one character. |
| Markers.FindPlain | src/main/java/com/kvn/poi/processor/DefaultRowProcessor.java:63-64 | The plain scan reports a plain marker with no plain marker starting before it, and its span ends after `${key}`. It reports nothing exactly when the content holds no plain marker. |
| Markers.FindDotted | src/main/java/com/kvn/poi/processor/DefaultRowProcessor.java:72-74 | The dotted scan reports the leftmost dotted marker. Group 2 is `root.` and ends with the dot, and the span covers the marker. It reports nothing exactly when the content holds no dotted marker. |
| Markers.PlainAtSound | src/main/java/com/kvn/poi/processor/DefaultRowProcessor.java:63-64 | A plain match found at an index is a plain marker of the grammar, whose key is group 1. |
| Markers.PlainAtComplete | src/main/java/com/kvn/poi/processor/DefaultRowProcessor.java:63-64 | Every plain marker at an index is found there, with its key and span. |
| Markers.DottedAtSound | src/main/java/com/kvn/poi/processor/DefaultRowProcessor.java:72-74 | A dotted match found at an index is a dotted marker whose root is group 2 without the dot. |
| Markers.DottedAtComplete | src/main/java/com/kvn/poi/processor/DefaultRowProcessor.java:72-74 | Every dotted marker at an index is found there, with group 2 equal to `root.` and its attribute. |
| Markers.FirstPlainMarkerFound | src/main/java/com/kvn/poi/processor/DefaultRowProcessor.java:63-64 | The leftmost plain marker of the grammar is exactly the match `find` reports. |
| Markers.FirstDottedMarkerFound | src/main/java/com/kvn/poi/processor/DefaultRowProcessor.java:72-74 | The leftmost dotted marker is the match `find` reports, and `substring(0, length - 1)` of group 2 is its root name. |
| Markers.DottedIsNotPlain | src/main/java/com/kvn/poi/processor/DefaultRowProcessor.java:63 | The plain pattern never matches where a dotted marker starts, so phase 1 leaves dotted markers to phase 2. |
| Markers.DollarFreeHasNoMarker | src/main/java/com/kvn/poi/processor/DefaultRowProcessor.java:60-63 | A text without `$` holds no marker of either kind. |
| Resolver.Lookup | src/main/java/com/kvn/poi/processor/DefaultRowProcessor.java:75 | The lookup gives a value exactly when the key is in the map, and that value is the map's; an absent key gives null. |
| Resolver.Template | src/main/java/com/kvn/poi/processor/DefaultRowProcessor.java:76 | The rewrite `#$1$3` of a dotted marker is `#{`, the attribute, `}`. |
| Resolver.Resolution | src/main/java/com/kvn/poi/processor/DefaultRowProcessor.java:59-84 | `resolve` as phase 1, then phase 2 on its result. A phase-1 failure is the failure of `resolve`, since the `try` covers phase 2 only; `ResolutionOutcomes` and `Resolve` state the rest. |
| Resolver.PlainPassRemovesOneDollar | src/main/java/com/kvn/poi/processor/DefaultRowProcessor.java:63-66 | A phase-1 pass with a literal replacement removes exactly one `$`, the termination measure of phase 1. |
| Resolver.DottedPassRemovesOneDollar | src/main/java/com/kvn/poi/processor/DefaultRowProcessor.java:72-76 | Rewriting a dotted marker into its `#{attr}` template removes exactly one `$`, the termination measure of phase 2. |
| Resolver.PlainPhase | src/main/java/com/kvn/poi/processor/DefaultRowProcessor.java:63-67 | Content without a plain marker passes phase 1 unchanged. Phase 1 ends only when no plain marker is left. Each failure is a missing key or a non-string value under a key. |
| Resolver.DottedPhase | src/main/java/com/kvn/poi/processor/DefaultRowProcessor.java:70-82 | Content without a dotted marker passes phase 2 unchanged. The only failure is a null from the evaluator. Phase 2 stops only when no dotted marker is left, or when the next pass fails and is caught. Its result is its input or something the evaluator rendered. |
| Resolver.ResolutionOutcomes | src/main/java/com/kvn/poi/processor/DefaultRowProcessor.java:59-84 | A cell without markers is returned exactly. A phase-1 failure is the failure of `resolve`. Every other failure is a null content after a successful phase 1. |
| Resolver.Resolve | src/main/java/com/kvn/poi/processor/DefaultRowProcessor.java:59-84 | The two loops of `resolve`, with the early exit on a caught failure, compute `Resolution`. |
| Resolver.FirstPlainMarkerReplaced | src/main/java/com/kvn/poi/processor/DefaultRowProcessor.java:63-66 | One phase-1 pass replaces only the leftmost plain marker by its string value. It keeps the text before and after, then rescans. |
| Resolver.FirstPlainMarkerUnresolvable | src/main/java/com/kvn/poi/processor/DefaultRowProcessor.java:65-66 | A leftmost plain marker whose key is absent, or maps to a non-string, makes `resolve` throw, whatever phase 2 would do. |
| Resolver.FirstDottedMarkerEvaluated | src/main/java/com/kvn/poi/processor/DefaultRowProcessor.java:72-81 | One phase-2 pass hands the whole content, with the leftmost dotted marker rewritten to `#{attr}`, to the evaluator with the map's entry for the root (null when absent). A rendered string is rescanned. A failure returns the content unchanged. A null throws. |
| Resolver.CaughtFailureKeepsPhaseOne | src/main/java/com/kvn/poi/processor/DefaultRowProcessor.java:71-83 | When the first phase-2 pass fails, `resolve` returns the phase-1 result with all its replacements. |
| Resolver.ResolutionIdempotent | src/main/java/com/kvn/poi/processor/DefaultRowProcessor.java:59-84 | When phase 1 leaves no dotted marker, `resolve` returns the phase-1 result, and resolving that result again returns it unchanged. |
| Resolver.SelfReferenceNeverExits | src/main/java/com/kvn/poi/processor/DefaultRowProcessor.java:63-66 | A value that puts back its own marker violates the literal-replacement condition, and a pass leaves the content unchanged with the marker still found: the loop does not end. |
| ResolverExamples.PlainMarkersInOrder | src/main/java/com/kvn/poi/processor/DefaultRowProcessor.java:63-67 | Two plain markers are replaced left to right by their own values, keeping the text between them. |
| ResolverExamples.TwoPlainMarkers | src/main/java/com/kvn/poi/processor/DefaultRowProcessor.java:59-84 | `${key1} and ${key2}` with `key1` → `111` and `key2` → `222` resolves to `111 and 222`. |
| ResolverExamples.PlainThenDotted | src/main/java/com/kvn/poi/processor/DefaultRowProcessor.java:59-84 | For a cell with two plain markers and a trailing dotted marker, the evaluator receives the whole cell with the plain values in place and the marker rewritten to `#{attr}`. |
| ResolverExamples.DemoCell | src/main/java/com/kvn/poi/processor/DefaultRowProcessor.java:86-95 | The demo input of `main` reaches the evaluator as `this is 111 and that is 222, foo.name is #{name}`, with the `foo` object as root. |
| ResolverExamples.MissingKeyThrows | src/main/java/com/kvn/poi/processor/DefaultRowProcessor.java:65-66 | `${missing}` with an empty map throws the missing-key failure. |
| ResolverExamples.FailedEvaluationKeepsCell | src/main/java/com/kvn/poi/processor/DefaultRowProcessor.java:76-83 | `${foo.missingAttr}` whose evaluation fails comes back unchanged. |
| ResolverExamples.RescanFromStart | src/main/java/com/kvn/poi/processor/DefaultRowProcessor.java:63-66 | The scan restarts from the beginning: `$${a}` with `a` → `{b}` and `b` → `x` becomes `${b}`, then `x`. |
| RowProcessor.Support | src/main/java/com/kvn/poi/processor/DefaultRowProcessor.java:32-35 | The priority is 0 for every row. |
| RowProcessor.DealtSlot | src/main/java/com/kvn/poi/processor/DefaultRowProcessor.java:40-45 | A null slot or a non-string cell is left as it was. A string cell gets the resolution of its old text. |
| RowProcessor.DealRow | src/main/java/com/kvn/poi/processor/DefaultRowProcessor.java:38-49 | Without a failure, every slot of the row is dealt from its old value and the result is 1. On a failure, the first failing string cell is named with its failure, the cells before it are dealt, and it and the cells after it are unchanged. |
| RowProcessor.UnmarkedSlotUnchanged | src/main/java/com/kvn/poi/processor/DefaultRowProcessor.java:39-46 | A slot without markers comes out of `dealRow` unchanged. |

## Left out

- Resolve: is modelled only for maps whose string values hold no `$` or `\` and for evaluators that add no `$`. Outside these conditions the source loops can run forever, or `replaceFirst` interprets group references and escapes; neither is modelled.
- PlainPhase: same literal-replacement condition as `Resolve`. Java's `replaceFirst` escaping of `$` and `\` in the value is not modelled.
- DottedPhase: same evaluator condition as `Resolve`.
- The SpEL parser, `TemplateParserContext` and property access are not modelled. The evaluator is a parameter, so the demo's final text (`kvn` or the whole sentence) is not fixed.
- Runtime exceptions of the evaluator other than `EvaluationException` and `ParseException` are not modelled. They would escape `resolve` uncaught.
- The `Constants` class holding the two regular expressions is not part of this model; the grammar above is an assumption.
- Resolution: a map entry holding null is treated as an absent key, which is what `HashMap.get` returns for both.
- DealRow: a row is an array of slots from index 0 to `getLastCellNum() - 1`. Apache POI's row and cell objects, cell styles and the negative `getLastCellNum` of an empty row are not modelled.
- Logging of the caught failure (lines 26, 81) is output only and is left out.
- The `SINGLE.INSTANCE` singleton, the `main` method (kept only as the input of `DemoCell`) and the `Foo` bean are scaffolding and are left out.
