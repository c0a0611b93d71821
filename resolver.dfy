/**
 * `DefaultRowProcessor.resolve`: the two-phase substitution of markers in one
 * cell's text, against a map from key to value.
 *
 * Phase 1 replaces the leftmost plain marker `${key}` by the string the map
 * holds for `key`, and rescans from the start, until no plain marker is left.
 * Phase 2 takes the leftmost dotted marker `${root.attr}`, rewrites it inside
 * the whole content into the template expression `#{attr}`, evaluates that
 * whole template against the object the map holds for `root`, makes the
 * result the new content, and rescans, until no dotted marker is left or the
 * evaluator fails; a failure is caught and the content from before the
 * failing pass is returned.
 *
 * The template evaluator is a foreign library: it is a parameter here, a
 * function from (root object or null, template) to a string, a null or a
 * parse/evaluation failure.
 */
module Resolver {
  import opened Options
  import opened Markers

  /** A value of the map: a Java `String`, or any other object, seen only through a handle. */
  datatype Value = Text(text: string) | Object(handle: nat)

  /** The `rootObjectMap`; a key that is absent stands also for a key mapped to null. */
  type Context = map<string, Value>

  /** The exceptions that escape `resolve`. */
  datatype Failure =
    | MissingKey(key: string)   // null replacement handed to `replaceFirst`
    | NotText(key: string)      // the cast `(String)` of a non-string value
    | NullContent               // the evaluator gave null, and the next rescan dereferences it

  /** What `resolve` does: returns a string, or throws. */
  datatype Outcome = Resolved(content: string) | Failed(failure: Failure)

  /** What the template evaluator does with one template. */
  datatype Evaluation =
    | Rendered(text: string)
    | RenderedNull
    | EvaluationFailed          // an EvaluationException or a ParseException

  type Evaluator = (Option<Value>, string) -> Evaluation

  /** The map lookup `rootObjectMap.get(key)`: null when the key is absent. */
  function Lookup(ctx: Context, key: string): (r: Option<Value>)
    ensures r.Some? <==> key in ctx
    ensures r.Some? ==> r.value == ctx[key]
  {
    if key in ctx then Some(ctx[key]) else None
  }

  /** The template expression that `#$1$3` makes of a dotted marker. */
  function Template(attr: string): (t: string)
    ensures |t| == |attr| + 3 && t[0] == '#' && t[1] == '{' && t[|t| - 1] == '}'
    ensures t[2..|attr| + 2] == attr
  {
    "#{" + attr + "}"
  }

  /** `s` with the span `[start, end)` replaced by `replacement`. */
  function Splice(s: string, start: nat, end: nat, replacement: string): string
    requires start <= end <= |s|
  {
    s[..start] + replacement + s[end..]
  }

  /** The number of `$` in `s`: the measure by which both loops terminate. */
  function DollarCount(s: string): nat {
    multiset(s)['$']
  }

  /** A replacement that `replaceFirst` inserts literally, without group references or escapes. */
  predicate IsLiteralReplacement(v: string) {
    '$' !in v && '\\' !in v
  }

  /** Every string value of the map is a literal replacement. */
  predicate SafeReplacements(ctx: Context) {
    forall key :: key in ctx && ctx[key].Text? ==> IsLiteralReplacement(ctx[key].text)
  }

  /** The evaluator adds no `$` to the template it renders. */
  ghost predicate KeepsDollarBound(eval: Evaluator) {
    forall root, template :: eval(root, template).Rendered? ==>
      DollarCount(eval(root, template).text) <= DollarCount(template)
  }

  /** The failures that phase 1 can raise, each with its cause in the map. */
  ghost predicate IsPlainFailure(f: Failure, ctx: Context) {
    || (f.MissingKey? && f.key !in ctx)
    || (f.NotText? && f.key in ctx && !ctx[f.key].Text?)
  }

  /** Some call of the evaluator renders `t`. */
  ghost predicate Produced(eval: Evaluator, t: string) {
    exists root, template :: eval(root, template) == Rendered(t)
  }

  /** The first dotted pass over `s` ends in a caught failure. */
  ghost predicate DottedPassFails(s: string, ctx: Context, eval: Evaluator) {
    FindDotted(s).Some?
    && var m := FindDotted(s).value;
    eval(Lookup(ctx, RootName(m.head)), Splice(s, m.start, m.end, Template(m.attr))) == EvaluationFailed
  }

  // ---------------------------------------------------------------------
  // Termination measure

  lemma DollarCountSplice(s: string, start: nat, end: nat, v: string)
    requires start <= end <= |s|
    ensures DollarCount(Splice(s, start, end, v))
            == DollarCount(s) - DollarCount(s[start..end]) + DollarCount(v)
  {
    assert s == s[..start] + s[start..end] + s[end..];
  }

  lemma WordHasNoDollar(w: string)
    requires IsWord(w)
    ensures DollarCount(w) == 0
  {
  }

  /** Replacing a plain marker by a value without `$` removes exactly one `$`. */
  lemma PlainPassRemovesOneDollar(s: string, m: PlainMatch, v: string)
    requires IsPlainMarkerAt(s, m.start, m.key) && m.end == m.start + |m.key| + 3
    requires '$' !in v
    ensures DollarCount(Splice(s, m.start, m.end, v)) == DollarCount(s) - 1
  {
    DollarCountSplice(s, m.start, m.end, v);
    WordHasNoDollar(m.key);
    assert s[m.start..m.end] == ['$', '{'] + m.key + ['}'];
  }

  /** Rewriting a dotted marker into its template removes exactly one `$`. */
  lemma DottedPassRemovesOneDollar(s: string, m: DottedMatch)
    requires |m.head| > 1 && m.end == m.start + |m.head| + |m.attr| + 3
    requires IsDottedMarkerAt(s, m.start, RootName(m.head), m.attr)
    ensures DollarCount(Splice(s, m.start, m.end, Template(m.attr))) == DollarCount(s) - 1
  {
    var root := RootName(m.head);
    DollarCountSplice(s, m.start, m.end, Template(m.attr));
    assert s[m.start..m.end] == DottedMarker(root, m.attr);
    DottedMarkerHasOneDollar(root, m.attr);
    TemplateHasNoDollar(m.attr);
  }

  lemma DottedMarkerHasOneDollar(root: string, attr: string)
    requires IsWord(root) && IsWord(attr)
    ensures DollarCount(DottedMarker(root, attr)) == 1
  {
    WordHasNoDollar(root);
    WordHasNoDollar(attr);
    assert DottedMarker(root, attr) == "${" + root + "." + attr + "}";
  }

  lemma TemplateHasNoDollar(attr: string)
    requires IsWord(attr)
    ensures DollarCount(Template(attr)) == 0
  {
    WordHasNoDollar(attr);
    assert Template(attr) == "#{" + attr + "}";
  }

  // ---------------------------------------------------------------------
  // The specification of `resolve`

  /** Phase 1, the loop over plain markers. */
  function PlainPhase(s: string, ctx: Context): (r: Outcome)
    requires SafeReplacements(ctx)
    ensures NoPlainMarker(s) ==> r == Resolved(s)
    ensures r.Resolved? ==> NoPlainMarker(r.content)
    ensures r.Failed? ==> IsPlainFailure(r.failure, ctx)
    decreases DollarCount(s)
  {
    match FindPlain(s)
    case None => Resolved(s)
    case Some(m) =>
      if m.key !in ctx then Failed(MissingKey(m.key))
      else if !ctx[m.key].Text? then Failed(NotText(m.key))
      else
        var next := Splice(s, m.start, m.end, ctx[m.key].text);
        PlainPassRemovesOneDollar(s, m, ctx[m.key].text);
        PlainPhase(next, ctx)
  }

  /** Phase 2, the loop over dotted markers inside the `try`. */
  function DottedPhase(s: string, ctx: Context, eval: Evaluator): (r: Outcome)
    requires KeepsDollarBound(eval)
    ensures NoDottedMarker(s) ==> r == Resolved(s)
    ensures r.Failed? ==> r.failure == NullContent
    ensures r.Resolved? ==> NoDottedMarker(r.content) || DottedPassFails(r.content, ctx, eval)
    ensures r.Resolved? ==> r.content == s || Produced(eval, r.content)
    decreases DollarCount(s)
  {
    match FindDotted(s)
    case None => Resolved(s)
    case Some(m) =>
      var template := Splice(s, m.start, m.end, Template(m.attr));
      var root := Lookup(ctx, RootName(m.head));
      match eval(root, template)
      case EvaluationFailed => Resolved(s)
      case RenderedNull => Failed(NullContent)
      case Rendered(t) =>
        DottedPassRemovesOneDollar(s, m);
        DottedPhase(t, ctx, eval)
  }

  /** `resolve`: phase 1, whose failures propagate, then phase 2 on its result. */
  function Resolution(s: string, ctx: Context, eval: Evaluator): (r: Outcome)
    requires SafeReplacements(ctx) && KeepsDollarBound(eval)
    ensures PlainPhase(s, ctx).Failed? ==> r == PlainPhase(s, ctx)
  {
    match PlainPhase(s, ctx)
    case Failed(f) => Failed(f)
    case Resolved(t) => DottedPhase(t, ctx, eval)
  }

  /** What `Resolution` can end in: a cell without markers is returned as it is, a
      failure of the first phase is final, and any other failure is the null content
      of the second phase. */
  lemma ResolutionOutcomes(s: string, ctx: Context, eval: Evaluator)
    requires SafeReplacements(ctx) && KeepsDollarBound(eval)
    ensures NoPlainMarker(s) && NoDottedMarker(s) ==> Resolution(s, ctx, eval) == Resolved(s)
    ensures PlainPhase(s, ctx).Failed? ==> Resolution(s, ctx, eval) == PlainPhase(s, ctx)
    ensures Resolution(s, ctx, eval).Failed? ==>
              IsPlainFailure(Resolution(s, ctx, eval).failure, ctx)
              || (Resolution(s, ctx, eval).failure == NullContent && PlainPhase(s, ctx).Resolved?)
  {
  }

  // ---------------------------------------------------------------------
  // The source's loops

  /** The two loops of `resolve`, proved to compute `Resolution`. */
  method Resolve(cellContent: string, ctx: Context, eval: Evaluator) returns (r: Outcome)
    requires SafeReplacements(ctx) && KeepsDollarBound(eval)
    ensures r == Resolution(cellContent, ctx, eval)
  {
    var resolvedContent := cellContent;
    var matcher := FindPlain(resolvedContent);
    while matcher.Some?
      invariant matcher == FindPlain(resolvedContent)
      invariant PlainPhase(resolvedContent, ctx) == PlainPhase(cellContent, ctx)
      decreases DollarCount(resolvedContent)
    {
      var key := matcher.value.key;
      if key !in ctx {
        return Failed(MissingKey(key));
      }
      var value := ctx[key];
      if !value.Text? {
        return Failed(NotText(key));
      }
      PlainPassRemovesOneDollar(resolvedContent, matcher.value, value.text);
      PlainPassUnfolds(resolvedContent, ctx, matcher.value);
      resolvedContent := Splice(resolvedContent, matcher.value.start, matcher.value.end, value.text);
      matcher := FindPlain(resolvedContent);
    }
    ghost var afterPlain := resolvedContent;

    var dotted := FindDotted(resolvedContent);
    while dotted.Some?
      invariant dotted == FindDotted(resolvedContent)
      invariant DottedPhase(resolvedContent, ctx, eval) == DottedPhase(afterPlain, ctx, eval)
      decreases DollarCount(resolvedContent)
    {
      var m := dotted.value;
      var vo := m.head;
      vo := vo[..|vo| - 1];
      var rootObjectItem := Lookup(ctx, vo);
      var expression := Splice(resolvedContent, m.start, m.end, Template(m.attr));
      var resolvedKey := eval(rootObjectItem, expression);
      if resolvedKey.EvaluationFailed? {
        break;
      }
      if resolvedKey.RenderedNull? {
        return Failed(NullContent);
      }
      DottedPassRemovesOneDollar(resolvedContent, m);
      DottedPassUnfolds(resolvedContent, ctx, eval, m);
      resolvedContent := resolvedKey.text;
      dotted := FindDotted(resolvedContent);
    }
    return Resolved(resolvedContent);
  }

  // ---------------------------------------------------------------------
  // Properties of the specification

  /** One phase-1 pass: the leftmost plain marker, and nothing else, is replaced by its
      string value; the text before and after it is kept; then the scan restarts. */
  lemma {:induction false} FirstPlainMarkerReplaced(s: string, ctx: Context, i: nat, key: string)
    requires SafeReplacements(ctx)
    requires IsFirstPlainMarker(s, i, key) && key in ctx && ctx[key].Text?
    ensures PlainPhase(s, ctx) == PlainPhase(s[..i] + ctx[key].text + s[i + |key| + 3..], ctx)
  {
    var m := PlainMatch(i, i + |key| + 3, key);
    assert FindPlain(s) == Some(m) by {
      FirstPlainMarkerFound(s, i, key);
    }
    PlainPassUnfolds(s, ctx, m);
    assert Splice(s, m.start, m.end, ctx[key].text) == s[..i] + ctx[key].text + s[i + |key| + 3..];
  }

  lemma PlainPassUnfolds(s: string, ctx: Context, m: PlainMatch)
    requires SafeReplacements(ctx)
    requires FindPlain(s) == Some(m) && m.key in ctx && ctx[m.key].Text?
    ensures PlainPhase(s, ctx) == PlainPhase(Splice(s, m.start, m.end, ctx[m.key].text), ctx)
  {
  }

  /** A leftmost plain marker whose key is absent, or not a string, makes `resolve`
      throw, whatever phase 2 would have done: the `try` does not cover phase 1. */
  lemma {:induction false} FirstPlainMarkerUnresolvable(s: string, ctx: Context, eval: Evaluator, i: nat, key: string)
    requires SafeReplacements(ctx) && KeepsDollarBound(eval)
    requires IsFirstPlainMarker(s, i, key) && !(key in ctx && ctx[key].Text?)
    ensures key !in ctx ==> Resolution(s, ctx, eval) == Failed(MissingKey(key))
    ensures key in ctx ==> Resolution(s, ctx, eval) == Failed(NotText(key))
  {
    FirstPlainMarkerFound(s, i, key);
  }

  /** One phase-2 pass: the leftmost dotted marker is rewritten into its template inside
      the whole content, which goes to the evaluator with the root object named by the
      marker's first component (null when absent); a rendered string becomes the new
      content and is rescanned, a failure is caught and the content is returned as it was. */
  lemma {:induction false} FirstDottedMarkerEvaluated(s: string, ctx: Context, eval: Evaluator, i: nat, root: string, attr: string)
    requires KeepsDollarBound(eval)
    requires IsFirstDottedMarker(s, i, root, attr)
    ensures var template := s[..i] + Template(attr) + s[i + |root| + |attr| + 4..];
            DottedPhase(s, ctx, eval) ==
              match eval(Lookup(ctx, root), template)
              case EvaluationFailed => Resolved(s)
              case RenderedNull => Failed(NullContent)
              case Rendered(t) => DottedPhase(t, ctx, eval)
  {
    FirstDottedMarkerFound(s, i, root, attr);
    DottedPassUnfolds(s, ctx, eval, DottedMatch(i, i + |root| + |attr| + 4, root + ".", attr));
  }

  lemma DottedPassUnfolds(s: string, ctx: Context, eval: Evaluator, m: DottedMatch)
    requires KeepsDollarBound(eval)
    requires FindDotted(s) == Some(m)
    ensures DottedPhase(s, ctx, eval) ==
              match eval(Lookup(ctx, RootName(m.head)), Splice(s, m.start, m.end, Template(m.attr)))
              case EvaluationFailed => Resolved(s)
              case RenderedNull => Failed(NullContent)
              case Rendered(t) => DottedPhase(t, ctx, eval)
  {
  }

  /** A caught phase-2 failure returns the content from before the failing pass, with
      every phase-1 replacement in it. */
  lemma {:induction false} CaughtFailureKeepsPhaseOne(s: string, ctx: Context, eval: Evaluator)
    requires SafeReplacements(ctx) && KeepsDollarBound(eval)
    requires PlainPhase(s, ctx).Resolved? && DottedPassFails(PlainPhase(s, ctx).content, ctx, eval)
    ensures Resolution(s, ctx, eval) == PlainPhase(s, ctx)
  {
  }

  /** Without dotted markers after phase 1, `resolve` leaves no marker at all, so
      resolving its result again changes nothing. */
  lemma {:induction false} ResolutionIdempotent(s: string, ctx: Context, eval: Evaluator)
    requires SafeReplacements(ctx) && KeepsDollarBound(eval)
    requires PlainPhase(s, ctx).Resolved? && NoDottedMarker(PlainPhase(s, ctx).content)
    ensures Resolution(s, ctx, eval) == PlainPhase(s, ctx)
    ensures Resolution(PlainPhase(s, ctx).content, ctx, eval) == PlainPhase(s, ctx)
  {
  }

  /** Why phase 1 needs literal replacements: a value that puts back its own marker
      makes a pass that leaves the content as it was, with the marker still in it, so
      the source's loop never exits. Here the insertion is literal; in Java the value
      that inserts `${a}` is `\${a}`, whose escape `replaceFirst` removes. */
  lemma SelfReferenceNeverExits()
    ensures var s, ctx := "${a}", map["a" := Text("${a}")];
            && !SafeReplacements(ctx)
            && FindPlain(s) == Some(PlainMatch(0, 4, "a"))
            && Splice(s, 0, 4, ctx["a"].text) == s
  {
    var s, ctx := "${a}", map["a" := Text("${a}")];
    assert !IsLiteralReplacement(ctx["a"].text) by {
      assert ctx["a"].text[0] == '$';
    }
    assert IsFirstPlainMarker(s, 0, "a") by {
      assert s[0..4] == PlainMarker("a");
    }
    FirstPlainMarkerFound(s, 0, "a");
  }
}
