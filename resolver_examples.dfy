/**
 * `resolve` on concrete cells: the input of the repository's demo and other
 * concrete cells.
 */
module ResolverExamples {
  import opened Options
  import opened Markers
  import opened Resolver

  // ---------------------------------------------------------------------
  // Cells written as text around one marker

  lemma PlainMarkerAfter(pre: string, key: string, post: string)
    requires '$' !in pre && IsWord(key)
    ensures IsFirstPlainMarker(pre + PlainMarker(key) + post, |pre|, key)
  {
    var s := pre + PlainMarker(key) + post;
    assert s[..|pre|] == pre;
    assert s[|pre|..|pre| + |key| + 3] == PlainMarker(key);
    NoMarkerBefore(s, |pre|);
  }

  lemma DottedMarkerAfter(pre: string, root: string, attr: string, post: string)
    requires '$' !in pre && IsWord(root) && IsWord(attr)
    ensures IsFirstDottedMarker(pre + DottedMarker(root, attr) + post, |pre|, root, attr)
  {
    var s := pre + DottedMarker(root, attr) + post;
    assert s[..|pre|] == pre;
    assert s[|pre|..|pre| + |root| + |attr| + 4] == DottedMarker(root, attr);
    NoMarkerBefore(s, |pre|);
  }

  /** A phase-1 pass over `pre ${key} post` gives `pre value post`. */
  lemma PlainPassAfter(pre: string, key: string, post: string, ctx: Context)
    requires '$' !in pre && IsWord(key)
    requires SafeReplacements(ctx) && key in ctx && ctx[key].Text?
    ensures PlainPhase(pre + PlainMarker(key) + post, ctx) == PlainPhase(pre + ctx[key].text + post, ctx)
  {
    var s := pre + PlainMarker(key) + post;
    PlainMarkerAfter(pre, key, post);
    FirstPlainMarkerReplaced(s, ctx, |pre|, key);
    assert s[..|pre|] == pre;
    assert s[|pre| + |key| + 3..] == post;
  }

  /** A phase-2 pass over `pre ${root.attr} post` hands `pre #{attr} post` to the evaluator. */
  lemma DottedPassAfter(pre: string, root: string, attr: string, post: string, ctx: Context, eval: Evaluator)
    requires '$' !in pre && IsWord(root) && IsWord(attr)
    requires KeepsDollarBound(eval)
    ensures DottedPhase(pre + DottedMarker(root, attr) + post, ctx, eval) ==
              match eval(Lookup(ctx, root), pre + Template(attr) + post)
              case EvaluationFailed => Resolved(pre + DottedMarker(root, attr) + post)
              case RenderedNull => Failed(NullContent)
              case Rendered(t) => DottedPhase(t, ctx, eval)
  {
    var s := pre + DottedMarker(root, attr) + post;
    DottedMarkerAfter(pre, root, attr, post);
    FirstDottedMarkerEvaluated(s, ctx, eval, |pre|, root, attr);
    assert s[..|pre|] == pre;
    assert s[|pre| + |root| + |attr| + 4..] == post;
  }

  /** A text whose only `$` opens a dotted marker holds no plain marker. */
  lemma OnlyDottedMarker(pre: string, root: string, attr: string, post: string)
    requires '$' !in pre && '$' !in post && IsWord(root) && IsWord(attr)
    ensures NoPlainMarker(pre + DottedMarker(root, attr) + post)
  {
    var s := pre + DottedMarker(root, attr) + post;
    DottedMarkerAfter(pre, root, attr, post);
    assert s[..|pre|] == pre;
    NoMarkerBefore(s, |pre|);
    DottedIsNotPlain(s, |pre|, root, attr);
    forall j: nat, k | j > |pre| && IsPlainMarkerAt(s, j, k)
      ensures false
    {
      PlainMarkerShape(s, j, k);
    }
  }

  // ---------------------------------------------------------------------
  // The examples

  /** Two plain markers are replaced left to right, each by its own value, and the text
      between them is kept; nothing is left for phase 2. */
  lemma {:induction false} PlainMarkersInOrder(k1: string, sep: string, k2: string, ctx: Context, eval: Evaluator)
    requires IsWord(k1) && IsWord(k2) && '$' !in sep
    requires SafeReplacements(ctx) && KeepsDollarBound(eval)
    requires k1 in ctx && ctx[k1].Text? && k2 in ctx && ctx[k2].Text?
    ensures Resolution(PlainMarker(k1) + sep + PlainMarker(k2), ctx, eval)
            == Resolved(ctx[k1].text + sep + ctx[k2].text)
  {
    var v1, v2 := ctx[k1].text, ctx[k2].text;
    var s0 := PlainMarker(k1) + sep + PlainMarker(k2);
    var s1 := v1 + sep + PlainMarker(k2);
    var s2 := v1 + sep + v2;
    assert PlainPhase(s0, ctx) == PlainPhase(s1, ctx) by {
      assert s0 == "" + PlainMarker(k1) + (sep + PlainMarker(k2));
      assert s1 == "" + v1 + (sep + PlainMarker(k2));
      PlainPassAfter("", k1, sep + PlainMarker(k2), ctx);
    }
    assert PlainPhase(s1, ctx) == PlainPhase(s2, ctx) by {
      assert s1 == (v1 + sep) + PlainMarker(k2) + "";
      assert s2 == (v1 + sep) + v2 + "";
      PlainPassAfter(v1 + sep, k2, "", ctx);
    }
    DollarFreeHasNoMarker(s2);
  }

  /** The plain markers of the demo's cell: `${key1} and ${key2}` becomes `111 and 222`. */
  lemma TwoPlainMarkers(ctx: Context, eval: Evaluator)
    requires ctx == map["key1" := Text("111"), "key2" := Text("222")]
    requires KeepsDollarBound(eval)
    ensures Resolution("${key1}" + " and " + "${key2}", ctx, eval) == Resolved("111" + " and " + "222")
  {
    assert PlainMarker("key1") == "${key1}" && PlainMarker("key2") == "${key2}";
    PlainMarkersInOrder("key1", " and ", "key2", ctx, eval);
  }

  /** A cell shaped like the demo's: plain markers are replaced first, then the whole
      content, with the dotted marker rewritten to `#{attr}`, goes to the evaluator
      together with the object under `root`. */
  lemma {:induction false} PlainThenDotted(p0: string, k1: string, p1: string, k2: string, p2: string,
                                           root: string, attr: string, ctx: Context, eval: Evaluator)
    requires '$' !in p0 && '$' !in p1 && '$' !in p2
    requires IsWord(k1) && IsWord(k2) && IsWord(root) && IsWord(attr)
    requires SafeReplacements(ctx) && KeepsDollarBound(eval)
    requires k1 in ctx && ctx[k1].Text? && k2 in ctx && ctx[k2].Text?
    ensures var v1, v2 := ctx[k1].text, ctx[k2].text;
            var cell := p0 + PlainMarker(k1) + p1 + PlainMarker(k2) + p2 + DottedMarker(root, attr);
            var afterPlain := p0 + v1 + p1 + v2 + p2 + DottedMarker(root, attr);
            Resolution(cell, ctx, eval) ==
              match eval(Lookup(ctx, root), p0 + v1 + p1 + v2 + p2 + Template(attr))
              case EvaluationFailed => Resolved(afterPlain)
              case RenderedNull => Failed(NullContent)
              case Rendered(t) => DottedPhase(t, ctx, eval)
  {
    var pre := p0 + ctx[k1].text + p1 + ctx[k2].text + p2;
    PlainPhaseOfDemoShape(p0, k1, p1, k2, p2, root, attr, ctx);
    assert pre + DottedMarker(root, attr) == pre + DottedMarker(root, attr) + "";
    assert pre + Template(attr) == pre + Template(attr) + "";
    DottedPassAfter(pre, root, attr, "", ctx, eval);
  }

  lemma PlainPhaseOfDemoShape(p0: string, k1: string, p1: string, k2: string, p2: string,
                              root: string, attr: string, ctx: Context)
    requires '$' !in p0 && '$' !in p1 && '$' !in p2
    requires IsWord(k1) && IsWord(k2) && IsWord(root) && IsWord(attr)
    requires SafeReplacements(ctx)
    requires k1 in ctx && ctx[k1].Text? && k2 in ctx && ctx[k2].Text?
    ensures PlainPhase(p0 + PlainMarker(k1) + p1 + PlainMarker(k2) + p2 + DottedMarker(root, attr), ctx)
            == Resolved(p0 + ctx[k1].text + p1 + ctx[k2].text + p2 + DottedMarker(root, attr))
  {
    var v1, v2, d := ctx[k1].text, ctx[k2].text, DottedMarker(root, attr);
    var m1, m2 := PlainMarker(k1), PlainMarker(k2);
    var tail := p2 + d;
    var cell := p0 + m1 + p1 + m2 + tail;
    var s1 := p0 + v1 + (p1 + m2 + tail);
    var afterPlain := p0 + v1 + p1 + v2 + tail;
    assert PlainPhase(cell, ctx) == PlainPhase(s1, ctx) by {
      Regroup(p0, m1, p1, m2, tail);
      PlainPassAfter(p0, k1, p1 + m2 + tail, ctx);
    }
    assert PlainPhase(s1, ctx) == PlainPhase(afterPlain, ctx) by {
      Regroup(p0, v1, p1, m2, tail);
      Regroup(p0, v1, p1, v2, tail);
      PlainPassAfter(p0 + v1 + p1, k2, tail, ctx);
    }
    assert PlainPhase(afterPlain, ctx) == Resolved(afterPlain) by {
      Regroup(p0, v1, p1, v2, p2);
      assert afterPlain == p0 + v1 + p1 + v2 + p2 + d + "";
      OnlyDottedMarker(p0 + v1 + p1 + v2 + p2, root, attr, "");
    }
    Regroup(p0, m1, p1, m2, p2);
    Regroup(p0, v1, p1, v2, p2);
  }

  /** Regroupings of a concatenation of pieces. */
  lemma Regroup(a: string, b: string, c: string, e: string, f: string)
    ensures a + b + (c + e + f) == a + b + c + e + f
    ensures a + b + c + e + f == (a + b + c) + e + f
    ensures forall g :: a + b + c + e + f + g == a + b + c + e + (f + g)
  {
  }

  /** The demo input of the repository, `foo` mapped to an object: the evaluator receives
      the whole cell with both plain markers already replaced and the dotted marker
      rewritten; a failing evaluation leaves the plain replacements in place. */
  lemma DemoCell(ctx: Context, eval: Evaluator)
    requires ctx == map["key1" := Text("111"), "key2" := Text("222"), "foo" := Object(0)]
    requires KeepsDollarBound(eval)
    ensures var cell := "this is " + "${key1}" + " and that is " + "${key2}" + ", foo.name is " + "${foo.name}";
            var afterPlain := "this is " + "111" + " and that is " + "222" + ", foo.name is " + "${foo.name}";
            var template := "this is " + "111" + " and that is " + "222" + ", foo.name is " + "#{name}";
            Resolution(cell, ctx, eval) ==
              match eval(Some(Object(0)), template)
              case EvaluationFailed => Resolved(afterPlain)
              case RenderedNull => Failed(NullContent)
              case Rendered(t) => DottedPhase(t, ctx, eval)
  {
    assert PlainMarker("key1") == "${key1}" && PlainMarker("key2") == "${key2}";
    assert DottedMarker("foo", "name") == "${foo.name}" && Template("name") == "#{name}";
    assert Lookup(ctx, "foo") == Some(Object(0));
    PlainThenDotted("this is ", "key1", " and that is ", "key2", ", foo.name is ", "foo", "name", ctx, eval);
  }

  /** A plain marker whose key is absent makes `resolve` throw. */
  lemma MissingKeyThrows(ctx: Context, eval: Evaluator)
    requires ctx == map[]
    requires KeepsDollarBound(eval)
    ensures Resolution("${missing}", ctx, eval) == Failed(MissingKey("missing"))
  {
    assert IsFirstPlainMarker("${missing}", 0, "missing") by {
      assert "${missing}"[0..10] == PlainMarker("missing");
    }
    FirstPlainMarkerUnresolvable("${missing}", ctx, eval, 0, "missing");
  }

  /** A failing evaluation is swallowed and the cell `${foo.missingAttr}` comes back as it was. */
  lemma FailedEvaluationKeepsCell(ctx: Context, eval: Evaluator)
    requires SafeReplacements(ctx) && KeepsDollarBound(eval)
    requires eval(Lookup(ctx, "foo"), "#{" + "missingAttr" + "}") == EvaluationFailed
    ensures var cell := "${" + "foo" + "." + "missingAttr" + "}";
            Resolution(cell, ctx, eval) == Resolved(cell)
  {
    var cell := DottedMarker("foo", "missingAttr");
    assert IsWord("foo") && IsWord("missingAttr");
    assert cell == "" + cell + "";
    assert Template("missingAttr") == "" + Template("missingAttr") + "";
    OnlyDottedMarker("", "foo", "missingAttr", "");
    DottedPassAfter("", "foo", "missingAttr", "", ctx, eval);
  }

  /** The scan restarts from the beginning after each replacement, so a value can
      complete a marker with the text before it: `$${a}` with `a` mapped to `{b}`
      becomes `${b}`, which is replaced in turn. */
  lemma RescanFromStart(ctx: Context, eval: Evaluator)
    requires ctx == map["a" := Text("{b}"), "b" := Text("x")]
    requires KeepsDollarBound(eval)
    ensures Resolution("$" + "${a}", ctx, eval) == Resolved("x")
  {
    RescanFirstPass(ctx);
    RescanSecondPass(ctx);
    DollarFreeHasNoMarker("x");
  }

  lemma RescanSecondPass(ctx: Context)
    requires ctx == map["a" := Text("{b}"), "b" := Text("x")]
    ensures PlainPhase("${b}", ctx) == Resolved("x")
  {
    assert "" + PlainMarker("b") + "" == "${b}";
    PlainPassAfter("", "b", "", ctx);
    assert "" + "x" + "" == "x";
    DollarFreeHasNoMarker("x");
  }

  lemma RescanFirstPass(ctx: Context)
    requires ctx == map["a" := Text("{b}"), "b" := Text("x")]
    ensures PlainPhase("$" + "${a}", ctx) == PlainPhase("${b}", ctx)
  {
    var s := "$" + "${a}";
    assert SafeReplacements(ctx) && "a" in ctx && ctx["a"] == Text("{b}") by {
      RescanContext(ctx);
    }
    StrayDollarThenMarker(s);
    FirstPlainMarkerReplaced(s, ctx, 1, "a");
    StrayDollarCompleted(s);
  }

  lemma RescanContext(ctx: Context)
    requires ctx == map["a" := Text("{b}"), "b" := Text("x")]
    ensures SafeReplacements(ctx) && "a" in ctx && ctx["a"] == Text("{b}")
  {
    assert ctx.Keys == {"a", "b"};
  }

  /** The value `{b}` completes the stray dollar into `${b}`. */
  lemma StrayDollarCompleted(s: string)
    requires s == "$" + "${a}"
    ensures s[..1] + "{b}" + s[1 + |"a"| + 3..] == "${b}"
  {
  }

  /** In `$${a}` the first marker starts after the stray dollar. */
  lemma StrayDollarThenMarker(s: string)
    requires s == "$" + "${a}"
    ensures IsFirstPlainMarker(s, 1, "a")
  {
    assert s[1..5] == PlainMarker("a");
    forall k | IsPlainMarkerAt(s, 0, k)
      ensures false
    {
      PlainMarkerShape(s, 0, k);
    }
  }
}
