/** Building the matcher chain of a selector, combinator by combinator from the left. */
module SelectorCompiler {
  import opened Dom
  import opened Selectors
  import opened Wrappers
  import opened SelectorEngine

  /** The combinator by which the first node of a chain hangs below the search context. */
  function ImplicitRelative(leading: Option<Relation>): Relation {
    if leading.Some? then leading.value else Descendant
  }

  ghost predicate IsBase(m: Matcher, leading: Option<Relation>) {
    && m.CheckContext? && m.leading == leading.Some?
    && m.matchContext.Combinator? && m.matchContext.inner == IsContext
    && m.matchContext.rel == ImplicitRelative(leading) && m.matchContext.base
    && m.matchAnyContext.Combinator? && m.matchAnyContext.inner == InContexts
    && m.matchAnyContext.rel == ImplicitRelative(leading) && m.matchAnyContext.base
  }

  function ElementMatcher(ms: seq<Matcher>): Matcher
    requires |ms| > 0
  {
    if |ms| > 1 then AllOf(ms) else ms[0]
  }

  /** `ms` are the matchers for the compound at the end of `body`, whatever names they use. */
  ghost predicate Stands(ms: seq<Matcher>, body: seq<Token>, leading: Option<Relation>)
    decreases |body|
  {
    && |ms| > 0
    && if body == [] then |ms| == 1 && IsBase(ms[0], leading)
       else
         var last := |body| - 1;
         match body[last]
         case Filter(test) =>
           ms[|ms| - 1] == Simple(test) && Stands(ms[..|ms| - 1], body[..last], leading)
         case Combine(rel) =>
           && |ms| == 1 && ms[0].Combinator? && ms[0].rel == rel && !ms[0].base
           && Stands(if ms[0].inner.AllOf? then ms[0].inner.matchers else [ms[0].inner], body[..last], leading)
  }

  ghost predicate CompiledFrom(m: Matcher, tokens: seq<Token>) {
    Stands(if m.AllOf? then m.matchers else [m], Body(tokens), Leading(tokens))
  }

  /** Only the first of a compound's matchers can be anything but a filter. */
  lemma StandsHead(ms: seq<Matcher>, body: seq<Token>, leading: Option<Relation>)
    requires Stands(ms, body, leading)
    ensures ms[0].Combinator? || ms[0].CheckContext?
    decreases |body|
  {
    if body != [] && body[|body| - 1].Filter? {
      StandsHead(ms[..|ms| - 1], body[..|body| - 1], leading);
    }
  }

  lemma DonesOfAppend(ms: seq<Matcher>, m: Matcher)
    ensures DonesOf(ms + [m]) == DonesOf(ms) + Dones(m)
    ensures DistinctDonesOf(ms + [m]) <==> DistinctDonesOf(ms) && DistinctDones(m) && Apart(DonesOf(ms), Dones(m))
  {
    if ms != [] {
      assert (ms + [m])[1..] == ms[1..] + [m];
      DonesOfAppend(ms[1..], m);
    }
  }

  lemma DonesOfLeaf(m: Matcher)
    requires m.Combinator? && (m.inner == IsContext || m.inner == InContexts)
    ensures Dones(m) == {m.doneName} && DistinctDones(m)
  {
    assert Dones(m.inner) == {};
  }

  lemma DonesOfElementMatcher(ms: seq<Matcher>)
    requires |ms| > 0
    ensures Dones(ElementMatcher(ms)) == DonesOf(ms)
    ensures DistinctDones(ElementMatcher(ms)) <==> DistinctDonesOf(ms)
  {
    if |ms| == 1 {
      assert ms[1..] == [];
      assert DonesOf(ms[1..]) == {};
    }
  }

  class Compiler {
    var done: int

    method AddCombinator(inner: Matcher, rel: Relation, base: bool) returns (m: Matcher)
      modifies this
      ensures m == Combinator(inner, rel, base, old(done)) && done == old(done) + 1
    {
      m := Combinator(inner, rel, base, done);
      done := done + 1;
    }

    method MatcherFromTokens(tokens: seq<Token>) returns (m: Matcher)
      requires |tokens| > 0
      modifies this
      ensures CompiledFrom(m, tokens) && DistinctDones(m)
      ensures old(done) <= done && forall d <- Dones(m) :: old(done) <= d < done
    {
      var leading := Leading(tokens);
      ghost var body := Body(tokens);
      var matchContext := AddCombinator(IsContext, ImplicitRelative(leading), true);
      var matchAnyContext := AddCombinator(InContexts, ImplicitRelative(leading), true);
      DonesOfLeaf(matchContext);
      DonesOfLeaf(matchAnyContext);
      var matchers := [CheckContext(leading.Some?, matchContext, matchAnyContext)];
      DonesOfElementMatcher(matchers);
      var start := if leading.Some? then 1 else 0;
      var i := start;
      while i < |tokens|
        invariant start <= i <= |tokens|
        invariant Stands(matchers, body[..i - start], leading)
        invariant DistinctDonesOf(matchers)
        invariant old(done) <= done && forall d <- DonesOf(matchers) :: old(done) <= d < done
      {
        assert body[..i - start + 1][..i - start] == body[..i - start];
        match tokens[i] {
          case Combine(rel) =>
            StandsHead(matchers, body[..i - start], leading);
            DonesOfElementMatcher(matchers);
            var combined := AddCombinator(ElementMatcher(matchers), rel, false);
            matchers := [combined];
            DonesOfElementMatcher(matchers);
          case Filter(test) =>
            DonesOfAppend(matchers, Simple(test));
            matchers := matchers + [Simple(test)];
        }
        i := i + 1;
      }
      assert body[..i - start] == body;
      StandsHead(matchers, body, leading);
      DonesOfElementMatcher(matchers);
      m := ElementMatcher(matchers);
    }

    /** One matcher for each group of a selector list, last group first. */
    method Compile(groups: seq<seq<Token>>) returns (elementMatchers: seq<Matcher>)
      requires forall g <- groups :: |g| > 0
      modifies this
      ensures |elementMatchers| == |groups|
      ensures forall k | 0 <= k < |groups| :: CompiledFrom(elementMatchers[k], groups[|groups| - 1 - k])
      ensures DistinctDonesOf(elementMatchers)
    {
      elementMatchers := [];
      var i := |groups|;
      while i > 0
        invariant 0 <= i <= |groups| && |elementMatchers| == |groups| - i
        invariant forall k | 0 <= k < |groups| - i :: CompiledFrom(elementMatchers[k], groups[|groups| - 1 - k])
        invariant DistinctDonesOf(elementMatchers)
        invariant forall d <- DonesOf(elementMatchers) :: d < done
      {
        i := i - 1;
        ghost var limit := done;
        var cached := MatcherFromTokens(groups[i]);
        assert forall d <- DonesOf(elementMatchers) :: d < limit;
        DonesOfAppend(elementMatchers, cached);
        elementMatchers := elementMatchers + [cached];
      }
    }
  }
}
