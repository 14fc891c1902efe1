// Specifications (application/query/spec/spec.go) and the translation of filter trees into them
// (transport/graphql/spec_filter.go).

module Specification {
  datatype Spec<!T> =
    | Predicate(pred: T -> bool)
    | And(left: Spec<T>, right: Spec<T>)
    | Or(left: Spec<T>, right: Spec<T>)
    | Not(inner: Spec<T>)

  predicate IsSatisfiedBy<T>(s: Spec<T>, t: T) {
    match s
    case Predicate(pred) => pred(t)
    case And(l, r) => IsSatisfiedBy(l, t) && IsSatisfiedBy(r, t)
    case Or(l, r) => IsSatisfiedBy(l, t) || IsSatisfiedBy(r, t)
    case Not(inner) => !IsSatisfiedBy(inner, t)
  }

  /** The plain predicates a specification is made of, left to right. */
  function Atoms<T>(s: Spec<T>): seq<T -> bool> {
    match s
    case Predicate(pred) => [pred]
    case And(l, r) => Atoms(l) + Atoms(r)
    case Or(l, r) => Atoms(l) + Atoms(r)
    case Not(inner) => Atoms(inner)
  }

  /** The Not method of a specification: a negation hands back what it negates. */
  function Negated<T>(s: Spec<T>): Spec<T> {
    if s.Not? then s.inner else Not(s)
  }

  /** Negating with the method or with the combinator means the same, and negating twice means nothing. */
  lemma NegatedMeansNot<T>(s: Spec<T>, t: T)
    ensures IsSatisfiedBy(Negated(s), t) == IsSatisfiedBy(Not(s), t) == !IsSatisfiedBy(s, t)
    ensures IsSatisfiedBy(Negated(Negated(s)), t) == IsSatisfiedBy(s, t)
    ensures Negated(Not(s)) == s
  {
  }
}

module Filter {
  import opened Base
  import opened Specification

  /** L is the adapter's own kind of leaf. */
  datatype FilterInput<L> = FilterInput(and: seq<FilterInput<L>>, or: seq<FilterInput<L>>,
                                        not: Option<FilterInput<L>>, leaf: Option<L>)

  datatype Built<!T, +E> = Fail(error: E) | NoSpec | Have(spec: Spec<T>)

  // ----- what a filter tree means -----

  /** The leaves a translation reaches, left to right: a leaf shadows And, And shadows Or, Or shadows Not. */
  function Leaves<L>(f: FilterInput<L>): seq<L>
    decreases f, 1
  {
    if f.leaf.Some? then [f.leaf.value]
    else if f.and != [] then AllLeaves(f.and)
    else if f.or != [] then AllLeaves(f.or)
    else if f.not.Some? then Leaves(f.not.value)
    else []
  }

  function AllLeaves<L>(fs: seq<FilterInput<L>>): seq<L>
    decreases fs, 0
  {
    if fs == [] then [] else AllLeaves(fs[..|fs| - 1]) + Leaves(fs[|fs| - 1])
  }

  function FirstError<L, T, E>(ls: seq<L>, build: L -> Built<T, E>): Option<E> {
    if ls == [] then None
    else if build(ls[0]).Fail? then Some(build(ls[0]).error)
    else FirstError(ls[1..], build)
  }

  /** Something is left of the tree once leaves without a specification are dropped. */
  ghost predicate Effective<L(!new), T, E>(f: FilterInput<L>, build: L -> Built<T, E>) {
    exists l :: l in Leaves(f) && build(l).Have?
  }

  /** The boolean meaning of the tree, ineffective children left out. */
  ghost predicate Holds<L(!new), T, E>(f: FilterInput<L>, build: L -> Built<T, E>, t: T)
    decreases f
  {
    if f.leaf.Some? then build(f.leaf.value).Have? && IsSatisfiedBy(build(f.leaf.value).spec, t)
    else if f.and != [] then forall i :: 0 <= i < |f.and| && Effective(f.and[i], build) ==> Holds(f.and[i], build, t)
    else if f.or != [] then exists i :: 0 <= i < |f.or| && Effective(f.or[i], build) && Holds(f.or[i], build, t)
    else f.not.Some? && !Holds(f.not.value, build, t)
  }

  /** The predicates behind leaves, left to right. */
  function AtomsOf<L, T, E>(ls: seq<L>, build: L -> Built<T, E>): seq<T -> bool> {
    if ls == [] then []
    else (if build(ls[0]).Have? then Atoms(build(ls[0]).spec) else []) + AtomsOf(ls[1..], build)
  }

  /**
   * What a translation owes: the first error; else nothing if nothing is effective; else a specification with
   * the tree's meaning that keeps its leaves in their order.
   */
  ghost predicate Translates<L(!new), T(!new), E>(f: FilterInput<L>, build: L -> Built<T, E>, r: Built<T, E>) {
    match r
    case Fail(e) => FirstError(Leaves(f), build) == Some(e)
    case NoSpec => FirstError(Leaves(f), build) == None && !Effective(f, build)
    case Have(s) =>
      && FirstError(Leaves(f), build) == None && Effective(f, build)
      && (forall t :: IsSatisfiedBy(s, t) <==> Holds(f, build, t))
      && Atoms(s) == AtomsOf(Leaves(f), build)
  }

  /** The boolean value of the tree when leaf l counts as sat(l), leaves without a specification left out. */
  ghost predicate Value<L(!new)>(f: FilterInput<L>, present: L -> bool, sat: L -> bool)
    decreases f
  {
    if f.leaf.Some? then present(f.leaf.value) && sat(f.leaf.value)
    else if f.and != [] then forall i :: 0 <= i < |f.and| && Present(f.and[i], present) ==> Value(f.and[i], present, sat)
    else if f.or != [] then exists i :: 0 <= i < |f.or| && Present(f.or[i], present) && Value(f.or[i], present, sat)
    else f.not.Some? && !Value(f.not.value, present, sat)
  }

  /** Something is left of the tree. */
  ghost predicate Present<L(!new)>(f: FilterInput<L>, present: L -> bool) {
    exists l :: l in Leaves(f) && present(l)
  }

  // ----- leaves of several trees -----

  lemma {:induction false} FirstErrorJoin<L, T, E>(a: seq<L>, b: seq<L>, build: L -> Built<T, E>)
    ensures FirstError(a + b, build) == if FirstError(a, build).Some? then FirstError(a, build) else FirstError(b, build)
    decreases |a|
  {
    if a == [] {
      assert a + b == b;
    } else {
      assert (a + b)[1..] == a[1..] + b;
      FirstErrorJoin(a[1..], b, build);
    }
  }

  lemma {:induction false} AtomsJoin<L, T, E>(a: seq<L>, b: seq<L>, build: L -> Built<T, E>)
    ensures AtomsOf(a + b, build) == AtomsOf(a, build) + AtomsOf(b, build)
    decreases |a|
  {
    if a == [] {
      assert a + b == b;
    } else {
      assert (a + b)[1..] == a[1..] + b;
      AtomsJoin(a[1..], b, build);
    }
  }

  lemma LeafAtoms<L, T, E>(l: L, build: L -> Built<T, E>)
    ensures AtomsOf([l], build) == if build(l).Have? then Atoms(build(l).spec) else []
  {
    assert [l][1..] == [];
    assert AtomsOf([l][1..], build) == [];
  }

  lemma {:induction false} NoAtoms<L, T, E>(ls: seq<L>, build: L -> Built<T, E>)
    requires forall l :: l in ls ==> !build(l).Have?
    ensures AtomsOf(ls, build) == []
    decreases |ls|
  {
    if ls != [] {
      assert ls[0] in ls;
      NoAtoms(ls[1..], build);
    }
  }

  lemma AllLeavesNext<L>(fs: seq<FilterInput<L>>, i: nat)
    requires i < |fs|
    ensures AllLeaves(fs[..i + 1]) == AllLeaves(fs[..i]) + Leaves(fs[i])
  {
    assert fs[..i + 1][..i] == fs[..i];
  }

  lemma {:induction false} LeafOfSome<L>(fs: seq<FilterInput<L>>, l: L)
    ensures l in AllLeaves(fs) <==> exists i :: 0 <= i < |fs| && l in Leaves(fs[i])
    decreases |fs|
  {
    if fs != [] {
      LeafOfSome(fs[..|fs| - 1], l);
    }
  }

  ghost predicate AnyEffective<L(!new), T, E>(fs: seq<FilterInput<L>>, build: L -> Built<T, E>) {
    exists i :: 0 <= i < |fs| && Effective(fs[i], build)
  }

  lemma EffectiveOfSome<L(!new), T, E>(fs: seq<FilterInput<L>>, build: L -> Built<T, E>)
    ensures AnyEffective(fs, build) <==> exists l :: l in AllLeaves(fs) && build(l).Have?
  {
    if AnyEffective(fs, build) {
      var i :| 0 <= i < |fs| && Effective(fs[i], build);
      var l :| l in Leaves(fs[i]) && build(l).Have?;
      LeafOfSome(fs, l);
    }
    if exists l :: l in AllLeaves(fs) && build(l).Have? {
      var l :| l in AllLeaves(fs) && build(l).Have?;
      LeafOfSome(fs, l);
      var i :| 0 <= i < |fs| && l in Leaves(fs[i]);
      assert Effective(fs[i], build);
    }
  }

  /** The first error of some children is the first error overall. */
  lemma ErrorStays<L, T, E>(fs: seq<FilterInput<L>>, i: nat, build: L -> Built<T, E>)
    requires i <= |fs| && FirstError(AllLeaves(fs[..i]), build).Some?
    ensures FirstError(AllLeaves(fs), build) == FirstError(AllLeaves(fs[..i]), build)
    decreases |fs| - i
  {
    if i == |fs| {
      assert fs[..i] == fs;
    } else {
      AllLeavesNext(fs, i);
      FirstErrorJoin(AllLeaves(fs[..i]), Leaves(fs[i]), build);
      ErrorStays(fs, i + 1, build);
    }
  }

  // ----- the translation -----

  /** The first i children of a conjunction or disjunction, combined so far. */
  ghost predicate Combines<L(!new), T(!new), E>(fs: seq<FilterInput<L>>, i: nat, all: bool, build: L -> Built<T, E>,
                                                combined: Option<Spec<T>>)
    requires i <= |fs|
  {
    && FirstError(AllLeaves(fs[..i]), build) == None
    && (combined.Some? <==> AnyEffective(fs[..i], build))
    && AtomsOf(AllLeaves(fs[..i]), build) == (if combined.Some? then Atoms(combined.value) else [])
    && (combined.Some? ==>
          forall t :: (IsSatisfiedBy(combined.value, t)
                       <==> if all then AllHold(fs[..i], build, t) else SomeHolds(fs[..i], build, t)))
  }

  ghost predicate AllHold<L(!new), T, E>(fs: seq<FilterInput<L>>, build: L -> Built<T, E>, t: T) {
    forall i :: 0 <= i < |fs| && Effective(fs[i], build) ==> Holds(fs[i], build, t)
  }

  ghost predicate SomeHolds<L(!new), T, E>(fs: seq<FilterInput<L>>, build: L -> Built<T, E>, t: T) {
    exists i :: 0 <= i < |fs| && Effective(fs[i], build) && Holds(fs[i], build, t)
  }

  /** How one more child changes what the children so far amount to. */
  lemma OneMore<L(!new), T(!new), E>(fs: seq<FilterInput<L>>, i: nat, build: L -> Built<T, E>)
    requires i < |fs|
    ensures FirstError(AllLeaves(fs[..i]), build) == None ==>
              FirstError(AllLeaves(fs[..i + 1]), build) == FirstError(Leaves(fs[i]), build)
    ensures AtomsOf(AllLeaves(fs[..i + 1]), build) == AtomsOf(AllLeaves(fs[..i]), build) + AtomsOf(Leaves(fs[i]), build)
    ensures !Effective(fs[i], build) ==> AtomsOf(Leaves(fs[i]), build) == []
    ensures AnyEffective(fs[..i + 1], build) <==> AnyEffective(fs[..i], build) || Effective(fs[i], build)
    ensures forall t :: AllHold(fs[..i + 1], build, t)
              <==> AllHold(fs[..i], build, t) && (Effective(fs[i], build) ==> Holds(fs[i], build, t))
    ensures forall t :: SomeHolds(fs[..i + 1], build, t)
              <==> SomeHolds(fs[..i], build, t) || (Effective(fs[i], build) && Holds(fs[i], build, t))
  {
    AllLeavesNext(fs, i);
    FirstErrorJoin(AllLeaves(fs[..i]), Leaves(fs[i]), build);
    AtomsJoin(AllLeaves(fs[..i]), Leaves(fs[i]), build);
    if !Effective(fs[i], build) {
      NoAtoms(Leaves(fs[i]), build);
    }
    var head, next := fs[..i], fs[..i + 1];
    assert next == head + [fs[i]];
    assert forall j :: 0 <= j < i ==> next[j] == head[j];
    assert next[i] == fs[i];
  }

  method BuildSpecification<L(!new), T(!new), E>(f: FilterInput<L>, build: L -> Built<T, E>) returns (r: Built<T, E>)
    ensures Translates(f, build, r)
    decreases f
  {
    if f.leaf.Some? {
      r := build(f.leaf.value);
      LeafAtoms(f.leaf.value, build);
      assert Leaves(f) == [f.leaf.value];
      return;
    }
    if |f.and| > 0 {
      r := BuildAll(f, build);
    } else if |f.or| > 0 {
      r := BuildAny(f, build);
    } else if f.not.Some? {
      r := BuildSpecification(f.not.value, build);
      if r.Have? {
        assert Atoms(Not(r.spec)) == Atoms(r.spec);
        r := Have(Not(r.spec));
      }
    } else {
      r := NoSpec;
    }
  }

  method BuildAll<L(!new), T(!new), E>(f: FilterInput<L>, build: L -> Built<T, E>) returns (r: Built<T, E>)
    requires f.leaf.None? && f.and != []
    ensures Translates(f, build, r)
    decreases f, 0
  {
    var combined: Option<Spec<T>> := None;
    var i := 0;
    while i < |f.and|
      invariant 0 <= i <= |f.and| && Combines(f.and, i, true, build, combined)
    {
      var s := BuildSpecification(f.and[i], build);
      OneMore(f.and, i, build);
      if s.Fail? {
        ErrorStays(f.and, i + 1, build);
        return s;
      }
      if s.Have? {
        if combined.None? {
          combined := Some(s.spec);
        } else {
          combined := Some(And(combined.value, s.spec));
        }
      }
      i := i + 1;
    }
    assert f.and[..i] == f.and;
    EffectiveOfSome(f.and, build);
    r := if combined.None? then NoSpec else Have(combined.value);
  }

  method BuildAny<L(!new), T(!new), E>(f: FilterInput<L>, build: L -> Built<T, E>) returns (r: Built<T, E>)
    requires f.leaf.None? && f.and == [] && f.or != []
    ensures Translates(f, build, r)
    decreases f, 0
  {
    var combined: Option<Spec<T>> := None;
    var i := 0;
    while i < |f.or|
      invariant 0 <= i <= |f.or| && Combines(f.or, i, false, build, combined)
    {
      var s := BuildSpecification(f.or[i], build);
      OneMore(f.or, i, build);
      if s.Fail? {
        ErrorStays(f.or, i + 1, build);
        return s;
      }
      if s.Have? {
        if combined.None? {
          combined := Some(s.spec);
        } else {
          combined := Some(Or(combined.value, s.spec));
        }
      }
      i := i + 1;
    }
    assert f.or[..i] == f.or;
    EffectiveOfSome(f.or, build);
    r := if combined.None? then NoSpec else Have(combined.value);
  }

  // ----- the meaning of the result, from the leaves up -----

  /** build gives a plain predicate for the leaves that are present, none for the others, and an error for none of them. */
  ghost predicate BuildsPredicates<L(!new), T(!new), E>(f: FilterInput<L>, build: L -> Built<T, E>, present: L -> bool,
                                                        sat: (L, T) -> bool) {
    forall l :: l in Leaves(f) ==>
      if present(l) then build(l).Have? && build(l).spec.Predicate? && forall t :: build(l).spec.pred(t) == sat(l, t)
      else build(l).NoSpec?
  }

  lemma {:induction false} NoErrorAmong<L, T, E>(ls: seq<L>, build: L -> Built<T, E>)
    requires forall l :: l in ls ==> !build(l).Fail?
    ensures FirstError(ls, build) == None
    decreases |ls|
  {
    if ls != [] {
      assert ls[0] in ls;
      NoErrorAmong(ls[1..], build);
    }
  }

  /** The leaves of a child are leaves of its node. */
  lemma ChildBuilds<L(!new), T(!new), E>(f: FilterInput<L>, fs: seq<FilterInput<L>>, i: nat, build: L -> Built<T, E>,
                                         present: L -> bool, sat: (L, T) -> bool)
    requires BuildsPredicates(f, build, present, sat) && Leaves(f) == AllLeaves(fs) && i < |fs|
    ensures BuildsPredicates(fs[i], build, present, sat)
  {
    forall l | l in Leaves(fs[i])
      ensures l in Leaves(f)
    {
      LeafOfSome(fs, l);
    }
  }

  lemma PresentIsEffective<L(!new), T(!new), E>(f: FilterInput<L>, build: L -> Built<T, E>, present: L -> bool, sat: (L, T) -> bool)
    requires BuildsPredicates(f, build, present, sat)
    ensures Present(f, present) <==> Effective(f, build)
  {
  }

  lemma {:induction false} HoldsIsValue<L(!new), T(!new), E>(f: FilterInput<L>, build: L -> Built<T, E>, present: L -> bool,
                                                            sat: (L, T) -> bool, t: T)
    requires BuildsPredicates(f, build, present, sat)
    ensures Holds(f, build, t) <==> Value(f, present, l => sat(l, t))
    decreases f
  {
    if f.leaf.Some? {
      assert f.leaf.value in Leaves(f);
    } else if f.and != [] {
      forall i | 0 <= i < |f.and|
        ensures Holds(f.and[i], build, t) <==> Value(f.and[i], present, l => sat(l, t))
        ensures Present(f.and[i], present) <==> Effective(f.and[i], build)
      {
        ChildBuilds(f, f.and, i, build, present, sat);
        PresentIsEffective(f.and[i], build, present, sat);
        HoldsIsValue(f.and[i], build, present, sat, t);
      }
    } else if f.or != [] {
      forall i | 0 <= i < |f.or|
        ensures Holds(f.or[i], build, t) <==> Value(f.or[i], present, l => sat(l, t))
        ensures Present(f.or[i], present) <==> Effective(f.or[i], build)
      {
        ChildBuilds(f, f.or, i, build, present, sat);
        PresentIsEffective(f.or[i], build, present, sat);
        HoldsIsValue(f.or[i], build, present, sat, t);
      }
    } else if f.not.Some? {
      HoldsIsValue(f.not.value, build, present, sat, t);
    }
  }

  /**
   * With leaves that are plain predicates, a translation never fails, gives nothing exactly if no leaf is
   * present, and otherwise is satisfied by exactly the values for which the pruned tree is true, leaf l
   * counting as sat(l, t).
   */
  lemma TranslationHasTreeValue<L(!new), T(!new), E>(f: FilterInput<L>, build: L -> Built<T, E>, present: L -> bool,
                                                     sat: (L, T) -> bool, r: Built<T, E>)
    requires BuildsPredicates(f, build, present, sat) && Translates(f, build, r)
    ensures !r.Fail? && (r.Have? <==> Present(f, present))
    ensures r.Have? ==> forall t :: IsSatisfiedBy(r.spec, t) <==> Value(f, present, l => sat(l, t))
  {
    NoErrorAmong(Leaves(f), build);
    PresentIsEffective(f, build, present, sat);
    if r.Have? {
      forall t
        ensures IsSatisfiedBy(r.spec, t) <==> Value(f, present, l => sat(l, t))
      {
        HoldsIsValue(f, build, present, sat, t);
      }
    }
  }

  // ----- rewriting a tree without changing what it is translated to -----

  /** Same first error, same effectiveness, same meaning. */
  ghost predicate Equivalent<L(!new), T(!new), E>(f: FilterInput<L>, g: FilterInput<L>, build: L -> Built<T, E>) {
    && FirstError(Leaves(f), build) == FirstError(Leaves(g), build)
    && (Effective(f, build) <==> Effective(g, build))
    && (Effective(f, build) ==> forall t :: (Holds(f, build, t) <==> Holds(g, build, t)))
  }

  ghost predicate SameResult<T(!new), E>(r: Built<T, E>, s: Built<T, E>) {
    match r
    case Fail(e) => s.Fail? && s.error == e
    case NoSpec => s.NoSpec?
    case Have(spec) => s.Have? && forall t :: (IsSatisfiedBy(spec, t) <==> IsSatisfiedBy(s.spec, t))
  }

  /** Equivalent trees are translated to the same error, both to nothing, or to specifications nobody can tell apart. */
  lemma EquivalentTreesTranslateAlike<L(!new), T(!new), E>(f: FilterInput<L>, g: FilterInput<L>, build: L -> Built<T, E>,
                                                          r: Built<T, E>, s: Built<T, E>)
    requires Equivalent(f, g, build) && Translates(f, build, r) && Translates(g, build, s)
    ensures SameResult(r, s)
  {
  }

  function AndOf<L>(fs: seq<FilterInput<L>>): FilterInput<L> {
    FilterInput(fs, [], None, None)
  }

  function OrOf<L>(fs: seq<FilterInput<L>>): FilterInput<L> {
    FilterInput([], fs, None, None)
  }

  function NotOf<L>(f: FilterInput<L>): FilterInput<L> {
    FilterInput([], [], Some(f), None)
  }

  function NotAll<L>(fs: seq<FilterInput<L>>): seq<FilterInput<L>> {
    seq(|fs|, i requires 0 <= i < |fs| => NotOf(fs[i]))
  }

  lemma NodeLeaves<L>(fs: seq<FilterInput<L>>)
    ensures Leaves(AndOf(fs)) == AllLeaves(fs) == Leaves(OrOf(fs))
    ensures Leaves(NotOf(AndOf(fs))) == AllLeaves(fs) == Leaves(NotOf(OrOf(fs)))
  {
    if fs == [] {
      assert AndOf(fs) == OrOf(fs);
    }
  }

  lemma {:induction false} NotAllLeaves<L>(fs: seq<FilterInput<L>>)
    ensures AllLeaves(NotAll(fs)) == AllLeaves(fs)
    decreases |fs|
  {
    if fs != [] {
      var n := |fs| - 1;
      assert NotAll(fs)[..n] == NotAll(fs[..n]);
      NotAllLeaves(fs[..n]);
    }
  }

  lemma NotAllHolds<L(!new), T(!new), E>(fs: seq<FilterInput<L>>, build: L -> Built<T, E>, t: T)
    ensures SomeHolds(NotAll(fs), build, t) <==> !AllHold(fs, build, t)
    ensures AllHold(NotAll(fs), build, t) <==> !SomeHolds(fs, build, t)
  {
    forall i | 0 <= i < |fs|
      ensures Effective(NotAll(fs)[i], build) <==> Effective(fs[i], build)
      ensures Holds(NotAll(fs)[i], build, t) <==> !Holds(fs[i], build, t)
    {
      assert NotAll(fs)[i] == NotOf(fs[i]);
      assert Leaves(NotOf(fs[i])) == Leaves(fs[i]);
    }
    if !AllHold(fs, build, t) {
      var i :| 0 <= i < |fs| && Effective(fs[i], build) && !Holds(fs[i], build, t);
      assert Effective(NotAll(fs)[i], build) && Holds(NotAll(fs)[i], build, t);
    }
    if SomeHolds(fs, build, t) {
      var i :| 0 <= i < |fs| && Effective(fs[i], build) && Holds(fs[i], build, t);
      assert Effective(NotAll(fs)[i], build) && !Holds(NotAll(fs)[i], build, t);
    }
  }

  /** De Morgan: pushing a negation into a conjunction or a disjunction changes nothing, errors included. */
  lemma DeMorgan<L(!new), T(!new), E>(fs: seq<FilterInput<L>>, build: L -> Built<T, E>)
    ensures Equivalent(NotOf(AndOf(fs)), OrOf(NotAll(fs)), build)
    ensures Equivalent(NotOf(OrOf(fs)), AndOf(NotAll(fs)), build)
  {
    NotAllLeaves(fs);
    NodeLeaves(fs);
    NodeLeaves(NotAll(fs));
    if fs != [] {
      forall t: T
        ensures Holds(NotOf(AndOf(fs)), build, t) <==> Holds(OrOf(NotAll(fs)), build, t)
        ensures Holds(NotOf(OrOf(fs)), build, t) <==> Holds(AndOf(NotAll(fs)), build, t)
      {
        NotAllHolds(fs, build, t);
        assert Holds(AndOf(fs), build, t) <==> AllHold(fs, build, t);
        assert Holds(OrOf(fs), build, t) <==> SomeHolds(fs, build, t);
      }
    }
  }

  lemma {:induction false} AllLeavesJoin<L>(fs: seq<FilterInput<L>>, gs: seq<FilterInput<L>>)
    ensures AllLeaves(fs + gs) == AllLeaves(fs) + AllLeaves(gs)
    decreases |gs|
  {
    if gs == [] {
      assert fs + gs == fs;
    } else {
      var n := |gs| - 1;
      assert (fs + gs)[..|fs| + n] == fs + gs[..n];
      AllLeavesJoin(fs, gs[..n]);
    }
  }

  lemma HoldJoin<L(!new), T(!new), E>(fs: seq<FilterInput<L>>, gs: seq<FilterInput<L>>, build: L -> Built<T, E>, t: T)
    ensures AllHold(fs + gs, build, t) <==> AllHold(fs, build, t) && AllHold(gs, build, t)
    ensures SomeHolds(fs + gs, build, t) <==> SomeHolds(fs, build, t) || SomeHolds(gs, build, t)
  {
    var both := fs + gs;
    assert forall i :: 0 <= i < |fs| ==> both[i] == fs[i];
    assert forall i :: 0 <= i < |gs| ==> both[|fs| + i] == gs[i];
  }

  /** A nested node holds as its children do. */
  lemma NestedHolds<L(!new), T(!new), E>(gs: seq<FilterInput<L>>, build: L -> Built<T, E>, t: T)
    ensures AllHold([AndOf(gs)], build, t) <==> AllHold(gs, build, t)
    ensures SomeHolds([OrOf(gs)], build, t) <==> SomeHolds(gs, build, t)
  {
    EffectiveOfSome(gs, build);
    NodeLeaves(gs);
    assert [AndOf(gs)][0] == AndOf(gs) && [OrOf(gs)][0] == OrOf(gs);
    assert gs != [] ==> (Holds(AndOf(gs), build, t) <==> AllHold(gs, build, t));
    assert gs != [] ==> (Holds(OrOf(gs), build, t) <==> SomeHolds(gs, build, t));
  }

  lemma FlatLeaves<L>(fs: seq<FilterInput<L>>, g: FilterInput<L>, gs: seq<FilterInput<L>>, hs: seq<FilterInput<L>>)
    requires Leaves(g) == AllLeaves(gs)
    ensures AllLeaves(fs + [g] + hs) == AllLeaves(fs + gs + hs)
  {
    AllLeavesJoin(fs + [g], hs);
    AllLeavesJoin(fs, [g]);
    AllLeavesJoin(fs + gs, hs);
    AllLeavesJoin(fs, gs);
    assert AllLeaves([g]) == Leaves(g) by {
      assert [g][..0] == [];
    }
  }

  /** Flattening a conjunction inside a conjunction, or a disjunction inside a disjunction, changes nothing, errors included. */
  lemma Flattening<L(!new), T(!new), E>(fs: seq<FilterInput<L>>, gs: seq<FilterInput<L>>, hs: seq<FilterInput<L>>,
                                        build: L -> Built<T, E>)
    ensures Equivalent(AndOf(fs + [AndOf(gs)] + hs), AndOf(fs + gs + hs), build)
    ensures Equivalent(OrOf(fs + [OrOf(gs)] + hs), OrOf(fs + gs + hs), build)
  {
    NodeLeaves(gs);
    FlatLeaves(fs, AndOf(gs), gs, hs);
    FlatLeaves(fs, OrOf(gs), gs, hs);
    NodeLeaves(fs + [AndOf(gs)] + hs);
    NodeLeaves(fs + [OrOf(gs)] + hs);
    NodeLeaves(fs + gs + hs);
    if fs + gs + hs != [] {
      forall t: T
        ensures Holds(AndOf(fs + [AndOf(gs)] + hs), build, t) <==> Holds(AndOf(fs + gs + hs), build, t)
        ensures Holds(OrOf(fs + [OrOf(gs)] + hs), build, t) <==> Holds(OrOf(fs + gs + hs), build, t)
      {
        NestedHolds(gs, build, t);
        HoldJoin(fs + [AndOf(gs)], hs, build, t);
        HoldJoin(fs + [OrOf(gs)], hs, build, t);
        HoldJoin(fs, [AndOf(gs)], build, t);
        HoldJoin(fs, [OrOf(gs)], build, t);
        HoldJoin(fs + gs, hs, build, t);
        HoldJoin(fs, gs, build, t);
      }
    }
  }

  // ----- rewriting anywhere in a tree -----

  /** The way from the root of a tree to one of its subtrees. */
  datatype Path = Here | InAnd(i: nat, rest: Path) | InOr(i: nat, rest: Path) | InNot(rest: Path)

  predicate Leads<L>(f: FilterInput<L>, p: Path) {
    match p
    case Here => true
    case InAnd(i, rest) => i < |f.and| && Leads(f.and[i], rest)
    case InOr(i, rest) => i < |f.or| && Leads(f.or[i], rest)
    case InNot(rest) => f.not.Some? && Leads(f.not.value, rest)
  }

  function Subtree<L>(f: FilterInput<L>, p: Path): FilterInput<L>
    requires Leads(f, p)
  {
    match p
    case Here => f
    case InAnd(i, rest) => Subtree(f.and[i], rest)
    case InOr(i, rest) => Subtree(f.or[i], rest)
    case InNot(rest) => Subtree(f.not.value, rest)
  }

  function Replaced<L>(f: FilterInput<L>, p: Path, g: FilterInput<L>): FilterInput<L>
    requires Leads(f, p)
  {
    match p
    case Here => g
    case InAnd(i, rest) => f.(and := f.and[i := Replaced(f.and[i], rest, g)])
    case InOr(i, rest) => f.(or := f.or[i := Replaced(f.or[i], rest, g)])
    case InNot(rest) => f.(not := Some(Replaced(f.not.value, rest, g)))
  }

  lemma {:induction false} FirstErrorOfChildren<L(!new), T, E>(fs: seq<FilterInput<L>>, gs: seq<FilterInput<L>>,
                                                              build: L -> Built<T, E>)
    requires |fs| == |gs|
    requires forall i :: 0 <= i < |fs| ==> FirstError(Leaves(fs[i]), build) == FirstError(Leaves(gs[i]), build)
    ensures FirstError(AllLeaves(fs), build) == FirstError(AllLeaves(gs), build)
    decreases |fs|
  {
    if fs != [] {
      var n := |fs| - 1;
      FirstErrorOfChildren(fs[..n], gs[..n], build);
      FirstErrorJoin(AllLeaves(fs[..n]), Leaves(fs[n]), build);
      FirstErrorJoin(AllLeaves(gs[..n]), Leaves(gs[n]), build);
    }
  }

  lemma ChildrenAlike<L(!new), T(!new), E>(fs: seq<FilterInput<L>>, gs: seq<FilterInput<L>>, build: L -> Built<T, E>)
    requires |fs| == |gs| && forall i :: 0 <= i < |fs| ==> Equivalent(fs[i], gs[i], build)
    ensures FirstError(AllLeaves(fs), build) == FirstError(AllLeaves(gs), build)
    ensures AnyEffective(fs, build) <==> AnyEffective(gs, build)
    ensures forall t :: AllHold(fs, build, t) <==> AllHold(gs, build, t)
    ensures forall t :: SomeHolds(fs, build, t) <==> SomeHolds(gs, build, t)
  {
    FirstErrorOfChildren(fs, gs, build);
  }

  /** Nodes with equivalent children, or the same leaf, are equivalent. */
  lemma NodesAlike<L(!new), T(!new), E>(f: FilterInput<L>, g: FilterInput<L>, build: L -> Built<T, E>)
    requires f.leaf == g.leaf && |f.and| == |g.and| && |f.or| == |g.or| && (f.not.Some? <==> g.not.Some?)
    requires forall i :: 0 <= i < |f.and| ==> Equivalent(f.and[i], g.and[i], build)
    requires forall i :: 0 <= i < |f.or| ==> Equivalent(f.or[i], g.or[i], build)
    requires f.not.Some? ==> Equivalent(f.not.value, g.not.value, build)
    ensures Equivalent(f, g, build)
  {
    if f.leaf.Some? {
    } else if f.and != [] {
      ChildrenAlike(f.and, g.and, build);
      EffectiveOfSome(f.and, build);
      EffectiveOfSome(g.and, build);
      assert forall t :: Holds(f, build, t) <==> AllHold(f.and, build, t);
      assert forall t :: Holds(g, build, t) <==> AllHold(g.and, build, t);
    } else if f.or != [] {
      ChildrenAlike(f.or, g.or, build);
      EffectiveOfSome(f.or, build);
      EffectiveOfSome(g.or, build);
      assert forall t :: Holds(f, build, t) <==> SomeHolds(f.or, build, t);
      assert forall t :: Holds(g, build, t) <==> SomeHolds(g.or, build, t);
    }
  }

  /** Replacing any subtree by an equivalent one, at any depth and shadowed or not, gives an equivalent tree. */
  lemma {:induction false} Congruence<L(!new), T(!new), E>(f: FilterInput<L>, p: Path, g: FilterInput<L>, build: L -> Built<T, E>)
    requires Leads(f, p) && Equivalent(Subtree(f, p), g, build)
    ensures Equivalent(f, Replaced(f, p, g), build)
    decreases p
  {
    match p
    case Here =>
    case InAnd(i, rest) =>
      Congruence(f.and[i], rest, g, build);
      NodesAlike(f, Replaced(f, p, g), build);
    case InOr(i, rest) =>
      Congruence(f.or[i], rest, g, build);
      NodesAlike(f, Replaced(f, p, g), build);
    case InNot(rest) =>
      Congruence(f.not.value, rest, g, build);
      NodesAlike(f, Replaced(f, p, g), build);
  }
}
