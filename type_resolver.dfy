/** The type-resolver slot of the importer session: a pointer to the active
    type checker's resolver, and one bit that records whether a resolver has
    ever been assigned. Together they go through three phases: type checking
    not begun, a resolver active, type checking finished. */
module TypeResolverState {
  import opened Handles

  /** `typeResolver`: the resolver pointer and the "type checking has begun"
      bit. */
  datatype ResolverSlot = ResolverSlot(resolver: Option<LazyResolver>, begun: bool)

  /** The slot as the session starts: null pointer, bit clear. */
  const Initial: ResolverSlot := ResolverSlot(None, false)

  /** The asserted guard of `setTypeResolver`: never replace one resolver by
      another; either there is none yet or the new one is null. */
  predicate CanSet(s: ResolverSlot, newResolver: Option<LazyResolver>)
  {
    s.resolver.None? || newResolver.None?
  }

  /** `setTypeResolver`: stores the new pointer and sets the bit. */
  function Set(s: ResolverSlot, newResolver: Option<LazyResolver>): (r: ResolverSlot)
    requires CanSet(s, newResolver)
    ensures r.resolver == newResolver
    ensures HasBegun(r)
    ensures HasFinished(r) <==> newResolver.None?
  {
    ResolverSlot(newResolver, true)
  }

  /** `hasBegunTypeChecking`. */
  predicate HasBegun(s: ResolverSlot)
  {
    s.begun
  }

  /** `hasFinishedTypeChecking`: begun, and the resolver is gone again. */
  predicate HasFinished(s: ResolverSlot)
  {
    HasBegun(s) && s.resolver.None?
  }

  /** Slots reachable from `Initial`: a resolver is only present once the bit
      is set. */
  predicate Valid(s: ResolverSlot)
  {
    s.resolver.Some? ==> s.begun
  }

  datatype Phase = NotBegun | Active | Finished

  /** The phase of a reachable slot; exactly one applies. */
  function PhaseOf(s: ResolverSlot): (p: Phase)
    requires Valid(s)
    ensures p == NotBegun <==> !HasBegun(s)
    ensures p == Active <==> s.resolver.Some?
    ensures p == Finished <==> HasFinished(s)
  {
    if !s.begun then NotBegun else if s.resolver.Some? then Active else Finished
  }

  /** A sequence of `setTypeResolver` calls; None when one of them would fail
      its assertion. */
  function Run(s: ResolverSlot, calls: seq<Option<LazyResolver>>): Option<ResolverSlot>
    decreases |calls|
  {
    if calls == [] then Some(s)
    else if !CanSet(s, calls[0]) then None
    else Run(Set(s, calls[0]), calls[1..])
  }

  /** After a run that passes every assertion the slot holds the last
      resolver set; once any call has been made the bit is set for good; a
      valid slot stays valid. */
  lemma {:induction false} RunOutcome(s: ResolverSlot, calls: seq<Option<LazyResolver>>)
    requires Run(s, calls).Some?
    decreases |calls|
    ensures var t := Run(s, calls).value;
            && (calls == [] ==> t == s)
            && (calls != [] ==> t.resolver == calls[|calls| - 1] && HasBegun(t))
            && (HasBegun(s) ==> HasBegun(t))
            && (Valid(s) ==> Valid(t))
  {
    if calls != [] {
      RunOutcome(Set(s, calls[0]), calls[1..]);
      if |calls| > 1 {
        assert calls[1..][|calls| - 2] == calls[|calls| - 1];
      }
    }
  }

  /** From the start of the session, type checking has begun exactly when
      some resolver call was made, and has finished exactly when, in addition,
      the last call cleared the resolver. */
  lemma RunFromInitial(calls: seq<Option<LazyResolver>>)
    requires Run(Initial, calls).Some?
    ensures var t := Run(Initial, calls).value;
            && Valid(t)
            && (HasBegun(t) <==> calls != [])
            && (HasFinished(t) <==> calls != [] && calls[|calls| - 1].None?)
  {
    RunOutcome(Initial, calls);
  }

  /** The usual life cycle: install a resolver, then remove it. A second
      resolver, even the same one, cannot be installed while one is active. */
  lemma LifeCycle(r: LazyResolver, other: LazyResolver)
    ensures PhaseOf(Initial) == NotBegun
    ensures PhaseOf(Set(Initial, Some(r))) == Active
    ensures !CanSet(Set(Initial, Some(r)), Some(other))
    ensures PhaseOf(Set(Set(Initial, Some(r)), None)) == Finished
  {
  }
}
