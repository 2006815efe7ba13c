/** The session bookkeeping of the Clang importer's implementation object:
    the identity and alternate-declaration maps, the generation counter with
    the caches it invalidates, the delayed-conformance tickets, the
    imported-protocols side table, the pending-work queues and the
    type-resolver slot. Each method updates the fields in place and states its
    new state through the value-level functions of the component modules. */
module ClangImporterImpl {
  import opened Handles
  import DelayedConformances
  import ImportedProtocols
  import ExtensionCache
  import PendingWork
  import TypeResolverState

  class Implementation {
    /** `typeResolver`: the active resolver (null when there is none) ... */
    var typeResolver: Option<LazyResolver>
    /** ... and its flag: whether a resolver has ever been assigned. */
    var typeCheckingBegun: bool

    /** `ImportedDecls`: foreign declaration to host declaration. */
    var importedDecls: map<ClangDecl, Decl>
    /** `AlternateDecls`: the second host declaration of a foreign declaration
        imported twice. A present key may map to null. */
    var alternateDecls: map<Decl, Option<ValueDecl>>

    /** `CachedVisibleDecls` and `CurrentCacheState`. */
    var cachedVisibleDecls: seq<ValueDecl>
    var currentCacheState: ExtensionCache.CacheState

    /** `Generation`, bumped whenever a new module is imported. */
    var generation: uint32
    /** `ClassExtensions`: per class, the stamped extension cache. */
    var classExtensions: map<ClassDecl, ExtensionCache.CachedExtensions>

    /** `RegisteredExternalDecls` and `DelayedProtocolConformances`. */
    var registeredExternalDecls: seq<Decl>
    var delayedProtocolConformances: seq<NormalProtocolConformance>

    /** `DelayedConformances` and `NextDelayedConformanceID`. */
    var delayedConformances: map<uint32, seq<ProtocolConformance>>
    var nextDelayedConformanceID: uint32

    /** `ImportedProtocols`. */
    var importedProtocols: map<Decl, seq<ProtocolDecl>>

    /** The object invariant: every live ticket lies below the ticket counter,
        the protocol side table holds no empty list, and a resolver is only
        present once type checking has begun. */
    ghost predicate Valid()
      reads this
    {
      DelayedConformances.Valid(Tickets()) &&
      ImportedProtocols.Valid(importedProtocols) &&
      TypeResolverState.Valid(ResolverSlot())
    }

    /** The ticket table as a value. */
    ghost function Tickets(): DelayedConformances.Table
      reads this
    {
      DelayedConformances.Table(delayedConformances, nextDelayedConformanceID)
    }

    /** The type-resolver slot as a value. */
    ghost function ResolverSlot(): TypeResolverState.ResolverSlot
      reads this
    {
      TypeResolverState.ResolverSlot(typeResolver, typeCheckingBegun)
    }

    /** The session as its member initializers leave it. */
    constructor ()
      ensures Valid()
      ensures ResolverSlot() == TypeResolverState.Initial
      ensures importedDecls == map[] && alternateDecls == map[]
      ensures cachedVisibleDecls == [] && currentCacheState == ExtensionCache.Invalid
      ensures generation == ExtensionCache.InitialGeneration && classExtensions == map[]
      ensures registeredExternalDecls == [] && delayedProtocolConformances == []
      ensures Tickets() == DelayedConformances.Initial
      ensures importedProtocols == map[]
    {
      typeResolver := None;
      typeCheckingBegun := false;
      importedDecls := map[];
      alternateDecls := map[];
      cachedVisibleDecls := [];
      currentCacheState := ExtensionCache.Invalid;
      generation := ExtensionCache.InitialGeneration;
      classExtensions := map[];
      registeredExternalDecls := [];
      delayedProtocolConformances := [];
      delayedConformances := map[];
      nextDelayedConformanceID := 0;
      importedProtocols := map[];
    }

    /** `bumpGeneration`: one more generation (wrapping as an `unsigned`), the
        visible-declaration cache emptied and marked invalid; the identity map,
        the alternate declarations and the extension caches are untouched. */
    method BumpGeneration()
      requires Valid()
      modifies this`generation, this`cachedVisibleDecls, this`currentCacheState
      ensures Valid()
      ensures generation == ExtensionCache.BumpTimes(old(generation), 1)
      ensures cachedVisibleDecls == [] && currentCacheState == ExtensionCache.Invalid
      ensures importedDecls == old(importedDecls)
      ensures alternateDecls == old(alternateDecls)
      ensures classExtensions == old(classExtensions)
      ensures forall cls ::
                (cls in classExtensions && ExtensionCache.IsCurrent(classExtensions[cls], old(generation)))
                ==> !ExtensionCache.IsCurrent(classExtensions[cls], generation)
    {
      generation := Increment(generation);
      cachedVisibleDecls := [];
      currentCacheState := ExtensionCache.Invalid;
    }

    /** `getAlternateDecl`: null when `decl` has no entry, otherwise the
        recorded alternate (which may itself be null). */
    function GetAlternateDecl(decl: Decl): (r: Option<ValueDecl>)
      reads this
      ensures decl !in alternateDecls ==> r.None?
      ensures decl in alternateDecls ==> r == alternateDecls[decl]
      ensures r.Some? <==> decl in alternateDecls && alternateDecls[decl].Some?
    {
      if decl in alternateDecls then alternateDecls[decl] else None
    }

    /** `registerExternalDecl`: queued last. */
    method RegisterExternalDecl(decl: Decl)
      requires Valid()
      modifies this`registeredExternalDecls
      ensures Valid()
      ensures registeredExternalDecls == PendingWork.Push(old(registeredExternalDecls), decl)
    {
      registeredExternalDecls := registeredExternalDecls + [decl];
    }

    /** `scheduleFinishProtocolConformance`: queued last. */
    method ScheduleFinishProtocolConformance(conformance: NormalProtocolConformance)
      requires Valid()
      modifies this`delayedProtocolConformances
      ensures Valid()
      ensures delayedProtocolConformances == PendingWork.Push(old(delayedProtocolConformances), conformance)
    {
      delayedProtocolConformances := delayedProtocolConformances + [conformance];
    }

    /** `getTypeResolver`: a resolver is only ever present after type checking
        has begun. */
    function GetTypeResolver(): (r: Option<LazyResolver>)
      reads this
      ensures Valid() && r.Some? ==> TypeResolverState.HasBegun(ResolverSlot())
    {
      typeResolver
    }

    /** `setTypeResolver`: its assertion forbids replacing an active resolver
        by another one. */
    method SetTypeResolver(newResolver: Option<LazyResolver>)
      requires Valid()
      requires TypeResolverState.CanSet(ResolverSlot(), newResolver)
      modifies this`typeResolver, this`typeCheckingBegun
      ensures Valid()
      ensures ResolverSlot() == TypeResolverState.Set(old(ResolverSlot()), newResolver)
    {
      typeResolver := newResolver;
      typeCheckingBegun := true;
    }

    /** `hasBegunTypeChecking`: true once the session has left the first
        phase. */
    function HasBegunTypeChecking(): (r: bool)
      reads this
      ensures Valid() ==> (r <==> TypeResolverState.PhaseOf(ResolverSlot()) != TypeResolverState.NotBegun)
    {
      typeCheckingBegun
    }

    /** `hasFinishedTypeChecking`: true exactly in the last phase. */
    function HasFinishedTypeChecking(): (r: bool)
      reads this
      ensures r ==> HasBegunTypeChecking()
      ensures Valid() ==> (r <==> TypeResolverState.PhaseOf(ResolverSlot()) == TypeResolverState.Finished)
    {
      HasBegunTypeChecking() && GetTypeResolver().None?
    }

    /** `allocateDelayedConformance`: the ticket must not be a key the map
        reserves. */
    method AllocateDelayedConformance(conformances: seq<ProtocolConformance>) returns (id: uint32)
      requires Valid()
      requires !DelayedConformances.IsReservedKey(nextDelayedConformanceID)
      modifies this`delayedConformances, this`nextDelayedConformanceID
      ensures Valid()
      ensures DelayedConformances.Allocate(old(Tickets()), conformances)
           == DelayedConformances.Allocation(Tickets(), id)
    {
      id := nextDelayedConformanceID;
      nextDelayedConformanceID := Increment(nextDelayedConformanceID);
      delayedConformances := delayedConformances[id := conformances];
    }

    /** `takeDelayedConformance`: the ticket must be live. */
    method TakeDelayedConformance(id: uint32) returns (result: seq<ProtocolConformance>)
      requires Valid()
      requires id in delayedConformances
      modifies this`delayedConformances
      ensures Valid()
      ensures DelayedConformances.Take(old(Tickets()), id)
           == DelayedConformances.Redemption(Tickets(), result)
    {
      result := delayedConformances[id];
      delayedConformances := delayedConformances - {id};
    }

    /** `recordImportedProtocols`. */
    method RecordImportedProtocols(decl: Decl, protocols: seq<ProtocolDecl>)
      requires Valid()
      modifies this`importedProtocols
      ensures Valid()
      ensures importedProtocols == ImportedProtocols.Record(old(importedProtocols), decl, protocols)
    {
      if protocols == [] {
        return;
      }
      if decl !in importedProtocols {
        importedProtocols := importedProtocols[decl := []];
      }
      importedProtocols := importedProtocols[decl := importedProtocols[decl] + protocols];
    }

    /** `takeImportedProtocols`. */
    method TakeImportedProtocols(decl: Decl) returns (result: seq<ProtocolDecl>)
      requires Valid()
      modifies this`importedProtocols
      ensures Valid()
      ensures ImportedProtocols.Take(old(importedProtocols), decl)
           == ImportedProtocols.Taken(importedProtocols, result)
    {
      result := [];
      if decl in importedProtocols {
        result := importedProtocols[decl];
        importedProtocols := importedProtocols - {decl};
      }
    }
  }
}
