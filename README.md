# Clang importer session bookkeeping

A Dafny model of the session state of the Swift Clang importer, kept in
`ClangImporter::Implementation` (`lib/ClangImporter/ImporterImpl.h`). It covers
the members whose bodies are in that header:

- the delayed-conformance ticket table: `allocateDelayedConformance` issues
  tickets from a counter and `takeDelayedConformance` redeems them;
- the imported-protocols side table: `recordImportedProtocols` and
  `takeImportedProtocols`;
- the generation counter. `bumpGeneration` increments it and resets the
  visible-declaration cache. `CachedExtensions` are the per-class cache entries
  stamped with a generation;
- the alternate-declaration lookup, `getAlternateDecl`;
- the pending-work queues: `registerExternalDecl` and
  `scheduleFinishProtocolConformance`;
- the type-resolver slot: `getTypeResolver`, `setTypeResolver`,
  `hasBegunTypeChecking` and `hasFinishedTypeChecking`.

Layout:

- `handles.dfy` (module `Handles`) has the opaque declaration handles and the
  null pointer as `Option`. It also has `uint32`, the C++ `unsigned`, with its
  wrapping increment.
- `delayed_conformances.dfy`, `imported_protocols.dfy`, `extension_cache.dfy`,
  `pending_work.dfy` and `type_resolver.dfy` each describe one component as
  values. They hold the transition functions and the lemmas about sequences of
  calls.
- `importer_impl.dfy` (module `ClangImporterImpl`) has the class
  `Implementation`. Its fields are the session fields. Its methods update them
  in place. Each method's `ensures` equates the new state with a transition
  function applied to the old state. Each method's `modifies` names only the
  fields its source member writes, so nothing else changes.

Handles (`ClangDecl`, `Decl`, `ValueDecl`, `ProtocolDecl`, ...) are pointer
identities, modelled as datatypes that wrap a number. Both counters are
`unsigned`, and the two are modelled differently:

- The ticket counter never wraps. Tickets are keys of an LLVM
  `DenseMap<unsigned, ...>`, which reserves `~0U` as its empty key and
  `~0U - 1` as its tombstone key. Storing either key fails the map's
  assertion. The model states this as a precondition of allocation, in the
  same way as the asserts below. Counting up from 0, an allocation at the
  tombstone key fails the map's assertion, so no further ticket is issued
  (`DelayedConformances.ReservedKeysNeverIssued`).
- `Generation` is a plain `unsigned`, and the model writes out its
  wrap-around: past `UINT32_MAX` the next generation is 0. So "the generation
  only grows" is proved for as long as it has not wrapped.
  `ExtensionCache.GenerationWrapsToZero` shows what happens after the wrap.

`AlternateDecls` is a `DenseMap<Decl *, ValueDecl *>`, so a present key can map
to null. The model therefore stores `Option<ValueDecl>` values.

The assertion in `setTypeResolver` is modelled as a precondition
(`TypeResolverState.CanSet`). The unchecked `find` in `takeDelayedConformance`
is modelled as the precondition that the ticket is live.

## Model

| member | source | states |
|---|---|---|
| Handles.Increment | lib/ClangImporter/ImporterImpl.h:491 | `++` on an `unsigned`: one more modulo 2^32, so UINT32_MAX goes to 0 |
| DelayedConformances.Allocate | lib/ClangImporter/ImporterImpl.h:1226-1231 | requires that the ticket is not one of the map's reserved keys; the ticket is the old counter; the counter advances by one; the list is stored under the ticket; other entries are kept; on a valid table the ticket was not live, and validity is kept |
| DelayedConformances.Take | lib/ClangImporter/ImporterImpl.h:1234-1240 | requires a live ticket; returns exactly its list; removes the ticket, so a second take fails the precondition; keeps every other entry and the counter |
| DelayedConformances.AllocateThenTake | lib/ClangImporter/ImporterImpl.h:1226-1240 | redeeming a just-allocated ticket returns the stored list and restores the previous entries |
| DelayedConformances.AllocateEachIssuesConsecutiveIds | lib/ClangImporter/ImporterImpl.h:1226-1231 | successive allocations that stay below the reserved keys issue consecutive tickets; each list sits under its own ticket; old entries keep their lists; the live keys are the old ones plus the new tickets; the table stays valid |
| DelayedConformances.AllocateEachIdsDistinct | lib/ClangImporter/ImporterImpl.h:1226-1231 | tickets from successive allocations are strictly increasing, hence pairwise distinct |
| DelayedConformances.TakenStaysTaken | lib/ClangImporter/ImporterImpl.h:1234-1240 | a redeemed ticket is not live again after any number of later allocations: redemption is exactly once |
| DelayedConformances.ReservedKeysNeverIssued | lib/ClangImporter/ImporterImpl.h:613-617 | from the initial table, no allocation issues the empty or the tombstone key, and neither key is ever live; after TOMBSTONE_KEY allocations the counter stands at a reserved key, where the next allocation fails the map's assertion instead of wrapping |
| ImportedProtocols.Record | lib/ClangImporter/ImporterImpl.h:1247-1254 | an empty list leaves the table unchanged; otherwise the entry for the declaration becomes its old list (or empty) followed by the new protocols in order; other keys are untouched; no empty list is stored |
| ImportedProtocols.Take | lib/ClangImporter/ImporterImpl.h:1257-1267 | returns what was recorded and erases the key; an absent key yields an empty list and an unchanged table; on a valid table the result is empty exactly when the key was absent |
| ImportedProtocols.TakeTwice | lib/ClangImporter/ImporterImpl.h:1257-1267 | a second take yields nothing and changes nothing |
| ImportedProtocols.RecordDoesNotDisturbOthers | lib/ClangImporter/ImporterImpl.h:1247-1254 | recording for one declaration does not change what another declaration takes |
| ImportedProtocols.RecordEachThenTake | lib/ClangImporter/ImporterImpl.h:1247-1267 | after any number of records, a take returns all recorded protocols in recording order and leaves the table as one take would have left it |
| ExtensionCache.Default | lib/ClangImporter/ImporterImpl.h:459-460 | a default entry has a null list and stamp 0 |
| ExtensionCache.MoveConstruct | lib/ClangImporter/ImporterImpl.h:465-470 | the new entry takes the list and stamp; the source is left null with stamp 0 |
| ExtensionCache.MoveAssign | lib/ClangImporter/ImporterImpl.h:472-479 | the target ends as the source was; the source is left null with stamp 0 |
| ExtensionCache.BumpTimesAdds | lib/ClangImporter/ImporterImpl.h:490-491 | without wrap, k bumps add exactly k to the generation |
| ExtensionCache.GenerationGrows | lib/ClangImporter/ImporterImpl.h:455 | from 1, the generation is at least 1 and strictly increasing over the first UINT32_MAX - 1 bumps |
| ExtensionCache.DefaultNeverCurrent | lib/ClangImporter/ImporterImpl.h:455-479 | default and moved-from entries (stamp 0) are never current while the generation has not wrapped |
| ExtensionCache.StampGoesStale | lib/ClangImporter/ImporterImpl.h:486-491 | an entry stamped at one generation is stale after any later bump within the first UINT32_MAX bumps |
| ExtensionCache.BumpTimesModulo | lib/ClangImporter/ImporterImpl.h:491 | k bumps add k to the generation modulo 2^32, as `unsigned` arithmetic does |
| ExtensionCache.StampCurrentAgainAfterFullCycle | lib/ClangImporter/ImporterImpl.h:486-491 | 2^32 bumps after it was built, an entry is current again: staleness holds only within the window above |
| ExtensionCache.GenerationWrapsToZero | lib/ClangImporter/ImporterImpl.h:455 | after UINT32_MAX bumps the generation is 0, which is the stamp of a default entry |
| PendingWork.Push | lib/ClangImporter/ImporterImpl.h:679-685 | the item goes at the end and the earlier items are kept in order |
| PendingWork.PushEachAppends | lib/ClangImporter/ImporterImpl.h:679-685 | successive pushes leave the old queue followed by the items in push order |
| PendingWork.PushedEarlierStandsEarlier | lib/ClangImporter/ImporterImpl.h:679-685 | an item pushed earlier stands at a lower position |
| TypeResolverState.Set | lib/ClangImporter/ImporterImpl.h:1214-1218 | requires the guard (no active resolver, or the new one is null); stores the new resolver and sets begun; the result is finished exactly when the new resolver is null |
| TypeResolverState.PhaseOf | lib/ClangImporter/ImporterImpl.h:1219-1222 | on a reachable slot exactly one phase holds: not begun, active (resolver present), or finished (begun and no resolver) |
| TypeResolverState.RunOutcome | lib/ClangImporter/ImporterImpl.h:1214-1219 | after calls that pass the guard the slot holds the last resolver set; begun is set and stays set; reachability is kept |
| TypeResolverState.RunFromInitial | lib/ClangImporter/ImporterImpl.h:293 | from the initial slot (null, false), begun holds exactly when some call was made, and finished exactly when the last call cleared the resolver |
| TypeResolverState.LifeCycle | lib/ClangImporter/ImporterImpl.h:1211-1222 | install a resolver and then clear it: not begun, then active, then finished; a second resolver cannot be installed while one is active |
| ClangImporterImpl.Implementation.constructor | lib/ClangImporter/ImporterImpl.h:293-622 | the session starts with an empty queue, table and map, both counters at their initial values (generation 1, next ticket 0), an invalid visible cache and an empty resolver slot |
| ClangImporterImpl.Implementation.BumpGeneration | lib/ClangImporter/ImporterImpl.h:490-495 | the generation goes up by one with wrap; the visible-declaration cache is empty and invalid; the identity map, alternate map and extension caches are untouched; every extension entry that was current becomes stale, at the wrap too |
| ClangImporterImpl.Implementation.GetAlternateDecl | lib/ClangImporter/ImporterImpl.h:553-557 | null when the declaration has no entry, otherwise the mapped alternate, which may itself be null; the result is non-null exactly when a non-null alternate is recorded; reads only |
| ClangImporterImpl.Implementation.RegisterExternalDecl | lib/ClangImporter/ImporterImpl.h:679-681 | appends the declaration to the registered-decls queue and changes nothing else |
| ClangImporterImpl.Implementation.ScheduleFinishProtocolConformance | lib/ClangImporter/ImporterImpl.h:683-685 | appends the conformance to the delayed-protocol-conformances queue and changes nothing else |
| ClangImporterImpl.Implementation.GetTypeResolver | lib/ClangImporter/ImporterImpl.h:1211-1213 | a resolver is only returned once type checking has begun |
| ClangImporterImpl.Implementation.SetTypeResolver | lib/ClangImporter/ImporterImpl.h:1214-1218 | under the asserted guard the slot becomes `TypeResolverState.Set` of the old slot; only the slot changes |
| ClangImporterImpl.Implementation.HasBegunTypeChecking | lib/ClangImporter/ImporterImpl.h:1219 | true exactly when the session is past the not-begun phase |
| ClangImporterImpl.Implementation.HasFinishedTypeChecking | lib/ClangImporter/ImporterImpl.h:1220-1222 | true exactly in the finished phase, and only when type checking has begun |
| ClangImporterImpl.Implementation.AllocateDelayedConformance | lib/ClangImporter/ImporterImpl.h:1226-1231 | requires that the ticket is not a reserved key; the ticket and the new table are those of `DelayedConformances.Allocate` on the old table; only the table and the counter change; every live ticket stays below the counter |
| ClangImporterImpl.Implementation.TakeDelayedConformance | lib/ClangImporter/ImporterImpl.h:1234-1240 | requires a live ticket; the result and the new table are those of `DelayedConformances.Take`; only the table changes |
| ClangImporterImpl.Implementation.RecordImportedProtocols | lib/ClangImporter/ImporterImpl.h:1247-1254 | the new side table is `ImportedProtocols.Record` of the old one; only that table changes |
| ClangImporterImpl.Implementation.TakeImportedProtocols | lib/ClangImporter/ImporterImpl.h:1257-1267 | the result and the new side table are those of `ImportedProtocols.Take`; only that table changes |

## Left out

- `SwiftContext.bumpGeneration()`, the host context's own generation bump inside `bumpGeneration`, is a call into the host AST and is not modelled.
- `CachedExtensions` is modelled as a value. Ownership and `delete` of the extension list are not modelled, and neither is aliasing in self move-assignment, which leaves the entry null with stamp 0.
- `ImportingEntityRAII`, `startedImportingEntity`, `finishedImportingEntity`, `finishPendingActions` and `finishProtocolConformance` are left out. Only the bracket of calls is visible, and the depth counter and queue drain are implemented elsewhere.
- The translation routines declared without a body in the header are left out, because their logic is not part of this model: `importFullName`, `importType`, `importFunctionType`, `importMethodType`, `classifyEnum`, `getEnumConstantNamePrefix`, `importSelector`, `exportSelector`, `omitNeedlessWordsInFunctionName`, `importDeclAndCacheImpl`, `importMirroredDecl`, `loadAllMembers`, `loadAllConformances` and the API-notes queries.
- `ImportTypeKind`, `MappedCTypeKind` and `SpecialMethodKind` are not declared. Their per-role policy lives outside the header.
- `EnumConstantDenseMapInfo` hashing, `ActiveSelectors`, `Subscripts`, `Constructors` and the other maps without inline operations are not modelled.
- The Clang compiler instance, parser, mangler, preprocessor and Sema accessors are foreign front-end calls and are left out.
- Module loading and module wrappers, header import and the lookup tables are left out, as are the module-file-extension reader and writer. These are I/O and serialization.
- `createDeclWithClangNode` is left out. It is raw allocation into the host AST context.
- The availability filters are `std::function` members whose bodies are supplied elsewhere, so they are left out.
- The constructor's own body is not part of this model. `Implementation.constructor` uses only the in-class initializers and default-constructed (empty) containers.
- LLVM's `DenseMap` is not modelled as a hash table. Each map is a Dafny `map`. The one property of it that the model keeps is the assertion that rejects the empty and tombstone keys, stated as a precondition of `DelayedConformances.Allocate` and `Implementation.AllocateDelayedConformance`.
