/** The session's generation counter and the per-class extension cache entry
    stamped with it. An entry is current only when its stamp equals the
    session's generation; bumping the generation makes every earlier stamp
    stale. */
module ExtensionCache {
  import opened Handles

  /** State of the cached visible-declaration enumeration. */
  datatype CacheState = Invalid | InProgress | Valid

  /** `CachedExtensions`: the owned extension list (null when absent) and the
      generation at which it was built. */
  datatype CachedExtensions = CachedExtensions(extensions: Option<seq<ExtensionDecl>>, generation: uint32)

  /** The session's generation before any module has been imported. */
  const InitialGeneration: uint32 := 1

  /** The default constructor: no list, stamp 0. */
  function Default(): (c: CachedExtensions)
    ensures c.extensions == None && c.generation == 0
  {
    CachedExtensions(None, 0)
  }

  /** The outcome of a move: the entry moved into, and what the moved-from
      entry is left holding. */
  datatype Moved = Moved(target: CachedExtensions, source: CachedExtensions)

  /** The move constructor: the new entry takes the list and the stamp, and
      the source is reset to a null list and stamp 0. */
  function MoveConstruct(other: CachedExtensions): (r: Moved)
    ensures r.target == other
    ensures r.source == Default()
  {
    Moved(CachedExtensions(other.extensions, other.generation), CachedExtensions(None, 0))
  }

  /** The move assignment: the target's own list is released and replaced by
      the source's list and stamp; the source is reset to a null list and
      stamp 0. The target's previous contents play no part in the result. */
  function MoveAssign(target: CachedExtensions, other: CachedExtensions): (r: Moved)
    ensures r.target == other
    ensures r.source == Default()
  {
    Moved(CachedExtensions(other.extensions, other.generation), CachedExtensions(None, 0))
  }

  /** Whether an entry was built at the given generation. */
  predicate IsCurrent(c: CachedExtensions, generation: uint32)
  {
    c.generation == generation
  }

  /** The generation after `k` calls of `bumpGeneration` starting from `g`. */
  function BumpTimes(g: uint32, k: nat): uint32
    decreases k
  {
    if k == 0 then g else Increment(BumpTimes(g, k - 1))
  }

  /** Until the counter reaches UINT32_MAX, each bump adds exactly one. */
  lemma {:induction false} BumpTimesAdds(g: uint32, k: nat)
    requires g as int + k <= UINT32_MAX as int
    decreases k
    ensures BumpTimes(g, k) as int == g as int + k
  {
    if k > 0 {
      BumpTimesAdds(g, k - 1);
    }
  }

  /** In general, k bumps add k modulo 2^32, as `unsigned` arithmetic does. */
  lemma {:induction false} BumpTimesModulo(g: uint32, k: nat)
    decreases k
    ensures BumpTimes(g, k) as int == (g as int + k) % 0x1_0000_0000
  {
    if k > 0 {
      BumpTimesModulo(g, k - 1);
    }
  }

  /** The session's generation only grows, and stays at least 1, for the
      first UINT32_MAX - 1 bumps. */
  lemma GenerationGrows(j: nat, k: nat)
    requires j < k <= UINT32_MAX as int - 1
    ensures 1 <= BumpTimes(InitialGeneration, j) < BumpTimes(InitialGeneration, k)
  {
    BumpTimesAdds(InitialGeneration, j);
    BumpTimesAdds(InitialGeneration, k);
  }

  /** A default entry and a moved-from entry carry stamp 0, which is never the
      session's generation (for the first UINT32_MAX - 1 bumps), so they are
      always rebuilt before use. */
  lemma DefaultNeverCurrent(target: CachedExtensions, other: CachedExtensions, k: nat)
    requires k <= UINT32_MAX as int - 1
    ensures !IsCurrent(Default(), BumpTimes(InitialGeneration, k))
    ensures !IsCurrent(MoveConstruct(other).source, BumpTimes(InitialGeneration, k))
    ensures !IsCurrent(MoveAssign(target, other).source, BumpTimes(InitialGeneration, k))
  {
    BumpTimesAdds(InitialGeneration, k);
  }

  /** An entry built at one generation is stale after any later bump within
      the first UINT32_MAX bumps. */
  lemma StampGoesStale(c: CachedExtensions, j: nat, k: nat)
    requires IsCurrent(c, BumpTimes(InitialGeneration, j))
    requires j < k <= UINT32_MAX as int
    ensures !IsCurrent(c, BumpTimes(InitialGeneration, k))
  {
    BumpTimesAdds(InitialGeneration, j);
    if k < UINT32_MAX as int {
      BumpTimesAdds(InitialGeneration, k);
    } else {
      GenerationWrapsToZero();
    }
  }

  /** Past that window staleness is lost: 2^32 bumps after it was built, an
      entry is current again. */
  lemma StampCurrentAgainAfterFullCycle(c: CachedExtensions, j: nat)
    requires IsCurrent(c, BumpTimes(InitialGeneration, j))
    ensures IsCurrent(c, BumpTimes(InitialGeneration, j + 0x1_0000_0000))
  {
    BumpTimesModulo(InitialGeneration, j);
    BumpTimesModulo(InitialGeneration, j + 0x1_0000_0000);
  }

  /** The 32-bit generation wraps: after UINT32_MAX bumps it is 0 again, the
      stamp of a default entry. */
  lemma GenerationWrapsToZero()
    ensures BumpTimes(InitialGeneration, UINT32_MAX as nat) == 0
    ensures IsCurrent(Default(), BumpTimes(InitialGeneration, UINT32_MAX as nat))
  {
    BumpTimesAdds(InitialGeneration, UINT32_MAX as nat - 1);
  }
}
