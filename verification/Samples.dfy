/** Link samples, their freshness, and the policy knobs the controllers read. */
module Samples {
  import opened Machine

  const MAX_DOMAINS: nat := 16
  const DEFAULT_DF_CAPACITY: u32 := 2_000_000

  datatype DfState = DfState(sampleTs: u64, readBw: u32, writeBw: u32, valid: bool)

  datatype Policy = Policy(
    l2Need: u32,
    migrateMargin: u32,
    cpuHighUtil: u32,
    llcStaleMs: u64,
    dfStaleMs: u64,
    migrateSettleMs: u64,
    signatureSnapshots: bool,
    villainThrottle: bool,
    tickReevalEvery: u32,
    tickDeferMax: u32,
    villainResliceNs: u64,
    villainRefillDivisor: u64,
    villainSettleNs: u64,
    villainReleaseSamples: u32,
    tickMovePhaseMod: u32)

  predicate IsStale(sampleTs: u64, now: u64, staleMs: u64) {
    sampleTs == 0 || now < sampleTs || now - sampleTs > SatMul64(staleMs, 1_000_000)
  }

  /** Bounds-checked lookup in a vector of optional values. */
  function Lookup<T>(s: seq<Option<T>>, i: nat): Option<T> {
    if i < |s| then s[i] else None
  }

  function LinkBandwidth(s: DfState): u32 { SatAdd32(s.readBw, s.writeBw) }

  function Capacity(capacities: seq<Option<u32>>, id: nat): u32 {
    Lookup(capacities, id).GetOr(DEFAULT_DF_CAPACITY)
  }

  function LiveSample(states: seq<Option<DfState>>, link: nat, now: u64, cfg: Policy): Option<DfState> {
    var s := Lookup(states, link);
    if s.Some? && s.value.valid && !IsStale(s.value.sampleTs, now, cfg.dfStaleMs) then s else None
  }

  /** Bandwidth above capacity of a link whose sample is live, and 0 otherwise. */
  function LiveOverload(states: seq<Option<DfState>>, capacities: seq<Option<u32>>, link: nat, now: u64, cfg: Policy): u32 {
    match LiveSample(states, link, now, cfg)
    case None => 0
    case Some(s) => SatSub(LinkBandwidth(s), Capacity(capacities, link))
  }
}
