/** The host description that placement consults besides the CPU layout. */
module HostMapping {
  import opened Machine
  import opened Samples

  datatype Mapping = Mapping(
    eligibleDomains: set<nat>, excludedDomains: set<nat>, eligibleCpus: set<nat>, dfCapacities: seq<Option<u32>>)
  {
    function DfCapacity(d: nat): u32 { Capacity(dfCapacities, d) }

    function MaxDfCapacity(): u32 { Greatest(dfCapacities).GetOr(DEFAULT_DF_CAPACITY) }
  }

  function Greatest(s: seq<Option<u32>>): Option<u32> {
    if s == [] then None else
      var init, last := Greatest(s[..|s| - 1]), s[|s| - 1];
      if last.Some? && (init.None? || last.value >= init.value) then last else init
  }
}
