/**
 * The device-capability tier (src/hooks/useDeviceCapability.ts): a classification
 * of core count, device memory, a mobile user agent and WebGL support into
 * high, medium or low. The browser probes (navigator fields, the user-agent
 * test, creating a WebGL context) are inputs.
 */
module DeviceCapability {
  import opened Wrappers

  datatype Tier = High | Medium | Low

  /** The tier reported before the probe has run. */
  const INITIAL_TIER: Tier := High

  /** The fallback for a missing or zero core count or memory size. */
  const DEFAULT_CORES: nat := 4
  const DEFAULT_MEMORY: real := 4.0

  /** `hardwareConcurrency || 4`: absent or zero falls back to 4. */
  function EffectiveCores(cores: Option<nat>): (c: nat)
    ensures c >= 1
    ensures cores.Some? && cores.value != 0 ==> c == cores.value
    ensures cores.None? || cores.value == 0 ==> c == DEFAULT_CORES
  {
    if cores.Some? && cores.value != 0 then cores.value else DEFAULT_CORES
  }

  /** `deviceMemory || 4`: absent or zero falls back to 4. */
  function EffectiveMemory(memory: Option<real>): (m: real)
    ensures memory.Some? && memory.value != 0.0 ==> m == memory.value
    ensures memory.None? || memory.value == 0.0 ==> m == DEFAULT_MEMORY
  {
    if memory.Some? && memory.value != 0.0 then memory.value else DEFAULT_MEMORY
  }

  /** The if / else-if chain over the effective values. */
  function TierOf(cores: nat, memory: real, isMobile: bool, hasWebGL: bool): Tier
  {
    if !hasWebGL || (isMobile && cores < 4) || memory < 4.0 then Low
    else if isMobile || cores < 8 || memory < 8.0 then Medium
    else High
  }

  /** The tier the probe settles on. */
  function Classify(cores: Option<nat>, memory: Option<real>, isMobile: bool, hasWebGL: bool): (t: Tier)
    ensures t == High <==> hasWebGL && !isMobile && EffectiveCores(cores) >= 8 && EffectiveMemory(memory) >= 8.0
    ensures t == Low <==>
      !hasWebGL || (isMobile && EffectiveCores(cores) < 4) || EffectiveMemory(memory) < 4.0
    ensures t == Medium <==>
      t != Low && (isMobile || EffectiveCores(cores) < 8 || EffectiveMemory(memory) < 8.0)
  {
    TierOf(EffectiveCores(cores), EffectiveMemory(memory), isMobile, hasWebGL)
  }

  /** A browser that does not report its memory is never classed high. */
  lemma MissingMemoryNeverHigh(cores: Option<nat>, isMobile: bool, hasWebGL: bool)
    ensures Classify(cores, None, isMobile, hasWebGL) != High
  {
  }

  /** A browser reporting zero cores is treated like one reporting four. */
  lemma ZeroCoresAsFour(memory: Option<real>, isMobile: bool, hasWebGL: bool)
    ensures Classify(Some(0), memory, isMobile, hasWebGL) == Classify(Some(4), memory, isMobile, hasWebGL)
  {
  }

  /** A browser reporting zero memory is treated like one reporting four gigabytes. */
  lemma ZeroMemoryAsFour(cores: Option<nat>, isMobile: bool, hasWebGL: bool)
    ensures Classify(cores, Some(0.0), isMobile, hasWebGL) == Classify(cores, Some(4.0), isMobile, hasWebGL)
  {
  }

  /** What the probe reads: the two navigator fields, the user-agent test and the WebGL test. */
  datatype Probe = Probe(cores: Option<nat>, memory: Option<real>, isMobile: bool, hasWebGL: bool)

  /**
   * The value the hook returns: the initial tier until its effect has run with a probe,
   * then the classification of that probe.
   */
  function Capability(probe: Option<Probe>): (t: Tier)
    ensures probe.None? ==> t == High
    ensures probe.Some? ==>
      var p := probe.value;
      t == Classify(p.cores, p.memory, p.isMobile, p.hasWebGL)
  {
    if probe.None? then INITIAL_TIER
    else Classify(probe.value.cores, probe.value.memory, probe.value.isMobile, probe.value.hasWebGL)
  }

  /** The hook starts optimistic: running the probe can only lower the tier it reports. */
  lemma ProbeNeverRaisesTier(p: Probe)
    ensures Rank(Capability(Some(p))) <= Rank(Capability(None))
  {
  }

  function Rank(t: Tier): nat
  {
    match t
    case Low => 0
    case Medium => 1
    case High => 2
  }

  /** More cores or more memory never lowers the tier, and a mobile device never ranks above a desktop. */
  lemma TierMonotone(c1: nat, m1: real, c2: nat, m2: real, mobile1: bool, mobile2: bool, hasWebGL: bool)
    requires c1 <= c2 && m1 <= m2 && (mobile2 ==> mobile1)
    ensures Rank(TierOf(c1, m1, mobile1, hasWebGL)) <= Rank(TierOf(c2, m2, mobile2, hasWebGL))
  {
  }
}
