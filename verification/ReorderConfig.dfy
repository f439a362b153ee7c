/** Flow identity, per-rule parameters and configuration of the reorder shim. */
module ReorderConfig {
  import opened Bits

  /** The inner 5-tuple. Equality of keys is equality of all six fields. */
  datatype FlowKey = FlowKey(
    ipVersion: Byte, proto: Byte,
    srcPort: nat, dstPort: nat,
    srcIp: seq<Byte>, dstIp: seq<Byte>)

  datatype Profile = QuicBulk | LowLatency | DefaultUdp | CellularBond | FiberLte

  /** A preset pair (wait in milliseconds, ring capacity), if the profile has one. */
  datatype Preset = NoPreset | Preset(waitMs: nat, cap: nat)

  function ProfilePreset(p: Profile): Preset {
    match p
    case QuicBulk | CellularBond => Preset(50, 1024)
    case FiberLte => Preset(50, 2048)
    case _ => NoPreset
  }

  /** A zero explicit value means unset; the resolved pair is filled in by Finalize. */
  datatype Rule = Rule(
    proto: Byte, port: nat, profile: Profile,
    explicitWaitMs: nat, explicitCap: nat,
    resolvedWaitMs: nat, resolvedCap: nat)

  datatype Config = Config(
    enabled: bool,
    maxWaitMs: nat, cap: nat, maxFlowBytes: nat,
    classifyWindow: nat, maxLarge: nat, smallThreshold: nat,
    resetMarks: nat, resetGraceMs: nat,
    maxFlows: nat, maxPoolBytes: nat,
    ingressIdleSec: nat, egressIdleSec: nat,
    forceNoDemotion: bool,
    hasExplicitWait: bool, hasExplicitCap: bool,
    rules: seq<Rule>)

  const BUILTIN_CAP: nat := 1024

  predicate Validate(cfg: Config) {
    cfg.ingressIdleSec < cfg.egressIdleSec && CapIsValid(cfg.cap)
  }

  predicate RuleMatches(r: Rule, key: FlowKey) {
    r.proto == key.proto && (r.port == key.srcPort || r.port == key.dstPort)
  }

  /** The index of the first matching rule, or the number of rules. */
  function MatchIndex(rules: seq<Rule>, key: FlowKey): (i: nat)
    ensures i <= |rules|
    ensures i < |rules| ==> RuleMatches(rules[i], key)
    ensures forall j :: 0 <= j < i ==> !RuleMatches(rules[j], key)
  {
    if rules == [] then 0
    else if RuleMatches(rules[0], key) then 0
    else
      var i := MatchIndex(rules[1..], key);
      assert forall j :: 1 <= j < i + 1 ==> rules[j] == rules[1..][j - 1];
      i + 1
  }

  method MatchRule(rules: seq<Rule>, key: FlowKey) returns (i: nat)
    ensures i == MatchIndex(rules, key)
  {
    for k := 0 to |rules|
      invariant forall j :: 0 <= j < k ==> !RuleMatches(rules[j], key)
    {
      if RuleMatches(rules[k], key) {
        MatchIndexUnique(rules, key, k);
        return k;
      }
    }
    return |rules|;
  }

  lemma MatchIndexUnique(rules: seq<Rule>, key: FlowKey, i: nat)
    requires i < |rules| && RuleMatches(rules[i], key)
    requires forall j :: 0 <= j < i ==> !RuleMatches(rules[j], key)
    ensures MatchIndex(rules, key) == i
  {
  }

  function FlowWaitMs(cfg: Config, key: FlowKey): nat {
    var i := MatchIndex(cfg.rules, key);
    if i < |cfg.rules| then cfg.rules[i].resolvedWaitMs else cfg.maxWaitMs
  }

  function FlowCap(cfg: Config, key: FlowKey): nat {
    var i := MatchIndex(cfg.rules, key);
    if i < |cfg.rules| then cfg.rules[i].resolvedCap else cfg.cap
  }

  /** Rule-explicit, then global-explicit, then preset, then built-in; default_udp never waits. */
  function ResolvedWait(cfg: Config, r: Rule): nat {
    var preset := ProfilePreset(r.profile);
    if r.profile == DefaultUdp then 0
    else if r.explicitWaitMs != 0 then r.explicitWaitMs
    else if !cfg.hasExplicitWait && preset.Preset? then preset.waitMs
    else cfg.maxWaitMs
  }

  /** As ResolvedWait, except that an invalid explicit capacity counts as unset. */
  function ResolvedCap(cfg: Config, r: Rule): nat {
    var preset := ProfilePreset(r.profile);
    var cap :=
      if CapIsValid(r.explicitCap) then r.explicitCap
      else if !cfg.hasExplicitCap && preset.Preset? then preset.cap
      else cfg.cap;
    if CapIsValid(cap) then cap else BUILTIN_CAP
  }

  function Resolve(cfg: Config, r: Rule): Rule {
    r.(resolvedWaitMs := ResolvedWait(cfg, r), resolvedCap := ResolvedCap(cfg, r))
  }

  function ResolvedRules(cfg: Config): seq<Rule> {
    seq(|cfg.rules|, i requires 0 <= i < |cfg.rules| => Resolve(cfg, cfg.rules[i]))
  }

  /** Resolve every rule in place. */
  method Finalize(cfg: Config, rules: array<Rule>)
    modifies rules
    ensures rules[..] == seq(rules.Length, i requires 0 <= i < rules.Length => Resolve(cfg, old(rules[..])[i]))
  {
    for i := 0 to rules.Length
      invariant forall j :: 0 <= j < i ==> rules[j] == Resolve(cfg, old(rules[j]))
      invariant forall j :: i <= j < rules.Length ==> rules[j] == old(rules[j])
    {
      var r := rules[i];
      var preset := ProfilePreset(r.profile);
      var wait :=
        if r.profile == DefaultUdp then 0
        else if r.explicitWaitMs != 0 then r.explicitWaitMs
        else if cfg.hasExplicitWait then cfg.maxWaitMs
        else if preset.Preset? then preset.waitMs
        else cfg.maxWaitMs;
      var rcap := if CapIsValid(r.explicitCap) then r.explicitCap else 0;
      var cap :=
        if rcap != 0 then rcap
        else if cfg.hasExplicitCap then cfg.cap
        else if preset.Preset? then preset.cap
        else cfg.cap;
      if !CapIsValid(cap) {
        cap := BUILTIN_CAP;
      }
      rules[i] := r.(resolvedWaitMs := wait, resolvedCap := cap);
    }
  }

  ghost predicate Finalized(cfg: Config) {
    CapIsValid(cfg.cap) && forall r :: r in cfg.rules ==> CapIsValid(r.resolvedCap)
  }

  /** Whatever the explicit values say, a flow's ring capacity is a non-zero power of two. */
  lemma FlowCapIsPow2(cfg: Config, key: FlowKey)
    requires Finalized(cfg)
    ensures IsPow2(FlowCap(cfg, key))
  {
    CapIsValidIffPow2(FlowCap(cfg, key));
  }

  lemma BuiltinCapIsValid()
    ensures CapIsValid(BUILTIN_CAP)
  {
    assert BUILTIN_CAP == Pow2(10) by {
      assert Pow2(5) == 32;
      assert Pow2(10) == 32 * Pow2(5);
    }
    CapIsValidIffPow2(BUILTIN_CAP);
  }

  lemma FinalizeSound(cfg: Config)
    requires Validate(cfg)
    ensures Finalized(cfg.(rules := ResolvedRules(cfg)))
  {
    BuiltinCapIsValid();
  }

  // ----- what the rules mean -----

  /** The rule that decides for a 5-tuple: the first one of its protocol that names its source or destination port. */
  ghost predicate Decides(rules: seq<Rule>, key: FlowKey, i: nat) {
    && i < |rules| && rules[i].proto == key.proto && rules[i].port in {key.srcPort, key.dstPort}
    && forall j :: 0 <= j < i ==> !(rules[j].proto == key.proto && rules[j].port in {key.srcPort, key.dstPort})
  }

  /** The profiles made for reordering. */
  predicate ForReordering(p: Profile) {
    p == QuicBulk || p == CellularBond || p == FiberLte
  }

  lemma DecidesIs(rules: seq<Rule>, key: FlowKey, i: nat)
    requires Decides(rules, key, i)
    ensures MatchIndex(rules, key) == i
  {
    hide MatchIndex;
    MatchIndexUnique(rules, key, i);
  }

  lemma DecidesOrNone(rules: seq<Rule>, key: FlowKey)
    ensures var i := MatchIndex(rules, key);
      if i < |rules| then Decides(rules, key, i) else forall j :: !Decides(rules, key, j)
  {
    hide MatchIndex;
    var i := MatchIndex(rules, key);
    if i == |rules| {
      forall j
        ensures !Decides(rules, key, j)
      {
        if Decides(rules, key, j) {
          DecidesIs(rules, key, j);
        }
      }
    }
  }

  /** Rules do not tell the two directions of a conversation apart. */
  lemma DirectionIrrelevant(rules: seq<Rule>, key: FlowKey, back: FlowKey)
    requires back.proto == key.proto && back.srcPort == key.dstPort && back.dstPort == key.srcPort
    ensures MatchIndex(rules, back) == MatchIndex(rules, key)
  {
  }

  /** The rules of a finalized configuration hold what was resolved. */
  ghost predicate Resolved(cfg: Config) {
    forall r :: r in cfg.rules ==> r == Resolve(cfg, r)
  }

  lemma FinalizeResolves(cfg: Config)
    ensures Resolved(cfg.(rules := ResolvedRules(cfg)))
  {
    hide CapIsValid;
    var after := cfg.(rules := ResolvedRules(cfg));
    forall r | r in after.rules
      ensures r == Resolve(after, r)
    {
      var i: nat :| i < |cfg.rules| && r == Resolve(cfg, cfg.rules[i]);
    }
  }

  /** Finalizing once more changes nothing. */
  lemma FinalizeIdempotent(cfg: Config)
    ensures var once := cfg.(rules := ResolvedRules(cfg)); once.(rules := ResolvedRules(once)) == once
  {
    hide Resolve;
    FinalizeResolves(cfg);
    var once := cfg.(rules := ResolvedRules(cfg));
    assert forall i :: 0 <= i < |once.rules| ==> once.rules[i] in once.rules;
    assert ResolvedRules(once) == once.rules;
  }

  /** Which value takes effect for a rule: default_udp is off; else the rule's own value, a global one, that of the
      profile, the built-in one, in this order. */
  lemma Precedence(cfg: Config, r: Rule)
    requires r == Resolve(cfg, r) && CapIsValid(cfg.cap)
    ensures r.profile == DefaultUdp ==> r.resolvedWaitMs == 0
    ensures r.profile != DefaultUdp && r.explicitWaitMs > 0 ==> r.resolvedWaitMs == r.explicitWaitMs
    ensures r.profile != DefaultUdp && r.explicitWaitMs == 0 ==>
              r.resolvedWaitMs == if !cfg.hasExplicitWait && ForReordering(r.profile) then 50 else cfg.maxWaitMs
    ensures CapIsValid(r.explicitCap) ==> r.resolvedCap == r.explicitCap
    ensures !CapIsValid(r.explicitCap) ==>
              r.resolvedCap == if cfg.hasExplicitCap || !ForReordering(r.profile) then cfg.cap
                               else if r.profile == FiberLte then 2048 else 1024
  {
    PresetCapsAreValid();
  }

  lemma PresetCapsAreValid()
    ensures CapIsValid(1024) && CapIsValid(2048)
  {
    BuiltinCapIsValid();
    assert BUILTIN_CAP == Pow2(10) && 2048 == 2 * Pow2(10) == Pow2(11) by {
      assert Pow2(5) == 32;
      assert Pow2(10) == 32 * Pow2(5);
    }
    CapIsValidIffPow2(2048);
  }

  /** When a flow of the reordering profiles waits at all: always, unless a zero was set for every flow and the rule
      does not say otherwise. */
  ghost predicate Waits(cfg: Config, key: FlowKey) {
    if cfg.rules == [] then cfg.maxWaitMs > 0
    else
      exists i: nat :: Decides(cfg.rules, key, i) &&
        (cfg.rules[i].explicitWaitMs > 0 || cfg.maxWaitMs > 0 || !cfg.hasExplicitWait)
  }

  /** The 5-tuple is one to reorder: there are no rules, or the deciding one has a profile made for it. */
  ghost predicate ToReorder(cfg: Config, key: FlowKey) {
    cfg.rules == [] || exists i: nat :: Decides(cfg.rules, key, i) && ForReordering(cfg.rules[i].profile)
  }

  lemma WaitsIff(cfg: Config, key: FlowKey)
    requires Resolved(cfg) && ToReorder(cfg, key)
    ensures FlowWaitMs(cfg, key) > 0 <==> Waits(cfg, key)
  {
    hide CapIsValid, MatchIndex;
    if cfg.rules != [] {
      var i: nat :| Decides(cfg.rules, key, i) && ForReordering(cfg.rules[i].profile);
      DecidesIs(cfg.rules, key, i);
      assert cfg.rules[i] in cfg.rules;
      forall j: nat | Decides(cfg.rules, key, j)
        ensures j == i
      {
        DecidesIs(cfg.rules, key, j);
      }
    }
  }

  /** default_udp is off at both ends. */
  lemma DefaultUdpIsOff(cfg: Config, key: FlowKey, i: nat)
    requires Resolved(cfg) && Decides(cfg.rules, key, i) && cfg.rules[i].profile == DefaultUdp
    ensures FlowWaitMs(cfg, key) == 0 && !ToReorder(cfg, key)
  {
    hide CapIsValid, MatchIndex;
    DecidesIs(cfg.rules, key, i);
    assert cfg.rules[i] in cfg.rules;
    forall j: nat | Decides(cfg.rules, key, j)
      ensures j == i
    {
      DecidesIs(cfg.rules, key, j);
    }
  }
}
