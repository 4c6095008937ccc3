/** Edge factors: score multipliers triggered by failed checks, some of which cascade to others. */
module EdgeFactors {
  import opened SsamTypes
  import opened RealLemmas
  import opened Aggregation
  import opened Ordering
  import opened Confidence

  type FactorMap = map<string, EdgeFactorConfig>

  function FactorsById(fs: seq<EdgeFactorConfig>): FactorMap {
    if fs == [] then map[]
    else FactorsById(fs[..|fs| - 1])[fs[|fs| - 1].id := fs[|fs| - 1]]
  }

  function CustomFactors(fs: seq<EdgeFactorConfig>): map<string, real> {
    if fs == [] then map[]
    else CustomFactors(fs[..|fs| - 1])[fs[|fs| - 1].id := fs[|fs| - 1].factor]
  }

  method BuildCustomFactorMap(edgeFactors: seq<EdgeFactorConfig>) returns (result: map<string, real>)
    ensures result == CustomFactors(edgeFactors)
  {
    result := map[];
    for i := 0 to |edgeFactors|
      invariant result == CustomFactors(edgeFactors[..i])
    {
      result := result[edgeFactors[i].id := edgeFactors[i].factor];
      assert edgeFactors[..i + 1][..i] == edgeFactors[..i];
    }
    assert edgeFactors[..|edgeFactors|] == edgeFactors;
  }

  method IndexFactors(edgeFactors: seq<EdgeFactorConfig>) returns (efMap: FactorMap)
    ensures efMap == FactorsById(edgeFactors)
  {
    efMap := map[];
    for i := 0 to |edgeFactors|
      invariant efMap == FactorsById(edgeFactors[..i])
    {
      efMap := efMap[edgeFactors[i].id := edgeFactors[i]];
      assert edgeFactors[..i + 1][..i] == edgeFactors[..i];
    }
    assert edgeFactors[..|edgeFactors|] == edgeFactors;
  }

  /** The custom map built from a configuration repeats each factor's own value, so it overrides nothing. */
  lemma {:induction false} CustomRepeatsOwnFactor(fs: seq<EdgeFactorConfig>)
    ensures CustomFactors(fs).Keys == FactorsById(fs).Keys
    ensures forall id :: id in FactorsById(fs) ==>
            FactorsById(fs)[id].id == id && CustomFactors(fs)[id] == FactorsById(fs)[id].factor
  {
    if fs != [] {
      CustomRepeatsOwnFactor(fs[..|fs| - 1]);
    }
  }

  function LookUp(m: map<string, real>, k: string): Option<real> {
    if k in m then Some(m[k]) else None
  }

  // ----- triggers -----

  predicate FailedFor(c: CheckInput, trigger: string) {
    !c.passed && c.checkId == trigger
  }

  /** The confidence at which a trigger fired: the highest over its failed checks. */
  function TriggerConf(trigger: string, checks: seq<CheckInput>, policy: ConfidencePolicy): Option<real> {
    if checks == [] then None
    else
      var prev := TriggerConf(trigger, checks[..|checks| - 1], policy);
      var c := checks[|checks| - 1];
      if !FailedFor(c, trigger) then prev
      else
        var conf := EffectiveConfidence(c.confidence, policy);
        if prev.Some? && conf <= prev.value then prev else Some(conf)
  }

  ghost predicate IsTriggerMax(r: Option<real>, trigger: string, checks: seq<CheckInput>, policy: ConfidencePolicy) {
    && (r.None? ==> forall c :: c in checks ==> !FailedFor(c, trigger))
    && (r.Some? ==>
          && (exists c :: c in checks && FailedFor(c, trigger) && EffectiveConfidence(c.confidence, policy) == r.value)
          && (forall c :: c in checks && FailedFor(c, trigger) ==>
              EffectiveConfidence(c.confidence, policy) <= r.value))
  }

  /** A trigger's confidence is the maximum over the failed checks that match it. */
  lemma {:induction false} TriggerConfIsMax(trigger: string, checks: seq<CheckInput>, policy: ConfidencePolicy)
    ensures IsTriggerMax(TriggerConf(trigger, checks, policy), trigger, checks, policy)
  {
    if checks != [] {
      hide EffectiveConfidence;
      var n := |checks| - 1;
      TriggerConfIsMax(trigger, checks[..n], policy);
      assert checks == checks[..n] + [checks[n]];
      assert forall c :: c in checks <==> c in checks[..n] || c == checks[n];
    }
  }

  lemma TriggerMaxUnique(r: Option<real>, r': Option<real>, trigger: string, checks: seq<CheckInput>,
                         checks': seq<CheckInput>, policy: ConfidencePolicy)
    requires forall c :: c in checks <==> c in checks'
    requires IsTriggerMax(r, trigger, checks, policy) && IsTriggerMax(r', trigger, checks', policy)
    ensures r == r'
  {
    hide EffectiveConfidence;
  }

  /** The order in which checks are listed does not matter. */
  lemma TriggerConfPermutes(trigger: string, checks: seq<CheckInput>, checks': seq<CheckInput>,
                            policy: ConfidencePolicy)
    requires multiset(checks) == multiset(checks')
    ensures TriggerConf(trigger, checks, policy) == TriggerConf(trigger, checks', policy)
  {
    SameMembers(checks, checks');
    TriggerConfIsMax(trigger, checks, policy);
    TriggerConfIsMax(trigger, checks', policy);
    TriggerMaxUnique(TriggerConf(trigger, checks, policy), TriggerConf(trigger, checks', policy), trigger, checks,
                     checks', policy);
  }

  lemma TriggerConfRange(trigger: string, checks: seq<CheckInput>, policy: ConfidencePolicy)
    ensures TriggerConf(trigger, checks, policy).Some? ==>
      && 0.0 < TriggerConf(trigger, checks, policy).value <= 1.0
      && (!policy.enabled ==> TriggerConf(trigger, checks, policy).value == 1.0)
  {
    TriggerConfIsMax(trigger, checks, policy);
    var r := TriggerConf(trigger, checks, policy);
    if r.Some? {
      var c :| c in checks && FailedFor(c, trigger) && EffectiveConfidence(c.confidence, policy) == r.value;
      EffectiveConfidenceRange(c.confidence, policy);
    }
  }

  predicate AtLeast(w: Option<real>, b: Option<real>) {
    b.Some? ==> w.Some? && b.value <= w.value
  }

  /** Worse checks fire every trigger at least as confidently. */
  lemma {:induction false} TriggerConfMonotone(trigger: string, w: seq<CheckInput>, b: seq<CheckInput>,
                                               policy: ConfidencePolicy)
    requires WorseChecks(w, b)
    ensures AtLeast(TriggerConf(trigger, w, policy), TriggerConf(trigger, b, policy))
  {
    if w != [] {
      var n := |w| - 1;
      TriggerConfMonotone(trigger, w[..n], b[..n], policy);
      if FailedFor(b[n], trigger) { WorseConfidence(w[n], b[n], policy); }
      hide EffectiveConfidence;
    }
  }

  // ----- cascades -----

  /** Factor `id` is configured to lower `target` when triggered. */
  predicate IsSource(id: string, target: string, fm: FactorMap) {
    id in fm && fm[id].cascadeTo == target && target != "" && fm[id].cascadeValue > 0.0
  }

  /** ... and it is triggered. */
  predicate CascadesTo(id: string, target: string, fm: FactorMap, checks: seq<CheckInput>, policy: ConfidencePolicy) {
    IsSource(id, target, fm) && TriggerConf(fm[id].triggerCheck, checks, policy).Some?
  }

  /** `ov` holds, for exactly the targets some triggered factor cascades to, the value of one such
      factor. Walking the map in another order may leave another one's value. */
  ghost predicate ValidOverrides(ov: map<string, real>, fm: FactorMap, checks: seq<CheckInput>,
                                 policy: ConfidencePolicy) {
    && (forall t :: t in ov ==> exists id :: CascadesTo(id, t, fm, checks, policy) && fm[id].cascadeValue == ov[t])
    && (forall id, t :: CascadesTo(id, t, fm, checks, policy) ==> t in ov)
  }

  /** Each cascade target has one source. */
  ghost predicate UniqueSources(fm: FactorMap) {
    forall a, b, t :: IsSource(a, t, fm) && IsSource(b, t, fm) ==> a == b
  }

  ghost function SourceValue(t: string, fm: FactorMap, checks: seq<CheckInput>, policy: ConfidencePolicy): (v: real)
    requires exists id :: CascadesTo(id, t, fm, checks, policy)
    ensures exists id :: CascadesTo(id, t, fm, checks, policy) && fm[id].cascadeValue == v
  {
    var id :| CascadesTo(id, t, fm, checks, policy);
    fm[id].cascadeValue
  }

  function Targets(fm: FactorMap, checks: seq<CheckInput>, policy: ConfidencePolicy): set<string> {
    set id | id in fm && CascadesTo(id, fm[id].cascadeTo, fm, checks, policy) :: fm[id].cascadeTo
  }

  ghost function Overrides(fm: FactorMap, checks: seq<CheckInput>, policy: ConfidencePolicy): (ov: map<string, real>)
    ensures ValidOverrides(ov, fm, checks, policy)
  {
    map t | t in Targets(fm, checks, policy) :: SourceValue(t, fm, checks, policy)
  }

  // ----- walks of the map -----

  /** The overrides after one more factor. */
  function Overriding(before: map<string, real>, id: string, fm: FactorMap, checks: seq<CheckInput>,
                      policy: ConfidencePolicy)
    : map<string, real>
  {
    if id in fm && CascadesTo(id, fm[id].cascadeTo, fm, checks, policy)
    then before[fm[id].cascadeTo := fm[id].cascadeValue] else before
  }

  /** The overrides left by walking the map's factors in this order: a later source of a target wins. */
  function WalkOverrides(order: seq<string>, fm: FactorMap, checks: seq<CheckInput>, policy: ConfidencePolicy)
    : map<string, real>
  {
    if order == [] then map[]
    else
      Overriding(WalkOverrides(order[..|order| - 1], fm, checks, policy), order[|order| - 1], fm, checks, policy)
  }

  lemma WalkSnoc(order: seq<string>, id: string, fm: FactorMap, checks: seq<CheckInput>, policy: ConfidencePolicy)
    ensures WalkOverrides(order + [id], fm, checks, policy)
            == Overriding(WalkOverrides(order, fm, checks, policy), id, fm, checks, policy)
  {
    hide Overriding;
    assert (order + [id])[..|order|] == order;
  }

  /** Every factor of the map comes once. */
  ghost predicate IsWalk(order: seq<string>, fm: FactorMap) {
    Distinct(order) && Elements(order) == fm.Keys
  }

  /** `ov` holds values of triggered sources, among them one for every target of the walked ones. */
  ghost predicate HoldsSources(ov: map<string, real>, walked: seq<string>, fm: FactorMap, checks: seq<CheckInput>,
                               policy: ConfidencePolicy) {
    && (forall t :: t in ov ==> exists id :: CascadesTo(id, t, fm, checks, policy) && fm[id].cascadeValue == ov[t])
    && (forall id, t :: CascadesTo(id, t, fm, checks, policy) && id in walked ==> t in ov)
  }

  lemma SourceWalked(ov: map<string, real>, walked: seq<string>, id: string, fm: FactorMap, checks: seq<CheckInput>,
                     policy: ConfidencePolicy)
    requires HoldsSources(ov, walked, fm, checks, policy) && id in fm
             && CascadesTo(id, fm[id].cascadeTo, fm, checks, policy)
    ensures HoldsSources(ov[fm[id].cascadeTo := fm[id].cascadeValue], walked + [id], fm, checks, policy)
  {
    hide TriggerConf;
  }

  lemma {:induction false} WalkedSoFar(order: seq<string>, fm: FactorMap, checks: seq<CheckInput>,
                                       policy: ConfidencePolicy)
    ensures HoldsSources(WalkOverrides(order, fm, checks, policy), order, fm, checks, policy)
  {
    hide TriggerConf;
    if order != [] {
      var n := |order| - 1;
      var id := order[n];
      WalkedSoFar(order[..n], fm, checks, policy);
      assert order == order[..n] + [id];
      if id in fm && CascadesTo(id, fm[id].cascadeTo, fm, checks, policy) {
        hide CascadesTo, HoldsSources;
        SourceWalked(WalkOverrides(order[..n], fm, checks, policy), order[..n], id, fm, checks, policy);
      }
    }
  }

  /** Whatever the order, the overrides left are valid ... */
  lemma WalksAreValid(order: seq<string>, fm: FactorMap, checks: seq<CheckInput>, policy: ConfidencePolicy)
    requires IsWalk(order, fm)
    ensures ValidOverrides(WalkOverrides(order, fm, checks, policy), fm, checks, policy)
  {
    WalkedSoFar(order, fm, checks, policy);
    hide WalkOverrides, TriggerConf;
    assert forall id :: id in fm ==> id in Elements(order);
  }

  /** If factor `id` cascades at all, it is the one whose value `ov` holds. */
  predicate Chosen(id: string, ov: map<string, real>, fm: FactorMap, checks: seq<CheckInput>,
                   policy: ConfidencePolicy) {
    && id in fm && CascadesTo(id, fm[id].cascadeTo, fm, checks, policy)
    && LookUp(ov, fm[id].cascadeTo) == Some(fm[id].cascadeValue)
  }

  lemma {:induction false} ChosenLast(first: seq<string>, last: seq<string>, ov: map<string, real>, t: string,
                                      fm: FactorMap, checks: seq<CheckInput>, policy: ConfidencePolicy)
    requires forall id :: id in last ==> Chosen(id, ov, fm, checks, policy)
    requires exists id :: id in last && id in fm && fm[id].cascadeTo == t
    ensures LookUp(WalkOverrides(first + last, fm, checks, policy), t) == LookUp(ov, t)
  {
    hide CascadesTo;
    var n := |last| - 1;
    assert (first + last)[..|first + last| - 1] == first + last[..n];
    assert last == last[..n] + [last[n]];
    assert last[n] in last && Chosen(last[n], ov, fm, checks, policy);
    if fm[last[n]].cascadeTo != t {
      ChosenLast(first, last[..n], ov, t, fm, checks, policy);
    }
  }

  lemma DistinctParts(a: set<string>, b: set<string>)
    requires a !! b
    ensures Distinct(SortedListing(a) + SortedListing(b)) && Elements(SortedListing(a) + SortedListing(b)) == a + b
  {
    var x, y := SortedListing(a), SortedListing(b);
    assert Elements(x) == a && Elements(y) == b;
    hide SortedListing;
    forall i, j | 0 <= i < |x| && 0 <= j < |y| ensures x[i] != y[j] {
      assert x[i] in a && y[j] in b;
    }
    assert Distinct(x) && Distinct(y);
  }

  /** ... and every valid choice is left by some order: the chosen sources go last. */
  lemma EveryChoiceIsWalked(ov: map<string, real>, fm: FactorMap, checks: seq<CheckInput>, policy: ConfidencePolicy)
    requires ValidOverrides(ov, fm, checks, policy)
    ensures exists order :: IsWalk(order, fm) && WalkOverrides(order, fm, checks, policy) == ov
  {
    hide TriggerConf, WalkOverrides;
    var chosen := set id | id in fm && Chosen(id, ov, fm, checks, policy);
    var first, last := SortedListing(fm.Keys - chosen), SortedListing(chosen);
    assert Elements(last) == chosen;
    DistinctParts(fm.Keys - chosen, chosen);
    hide SortedListing;
    var order := first + last;
    assert IsWalk(order, fm);
    WalksAreValid(order, fm, checks, policy);
    var walked := WalkOverrides(order, fm, checks, policy);
    forall t ensures LookUp(walked, t) == LookUp(ov, t) {
      if t in ov {
        var id :| CascadesTo(id, t, fm, checks, policy) && fm[id].cascadeValue == ov[t];
        assert id in Elements(last);
        assert forall id' :: id' in last ==> id' in Elements(last);
        ChosenLast(first, last, ov, t, fm, checks, policy);
      }
    }
    SameLookUps(walked, ov);
  }

  lemma SameLookUps(a: map<string, real>, b: map<string, real>)
    requires forall t :: LookUp(a, t) == LookUp(b, t)
    ensures a == b
  {
    assert forall t :: t in a ==> LookUp(a, t) == LookUp(b, t);
    assert forall t :: t in b ==> LookUp(a, t) == LookUp(b, t);
  }

  // ----- one factor -----

  function Attenuate(factor: real, c: real): real {
    if 0.0 < factor < 1.0 then 1.0 - Times(1.0 - factor, c) else factor
  }

  /** A triggered factor is softened by its confidence; a cascade value replaces a milder one. */
  function ResultFor(cfg: EdgeFactorConfig, id: string, conf: Option<real>, custom: Option<real>,
                     override: Option<real>): (r: EdgeFactorResult)
    ensures r.id == id
  {
    var own := if conf.Some? && custom.Some? && 0.0 < custom.value < 1.0 then custom.value else cfg.factor;
    var softened := if conf.Some? then Attenuate(own, conf.value) else own;
    var factor := if override.Some? && override.value < softened then override.value else softened;
    var active := conf.Some? || override.Some?;
    EdgeFactorResult(id, cfg.name, factor, active && !cfg.cascadeOnly, if conf.Some? then conf.value else 0.0)
  }

  function ResultOf(id: string, fm: FactorMap, checks: seq<CheckInput>, custom: map<string, real>,
                    policy: ConfidencePolicy, ov: map<string, real>): EdgeFactorResult
    requires id in fm
  {
    ResultFor(fm[id], id, TriggerConf(fm[id].triggerCheck, checks, policy), LookUp(custom, id), LookUp(ov, id))
  }

  ghost function ListResults(fm: FactorMap, checks: seq<CheckInput>, custom: map<string, real>,
                             policy: ConfidencePolicy, ov: map<string, real>): seq<EdgeFactorResult> {
    var ids := SortedListing(fm.Keys);
    assert forall i :: 0 <= i < |ids| ==> ids[i] in Elements(ids);
    seq(|ids|, i requires 0 <= i < |ids| => ResultOf(ids[i], fm, checks, custom, policy, ov))
  }

  function IdOf(r: EdgeFactorResult): string {
    r.id
  }

  /** What a factor's entry says. Its own factor, or a custom one strictly between 0 and 1 once it is triggered, is
      softened by the trigger's confidence if it lies strictly between 0 and 1; a cascade value replaces it if lower;
      it is active if triggered or cascaded to, unless it only cascades. */
  lemma EntrySays(id: string, fm: FactorMap, checks: seq<CheckInput>, custom: map<string, real>,
                  policy: ConfidencePolicy, ov: map<string, real>)
    requires id in fm
    ensures var r, cfg := ResultOf(id, fm, checks, custom, policy, ov), fm[id];
            var fired := TriggerConf(cfg.triggerCheck, checks, policy);
            var own := if fired.Some? && id in custom && 0.0 < custom[id] < 1.0 then custom[id] else cfg.factor;
            var soft := if fired.Some? && 0.0 < own < 1.0 then 1.0 - (1.0 - own) * fired.value else own;
            && r.id == id && r.name == cfg.name
            && r.factor == (if id in ov && ov[id] < soft then ov[id] else soft)
            && (r.active <==> (fired.Some? || id in ov) && !cfg.cascadeOnly)
            && (fired.Some? ==> r.triggerConfidence == fired.value) && (fired.None? ==> r.triggerConfidence == 0.0)
  {
    hide TriggerConf;
    var cfg, fired := fm[id], TriggerConf(fm[id].triggerCheck, checks, policy);
    var own := if fired.Some? && id in custom && 0.0 < custom[id] < 1.0 then custom[id] else cfg.factor;
    if fired.Some? {
      SoftenedIs(own, fired.value);
      hide Attenuate;
      assert LookUp(custom, id) == if id in custom then Some(custom[id]) else None;
    }
  }

  lemma SoftenedIs(own: real, c: real)
    ensures Attenuate(own, c) == if 0.0 < own < 1.0 then 1.0 - (1.0 - own) * c else own
  {
  }

  // ----- the library routine -----

  ghost predicate TriggersOf(tc: map<string, real>, fm: FactorMap, checks: seq<CheckInput>, policy: ConfidencePolicy) {
    && tc.Keys <= fm.Keys
    && forall id :: id in fm ==> LookUp(tc, id) == TriggerConf(fm[id].triggerCheck, checks, policy)
  }

  /** The confidence on record for a factor after one more failed check. */
  function Recorded(cfg: EdgeFactorConfig, check: CheckInput, c: real, before: Option<real>): Option<real> {
    if cfg.triggerCheck == check.checkId && (before.None? || c > before.value) then Some(c) else before
  }

  /** One failed check raises, for every factor it triggers, the confidence on record. */
  method RecordTrigger(fm: FactorMap, check: CheckInput, c: real, before: map<string, real>)
    returns (triggerConf: map<string, real>)
    ensures triggerConf.Keys <= before.Keys + fm.Keys
    ensures forall id :: id in fm ==> LookUp(triggerConf, id) == Recorded(fm[id], check, c, LookUp(before, id))
  {
    triggerConf := before;
    var todo := fm.Keys;
    while todo != {}
      invariant todo <= fm.Keys && triggerConf.Keys <= before.Keys + fm.Keys
      invariant forall id :: id in todo ==> LookUp(triggerConf, id) == LookUp(before, id)
      invariant forall id :: id in fm && id !in todo ==>
                LookUp(triggerConf, id) == Recorded(fm[id], check, c, LookUp(before, id))
      decreases todo
    {
      var id :| id in todo;
      assert LookUp(triggerConf, id) == LookUp(before, id);
      if fm[id].triggerCheck == check.checkId {
        if id !in triggerConf || c > triggerConf[id] {
          triggerConf := triggerConf[id := c];
        }
      }
      todo := todo - {id};
    }
  }

  method CollectTriggers(fm: FactorMap, checks: seq<CheckInput>, policy: ConfidencePolicy)
    returns (triggerConf: map<string, real>)
    ensures TriggersOf(triggerConf, fm, checks, policy)
  {
    hide EffectiveConfidence;
    triggerConf := map[];
    for i := 0 to |checks|
      invariant TriggersOf(triggerConf, fm, checks[..i], policy)
    {
      assert checks[..i + 1][..i] == checks[..i];
      var check := checks[i];
      if check.passed {
        continue;
      }
      var c := EffectiveConfidence(check.confidence, policy);
      triggerConf := RecordTrigger(fm, check, c, triggerConf);
    }
    assert checks[..|checks|] == checks;
  }

  /** The map is walked in some order; which one is up to the runtime. */
  method CollectOverrides(fm: FactorMap, triggerConf: map<string, real>, ghost checks: seq<CheckInput>,
                          ghost policy: ConfidencePolicy)
    returns (ov: map<string, real>, ghost order: seq<string>)
    requires TriggersOf(triggerConf, fm, checks, policy)
    ensures IsWalk(order, fm) && ov == WalkOverrides(order, fm, checks, policy)
    ensures ValidOverrides(ov, fm, checks, policy)
  {
    hide TriggerConf;
    ov, order := map[], [];
    assert ov == WalkOverrides(order, fm, checks, policy);
    hide WalkOverrides;
    var todo := fm.Keys;
    while todo != {}
      invariant todo <= fm.Keys && Distinct(order) && Elements(order) == fm.Keys - todo
      invariant ov == WalkOverrides(order, fm, checks, policy)
      decreases todo
    {
      var id :| id in todo;
      assert LookUp(triggerConf, id) == TriggerConf(fm[id].triggerCheck, checks, policy);
      assert id !in Elements(order);
      WalkSnoc(order, id, fm, checks, policy);
      assert Elements(order + [id]) == Elements(order) + {id};
      if id in triggerConf && fm[id].cascadeTo != "" && fm[id].cascadeValue > 0.0 {
        ov := ov[fm[id].cascadeTo := fm[id].cascadeValue];
      }
      order := order + [id];
      todo := todo - {id};
    }
    WalksAreValid(order, fm, checks, policy);
  }

  method Soften(factor: real, c: real) returns (r: real)
    ensures r == Attenuate(factor, c)
  {
    r := factor;
    if factor > 0.0 && factor < 1.0 {
      r := 1.0 - (1.0 - factor) * c;
    }
  }

  method EvaluateFactor(cfg: EdgeFactorConfig, id: string, triggerConf: map<string, real>,
                        customFactors: map<string, real>, ov: map<string, real>) returns (r: EdgeFactorResult)
    ensures r == ResultFor(cfg, id, LookUp(triggerConf, id), LookUp(customFactors, id), LookUp(ov, id))
  {
    var factor := cfg.factor;
    var active := false;
    var tc := 0.0;
    if id in triggerConf {
      var c := triggerConf[id];
      active := true;
      tc := c;
      if id in customFactors && customFactors[id] > 0.0 && customFactors[id] < 1.0 {
        factor := customFactors[id];
      }
      factor := Soften(factor, c);
    }
    hide Attenuate;
    if id in ov {
      active := true;
      if ov[id] < factor {
        factor := ov[id];
      }
    }
    var activeInResult := active;
    if cfg.cascadeOnly && active {
      activeInResult := false;
    }
    r := EdgeFactorResult(id, cfg.name, factor, activeInResult, tc);
  }

  /** The result loop, over the map in any order. */
  method EvaluateAll(fm: FactorMap, triggerConf: map<string, real>, customFactors: map<string, real>,
                     ov: map<string, real>, ghost checks: seq<CheckInput>, ghost policy: ConfidencePolicy)
    returns (found: seq<EdgeFactorResult>)
    requires TriggersOf(triggerConf, fm, checks, policy)
    ensures forall r :: r in found ==> r.id in fm && r == ResultOf(r.id, fm, checks, customFactors, policy, ov)
    ensures Distinct(Keys(found, IdOf)) && Elements(Keys(found, IdOf)) == fm.Keys
  {
    hide ResultFor, TriggerConf;
    var todo := fm.Keys;
    found := [];
    while todo != {}
      invariant todo <= fm.Keys
      invariant forall r :: r in found ==> r.id in fm && r == ResultOf(r.id, fm, checks, customFactors, policy, ov)
      invariant Distinct(Keys(found, IdOf))
      invariant Elements(Keys(found, IdOf)) == fm.Keys - todo
      decreases todo
    {
      var id :| id in todo;
      var r := EvaluateFactor(fm[id], id, triggerConf, customFactors, ov);
      assert r == ResultOf(id, fm, checks, customFactors, policy, ov);
      assert id !in Elements(Keys(found, IdOf));
      KeysAppend(found, r, IdOf);
      assert Elements(Keys(found, IdOf) + [id]) == Elements(Keys(found, IdOf)) + {id};
      found := found + [r];
      todo := todo - {id};
    }
  }

  /** Whatever order the factor map is walked in, the result is the list in id order for one valid
      choice of overrides. */
  method ApplyEdgeFactorsToChecksPolicy(
    edgeFactors: seq<EdgeFactorConfig>, checks: seq<CheckInput>, customFactors: map<string, real>,
    policy: ConfidencePolicy)
    returns (results: seq<EdgeFactorResult>, ghost ov: map<string, real>)
    ensures ValidOverrides(ov, FactorsById(edgeFactors), checks, policy)
    ensures results == ListResults(FactorsById(edgeFactors), checks, customFactors, policy, ov)
    ensures SourcesAgree(FactorsById(edgeFactors), checks, customFactors, policy) ==>
              results == EdgeResults(edgeFactors, checks, customFactors, policy)
  {
    var fm := IndexFactors(edgeFactors);
    var triggerConf := CollectTriggers(fm, checks, policy);
    var cascadeOverrides, _ := CollectOverrides(fm, triggerConf, checks, policy);
    ov := cascadeOverrides;
    var found := EvaluateAll(fm, triggerConf, customFactors, cascadeOverrides, checks, policy);
    results := SortByKey(found, IdOf);
    hide ResultFor, TriggerConf, ValidOverrides;
    SameMembers(found, results);
    ListingIs(Keys(results, IdOf), fm.Keys);
    ghost var spec := ListResults(fm, checks, customFactors, policy, ov);
    forall i | 0 <= i < |results| ensures results[i] == spec[i] {
      assert results[i] in found;
      assert Keys(results, IdOf)[i] == SortedListing(fm.Keys)[i];
    }
    if SourcesAgree(fm, checks, customFactors, policy) {
      MapOrderIrrelevant(edgeFactors, checks, customFactors, policy, ov);
    }
  }

  // ----- independence of order -----

  ghost function EdgeResults(fs: seq<EdgeFactorConfig>, checks: seq<CheckInput>, custom: map<string, real>,
                             policy: ConfidencePolicy)
    : seq<EdgeFactorResult>
  {
    var fm := FactorsById(fs);
    ListResults(fm, checks, custom, policy, Overrides(fm, checks, policy))
  }

  /** When the triggered sources of each target agree, every walk of the map gives the same results. */
  lemma MapOrderIrrelevant(fs: seq<EdgeFactorConfig>, checks: seq<CheckInput>, custom: map<string, real>,
                           policy: ConfidencePolicy, ov: map<string, real>)
    requires SourcesAgree(FactorsById(fs), checks, custom, policy)
             && ValidOverrides(ov, FactorsById(fs), checks, policy)
    ensures ListResults(FactorsById(fs), checks, custom, policy, ov) == EdgeResults(fs, checks, custom, policy)
  {
    AgreeingResults(FactorsById(fs), checks, custom, policy, ov, Overrides(FactorsById(fs), checks, policy));
    hide SourcesAgree, ValidOverrides, ListResults, Overrides;
  }

  /** Permuting the checks changes neither the possible overrides nor the results under any of them. */
  lemma CheckOrderIrrelevant(fm: FactorMap, checks: seq<CheckInput>, checks': seq<CheckInput>,
                             custom: map<string, real>, policy: ConfidencePolicy, ov: map<string, real>)
    requires multiset(checks) == multiset(checks')
    ensures ValidOverrides(ov, fm, checks, policy) <==> ValidOverrides(ov, fm, checks', policy)
    ensures ListResults(fm, checks, custom, policy, ov) == ListResults(fm, checks', custom, policy, ov)
  {
    forall trigger: string ensures TriggerConf(trigger, checks, policy) == TriggerConf(trigger, checks', policy) {
      TriggerConfPermutes(trigger, checks, checks', policy);
    }
    hide TriggerConf, ResultFor, SortedListing;
    assert forall id, t :: CascadesTo(id, t, fm, checks, policy) <==> CascadesTo(id, t, fm, checks', policy);
    hide CascadesTo;
    var a, b := ListResults(fm, checks, custom, policy, ov), ListResults(fm, checks', custom, policy, ov);
    assert forall i :: 0 <= i < |a| ==> a[i] == b[i];
  }

  /** The factor a result would carry if nothing cascaded to it. */
  function Softened(id: string, fm: FactorMap, checks: seq<CheckInput>, custom: map<string, real>,
                    policy: ConfidencePolicy): real
    requires id in fm
  {
    ResultOf(id, fm, checks, custom, policy, map[]).factor
  }

  function Lower(v: real, s: real): real {
    if v < s then v else s
  }

  /** Any two triggered factors that cascade to the same configured one lower it equally far. */
  ghost predicate SourcesAgree(fm: FactorMap, checks: seq<CheckInput>, custom: map<string, real>,
                               policy: ConfidencePolicy) {
    forall a, b, t ::
      && a in fm && b in fm && t in fm
      && CascadesTo(a, t, fm, checks, policy) && CascadesTo(b, t, fm, checks, policy)
      ==> Lower(fm[a].cascadeValue, Softened(t, fm, checks, custom, policy))
          == Lower(fm[b].cascadeValue, Softened(t, fm, checks, custom, policy))
  }

  /** The results when the map is walked in this order. */
  ghost function WalkResults(order: seq<string>, fm: FactorMap, checks: seq<CheckInput>, custom: map<string, real>,
                             policy: ConfidencePolicy): seq<EdgeFactorResult> {
    ListResults(fm, checks, custom, policy, WalkOverrides(order, fm, checks, policy))
  }

  /** The results are the same for every order in which the map is walked. */
  ghost predicate OrderIrrelevant(fm: FactorMap, checks: seq<CheckInput>, custom: map<string, real>,
                                  policy: ConfidencePolicy) {
    forall order, order' :: IsWalk(order, fm) && IsWalk(order', fm) ==>
      WalkResults(order, fm, checks, custom, policy) == WalkResults(order', fm, checks, custom, policy)
  }

  /** An override lowers the softened factor to its value, if that is lower, and activates the result. */
  lemma OverriddenResult(id: string, fm: FactorMap, checks: seq<CheckInput>, custom: map<string, real>,
                         policy: ConfidencePolicy, ov: map<string, real>)
    requires id in fm && id in ov
    ensures var r, plain := ResultOf(id, fm, checks, custom, policy, ov),
                            ResultOf(id, fm, checks, custom, policy, map[]);
            r == plain.(factor := Lower(ov[id], Softened(id, fm, checks, custom, policy)),
                        active := !fm[id].cascadeOnly)
  {
    hide TriggerConf, Attenuate;
  }

  lemma DifferentLists(fm: FactorMap, checks: seq<CheckInput>, custom: map<string, real>, policy: ConfidencePolicy,
                       ov: map<string, real>, ov': map<string, real>, t: string)
    requires t in fm && ResultOf(t, fm, checks, custom, policy, ov) != ResultOf(t, fm, checks, custom, policy, ov')
    ensures ListResults(fm, checks, custom, policy, ov) != ListResults(fm, checks, custom, policy, ov')
  {
    hide ResultOf, SortedListing;
    var ids := SortedListing(fm.Keys);
    assert t in Elements(ids);
    var i :| 0 <= i < |ids| && ids[i] == t;
    var rs, rs' := ListResults(fm, checks, custom, policy, ov), ListResults(fm, checks, custom, policy, ov');
    assert rs[i] == ResultOf(ids[i], fm, checks, custom, policy, ov)
      && rs'[i] == ResultOf(ids[i], fm, checks, custom, policy, ov');
  }

  /** With different lowering sources for one target, some walk of the map gives other results. */
  lemma TwoSourcesDisagree(fm: FactorMap, a: string, b: string, t: string, checks: seq<CheckInput>,
                           custom: map<string, real>, policy: ConfidencePolicy)
    requires a in fm && b in fm && t in fm && CascadesTo(a, t, fm, checks, policy)
             && CascadesTo(b, t, fm, checks, policy)
    requires Lower(fm[a].cascadeValue, Softened(t, fm, checks, custom, policy))
             != Lower(fm[b].cascadeValue, Softened(t, fm, checks, custom, policy))
    ensures exists order, order' :: IsWalk(order, fm) && IsWalk(order', fm)
              && WalkResults(order, fm, checks, custom, policy) != WalkResults(order', fm, checks, custom, policy)
  {
    hide ResultOf, Softened, Lower, ListResults, ValidOverrides, Overrides, CascadesTo, WalkOverrides, IsWalk;
    var o := Overrides(fm, checks, policy);
    OverrideWith(a, t, o, fm, checks, policy);
    OverrideWith(b, t, o, fm, checks, policy);
    var ov, ov' := o[t := fm[a].cascadeValue], o[t := fm[b].cascadeValue];
    OverriddenResult(t, fm, checks, custom, policy, ov);
    OverriddenResult(t, fm, checks, custom, policy, ov');
    DifferentLists(fm, checks, custom, policy, ov, ov', t);
    EveryChoiceIsWalked(ov, fm, checks, policy);
    EveryChoiceIsWalked(ov', fm, checks, policy);
    var order :| IsWalk(order, fm) && WalkOverrides(order, fm, checks, policy) == ov;
    var order' :| IsWalk(order', fm) && WalkOverrides(order', fm, checks, policy) == ov';
    assert WalkResults(order, fm, checks, custom, policy) != WalkResults(order', fm, checks, custom, policy);
  }

  lemma AgreeingOverrides(fm: FactorMap, checks: seq<CheckInput>, custom: map<string, real>, policy: ConfidencePolicy,
                          ov: map<string, real>, ov': map<string, real>, id: string)
    requires SourcesAgree(fm, checks, custom, policy) && id in fm
    requires ValidOverrides(ov, fm, checks, policy) && ValidOverrides(ov', fm, checks, policy)
    ensures ResultOf(id, fm, checks, custom, policy, ov) == ResultOf(id, fm, checks, custom, policy, ov')
  {
    hide TriggerConf, Softened, Lower, ResultFor;
    if id in ov {
      var a :| CascadesTo(a, id, fm, checks, policy) && fm[a].cascadeValue == ov[id];
      var b :| CascadesTo(b, id, fm, checks, policy) && fm[b].cascadeValue == ov'[id];
      OverriddenResult(id, fm, checks, custom, policy, ov);
      OverriddenResult(id, fm, checks, custom, policy, ov');
    } else {
      assert forall b :: !CascadesTo(b, id, fm, checks, policy);
      assert id !in ov';
    }
  }

  lemma AgreeingResults(fm: FactorMap, checks: seq<CheckInput>, custom: map<string, real>, policy: ConfidencePolicy,
                        ov: map<string, real>, ov': map<string, real>)
    requires SourcesAgree(fm, checks, custom, policy)
    requires ValidOverrides(ov, fm, checks, policy) && ValidOverrides(ov', fm, checks, policy)
    ensures ListResults(fm, checks, custom, policy, ov) == ListResults(fm, checks, custom, policy, ov')
  {
    hide ValidOverrides, ResultOf, SortedListing, SourcesAgree;
    var ids := SortedListing(fm.Keys);
    assert forall i :: 0 <= i < |ids| ==> ids[i] in Elements(ids);
    forall i | 0 <= i < |ids|
      ensures ResultOf(ids[i], fm, checks, custom, policy, ov) == ResultOf(ids[i], fm, checks, custom, policy, ov')
    {
      AgreeingOverrides(fm, checks, custom, policy, ov, ov', ids[i]);
    }
  }

  /** The results do not depend on map order if and only if the triggered sources of each target agree. */
  lemma OrderIrrelevantIff(fm: FactorMap, checks: seq<CheckInput>, custom: map<string, real>, policy: ConfidencePolicy)
    ensures OrderIrrelevant(fm, checks, custom, policy) <==> SourcesAgree(fm, checks, custom, policy)
  {
    hide ValidOverrides, ListResults, CascadesTo, Softened, Lower, WalkOverrides, IsWalk;
    if SourcesAgree(fm, checks, custom, policy) {
      forall order, order' | IsWalk(order, fm) && IsWalk(order', fm)
        ensures WalkResults(order, fm, checks, custom, policy) == WalkResults(order', fm, checks, custom, policy)
      {
        WalksAreValid(order, fm, checks, policy);
        WalksAreValid(order', fm, checks, policy);
        AgreeingResults(fm, checks, custom, policy, WalkOverrides(order, fm, checks, policy),
          WalkOverrides(order', fm, checks, policy));
      }
    } else {
      hide WalkResults;
      var a, b, t :| && a in fm && b in fm && t in fm
                     && CascadesTo(a, t, fm, checks, policy) && CascadesTo(b, t, fm, checks, policy)
                     && Lower(fm[a].cascadeValue, Softened(t, fm, checks, custom, policy))
                        != Lower(fm[b].cascadeValue, Softened(t, fm, checks, custom, policy));
      TwoSourcesDisagree(fm, a, b, t, checks, custom, policy);
    }
  }

  /** One source per target is enough, whatever is triggered. */
  lemma UniqueSourcesAgree(fm: FactorMap, checks: seq<CheckInput>, custom: map<string, real>, policy: ConfidencePolicy)
    requires UniqueSources(fm)
    ensures SourcesAgree(fm, checks, custom, policy)
  {
    hide TriggerConf, Softened, Lower;
  }

  lemma OverrideWith(a: string, t: string, o: map<string, real>, fm: FactorMap, checks: seq<CheckInput>,
                     policy: ConfidencePolicy)
    requires ValidOverrides(o, fm, checks, policy) && a in fm && CascadesTo(a, t, fm, checks, policy)
    ensures ValidOverrides(o[t := fm[a].cascadeValue], fm, checks, policy)
  {
    hide TriggerConf;
  }

  // ----- monotonicity -----

  lemma AttenuateRange(f: real, c: real)
    requires 0.0 < c <= 1.0
    ensures 0.0 < f < 1.0 ==> f <= Attenuate(f, c) < 1.0
    ensures 0.0 < f < 1.0 && c < 1.0 ==> f < Attenuate(f, c)
    ensures c == 1.0 ==> Attenuate(f, c) == f
    ensures !(0.0 < f < 1.0) ==> Attenuate(f, c) == f
  {
    if 0.0 < f < 1.0 {
      TimesShrinks(1.0 - f, c);
      hide Times;
    }
  }

  lemma AttenuateMonotone(f: real, c: real, c': real)
    requires 0.0 < c <= c' <= 1.0
    ensures Attenuate(f, c') <= Attenuate(f, c)
  {
    if 0.0 < f < 1.0 {
      TimesMonotone(1.0 - f, c, c');
      hide Times;
    }
  }

  predicate ConfOk(c: Option<real>) {
    c.Some? ==> 0.0 < c.value <= 1.0
  }

  lemma TriggeredResult(cfg: EdgeFactorConfig, id: string, c: real)
    requires 0.0 < cfg.factor < 1.0 && 0.0 < c <= 1.0
    ensures var r := ResultFor(cfg, id, Some(c), Some(cfg.factor), None);
            && r.factor == 1.0 - (1.0 - cfg.factor) * c && r.triggerConfidence == c
            && Contribution(r) == if cfg.cascadeOnly then 1.0 else r.factor
  {
    AttenuateRange(cfg.factor, c);
    assert Times(1.0 - cfg.factor, c) == (1.0 - cfg.factor) * c;
  }

  lemma NotOverridden(ov: map<string, real>, id: string, fm: FactorMap, checks: seq<CheckInput>,
                      policy: ConfidencePolicy)
    requires ValidOverrides(ov, fm, checks, policy)
    requires forall s :: !CascadesTo(s, id, fm, checks, policy)
    ensures LookUp(ov, id) == None
  {
    hide CascadesTo;
  }

  /** In the results of a configuration, whatever the map order: a factor strictly between 0 and 1, triggered at
      confidence c, to which nothing cascades, has one entry, which multiplies the score by 1 - (1 - f) c. */
  lemma TriggeredFactor(fs: seq<EdgeFactorConfig>, checks: seq<CheckInput>, policy: ConfidencePolicy,
                        ov: map<string, real>, id: string, c: real)
    requires ValidOverrides(ov, FactorsById(fs), checks, policy) && id in FactorsById(fs)
    requires 0.0 < FactorsById(fs)[id].factor < 1.0
    requires TriggerConf(FactorsById(fs)[id].triggerCheck, checks, policy) == Some(c)
    requires forall s :: !CascadesTo(s, id, FactorsById(fs), checks, policy)
    ensures var rs := ListResults(FactorsById(fs), checks, CustomFactors(fs), policy, ov);
            var cfg := FactorsById(fs)[id];
            && (exists i :: 0 <= i < |rs| && rs[i].id == id)
            && forall i :: 0 <= i < |rs| && rs[i].id == id ==>
                 && rs[i].factor == 1.0 - (1.0 - cfg.factor) * c && rs[i].triggerConfidence == c
                 && Contribution(rs[i]) == if cfg.cascadeOnly then 1.0 else rs[i].factor
  {
    hide TriggerConf, SortedListing, FactorsById, CustomFactors, ResultFor, Contribution, ValidOverrides, CascadesTo;
    var fm := FactorsById(fs);
    CustomRepeatsOwnFactor(fs);
    TriggerConfRange(fm[id].triggerCheck, checks, policy);
    NotOverridden(ov, id, fm, checks, policy);
    TriggeredResult(fm[id], id, c);
    var rs, ids := ListResults(fm, checks, CustomFactors(fs), policy, ov), SortedListing(fm.Keys);
    var entry := ResultOf(id, fm, checks, CustomFactors(fs), policy, ov);
    assert entry == ResultFor(fm[id], id, Some(c), Some(fm[id].factor), None);
    assert id in Elements(ids);
    var i :| 0 <= i < |ids| && ids[i] == id;
    assert rs[i] == entry;
    forall j | 0 <= j < |rs| && rs[j].id == id ensures rs[j] == entry {
      assert ids[j] == id;
    }
  }

  /** The override is no milder than the factor it acts on, or acts on nothing that counts. */
  predicate OverrideSafe(cfg: EdgeFactorConfig, v: real) {
    v <= cfg.factor || !(0.0 < cfg.factor < 1.0) || cfg.cascadeOnly
  }

  /** More confident triggers and more overrides never raise a factor's contribution, provided the override is
      safe, or every trigger is fully trusted, or the override comes with a trigger of the factor's own. */
  lemma ContributionMonotone(cfg: EdgeFactorConfig, id: string, cw: Option<real>, cb: Option<real>, ow: Option<real>,
                             ob: Option<real>)
    requires ConfOk(cw) && ConfOk(cb) && AtLeast(cw, cb)
    requires ob.Some? ==> ow == ob
    requires ow.Some? ==> ow.value > 0.0 && (OverrideSafe(cfg, ow.value) || (cw.Some? ==> cw.value == 1.0)
                                             || (ob.Some? ==> cb.Some?))
    ensures Contribution(ResultFor(cfg, id, cw, Some(cfg.factor), ow))
            <= Contribution(ResultFor(cfg, id, cb, Some(cfg.factor), ob))
  {
    hide Attenuate;
    if cw.Some? { AttenuateRange(cfg.factor, cw.value); }
    if cb.Some? {
      AttenuateRange(cfg.factor, cb.value);
      AttenuateMonotone(cfg.factor, cb.value, cw.value);
    }
  }

  /** Exactly when triggering a factor already under an override makes it milder: the trigger is not
      fully trusted and the override exceeds the factor. */
  lemma TriggerUnderOverrideRaisesIff(cfg: EdgeFactorConfig, id: string, c: real, v: real)
    requires 0.0 < c <= 1.0 && v > 0.0
    ensures Contribution(ResultFor(cfg, id, Some(c), Some(cfg.factor), Some(v)))
            > Contribution(ResultFor(cfg, id, None, Some(cfg.factor), Some(v)))
            <==> c < 1.0 && !OverrideSafe(cfg, v)
  {
    hide Attenuate;
    AttenuateRange(cfg.factor, c);
  }

  /** The cascade from `s` cannot raise its target's contribution: it is safe, or both have one trigger check. */
  predicate SourceSafe(s: string, fm: FactorMap)
    requires s in fm && fm[s].cascadeTo in fm
  {
    var t := fm[s].cascadeTo;
    OverrideSafe(fm[t], fm[s].cascadeValue) || fm[s].triggerCheck == fm[t].triggerCheck
  }

  /** Confidence is off, or every cascade between configured factors is safe. */
  predicate CascadeSafe(fm: FactorMap, policy: ConfidencePolicy) {
    policy.enabled ==>
      forall s :: s in fm && fm[s].cascadeValue > 0.0 && fm[s].cascadeTo != "" && fm[s].cascadeTo in fm ==>
        SourceSafe(s, fm)
  }

  lemma OverridesGrow(fm: FactorMap, w: seq<CheckInput>, b: seq<CheckInput>, policy: ConfidencePolicy, t: string)
    requires UniqueSources(fm) && WorseChecks(w, b)
    ensures var ow, ob := LookUp(Overrides(fm, w, policy), t), LookUp(Overrides(fm, b, policy), t);
            && (ob.Some? ==> ow == ob)
            && (ow.Some? ==> ow.value > 0.0)
            && (ow.Some? && CascadeSafe(fm, policy) && policy.enabled && t in fm ==>
                  OverrideSafe(fm[t], ow.value) || (ob.Some? ==> TriggerConf(fm[t].triggerCheck, b, policy).Some?))
  {
    hide Overrides, Targets, TriggerConf, OverrideSafe;
    var ow, ob := Overrides(fm, w, policy), Overrides(fm, b, policy);
    if t in ob {
      var id :| CascadesTo(id, t, fm, b, policy) && fm[id].cascadeValue == ob[t];
      TriggerConfMonotone(fm[id].triggerCheck, w, b, policy);
      assert CascadesTo(id, t, fm, w, policy);
    }
    if t in ow {
      var id :| CascadesTo(id, t, fm, w, policy) && fm[id].cascadeValue == ow[t];
      assert CascadeSafe(fm, policy) && policy.enabled && t in fm ==> SourceSafe(id, fm);
    }
  }

  ghost predicate ContributionsFall(fs: seq<EdgeFactorConfig>, w: seq<CheckInput>, b: seq<CheckInput>,
                                    policy: ConfidencePolicy) {
    var rw, rb := EdgeResults(fs, w, CustomFactors(fs), policy), EdgeResults(fs, b, CustomFactors(fs), policy);
    forall i :: 0 <= i < |rw| ==> Contribution(rw[i]) <= Contribution(rb[i])
  }

  lemma ContributionsFallWhenSafe(fs: seq<EdgeFactorConfig>, w: seq<CheckInput>, b: seq<CheckInput>,
                                  policy: ConfidencePolicy)
    requires WorseChecks(w, b)
    requires UniqueSources(FactorsById(fs)) && CascadeSafe(FactorsById(fs), policy)
    ensures ContributionsFall(fs, w, b, policy)
  {
    var fm, custom := FactorsById(fs), CustomFactors(fs);
    var rw, rb := EdgeResults(fs, w, custom, policy), EdgeResults(fs, b, custom, policy);
    CustomRepeatsOwnFactor(fs);
    var ids := SortedListing(fm.Keys);
    forall i | 0 <= i < |rw| ensures Contribution(rw[i]) <= Contribution(rb[i]) {
      var id := ids[i];
      assert id in Elements(ids);
      var trigger := fm[id].triggerCheck;
      hide TriggerConf, Contribution, ResultFor, Overrides, CascadeSafe, UniqueSources;
      TriggerConfMonotone(trigger, w, b, policy);
      TriggerConfRange(trigger, w, policy);
      TriggerConfRange(trigger, b, policy);
      OverridesGrow(fm, w, b, policy, id);
      ContributionMonotone(fm[id], id, TriggerConf(trigger, w, policy), TriggerConf(trigger, b, policy),
        LookUp(Overrides(fm, w, policy), id), LookUp(Overrides(fm, b, policy), id));
    }
  }

  /** One check fires a source at full confidence; another, firing the target, passes or fails at half confidence. */
  function SourceAndTarget(source: string, target: string, targetPassed: bool): seq<CheckInput> {
    [CheckInput(source, "", false, 0.0, 1.0), CheckInput(target, "", targetPassed, 0.0, 0.5)]
  }

  lemma TwoTriggers(source: string, target: string, trigger: string, passed: bool, policy: ConfidencePolicy)
    requires source != target
    ensures TriggerConf(trigger, SourceAndTarget(source, target, passed), policy) ==
            if trigger == source then Some(EffectiveConfidence(1.0, policy))
            else if trigger == target && !passed then Some(EffectiveConfidence(0.5, policy)) else None
  {
    var cs := SourceAndTarget(source, target, passed);
    var one := [cs[0]];
    assert one[..0] == [] && cs[..1] == one;
    hide EffectiveConfidence;
    assert TriggerConf(trigger, one, policy)
           == if trigger == source then Some(EffectiveConfidence(1.0, policy)) else None;
    assert cs[1].checkId == target && cs[1].confidence == 0.5 && cs[1].passed == passed;
  }

  lemma HalfIsNotFull(policy: ConfidencePolicy)
    requires policy.enabled
    ensures EffectiveConfidence(0.5, policy) < 1.0
  {
    var c := NormalizeConfidence(0.5, policy);
    if IsBetaBayes(policy) {
      ShrinkTowardsOne(c, PriorStrength(policy));
      hide BetaShrinkConfidence;
    }
  }

  lemma OnlySourceOverrides(fm: FactorMap, s: string, checks: seq<CheckInput>, policy: ConfidencePolicy)
    requires UniqueSources(fm) && s in fm && CascadesTo(s, fm[s].cascadeTo, fm, checks, policy)
    ensures LookUp(Overrides(fm, checks, policy), fm[s].cascadeTo) == Some(fm[s].cascadeValue)
  {
    hide Overrides, TriggerConf, Targets;
    var ov, t := Overrides(fm, checks, policy), fm[s].cascadeTo;
    assert t in ov;
    var a :| CascadesTo(a, t, fm, checks, policy) && fm[a].cascadeValue == ov[t];
  }

  /** An unsafe cascade: failing the target's own check at half confidence raises its contribution. */
  lemma UnsafeCascadeRaises(fs: seq<EdgeFactorConfig>, s: string, policy: ConfidencePolicy)
    requires policy.enabled && UniqueSources(FactorsById(fs))
    requires var fm := FactorsById(fs);
             s in fm && IsSource(s, fm[s].cascadeTo, fm) && fm[s].cascadeTo in fm && !SourceSafe(s, fm)
    ensures var fm := FactorsById(fs);
            var source, target := fm[s].triggerCheck, fm[fm[s].cascadeTo].triggerCheck;
            && WorseChecks(SourceAndTarget(source, target, false), SourceAndTarget(source, target, true))
            && !ContributionsFall(fs, SourceAndTarget(source, target, false), SourceAndTarget(source, target, true),
                                  policy)
  {
    var fm, custom := FactorsById(fs), CustomFactors(fs);
    var t := fm[s].cascadeTo;
    var source, target := fm[s].triggerCheck, fm[t].triggerCheck;
    var w, b := SourceAndTarget(source, target, false), SourceAndTarget(source, target, true);
    TwoTriggers(source, target, source, false, policy);
    TwoTriggers(source, target, source, true, policy);
    TwoTriggers(source, target, target, false, policy);
    TwoTriggers(source, target, target, true, policy);
    HalfIsNotFull(policy);
    EffectiveConfidenceRange(0.5, policy);
    assert WorseChecks(w, b);
    hide TriggerConf, EffectiveConfidence, Overrides, SourceAndTarget, Contribution;
    OnlySourceOverrides(fm, s, w, policy);
    OnlySourceOverrides(fm, s, b, policy);
    CustomRepeatsOwnFactor(fs);
    hide ResultFor, SortedListing, UniqueSources, FactorsById, CustomFactors;
    TriggerUnderOverrideRaisesIff(fm[t], t, EffectiveConfidence(0.5, policy), fm[s].cascadeValue);
    assert t in Elements(SortedListing(fm.Keys));
    var i :| 0 <= i < |SortedListing(fm.Keys)| && SortedListing(fm.Keys)[i] == t;
    assert Contribution(EdgeResults(fs, w, custom, policy)[i]) > Contribution(EdgeResults(fs, b, custom, policy)[i]);
  }

  /** With one source per target, no factor's contribution ever rises on worse checks if and only if every cascade
      is safe. */
  lemma ContributionsFallIff(fs: seq<EdgeFactorConfig>, policy: ConfidencePolicy)
    requires UniqueSources(FactorsById(fs))
    ensures (forall w, b :: WorseChecks(w, b) ==> ContributionsFall(fs, w, b, policy))
            <==> CascadeSafe(FactorsById(fs), policy)
  {
    hide WorseChecks, ContributionsFall, UniqueSources, FactorsById, SourceSafe, SourceAndTarget;
    if CascadeSafe(FactorsById(fs), policy) {
      forall w, b | WorseChecks(w, b) ensures ContributionsFall(fs, w, b, policy) {
        ContributionsFallWhenSafe(fs, w, b, policy);
      }
    } else {
      var fm := FactorsById(fs);
      var s :| s in fm && fm[s].cascadeValue > 0.0 && fm[s].cascadeTo != "" && fm[s].cascadeTo in fm
        && !SourceSafe(s, fm);
      UnsafeCascadeRaises(fs, s, policy);
    }
  }

  /** Worse checks never raise the combined edge-factor multiplier. */
  lemma EdgeProductMonotone(fs: seq<EdgeFactorConfig>, w: seq<CheckInput>, b: seq<CheckInput>, policy: ConfidencePolicy)
    requires WorseChecks(w, b)
    requires UniqueSources(FactorsById(fs)) && CascadeSafe(FactorsById(fs), policy)
    ensures ProductChain(EdgeResults(fs, w, CustomFactors(fs), policy))
            <= ProductChain(EdgeResults(fs, b, CustomFactors(fs), policy))
  {
    ContributionsFallWhenSafe(fs, w, b, policy);
    assert |EdgeResults(fs, w, CustomFactors(fs), policy)| == |EdgeResults(fs, b, CustomFactors(fs), policy)|;
    hide UniqueSources, CascadeSafe, ListResults, EdgeResults;
    ProductChainMonotone(EdgeResults(fs, w, CustomFactors(fs), policy), EdgeResults(fs, b, CustomFactors(fs), policy));
  }

  // ----- the shipped configuration -----

  const DEFAULT_EDGE_FACTORS: seq<EdgeFactorConfig> := [
    EdgeFactorConfig("EF-002FA", "2FA Missing", 0.85, "EF-001", "", 0.0, false),
    EdgeFactorConfig("EF-SYNCOOKIE", "SYN Cookie Disabled", 0.75, "RS-005", "", 0.0, false),
    EdgeFactorConfig("EF-SELINUX", "SELinux Disabled", 0.80, "OT-005", "", 0.0, false),
    EdgeFactorConfig("EF-APPARMOR", "AppArmor Disabled", 0.82, "OT-005", "", 0.0, false),
    EdgeFactorConfig("EF-NO-SIEM", "SIEM Integration Missing", 0.90, "RS-007", "", 0.0, false),
    EdgeFactorConfig("EF-NO-IDS", "IDS/IPS Missing", 0.88, "RS-006", "", 0.0, false),
    EdgeFactorConfig("EF-3FA", "3FA Not Met", 0.82, "EF-002", "EF-002FA", 0.82, true)]

  lemma {:induction false} MappedFactorIsListed(fs: seq<EdgeFactorConfig>, id: string)
    requires id in FactorsById(fs)
    ensures FactorsById(fs)[id] in fs && FactorsById(fs)[id].id == id
  {
    var n := |fs| - 1;
    if fs[n].id != id {
      MappedFactorIsListed(fs[..n], id);
      assert fs == fs[..n] + [fs[n]];
    }
  }

  /** The shipped factors have one cascade, with one source, and it is safe under every policy. */
  lemma DefaultsAreSafe(policy: ConfidencePolicy)
    ensures UniqueSources(FactorsById(DEFAULT_EDGE_FACTORS)) && CascadeSafe(FactorsById(DEFAULT_EDGE_FACTORS), policy)
  {
    var fm := FactorsById(DEFAULT_EDGE_FACTORS);
    hide FactorsById;
    forall s | s in fm && fm[s].cascadeTo != ""
      ensures s == "EF-3FA" && fm[s].cascadeTo == "EF-002FA" && fm[s].cascadeValue == 0.82
    {
      MappedFactorIsListed(DEFAULT_EDGE_FACTORS, s);
    }
    if "EF-002FA" in fm {
      MappedFactorIsListed(DEFAULT_EDGE_FACTORS, "EF-002FA");
      assert fm["EF-002FA"].factor == 0.85;
    }
  }
}
