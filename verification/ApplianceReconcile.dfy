/** What one reconciliation does: exactly when it goes through, and what it leaves. */
module ApplianceReconcile {
  import opened Outcomes
  import opened ApplianceWorld
  import opened ApplianceVault

  /** The regions that have a transit key. */
  function Regions(w: World): set<string> {
    set name | name in w.keys && APPLIANCE_PREFIX <= name :: name[|APPLIANCE_PREFIX|..]
  }

  lemma {:induction false} RegionsOfMembers(names: seq<string>)
    ensures forall region :: region in RegionsOf(names) <==> KeyName(region) in names
  {
    if names != [] {
      RegionsOfMembers(names[1..]);
      if APPLIANCE_PREFIX <= names[0] {
        var region := names[0][|APPLIANCE_PREFIX|..];
        assert KeyName(region) == names[0];
      }
    }
  }

  lemma {:induction false} RegionsOfDistinct(names: seq<string>)
    requires Distinct(names)
    ensures Distinct(RegionsOf(names))
  {
    if names != [] {
      RegionsOfDistinct(names[1..]);
      RegionsOfMembers(names[1..]);
      if APPLIANCE_PREFIX <= names[0] {
        assert KeyName(names[0][|APPLIANCE_PREFIX|..]) == names[0];
      }
    }
  }

  lemma {:induction false} RetiredAmongMembers(existing: seq<string>, active: seq<string>, retired: seq<string>)
    ensures forall region ::
      (region in RetiredAmong(existing, active, retired)
       <==> region in existing && region !in active && region in retired)
    ensures Distinct(existing) ==> Distinct(RetiredAmong(existing, active, retired))
  {
    if existing != [] {
      RetiredAmongMembers(existing[1..], active, retired);
    }
  }

  // ---------- ensuring ----------

  function KeysWith(keys: map<string, bool>, regions: seq<string>): map<string, bool>
    decreases |regions|
  {
    if regions == [] then keys
    else KeysWith(if KeyName(regions[0]) in keys then keys else keys[KeyName(regions[0]) := false], regions[1..])
  }

  function PoliciesWith(policies: map<string, string>, regions: seq<string>): map<string, string>
    decreases |regions|
  {
    if regions == [] then policies
    else PoliciesWith(policies[KeyName(regions[0]) := PolicyText(KeyName(regions[0]))], regions[1..])
  }

  function KeyNames(regions: seq<string>): set<string> {
    set r | r in regions :: KeyName(r)
  }

  lemma {:induction false} KeysWithMembers(keys: map<string, bool>, regions: seq<string>)
    ensures KeysWith(keys, regions).Keys == keys.Keys + KeyNames(regions)
    ensures forall name | name in keys :: KeysWith(keys, regions)[name] == keys[name]
    decreases |regions|
  {
    if regions != [] {
      var name := KeyName(regions[0]);
      KeysWithMembers(if name in keys then keys else keys[name := false], regions[1..]);
      assert KeyNames(regions) == {name} + KeyNames(regions[1..]);
    }
  }

  lemma {:induction false} PoliciesWithMembers(policies: map<string, string>, regions: seq<string>)
    ensures var after := PoliciesWith(policies, regions);
      && after.Keys == policies.Keys + KeyNames(regions)
      && (forall name | name in after && name in KeyNames(regions) :: after[name] == PolicyText(name))
      && (forall name | name in after && name !in KeyNames(regions) :: after[name] == policies[name])
    decreases |regions|
  {
    if regions != [] {
      var name := KeyName(regions[0]);
      PoliciesWithMembers(policies[name := PolicyText(name)], regions[1..]);
      assert KeyNames(regions) == {name} + KeyNames(regions[1..]);
    }
  }

  lemma EnsureKeyEffect(w: World, region: string)
    ensures var run, name := EnsureKey(w, region), KeyName(region);
      && (run.result.Done? || Interrupted(run.result))
      && (run.result.Done? ==>
            && run.world.keys == (if name in w.keys then w.keys else w.keys[name := false])
            && run.world.policies == w.policies[name := PolicyText(name)]
            && run.world.roles == w.roles && run.world.params == w.params)
  {
  }

  lemma {:induction false} EnsureKeysEffect(w: World, regions: seq<string>)
    ensures var run := EnsureKeys(w, regions);
      && (run.result.Done? || Interrupted(run.result))
      && (run.result.Done? ==>
            && run.world.keys == KeysWith(w.keys, regions)
            && run.world.policies == PoliciesWith(w.policies, regions)
            && run.world.roles == w.roles && run.world.params == w.params)
    decreases |regions|
  {
    if regions != [] {
      EnsureKeyEffect(w, regions[0]);
      hide EnsureKey, KeyName, PolicyText;
      var first := EnsureKey(w, regions[0]);
      if first.result.Done? {
        EnsureKeysEffect(first.world, regions[1..]);
      }
    }
  }

  // ---------- retiring ----------

  lemma {:induction false} ListUnderEffect(w: World, prefix: string, names: seq<string>)
    ensures var run := ListUnder(w, prefix, names);
      && (run.result.Done? || Interrupted(run.result))
      && run.world == w.(live := run.world.live, script := run.world.script)
      && (run.result.Done? ==> Lists(run.result.value, Under(w.params, prefix)))
    decreases |w.script|
  {
    if w.script != [] && w.script[0].fate.Served? && w.script[0].more {
      ListUnderEffect(Call(w).0, prefix, names + w.script[0].listing);
    }
  }

  lemma MinusTwice(m: map<string, string>, a: seq<string>, b: seq<string>)
    ensures m - (set n | n in a) - (set n | n in b) == m - (set n | n in a + b)
  {
  }

  lemma {:induction false} DeleteBatchesEffect(w: World, names: seq<string>)
    ensures var run := DeleteBatches(w, names);
      && (run.result.Done? || Interrupted(run.result))
      && run.world.keys == w.keys && run.world.roles == w.roles && run.world.policies == w.policies
      && (run.result.Done? ==> run.world.params == w.params - (set name | name in names))
    decreases |names|
  {
    if names != [] {
      var batch := Min(10, |names|);
      var first := DeleteParameters(w, names[..batch]);
      if first.result.Done? {
        DeleteBatchesEffect(first.world, names[batch..]);
        assert names == names[..batch] + names[batch..];
        MinusTwice(w.params, names[..batch], names[batch..]);
      }
    }
  }

  /** The world once a region has been retired. */
  ghost predicate Without(w: World, w': World, region: string) {
    && w'.keys == w.keys - {KeyName(region)}
    && w'.policies == w.policies - {KeyName(region)}
    && w'.roles == w.roles - {KeyName(region)}
    && w'.params == w.params - Under(w.params, Prefix(region))
  }

  lemma DeletePrefixEffect(w: World, region: string)
    ensures var run := DeletePrefix(w, region);
      && (run.result.Done? || Interrupted(run.result))
      && run.world.keys == w.keys && run.world.roles == w.roles && run.world.policies == w.policies
      && (run.result.Done? ==> run.world.params == w.params - Under(w.params, Prefix(region)))
  {
    ListUnderEffect(w, Prefix(region), []);
    var listed := ListUnder(w, Prefix(region), []);
    if listed.result.Done? {
      DeleteBatchesEffect(listed.world, listed.result.value);
    }
  }

  /** The service cannot do what it is asked: there is no such key. */
  predicate NoKey<A>(w: World, region: string, result: Result<A>) {
    KeyName(region) !in w.keys && result == Failed(None, Rejected)
  }

  lemma RemoveTransitKeyEffect(w: World, region: string)
    ensures var run := RemoveTransitKey(w, region);
      && (run.result.Done? || Interrupted(run.result) || NoKey(w, region, run.result))
      && (run.result.Done? ==>
            && run.world.keys == w.keys - {KeyName(region)}
            && run.world.policies == w.policies - {KeyName(region)}
            && run.world.roles == w.roles && run.world.params == w.params)
  {
  }

  lemma RevokeRecordedEffect(w: World, region: string)
    ensures var run := RevokeRecorded(w, region);
      && (run.result.Done? || Interrupted(run.result))
      && run.world == w.(live := run.world.live, script := run.world.script)
  {
  }

  lemma ClearRegionEffect(w: World, region: string)
    ensures var run := ClearRegion(w, region);
      && (run.result.Done? || Interrupted(run.result) || NoKey(w, region, run.result))
      && (run.result.Done? ==> Without(w, run.world, region))
  {
    var unroled := DeleteRole(w, KeyName(region));
    if unroled.result.Done? {
      DeletePrefixEffect(unroled.world, region);
      var emptied := DeletePrefix(unroled.world, region);
      if emptied.result.Done? {
        RemoveTransitKeyEffect(emptied.world, region);
      }
    }
  }

  // ---------- the node is cut off first ----------

  /** Tokens only die. */
  predicate OnlyDying(w: World, w': World) {
    w'.live.Keys <= w.live.Keys
  }

  lemma {:induction false} DeleteBatchesKills(w: World, names: seq<string>)
    ensures OnlyDying(w, DeleteBatches(w, names).world)
    decreases |names|
  {
    if names != [] {
      var batch := Min(10, |names|);
      var first := DeleteParameters(w, names[..batch]);
      assert OnlyDying(w, first.world);
      if first.result.Done? {
        DeleteBatchesKills(first.world, names[batch..]);
      }
    }
  }

  lemma {:induction false} ListUnderKills(w: World, prefix: string, names: seq<string>)
    ensures OnlyDying(w, ListUnder(w, prefix, names).world)
    decreases |w.script|
  {
    if w.script != [] {
      var (w1, e) := Call(w);
      assert OnlyDying(w, w1);
      if e.fate.Served? && e.more {
        ListUnderKills(w1, prefix, names + e.listing);
      }
    }
  }

  lemma KeyCallsKill(w: World, name: string)
    ensures OnlyDying(w, DeletePolicy(w, name).world)
    ensures OnlyDying(w, AllowDeletion(w, name).world)
    ensures OnlyDying(w, DeleteKey(w, name).world)
  {
  }

  lemma RemoveTransitKeyKills(w: World, region: string)
    ensures OnlyDying(w, RemoveTransitKey(w, region).world)
  {
    hide DeletePolicy, AllowDeletion, DeleteKey, KeyName;
    var unruled := DeletePolicy(w, KeyName(region));
    KeyCallsKill(w, KeyName(region));
    var allowed := AllowDeletion(unruled.world, KeyName(region));
    KeyCallsKill(unruled.world, KeyName(region));
    KeyCallsKill(allowed.world, KeyName(region));
  }

  lemma ClearRegionKills(w: World, region: string)
    ensures OnlyDying(w, ClearRegion(w, region).world)
  {
    hide ListUnder, DeleteBatches, RemoveTransitKey;
    var unroled := DeleteRole(w, KeyName(region));
    assert OnlyDying(w, unroled.world);
    if unroled.result.Done? {
      var listed := ListUnder(unroled.world, Prefix(region), []);
      ListUnderKills(unroled.world, Prefix(region), []);
      if listed.result.Done? {
        DeleteBatchesKills(listed.world, listed.result.value);
        RemoveTransitKeyKills(DeleteBatches(listed.world, listed.result.value).world, region);
      }
    }
  }

  /** The node cannot unseal with the token on record: there is none, or it is dead. */
  predicate CutOff(w: World, w': World, region: string) {
    Recorded(w, region).Some? ==> Recorded(w, region).value !in w'.live
  }

  lemma RevokeRecordedCutsOff(w: World, region: string)
    ensures var run := RevokeRecorded(w, region); run.result.Done? ==> CutOff(w, run.world, region)
  {
  }

  /** However a retirement ends, and wherever it stops: once it has destroyed anything, the
      node is cut off. */
  lemma RetirementCutsOffFirst(w: World, region: string)
    ensures var w' := Retire(w, region).world;
      || CutOff(w, w', region)
      || (w'.roles == w.roles && w'.params == w.params && w'.policies == w.policies && w'.keys == w.keys)
  {
    RevokeRecordedEffect(w, region);
    RevokeRecordedCutsOff(w, region);
    var revoked := RevokeRecorded(w, region);
    if revoked.result.Done? {
      ClearRegionKills(revoked.world, region);
    }
    hide RevokeRecorded, ClearRegion, Recorded;
  }

  /** A retirement that comes through leaves the region without a live recorded token, role,
      parameters, policy and key, and takes nothing else; one that does not was interrupted,
      or there was no key to delete. */
  lemma RetireEffect(w: World, region: string)
    ensures var run := Retire(w, region);
      && (run.result.Done? || Interrupted(run.result) || NoKey(w, region, run.result))
      && (run.result.Done? ==> Without(w, run.world, region) && CutOff(w, run.world, region))
  {
    RevokeRecordedEffect(w, region);
    RevokeRecordedCutsOff(w, region);
    var revoked := RevokeRecorded(w, region);
    if revoked.result.Done? {
      ClearRegionEffect(revoked.world, region);
      ClearRegionKills(revoked.world, region);
    }
    hide RevokeRecorded, ClearRegion, Recorded;
  }

  /** The parameters of several regions. */
  function UnderAny(params: map<string, string>, regions: seq<string>): set<string> {
    set r, path | r in regions && path in Under(params, Prefix(r)) :: path
  }

  /** The world once several regions have been retired. */
  ghost predicate WithoutAll(w: World, w': World, regions: seq<string>) {
    && w'.keys == w.keys - KeyNames(regions)
    && w'.policies == w.policies - KeyNames(regions)
    && w'.roles == w.roles - KeyNames(regions)
    && w'.params == w.params - UnderAny(w.params, regions)
  }

  lemma WithoutAnother(w: World, w1: World, w2: World, regions: seq<string>)
    requires regions != [] && Without(w, w1, regions[0]) && WithoutAll(w1, w2, regions[1..])
    ensures WithoutAll(w, w2, regions)
  {
    assert regions == [regions[0]] + regions[1..];
    assert KeyNames(regions) == {KeyName(regions[0])} + KeyNames(regions[1..]);
    UnderAnother(w.params, w1.params, regions);
  }

  lemma UnderAnother(params: map<string, string>, left: map<string, string>, regions: seq<string>)
    requires regions != [] && left == params - Under(params, Prefix(regions[0]))
    ensures left - UnderAny(left, regions[1..]) == params - UnderAny(params, regions)
  {
    assert regions == [regions[0]] + regions[1..];
    forall path | path in params
      ensures path in UnderAny(params, regions)
        <==> path in Under(params, Prefix(regions[0])) || path in UnderAny(left, regions[1..])
    {
      if r :| r in regions && path in Under(params, Prefix(r)) {
        assert r == regions[0] || r in regions[1..];
        assert path in left ==> path in Under(left, Prefix(r));
      }
      if r :| r in regions[1..] && path in Under(left, Prefix(r)) {
        assert r in regions && path in Under(params, Prefix(r));
      }
      assert regions[0] in regions;
    }
  }

  lemma NothingUnder(params: map<string, string>, regions: seq<string>)
    ensures forall r | r in regions :: Under(params - UnderAny(params, regions), Prefix(r)) == {}
  {
    forall r | r in regions ensures Under(params - UnderAny(params, regions), Prefix(r)) == {} {
      assert Under(params, Prefix(r)) <= UnderAny(params, regions);
    }
  }

  lemma {:induction false} RetireAllEffect(w: World, regions: seq<string>)
    requires Distinct(regions) && forall r | r in regions :: KeyName(r) in w.keys
    ensures var run := RetireAll(w, regions);
      && (run.result.Done? || Interrupted(run.result))
      && (run.result.Done? ==> WithoutAll(w, run.world, regions))
    decreases |regions|
  {
    if regions != [] {
      RetireEffect(w, regions[0]);
      var first := Retire(w, regions[0]);
      if first.result.Done? {
        assert forall r | r in regions[1..] :: r != regions[0];
        RetireAllEffect(first.world, regions[1..]);
        var rest := RetireAll(first.world, regions[1..]);
        if rest.result.Done? {
          WithoutAnother(w, first.world, rest.world, regions);
        }
      }
    }
  }

  // ---------- the whole phase ----------

  /** The two lists are disjoint and account for every region that has a key. */
  ghost predicate Agree(regions: set<string>, active: seq<string>, retired: seq<string>) {
    && (forall r | r in active :: r !in retired)
    && (forall r | r in regions :: r in active || r in retired)
  }

  /** The active regions have their keys and policies, of the removed ones nothing is left,
      and everything else is as it was. */
  ghost predicate Reconciled(w: World, w': World, active: seq<string>, removed: seq<string>) {
    && Regions(w') == (set r | r in active)
    && (forall r :: r in removed <==> r in Regions(w) && r !in active)
    && (forall name | !(APPLIANCE_PREFIX <= name) :: name in w'.keys <==> name in w.keys)
    && (forall name | name in w'.keys && name in w.keys :: w'.keys[name] == w.keys[name])
    && (forall r | r in active :: KeyName(r) in w'.policies && w'.policies[KeyName(r)] == PolicyText(KeyName(r)))
    && w'.policies - KeyNames(active) == w.policies - KeyNames(active) - KeyNames(removed)
    && w'.roles == w.roles - KeyNames(removed)
    && w'.params == w.params - UnderAny(w.params, removed)
    && (forall r | r in removed ::
          && KeyName(r) !in w'.policies && KeyName(r) !in w'.roles
          && Under(w'.params, Prefix(r)) == {})
  }

  lemma NamesOfMembers(regions: seq<string>, region: string)
    ensures KeyName(region) in KeyNames(regions) <==> region in regions
  {
    if KeyName(region) in KeyNames(regions) {
      var r :| r in regions && KeyName(r) == KeyName(region);
      assert r == KeyName(r)[|APPLIANCE_PREFIX|..];
    }
  }

  lemma RegionsMember(w: World, region: string)
    ensures region in Regions(w) <==> KeyName(region) in w.keys
  {
    if region in Regions(w) {
      var name :| name in w.keys && APPLIANCE_PREFIX <= name && name[|APPLIANCE_PREFIX|..] == region;
      assert name == KeyName(region);
    }
  }

  lemma CarriedKeys(w: World, w': World, active: seq<string>, removed: seq<string>)
    requires w'.keys == KeysWith(w.keys, active) - KeyNames(removed)
    requires forall r :: r in removed <==> r in Regions(w) && r !in active
    ensures Regions(w') == (set r | r in active)
    ensures forall name | !(APPLIANCE_PREFIX <= name) :: name in w'.keys <==> name in w.keys
    ensures forall name | name in w'.keys && name in w.keys :: w'.keys[name] == w.keys[name]
  {
    KeysWithMembers(w.keys, active);
    forall r ensures r in Regions(w') <==> r in active {
      RegionsMember(w, r);
      RegionsMember(w', r);
      NamesOfMembers(active, r);
      NamesOfMembers(removed, r);
    }
  }

  lemma CarriedPolicies(w: World, w': World, active: seq<string>, removed: seq<string>)
    requires w'.policies == PoliciesWith(w.policies, active) - KeyNames(removed)
    requires forall r | r in removed :: r !in active
    ensures forall r | r in active :: KeyName(r) in w'.policies && w'.policies[KeyName(r)] == PolicyText(KeyName(r))
    ensures forall r | r in removed :: KeyName(r) !in w'.policies
    ensures w'.policies - KeyNames(active) == w.policies - KeyNames(active) - KeyNames(removed)
  {
    PoliciesWithMembers(w.policies, active);
    forall r | r in active || r in removed
      ensures r in active ==> KeyName(r) in w'.policies && w'.policies[KeyName(r)] == PolicyText(KeyName(r))
      ensures r in removed ==> KeyName(r) !in w'.policies
    {
      NamesOfMembers(active, r);
      NamesOfMembers(removed, r);
    }
  }

  lemma CarryOutEffect(w: World, plan: KeyPlan)
    requires Distinct(plan.remove)
    requires forall r :: r in plan.remove <==> r in Regions(w) && r !in plan.active
    ensures var run := CarryOut(w, plan);
      && (run.result.Done? || Interrupted(run.result))
      && (run.result.Done? ==> run.result.value == plan.remove && Reconciled(w, run.world, plan.active, plan.remove))
  {
    EnsureKeysEffect(w, plan.active);
    KeysWithMembers(w.keys, plan.active);
    var ensured := EnsureKeys(w, plan.active);
    if ensured.result.Done? {
      forall r | r in plan.remove ensures KeyName(r) in ensured.world.keys {
        RegionsMember(w, r);
      }
      RetireAllEffect(ensured.world, plan.remove);
      var done := RetireAll(ensured.world, plan.remove);
      if done.result.Done? {
        CarriedKeys(w, done.world, plan.active, plan.remove);
        CarriedPolicies(w, done.world, plan.active, plan.remove);
        NothingUnder(w.params, plan.remove);
        forall r | r in plan.remove ensures KeyName(r) !in done.world.roles {
          NamesOfMembers(plan.remove, r);
        }
      }
    }
  }

  /** Reconciliation goes through exactly when the lists agree with the keys there are,
      short of an interruption; a refusal changes nothing. */
  lemma ReconcileExact(w: World, active: seq<string>, retired: seq<string>)
    ensures var run := Reconcile(w, active, retired);
      && (Agree(Regions(w), active, retired) ==> run.result.Done? || Interrupted(run.result))
      && (!Agree(Regions(w), active, retired) ==>
            && (run.result == Failed(None, Declined) || Interrupted(run.result))
            && run.world == w.(live := run.world.live, script := run.world.script))
      && (run.result.Done? ==> Reconciled(w, run.world, active, run.result.value))
  {
    var listed := ListKeys(w);
    if listed.result.Done? {
      var names := listed.result.value;
      var existing := RegionsOf(names);
      RegionsOfMembers(names);
      RegionsOfDistinct(names);
      RetiredAmongMembers(existing, active, retired);
      forall r ensures r in existing <==> r in Regions(w) {
        RegionsMember(w, r);
        assert KeyName(r) in (set n | n in names) <==> KeyName(r) in names;
      }
      var plan := PlanKeys(existing, active, retired);
      if plan.Some? {
        assert Regions(listed.world) == Regions(w);
        CarryOutEffect(listed.world, plan.value);
      }
    }
  }
}
