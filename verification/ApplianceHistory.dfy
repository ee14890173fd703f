/** Whole histories of appliance-token, vault, onboard and retire-region runs. */
module ApplianceHistory {
  import opened Outcomes
  import opened ApplianceWorld
  import opened ApplianceToken
  import opened ApplianceVault
  import opened ApplianceReconcile

  // ---------- region labels ----------

  /** No label extends another across a slash, so no region's parameters lie under another's. */
  predicate Flat(labels: set<string>) {
    forall a, b | a in labels && b in labels :: !(a + "/" <= b)
  }

  /** Two regions share a path only when one label extends the other. */
  lemma SharedPath(a: string, b: string, path: string)
    requires Prefix(a) <= path && Prefix(b) <= path
    ensures a == b || a + "/" <= b || b + "/" <= a
  {
    var s := "appliance/";
    var rest := path[|s|..];
    assert Prefix(a)[|s|..] == a + "/" == rest[..|a| + 1];
    assert Prefix(b)[|s|..] == b + "/" == rest[..|b| + 1];
    if |a| < |b| {
      assert a + "/" == (b + "/")[..|a| + 1] == b[..|a| + 1];
    } else if |b| < |a| {
      assert b + "/" == (a + "/")[..|b| + 1] == a[..|b| + 1];
    } else {
      assert a == (a + "/")[..|a|] == (b + "/")[..|b|] == b;
    }
  }

  // ---------- what every step keeps ----------

  /** A region without its transit key has nothing left of it. */
  ghost predicate Cleared(w: World, region: string) {
    && KeyName(region) !in w.roles
    && KeyName(region) !in w.policies
    && Under(w.params, Prefix(region)) == {}
  }

  ghost predicate InOrder(w: World, region: string) {
    && (KeyName(region) in w.keys || Cleared(w, region))
    && (Recorded(w, region).Some? ==>
          && Recorded(w, region).value in w.issued
          && (Recorded(w, region).value in w.live ==> w.live[Recorded(w, region).value].region == region))
  }

  predicate Named(keys: map<string, bool>, labels: set<string>) {
    forall name | name in keys && APPLIANCE_PREFIX <= name :: name[|APPLIANCE_PREFIX|..] in labels
  }

  ghost predicate Inv(w: World, labels: set<string>) {
    && Flat(labels)
    && Named(w.keys, labels)
    && w.live.Keys <= w.issued
    && forall r | r in labels :: InOrder(w, r)
  }

  /** The region's live tokens. */
  function Mine(w: World, region: string): set<string> {
    set a | a in w.live && w.live[a].region == region
  }

  /** The region's live tokens that are not the one on record. */
  function Strays(w: World, region: string): set<string> {
    set a | a in w.live && w.live[a].region == region && Recorded(w, region) != Some(a)
  }

  /** The step leaves the invariant standing and no new stray for region `f`. */
  ghost predicate Safe(w: World, w': World, labels: set<string>, f: string) {
    && Inv(w', labels)
    && Strays(w', f) <= Strays(w, f)
  }

  /** Nothing changed but that some tokens died. */
  ghost predicate Quiet(w: World, w': World) {
    && w' == w.(live := w'.live, script := w'.script)
    && w'.live.Keys <= w.live.Keys
    && forall a | a in w'.live :: w'.live[a] == w.live[a]
  }

  lemma QuietKeeps(w: World, w': World, labels: set<string>, f: string)
    requires Inv(w, labels) && Quiet(w, w')
    ensures Safe(w, w', labels, f)
  {
    forall r | r in labels ensures InOrder(w', r) {
      assert InOrder(w, r);
    }
  }

  lemma CallKeeps(w: World, labels: set<string>, f: string)
    requires Inv(w, labels)
    ensures Quiet(w, Call(w).0) && Safe(w, Call(w).0, labels, f)
  {
    QuietKeeps(w, Call(w).0, labels, f);
  }

  lemma CreateKeyKeeps(w: World, region: string, labels: set<string>, f: string)
    requires Inv(w, labels) && region in labels
    ensures Safe(w, CreateKey(w, KeyName(region)).world, labels, f)
  {
    CallKeeps(w, labels, f);
    var w', w'' := Call(w).0, CreateKey(w, KeyName(region)).world;
    forall r | r in labels ensures InOrder(w'', r) {
      assert InOrder(w', r);
    }
  }

  lemma PutPolicyKeeps(w: World, region: string, labels: set<string>, f: string)
    requires Inv(w, labels) && KeyName(region) in w.keys
    ensures Safe(w, PutPolicy(w, KeyName(region)).world, labels, f)
  {
    CallKeeps(w, labels, f);
    var w', w'' := Call(w).0, PutPolicy(w, KeyName(region)).world;
    forall r | r in labels ensures InOrder(w'', r) {
      assert InOrder(w', r);
    }
  }

  lemma EnsureKeyKeeps(w: World, region: string, labels: set<string>, f: string)
    requires Inv(w, labels) && region in labels
    ensures Safe(w, EnsureKey(w, region).world, labels, f)
  {
    CallKeeps(w, labels, f);
    var read := ReadKey(w, KeyName(region));
    if read.result.Done? {
      CreateKeyKeeps(read.world, region, labels, f);
      var made := if read.result.value then Run(read.world, Done(())) else CreateKey(read.world, KeyName(region));
      if made.result.Done? {
        PutPolicyKeeps(made.world, region, labels, f);
      }
    }
  }

  lemma {:induction false} EnsureKeysKeeps(w: World, regions: seq<string>, labels: set<string>, f: string)
    requires Inv(w, labels) && (forall r | r in regions :: r in labels)
    ensures Safe(w, EnsureKeys(w, regions).world, labels, f)
    decreases |regions|
  {
    if regions != [] {
      EnsureKeyKeeps(w, regions[0], labels, f);
      var first := EnsureKey(w, regions[0]);
      if first.result.Done? {
        EnsureKeysKeeps(first.world, regions[1..], labels, f);
      }
    }
  }

  /** The region's record, if it has one, names no live token. */
  ghost predicate Silenced(w: World, region: string) {
    Recorded(w, region).Some? ==> Recorded(w, region).value !in w.live
  }

  lemma DeleteParametersKeeps(w: World, region: string, names: seq<string>, labels: set<string>, f: string)
    requires Inv(w, labels) && region in labels && f in labels
    requires Silenced(w, region) && forall name | name in names :: Prefix(region) <= name
    ensures Safe(w, DeleteParameters(w, names).world, labels, f)
    ensures Silenced(DeleteParameters(w, names).world, region)
  {
    CallKeeps(w, labels, f);
    var w', w'' := Call(w).0, DeleteParameters(w, names).world;
    forall r | r in labels && r != region
      ensures Recorded(w'', r) == Recorded(w', r)
    {
      if AccessorPath(r) in names {
        SharedPath(region, r, AccessorPath(r));
      }
    }
    forall r | r in labels ensures InOrder(w'', r) {
      assert InOrder(w', r);
    }
  }

  lemma {:induction false} DeleteBatchesKeeps(w: World, region: string, names: seq<string>, labels: set<string>,
        f: string)
    requires Inv(w, labels) && region in labels && f in labels
    requires Silenced(w, region) && forall name | name in names :: Prefix(region) <= name
    ensures Safe(w, DeleteBatches(w, names).world, labels, f)
    decreases |names|
  {
    if names != [] {
      var batch := Min(10, |names|);
      forall name | name in names[..batch] || name in names[batch..] ensures Prefix(region) <= name {
        assert name in names;
      }
      DeleteParametersKeeps(w, region, names[..batch], labels, f);
      var first := DeleteParameters(w, names[..batch]);
      if first.result.Done? {
        DeleteBatchesKeeps(first.world, region, names[batch..], labels, f);
      }
    }
  }

  lemma {:induction false} ListUnderKeeps(w: World, prefix: string, names: seq<string>, labels: set<string>, f: string)
    requires Inv(w, labels)
    ensures var run := ListUnder(w, prefix, names);
      && Safe(w, run.world, labels, f)
      && run.world == w.(live := run.world.live, script := run.world.script)
      && run.world.live.Keys <= w.live.Keys
      && (run.result.Done? ==> Lists(run.result.value, Under(w.params, prefix)))
    decreases |w.script|
  {
    CallKeeps(w, labels, f);
    if w.script != [] && w.script[0].fate.Served? && w.script[0].more {
      ListUnderKeeps(Call(w).0, prefix, names + w.script[0].listing, labels, f);
    }
  }

  lemma DeletePrefixKeeps(w: World, region: string, labels: set<string>, f: string)
    requires Inv(w, labels) && region in labels && f in labels && Silenced(w, region)
    ensures var run := DeletePrefix(w, region);
      && Safe(w, run.world, labels, f)
      && run.world.keys == w.keys && run.world.roles == w.roles && run.world.policies == w.policies
      && (run.result.Done? ==> Under(run.world.params, Prefix(region)) == {})
  {
    ListUnderKeeps(w, Prefix(region), [], labels, f);
    var listed := ListUnder(w, Prefix(region), []);
    if listed.result.Done? {
      var names := listed.result.value;
      forall name | name in names ensures Prefix(region) <= name {
        assert name in (set n | n in names);
        assert name in Under(w.params, Prefix(region));
      }
      DeleteBatchesKeeps(listed.world, region, names, labels, f);
      DeleteBatchesEffect(listed.world, names);
      assert forall path | path in Under(w.params, Prefix(region)) :: path in (set n | n in names);
    }
  }

  lemma RevokeKeeps(w: World, accessor: string, labels: set<string>, f: string)
    requires Inv(w, labels)
    ensures Safe(w, Revoke(w, accessor).world, labels, f)
  {
    CallKeeps(w, labels, f);
    var w', w'' := Call(w).0, Revoke(w, accessor).world;
    forall r | r in labels ensures InOrder(w'', r) {
      assert InOrder(w', r);
    }
  }

  lemma DeleteRoleKeeps(w: World, region: string, labels: set<string>, f: string)
    requires Inv(w, labels)
    ensures Safe(w, DeleteRole(w, KeyName(region)).world, labels, f)
  {
    CallKeeps(w, labels, f);
    var w', w'' := Call(w).0, DeleteRole(w, KeyName(region)).world;
    forall r | r in labels ensures InOrder(w'', r) {
      assert InOrder(w', r);
    }
  }

  lemma DeletePolicyKeeps(w: World, name: string, labels: set<string>, f: string)
    requires Inv(w, labels)
    ensures Safe(w, DeletePolicy(w, name).world, labels, f)
  {
    CallKeeps(w, labels, f);
    var w', w'' := Call(w).0, DeletePolicy(w, name).world;
    forall r | r in labels ensures InOrder(w'', r) {
      assert InOrder(w', r);
    }
  }

  lemma AllowDeletionKeeps(w: World, name: string, labels: set<string>, f: string)
    requires Inv(w, labels)
    ensures Safe(w, AllowDeletion(w, name).world, labels, f)
  {
    CallKeeps(w, labels, f);
    var w', w'' := Call(w).0, AllowDeletion(w, name).world;
    forall r | r in labels ensures InOrder(w'', r) {
      assert InOrder(w', r);
    }
  }

  lemma DeleteKeyKeeps(w: World, region: string, labels: set<string>, f: string)
    requires Inv(w, labels) && Cleared(w, region)
    ensures Safe(w, DeleteKey(w, KeyName(region)).world, labels, f)
  {
    CallKeeps(w, labels, f);
    var w', w'' := Call(w).0, DeleteKey(w, KeyName(region)).world;
    forall r | r in labels ensures InOrder(w'', r) {
      assert InOrder(w', r);
    }
  }

  lemma RemoveTransitKeyKeeps(w: World, region: string, labels: set<string>, f: string)
    requires Inv(w, labels)
    requires KeyName(region) !in w.roles && Under(w.params, Prefix(region)) == {}
    ensures var run := RemoveTransitKey(w, region);
      && Safe(w, run.world, labels, f)
      && (run.result.Done? ==> run.world.keys == w.keys - {KeyName(region)})
  {
    DeletePolicyKeeps(w, KeyName(region), labels, f);
    var dropped := DeletePolicy(w, KeyName(region));
    if dropped.result.Done? {
      AllowDeletionKeeps(dropped.world, KeyName(region), labels, f);
      var allowed := AllowDeletion(dropped.world, KeyName(region));
      if allowed.result.Done? {
        DeleteKeyKeeps(allowed.world, region, labels, f);
      }
    }
  }

  lemma RevokeRecordedKeeps(w: World, region: string, labels: set<string>, f: string)
    requires Inv(w, labels)
    ensures var run := RevokeRecorded(w, region);
      && Safe(w, run.world, labels, f)
      && run.world.keys == w.keys
      && (run.result.Done? ==> Silenced(run.world, region))
  {
    CallKeeps(w, labels, f);
    var read := LookupPublic(w, AccessorPath(region));
    if read.result.Done? && read.result.value.Some? {
      RevokeKeeps(read.world, read.result.value.value, labels, f);
    }
  }

  lemma ClearRegionKeeps(w: World, region: string, labels: set<string>, f: string)
    requires Inv(w, labels) && region in labels && f in labels && Silenced(w, region)
    ensures var run := ClearRegion(w, region);
      && Safe(w, run.world, labels, f)
      && (run.result.Done? ==> run.world.keys == w.keys - {KeyName(region)})
  {
    DeleteRoleKeeps(w, region, labels, f);
    var unroled := DeleteRole(w, KeyName(region));
    if unroled.result.Done? {
      DeletePrefixKeeps(unroled.world, region, labels, f);
      var emptied := DeletePrefix(unroled.world, region);
      if emptied.result.Done? {
        RemoveTransitKeyKeeps(emptied.world, region, labels, f);
      }
    }
  }

  lemma RetireKeeps(w: World, region: string, labels: set<string>, f: string)
    requires Inv(w, labels) && region in labels && f in labels
    ensures var run := Retire(w, region);
      && Safe(w, run.world, labels, f)
      && (run.result.Done? ==> run.world.keys == w.keys - {KeyName(region)})
  {
    RevokeRecordedKeeps(w, region, labels, f);
    if RevokeRecorded(w, region).result.Done? {
      ClearRegionKeeps(RevokeRecorded(w, region).world, region, labels, f);
    }
  }

  lemma {:induction false} RetireAllKeeps(w: World, regions: seq<string>, labels: set<string>, f: string)
    requires Inv(w, labels) && f in labels && forall r | r in regions :: r in labels
    ensures var run := RetireAll(w, regions);
      && Safe(w, run.world, labels, f)
      && (run.result.Done? ==> run.world.keys == w.keys - (set r | r in regions :: KeyName(r)))
    decreases |regions|
  {
    if regions != [] {
      RetireKeeps(w, regions[0], labels, f);
      var first := Retire(w, regions[0]);
      if first.result.Done? {
        RetireAllKeeps(first.world, regions[1..], labels, f);
      }
    }
  }

  // ---------- reconciliation ----------

  lemma ReconcileKeeps(w: World, active: seq<string>, retired: seq<string>, labels: set<string>, f: string)
    requires Inv(w, labels) && f in labels && forall r | r in active :: r in labels
    ensures Safe(w, Reconcile(w, active, retired).world, labels, f)
  {
    CallKeeps(w, labels, f);
    var listed := ListKeys(w);
    if listed.result.Done? {
      var names := listed.result.value;
      var existing := RegionsOf(names);
      var plan := PlanKeys(existing, active, retired);
      if plan.Some? {
        EnsureKeysKeeps(listed.world, active, labels, f);
        var ensured := EnsureKeys(listed.world, active);
        if ensured.result.Done? {
          RegionsOfMembers(names);
          RetiredAmongMembers(existing, active, retired);
          forall r | r in plan.value.remove ensures r in labels {
            assert KeyName(r) in (set n | n in names);
          }
          RetireAllKeeps(ensured.world, plan.value.remove, labels, f);
        }
      }
    }
  }

  // ---------- issuing a token ----------

  /** The invariant stands, and beside `extra` the step leaves no new stray for region `f`. */
  ghost predicate Leaks(w: World, w': World, labels: set<string>, f: string, extra: set<string>) {
    && Inv(w', labels)
    && Strays(w', f) <= Strays(w, f) + extra
  }

  /** The plan agrees with what is on record: nothing live is about to be overwritten
      unless the plan says that it will be revoked. */
  ghost predicate Fits(w: World, region: string, plan: Plan) {
    && (plan.action.Mint? ==> Silenced(w, region))
    && (plan.action.Reissue? ==> Recorded(w, region) == Some(plan.accessor))
  }

  lemma PlanTokenEffect(w: World, req: Request)
    ensures var run := PlanToken(w, req);
      && Quiet(w, run.world)
      && (run.result.Done? ==> KeyName(req.region) in w.keys && Fits(run.world, req.region, run.result.value))
  {
    ReadsAreQuiet(w, req.region);
    var read := ReadKey(w, KeyName(req.region));
    if read.result.Done? && read.result.value && req.validDurations {
      ReadsAreQuiet(read.world, req.region);
      var looked := LookupPublic(read.world, AccessorPath(req.region));
      if looked.result.Done? && looked.result.value.Some? {
        TokenLiveIsQuiet(looked.world, looked.result.value.value);
        hide ReadKey, LookupPublic, TokenLive;
      }
    }
  }

  lemma ReadsAreQuiet(w: World, region: string)
    ensures Quiet(w, ReadKey(w, KeyName(region)).world)
    ensures Quiet(w, LookupPublic(w, AccessorPath(region)).world)
    ensures ReadKey(w, KeyName(region)).result.Done? ==>
      ReadKey(w, KeyName(region)).result.value == (KeyName(region) in w.keys)
    ensures LookupPublic(w, AccessorPath(region)).result.Done? ==>
      LookupPublic(w, AccessorPath(region)).result.value == Recorded(w, region)
  {
  }

  lemma TokenLiveIsQuiet(w: World, accessor: string)
    ensures Quiet(w, TokenLive(w, accessor).world)
    ensures TokenLive(w, accessor).result.Done? ==>
      TokenLive(w, accessor).result.value == (accessor in TokenLive(w, accessor).world.live)
  {
  }

  lemma EnsureTokenRoleKeeps(w: World, req: Request, labels: set<string>, f: string)
    requires Inv(w, labels) && KeyName(req.region) in w.keys
    ensures var run := EnsureTokenRole(w, req);
      && Safe(w, run.world, labels, f)
      && run.world == w.(roles := run.world.roles, live := run.world.live, script := run.world.script)
      && run.world.live.Keys <= w.live.Keys
  {
    CallKeeps(w, labels, f);
    var w', w'' := Call(w).0, EnsureTokenRole(w, req).world;
    forall r | r in labels ensures InOrder(w'', r) {
      assert InOrder(w', r);
      assert InOrder(w, r);
      hide Inv;
    }
  }

  lemma CreateTokenKeeps(w: World, region: string, labels: set<string>, f: string)
    requires Inv(w, labels)
    ensures var run := CreateToken(w, region);
      Leaks(w, run.world, labels, f,
            if run.result.Done? && region == f then {run.result.value.accessor} else {})
  {
    CallKeeps(w, labels, f);
    var w', w'' := Call(w).0, CreateToken(w, region).world;
    forall r | r in labels ensures InOrder(w'', r) {
      assert InOrder(w', r);
    }
  }

  /** A step that may mint: it touches nothing but tokens, and those it did not mint can only go. */
  ghost predicate OnlyTokens(w: World, w': World) {
    && w' == w.(live := w'.live, issued := w'.issued, script := w'.script)
    && w.issued <= w'.issued
    && forall a | a in w'.live && a in w.issued :: a in w.live
  }

  lemma MintWrappedEffect(w: World, region: string)
    ensures var run := MintWrapped(w, region);
      && OnlyTokens(w, run.world)
      && (run.result.Done? ==>
            && run.result.value in run.world.issued - w.issued
            && (run.result.value in run.world.live ==> run.world.live[run.result.value].region == region))
  {
    CreateTokenEffect(w, region);
    var made := CreateToken(w, region);
    if made.result.Done? {
      RevokeEffect(made.world, made.result.value.accessor);
    }
    hide CreateToken, Revoke;
  }

  lemma CreateTokenEffect(w: World, region: string)
    ensures var run := CreateToken(w, region);
      && OnlyTokens(w, run.world)
      && (run.result.Done? ==>
            && run.result.value.accessor in run.world.issued - w.issued
            && (run.result.value.accessor in run.world.live ==>
                run.world.live[run.result.value.accessor].region == region))
  {
  }

  lemma RevokeEffect(w: World, accessor: string)
    ensures OnlyTokens(w, Revoke(w, accessor).world)
  {
  }

  lemma MintWrappedKeeps(w: World, region: string, labels: set<string>, f: string) returns (extra: set<string>)
    requires Inv(w, labels)
    ensures var run := MintWrapped(w, region);
      && Leaks(w, run.world, labels, f, extra)
      && (region != f ==> extra == {})
      && (match run.result
          case Done(a) => extra == {} || extra == {a}
          case Failed(named, _) => forall a | a in extra :: named == Some(a)
          case Stopped => |extra| <= 1)
  {
    CreateTokenKeeps(w, region, labels, f);
    var made := CreateToken(w, region);
    extra := if made.result.Done? && region == f then {made.result.value.accessor} else {};
    if made.result.Done? && made.result.value.unwrapped {
      var a := made.result.value.accessor;
      RevokeKeeps(made.world, a, labels, f);
      if Revoke(made.world, a).result.Done? {
        extra := {};
      }
    }
  }

  /** The recorded token, as long as it is alive. */
  function LiveRecord(w: World, region: string): set<string> {
    if Recorded(w, region).Some? && Recorded(w, region).value in w.live
    then {Recorded(w, region).value} else {}
  }

  lemma PutAccessorKeeps(w: World, region: string, a: string, labels: set<string>, f: string)
    requires Inv(w, labels) && f in labels && region in labels && KeyName(region) in w.keys
    requires a in w.issued && (a in w.live ==> w.live[a].region == region)
    ensures var run := PutPublic(w, AccessorPath(region), a);
      && Inv(run.world, labels)
      && Strays(run.world, f) <=
           if run.result.Done? && f == region then Strays(w, f) - {a} + LiveRecord(w, f) else Strays(w, f)
  {
    CallKeeps(w, labels, f);
    var w', w'' := Call(w).0, PutPublic(w, AccessorPath(region), a).world;
    forall r | r in labels && r != region
      ensures AccessorPath(r) != AccessorPath(region)
      ensures !(Prefix(r) <= AccessorPath(region))
    {
      if Prefix(r) <= AccessorPath(region) {
        SharedPath(region, r, AccessorPath(region));
      }
    }
    forall r | r in labels ensures InOrder(w'', r) {
      assert InOrder(w', r);
      if r != region && KeyName(r) !in w''.keys {
        assert Under(w''.params, Prefix(r)) == Under(w'.params, Prefix(r));
      }
    }
  }

  lemma RecordAccessorKeeps(w: World, region: string, a: string, labels: set<string>, f: string)
    requires Inv(w, labels) && f in labels && region in labels && KeyName(region) in w.keys
    requires a in w.issued && (a in w.live ==> w.live[a].region == region)
    ensures var run := RecordAccessor(w, region, a);
      && Inv(run.world, labels)
      && (region != f ==> Strays(run.world, f) <= Strays(w, f))
      && (region == f ==>
          match run.result
          case Done(_) => Strays(run.world, f) <= Strays(w, f) - {a} + LiveRecord(w, f)
          case Failed(named, _) => (if named.Some? then named.value == a && Strays(run.world, f) <= Strays(w, f)
                                    else Strays(run.world, f) <= Strays(w, f) - {a})
          case Stopped => Strays(run.world, f) <= Strays(w, f))
  {
    PutAccessorKeeps(w, region, a, labels, f);
    var put := PutPublic(w, AccessorPath(region), a);
    if put.result.Failed? {
      RevokeKeeps(put.world, a, labels, f);
    }
  }

  lemma SettleKeeps(w: World, region: string, plan: Plan, a: string, labels: set<string>, f: string)
    returns (extra: set<string>)
    requires Inv(w, labels) && f in labels && region in labels && KeyName(region) in w.keys
    requires Fits(w, region, plan) && !plan.action.Refuse?
    requires a in w.issued && (a in w.live ==> w.live[a].region == region)
    ensures var run := Settle(w, region, plan, a);
      && Inv(run.world, labels)
      && (region != f ==> extra == {} && Strays(run.world, f) <= Strays(w, f))
      && (region == f ==>
          match run.result
          case Done(_) => extra == {} && Strays(run.world, f) <= Strays(w, f) - {a}
          case Failed(None, _) => extra == {} && Strays(run.world, f) <= Strays(w, f) - {a}
          case Failed(Some(x), _) =>
            extra == {x} && (x == a || Strays(run.world, f) <= Strays(w, f) - {a} + extra)
            && Strays(run.world, f) <= Strays(w, f) + extra
          case Stopped =>
            (extra == {a} && Strays(run.world, f) <= Strays(w, f))
              || (|extra| <= 1 && Strays(run.world, f) <= Strays(w, f) - {a} + extra))
  {
    RecordAccessorKeeps(w, region, a, labels, f);
    var recorded := RecordAccessor(w, region, a);
    if recorded.result.Done? {
      extra := if region == f && plan.action.Reissue? then {plan.accessor} else {};
      if plan.action.Reissue? {
        RevokeKeeps(recorded.world, plan.accessor, labels, f);
        if Revoke(recorded.world, plan.accessor).result.Done? {
          extra := {};
        }
      }
    } else {
      extra := if region == f && (recorded.result.Stopped? || recorded.result.named.Some?) then {a} else {};
    }
  }

  /** Minting with a plan that fits leaves a stray only where it says so: the accessor
      its error names, or the one token a stopped run abandons. */
  lemma MintTokenKeeps(w: World, req: Request, plan: Plan, labels: set<string>, f: string) returns (extra: set<string>)
    requires Inv(w, labels) && f in labels && KeyName(req.region) in w.keys
    requires Fits(w, req.region, plan) && !plan.action.Refuse?
    ensures var run := MintToken(w, req, plan);
      && Leaks(w, run.world, labels, f, extra)
      && (req.region != f ==> extra == {})
      && (match run.result
          case Done(_) => extra == {}
          case Failed(named, _) => forall a | a in extra :: named == Some(a)
          case Stopped => |extra| <= 1)
  {
    var region := req.region;
    assert KeyName(region)[|APPLIANCE_PREFIX|..] in labels;
    extra := {};
    EnsureTokenRoleKeeps(w, req, labels, f);
    var roled := EnsureTokenRole(w, req);
    if roled.result.Done? {
      extra := MintWrappedKeeps(roled.world, region, labels, f);
      MintWrappedEffect(roled.world, region);
      var minted := MintWrapped(roled.world, region);
      if minted.result.Done? {
        extra := SettleKeeps(minted.world, region, plan, minted.result.value, labels, f);
      }
    }
  }

  lemma TokenPhaseKeeps(w: World, req: Request, labels: set<string>, f: string) returns (extra: set<string>)
    requires Inv(w, labels) && f in labels
    ensures var run := TokenPhase(w, req);
      && Leaks(w, run.world, labels, f, extra)
      && (req.region != f ==> extra == {})
      && (match run.result
          case Done(_) => extra == {}
          case Failed(named, _) => forall a | a in extra :: named == Some(a)
          case Stopped => |extra| <= 1)
  {
    extra := {};
    PlanTokenEffect(w, req);
    var planned := PlanToken(w, req);
    QuietKeeps(w, planned.world, labels, f);
    if planned.result.Done? && req.confirm && !planned.result.value.action.Refuse? {
      extra := MintTokenKeeps(planned.world, req, planned.result.value, labels, f);
    }
  }

  // ---------- histories ----------

  /** One run, or the passing of time. An edit is what an onboard run or a retire-region
      run, stopped anywhere, does to the region's other parameters: writes only once an
      accessor is on record, and never a write to the accessor's own parameter. */
  datatype Op =
    | TokenRun(req: Request, script: seq<Event>)
    | VaultRun(active: seq<string>, retired: seq<string>, script: seq<Event>)
    | Edit(region: string, writes: map<string, string>, removes: set<string>)
    | Lapse(lapsed: set<string>)

  function EditParams(w: World, op: Op): map<string, string>
    requires op.Edit?
  {
    var mine := (path: string) => Prefix(op.region) <= path && path != AccessorPath(op.region);
    var kept := map path | path in w.params && !(mine(path) && path in op.removes) :: w.params[path];
    if Recorded(w, op.region).None? then kept
    else kept + map path | path in op.writes && mine(path) :: op.writes[path]
  }

  function Step(w: World, op: Op): World {
    match op
    case TokenRun(req, script) => TokenPhase(w.(script := script), req).world
    case VaultRun(active, retired, script) => Reconcile(w.(script := script), active, retired).world
    case Edit(_, _, _) => w.(params := EditParams(w, op))
    case Lapse(lapsed) => w.(live := w.live - lapsed)
  }

  /** Every label the committed lists and the onboarding requests use. */
  predicate Uses(op: Op, labels: set<string>) {
    match op
    case VaultRun(active, _, _) => forall r | r in active :: r in labels
    case Edit(region, _, _) => region in labels
    case _ => true
  }

  /** What becomes of region `f` over a history: the world, the accessors that errors of
      its runs named, the tokens its stopped runs abandoned, and how many of each run there were. */
  datatype Ledger = Ledger(world: World, named: set<string>, stranded: set<string>, errors: nat, stops: nat)

  /** A token run for `f` and how it ended. */
  function Booked(l: Ledger, w': World, result: Result<Answer>, f: string): Ledger {
    match result
    case Done(_) => l.(world := w')
    case Failed(None, _) => l.(world := w')
    case Failed(Some(a), _) =>
      if Recorded(w', f) == Some(a) then l.(world := w')
      else l.(world := w', named := l.named + {a}, errors := l.errors + 1)
    case Stopped =>
      l.(world := w', stranded := l.stranded + (Strays(w', f) - Strays(l.world, f)), stops := l.stops + 1)
  }

  function Enter(l: Ledger, op: Op, f: string): Ledger {
    var w' := Step(l.world, op);
    if !op.TokenRun? || op.req.region != f then l.(world := w')
    else Booked(l, w', TokenPhase(l.world.(script := op.script), op.req).result, f)
  }

  function Play(l: Ledger, ops: seq<Op>, f: string): Ledger
    decreases |ops|
  {
    if ops == [] then l else Play(Enter(l, ops[0], f), ops[1..], f)
  }

  /** A stage that never had an appliance. Keys of other transit users may exist. */
  function Fresh(keys: map<string, bool>, params: map<string, string>): Ledger {
    Ledger(World(keys, map[], map[], params, map[], {}, []), {}, {}, 0, 0)
  }

  ghost predicate Balanced(l: Ledger, labels: set<string>, f: string) {
    && Inv(l.world, labels)
    && Strays(l.world, f) <= l.named + l.stranded
    && |l.named| <= l.errors
    && |l.stranded| <= l.stops
  }

  lemma EditElsewhere(w: World, op: Op, labels: set<string>, r: string)
    requires Inv(w, labels) && op.Edit? && op.region in labels && r in labels && r != op.region
    ensures InOrder(Step(w, op), r) && Recorded(Step(w, op), r) == Recorded(w, r)
  {
    var w' := Step(w, op);
    assert InOrder(w, r);
    if Prefix(op.region) <= AccessorPath(r) {
      SharedPath(r, op.region, AccessorPath(r));
    }
    forall path ensures path in Under(w'.params, Prefix(r)) <==> path in Under(w.params, Prefix(r)) {
      if Prefix(r) <= path && Prefix(op.region) <= path {
        SharedPath(r, op.region, path);
      }
    }
  }

  lemma EditHere(w: World, op: Op, labels: set<string>)
    requires Inv(w, labels) && op.Edit? && op.region in labels
    ensures InOrder(Step(w, op), op.region) && Recorded(Step(w, op), op.region) == Recorded(w, op.region)
  {
    var w', r := Step(w, op), op.region;
    assert InOrder(w, r);
    if KeyName(r) !in w.keys {
      assert AccessorPath(r) !in Under(w.params, Prefix(r));
      assert Under(w'.params, Prefix(r)) <= Under(w.params, Prefix(r));
    }
  }

  lemma EditKeeps(w: World, op: Op, labels: set<string>, f: string)
    requires Inv(w, labels) && op.Edit? && op.region in labels && f in labels
    ensures Safe(w, Step(w, op), labels, f)
  {
    forall r | r in labels ensures InOrder(Step(w, op), r) && Recorded(Step(w, op), r) == Recorded(w, r) {
      if r == op.region {
        EditHere(w, op, labels);
      } else {
        EditElsewhere(w, op, labels, r);
      }
    }
    hide InOrder, Prefix, AccessorPath, KeyName;
  }

  /** The tokens of a region that a token run has taken off the record: none when it comes
      through or is about another region, the one its error names when it fails, and at most
      one when it stops. */
  ghost predicate TokenBound(w: World, w': World, result: Result<Answer>, region: string, f: string) {
    var added := Strays(w', f) - Strays(w, f);
    && (region != f ==> added == {})
    && match result
       case Done(_) => added == {}
       case Failed(named, _) => forall a | a in added :: named == Some(a)
       case Stopped => |added| <= 1
  }

  lemma TokenPhaseBound(w: World, req: Request, labels: set<string>, f: string)
    requires Inv(w, labels) && f in labels
    ensures var run := TokenPhase(w, req);
      Inv(run.world, labels) && TokenBound(w, run.world, run.result, req.region, f)
  {
    hide TokenPhase, Inv, Strays;
    var extra := TokenPhaseKeeps(w, req, labels, f);
    var run := TokenPhase(w, req);
    var added := Strays(run.world, f) - Strays(w, f);
    assert added <= extra;
    SubsetSize(added, extra);
  }

  lemma BookedKeeps(l: Ledger, w': World, result: Result<Answer>, labels: set<string>, f: string)
    requires Balanced(l, labels, f) && Inv(w', labels) && TokenBound(l.world, w', result, f, f)
    ensures Balanced(Booked(l, w', result, f), labels, f)
  {
    hide Inv, Mine;
    var added := Strays(w', f) - Strays(l.world, f);
    assert Strays(w', f) <= Strays(l.world, f) + added;
    UnionSize(l.stranded, added);
    if result.Failed? && result.named.Some? {
      UnionSize(l.named, {result.named.value});
    }
  }

  lemma TokenRunKeeps(l: Ledger, op: Op, labels: set<string>, f: string)
    requires Balanced(l, labels, f) && f in labels && op.TokenRun?
    ensures Balanced(Enter(l, op, f), labels, f)
  {
    var w := l.world.(script := op.script);
    QuietKeeps(l.world, w, labels, f);
    TokenPhaseBound(w, op.req, labels, f);
    assert Strays(w, f) == Strays(l.world, f);
    hide TokenPhase, Inv, Strays, Booked;
    var run := TokenPhase(w, op.req);
    assert TokenBound(l.world, run.world, run.result, op.req.region, f);
    if op.req.region == f {
      BookedKeeps(l, run.world, run.result, labels, f);
    } else {
      assert Strays(run.world, f) <= Strays(l.world, f);
    }
  }

  lemma EnterKeeps(l: Ledger, op: Op, labels: set<string>, f: string)
    requires Balanced(l, labels, f) && f in labels && Uses(op, labels)
    ensures Balanced(Enter(l, op, f), labels, f)
  {
    match op
    case TokenRun(req, script) =>
      TokenRunKeeps(l, op, labels, f);
    case VaultRun(active, retired, script) =>
      QuietKeeps(l.world, l.world.(script := script), labels, f);
      ReconcileKeeps(l.world.(script := script), active, retired, labels, f);
    case Edit(_, _, _) =>
      EditKeeps(l.world, op, labels, f);
    case Lapse(lapsed) =>
      QuietKeeps(l.world, Step(l.world, op), labels, f);
  }

  lemma SubsetSize(a: set<string>, b: set<string>)
    requires a <= b
    ensures |a| <= |b|
  {
    assert b == a + (b - a);
  }

  lemma UnionSize(a: set<string>, b: set<string>)
    ensures |a + b| <= |a| + |b|
  {
    assert a + b == a + (b - a);
    SubsetSize(b - a, b);
  }

  lemma {:induction false} PlayKeeps(l: Ledger, ops: seq<Op>, labels: set<string>, f: string)
    requires Balanced(l, labels, f) && f in labels && forall op | op in ops :: Uses(op, labels)
    ensures Balanced(Play(l, ops, f), labels, f)
    decreases |ops|
  {
    if ops != [] {
      EnterKeeps(l, ops[0], labels, f);
      PlayKeeps(Enter(l, ops[0], f), ops[1..], labels, f);
    }
  }

  /** Nothing of an appliance exists yet: no key, and no parameter under any label. */
  ghost predicate Pristine(keys: map<string, bool>, params: map<string, string>, labels: set<string>) {
    && (forall name | name in keys :: !(APPLIANCE_PREFIX <= name))
    && forall r | r in labels :: Under(params, Prefix(r)) == {}
  }

  lemma FreshBalanced(keys: map<string, bool>, params: map<string, string>, labels: set<string>, f: string)
    requires Flat(labels) && Pristine(keys, params, labels)
    ensures Balanced(Fresh(keys, params), labels, f)
  {
    var l := Fresh(keys, params);
    assert Strays(l.world, f) == {};
    forall r | r in labels ensures InOrder(l.world, r) {
      assert AccessorPath(r) !in Under(params, Prefix(r));
    }
  }

  /** Every live token of the region is the recorded one, one that an error named, or one
      a stopped run abandoned, and each such error or run answers for at most one. */
  predicate Settled(l: Ledger, f: string) {
    && (forall a | a in Mine(l.world, f) :: Recorded(l.world, f) == Some(a) || a in l.named || a in l.stranded)
    && |l.named| <= l.errors
    && |l.stranded| <= l.stops
    && |Mine(l.world, f)| <= 1 + l.errors + l.stops
  }

  /** Over any history of one region, every live token is the recorded one, one that an
      error named, or one a stopped run abandoned; each such error and each stopped run
      accounts for at most one. */
  lemma LiveTokensAccounted(keys: map<string, bool>, params: map<string, string>, ops: seq<Op>, labels: set<string>,
        f: string)
    requires Flat(labels) && f in labels && Pristine(keys, params, labels)
    requires forall op | op in ops :: Uses(op, labels)
    ensures Settled(Play(Fresh(keys, params), ops, f), f)
  {
    var l0 := Fresh(keys, params);
    FreshBalanced(keys, params, labels, f);
    PlayKeeps(l0, ops, labels, f);
    var l := Play(l0, ops, f);
    var record := if Recorded(l.world, f).Some? then {Recorded(l.world, f).value} else {};
    SubsetSize(Mine(l.world, f), record + (l.named + l.stranded));
    UnionSize(record, l.named + l.stranded);
    UnionSize(l.named, l.stranded);
  }

  /** The transit key is the record of an unfinished retirement: over any history, a
      region without its key has no role, no policy and no parameter left. */
  lemma MissingKeyMeansCleared(keys: map<string, bool>, params: map<string, string>, ops: seq<Op>,
        labels: set<string>, f: string)
    requires Flat(labels) && f in labels && Pristine(keys, params, labels)
    requires forall op | op in ops :: Uses(op, labels)
    ensures var w := Play(Fresh(keys, params), ops, f).world;
      KeyName(f) !in w.keys ==> Cleared(w, f) && Recorded(w, f).None?
  {
    var l0 := Fresh(keys, params);
    FreshBalanced(keys, params, labels, f);
    PlayKeeps(l0, ops, labels, f);
    var w := Play(l0, ops, f).world;
    assert InOrder(w, f);
    if KeyName(f) !in w.keys {
      assert AccessorPath(f) !in Under(w.params, Prefix(f));
    }
  }

  /** Rerunning the vault phase with the region on the retired list finishes a retirement
      that any earlier history left half done: once a run goes through, nothing of the
      region is left, and a run that does not was interrupted or declined the lists. */
  lemma RerunFinishesRetirement(keys: map<string, bool>, params: map<string, string>, ops: seq<Op>,
                                labels: set<string>, f: string,
                                active: seq<string>, retired: seq<string>, script: seq<Event>)
    requires Flat(labels) && f in labels && Pristine(keys, params, labels)
    requires forall op | op in ops + [VaultRun(active, retired, script)] :: Uses(op, labels)
    requires f in retired
    ensures var w := Play(Fresh(keys, params), ops, f).world.(script := script);
      var run := Reconcile(w, active, retired);
      && (run.result.Done? ==> KeyName(f) !in run.world.keys && Cleared(run.world, f) && Recorded(run.world, f).None?)
      && (Agree(Regions(w), active, retired) ==> run.result.Done? || Interrupted(run.result))
  {
    var before := Play(Fresh(keys, params), ops, f).world;
    FreshBalanced(keys, params, labels, f);
    forall op | op in ops ensures Uses(op, labels) {
      assert op in ops + [VaultRun(active, retired, script)];
    }
    assert VaultRun(active, retired, script) in ops + [VaultRun(active, retired, script)];
    PlayKeeps(Fresh(keys, params), ops, labels, f);
    var w := before.(script := script);
    QuietKeeps(before, w, labels, f);
    ReconcileKeeps(w, active, retired, labels, f);
    ReconcileExact(w, active, retired);
    var run := Reconcile(w, active, retired);
    if run.result.Done? {
      RegionsMember(run.world, f);
      assert InOrder(run.world, f);
      assert AccessorPath(f) !in Under(run.world.params, Prefix(f));
    }
  }
}
