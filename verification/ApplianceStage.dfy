/** The phases as the Lambda runs them: call by call on stores that change in place. */
module ApplianceStage {
  import opened Outcomes
  import W = ApplianceWorld
  import T = ApplianceToken
  import V = ApplianceVault
  import E = ApplianceReconcile
  import H = ApplianceHistory

  /** OpenBao and the parameter store of one stage, and what is in store for the calls made on them. */
  class Stage {
    var keys: map<string, bool>
    var policies: map<string, string>
    var roles: map<string, W.Role>
    var params: map<string, string>
    var live: map<string, W.Token>
    var issued: set<string>
    var script: seq<W.Event>

    ghost function Now(): W.World
      reads this
    {
      W.World(keys, policies, roles, params, live, issued, script)
    }

    // ---------- remote calls ----------

    method Await() returns (e: W.Event)
      modifies this
      ensures (Now(), e) == W.Call(old(Now()))
    {
      if script == [] {
        return W.Event(Cut, {}, [], false, "", false, W.Unreachable);
      }
      e := script[0];
      live := live - e.lapsed;
      script := script[1..];
    }

    method ReadKey(name: string) returns (r: Result<bool>)
      modifies this
      ensures Run(Now(), r) == W.ReadKey(old(Now()), name)
    {
      var e := Await();
      var done := Answer(e.fate);
      if done.IsFailure() { return done.PropagateFailure(); }
      r := Done(name in keys);
    }

    method CreateKey(name: string) returns (r: Result<()>)
      modifies this
      ensures Run(Now(), r) == W.CreateKey(old(Now()), name)
    {
      var e := Await();
      r := Answer(e.fate);
      if r.Done? { keys := keys[name := false]; }
    }

    method ListKeys() returns (r: Result<seq<string>>)
      modifies this
      ensures Run(Now(), r) == W.ListKeys(old(Now()))
    {
      var e := Await();
      var done := Answer(W.Honest(e.fate, W.Lists(e.listing, keys.Keys)));
      if done.IsFailure() { return done.PropagateFailure(); }
      r := Done(e.listing);
    }

    method AllowDeletion(name: string) returns (r: Result<()>)
      modifies this
      ensures Run(Now(), r) == W.AllowDeletion(old(Now()), name)
    {
      var e := Await();
      r := Answer(e.fate);
      if r.Done? {
        if name !in keys { return Failed(None, Rejected); }
        keys := keys[name := true];
      }
    }

    method DeleteKey(name: string) returns (r: Result<()>)
      modifies this
      ensures Run(Now(), r) == W.DeleteKey(old(Now()), name)
    {
      var e := Await();
      r := Answer(e.fate);
      if r.Done? {
        if name !in keys || !keys[name] { return Failed(None, Rejected); }
        keys := keys - {name};
      }
    }

    method PutPolicy(name: string) returns (r: Result<()>)
      modifies this
      ensures Run(Now(), r) == W.PutPolicy(old(Now()), name)
    {
      var e := Await();
      r := Answer(e.fate);
      if r.Done? { policies := policies[name := W.PolicyText(name)]; }
    }

    method DeletePolicy(name: string) returns (r: Result<()>)
      modifies this
      ensures Run(Now(), r) == W.DeletePolicy(old(Now()), name)
    {
      var e := Await();
      r := Answer(e.fate);
      if r.Done? { policies := policies - {name}; }
    }

    method WriteRole(name: string, role: W.Role) returns (r: Result<()>)
      modifies this
      ensures Run(Now(), r) == W.WriteRole(old(Now()), name, role)
    {
      var e := Await();
      r := Answer(e.fate);
      if r.Done? { roles := roles[name := role]; }
    }

    method DeleteRole(name: string) returns (r: Result<()>)
      modifies this
      ensures Run(Now(), r) == W.DeleteRole(old(Now()), name)
    {
      var e := Await();
      r := Answer(e.fate);
      if r.Done? { roles := roles - {name}; }
    }

    method CreateToken(region: string) returns (r: Result<W.Minted>)
      modifies this
      ensures Run(Now(), r) == W.CreateToken(old(Now()), region)
    {
      var e := Await();
      var done := Answer(e.fate);
      if done.IsFailure() { return done.PropagateFailure(); }
      var name := W.KeyName(region);
      if name !in roles || e.accessor in issued { return Failed(None, Rejected); }
      live := live[e.accessor := W.Token(region, roles[name].cidr)];
      issued := issued + {e.accessor};
      r := Done(W.Minted(e.accessor, e.unwrapped));
    }

    /** A 404, or a message that names the accessor; an error without an answer is neither. */
    static method IsUnknownAccessor(error: W.ApiError) returns (unknown: bool)
      ensures unknown == W.IsUnknownAccessor(error)
    {
      if error.Unreachable? { return false; }
      if error.status == 404 { return true; }
      for i := 0 to |error.messages|
        invariant forall k | 0 <= k < i :: !W.Contains(error.messages[k], W.INVALID_ACCESSOR)
      {
        if W.Contains(error.messages[i], W.INVALID_ACCESSOR) { return true; }
      }
      unknown := false;
    }

    /** What comes back as not live was not: every error but that one is returned. */
    method TokenLive(accessor: string) returns (r: Result<bool>)
      modifies this
      ensures Run(Now(), r) == W.TokenLive(old(Now()), accessor)
      ensures r.Done? ==> r.value == (accessor in live)
      ensures r.Failed? ==> r.named == Some(accessor)
    {
      var e := Await();
      if e.fate.Cut? { return Stopped; }
      if e.fate.Served? && accessor in live { return Done(true); }
      var unknown := IsUnknownAccessor(e.error);
      r := if unknown && accessor !in live then Done(false) else Failed(Some(accessor), Transport);
    }

    /** Where it comes through, no live token remains behind the accessor. */
    method Revoke(accessor: string) returns (r: Result<()>)
      modifies this
      ensures Run(Now(), r) == W.Revoke(old(Now()), accessor)
      ensures r.Done? ==> accessor !in live
      ensures r.Failed? ==> r.named == Some(accessor)
    {
      var e := Await();
      if e.fate.Cut? { return Stopped; }
      if e.fate.Served? && accessor in live {
        live := live - {accessor};
        return Done(());
      }
      var unknown := IsUnknownAccessor(e.error);
      r := if unknown && accessor !in live then Done(()) else Failed(Some(accessor), Transport);
    }

    method LookupPublic(path: string) returns (r: Result<Option<string>>)
      modifies this
      ensures Run(Now(), r) == W.LookupPublic(old(Now()), path)
    {
      var e := Await();
      var done := Answer(e.fate);
      if done.IsFailure() { return done.PropagateFailure(); }
      r := Done(if path in params then Some(params[path]) else None);
    }

    method PutPublic(path: string, value: string) returns (r: Result<()>)
      modifies this
      ensures Run(Now(), r) == W.PutPublic(old(Now()), path, value)
    {
      var e := Await();
      r := Answer(e.fate);
      if r.Done? { params := params[path := value]; }
    }

    method DeleteParameters(names: seq<string>) returns (r: Result<()>)
      modifies this
      ensures Run(Now(), r) == W.DeleteParameters(old(Now()), names)
    {
      var e := Await();
      r := Answer(e.fate);
      if r.Done? { params := params - (set name | name in names); }
    }

    /** Pages through a service's parameters until the last page. */
    method ListUnder(prefix: string) returns (r: Result<seq<string>>)
      modifies this
      ensures Run(Now(), r) == W.ListUnder(old(Now()), prefix, [])
    {
      var names: seq<string> := [];
      while true
        invariant W.ListUnder(Now(), prefix, names) == W.ListUnder(old(Now()), prefix, [])
        decreases |script|
      {
        if script == [] { return Stopped; }
        var e := Await();
        names := names + e.listing;
        if !(e.fate.Served? && e.more) {
          var done := Answer(W.Honest(e.fate, W.Lists(names, W.Under(params, prefix))));
          if done.IsFailure() { return done.PropagateFailure(); }
          return Done(names);
        }
      }
    }

    // ---------- the appliance-token phase ----------

    method PlanToken(req: T.Request) returns (r: Result<T.Plan>)
      modifies this
      ensures Run(Now(), r) == T.PlanToken(old(Now()), req)
    {
      var present := ReadKey(W.KeyName(req.region));
      if present.IsFailure() { return present.PropagateFailure(); }
      if !present.value || !req.validDurations { return Failed(None, Declined); }
      var recorded := LookupPublic(W.AccessorPath(req.region));
      if recorded.IsFailure() { return recorded.PropagateFailure(); }
      if recorded.value.None? { return Done(T.Plan(T.Mint, "", false)); }
      var accessor := recorded.value.value;
      var alive := TokenLive(accessor);
      if alive.IsFailure() { return alive.PropagateFailure(); }
      r := Done(T.Plan(T.Decide(alive.value, req.reissue), accessor, alive.value));
    }

    method EnsureTokenRole(req: T.Request) returns (r: Result<()>)
      modifies this
      ensures Run(Now(), r) == T.EnsureTokenRole(old(Now()), req)
    {
      if req.cidr == "" { return Failed(None, Declined); }
      r := WriteRole(W.KeyName(req.region), W.Role(req.cidr, req.period));
    }

    method MintWrapped(region: string) returns (r: Result<string>)
      modifies this
      ensures Run(Now(), r) == T.MintWrapped(old(Now()), region)
    {
      var minted := CreateToken(region);
      if minted.IsFailure() { return minted.PropagateFailure(); }
      if minted.value.unwrapped {
        var revoked := Revoke(minted.value.accessor);
        return if revoked.IsFailure() then revoked.PropagateFailure() else Failed(None, Declined);
      }
      r := Done(minted.value.accessor);
    }

    method RecordAccessor(region: string, accessor: string) returns (r: Result<()>)
      modifies this
      ensures Run(Now(), r) == T.RecordAccessor(old(Now()), region, accessor)
    {
      r := PutPublic(W.AccessorPath(region), accessor);
      if r.Failed? {
        var revoked := Revoke(accessor);
        r := if revoked.IsFailure() then revoked else Failed(None, Declined);
      }
    }

    method MintToken(req: T.Request, plan: T.Plan) returns (r: Result<T.Answer>)
      modifies this
      ensures Run(Now(), r) == T.MintToken(old(Now()), req, plan)
    {
      var roled := EnsureTokenRole(req);
      if roled.IsFailure() { return roled.PropagateFailure(); }
      var minted := MintWrapped(req.region);
      if minted.IsFailure() { return minted.PropagateFailure(); }
      var recorded := RecordAccessor(req.region, minted.value);
      if recorded.IsFailure() { return recorded.PropagateFailure(); }
      if plan.action == T.Reissue {
        var revoked := Revoke(plan.accessor);
        if revoked.IsFailure() { return revoked.PropagateFailure(); }
      }
      r := Done(T.Issued(minted.value));
    }

    /** The phase. Whatever the labels in use, as long as none extends another across a slash,
        it takes a token off the record only as it says: none when it comes through, the one
        that its error names, at most one when it stops, and none of another region. */
    method TokenPhase(req: T.Request) returns (r: Result<T.Answer>)
      modifies this
      ensures Run(Now(), r) == T.TokenPhase(old(Now()), req)
      ensures forall labels: set<string>, f: string | H.Inv(old(Now()), labels) && f in labels ::
        H.Inv(Now(), labels) && H.TokenBound(old(Now()), Now(), r, req.region, f)
    {
      hide T.TokenPhase, H.Inv, H.TokenBound;
      r := PlanAndMint(req);
      forall labels: set<string>, f: string | H.Inv(old(Now()), labels) && f in labels
        ensures H.Inv(Now(), labels) && H.TokenBound(old(Now()), Now(), r, req.region, f)
      {
        H.TokenPhaseBound(old(Now()), req, labels, f);
      }
    }

    method PlanAndMint(req: T.Request) returns (r: Result<T.Answer>)
      modifies this
      ensures Run(Now(), r) == T.TokenPhase(old(Now()), req)
    {
      var plan := PlanToken(req);
      if plan.IsFailure() { return plan.PropagateFailure(); }
      if !req.confirm { return Done(T.DryRun(plan.value)); }
      if plan.value.action == T.Refuse { return Failed(Some(plan.value.accessor), Declined); }
      r := MintToken(req, plan.value);
    }

    // ---------- the vault phase's reconciliation ----------

    method EnsureKeys(regions: seq<string>) returns (r: Result<()>)
      modifies this
      ensures Run(Now(), r) == V.EnsureKeys(old(Now()), regions)
    {
      for i := 0 to |regions|
        invariant V.EnsureKeys(Now(), regions[i..]) == V.EnsureKeys(old(Now()), regions)
      {
        assert regions[i..][0] == regions[i] && regions[i..][1..] == regions[i + 1..];
        var name := W.KeyName(regions[i]);
        var present := ReadKey(name);
        if present.IsFailure() { return present.PropagateFailure(); }
        if !present.value {
          var created := CreateKey(name);
          if created.IsFailure() { return created; }
        }
        var put := PutPolicy(name);
        if put.IsFailure() { return put; }
      }
      r := Done(());
    }

    method DeletePrefix(region: string) returns (r: Result<()>)
      modifies this
      ensures Run(Now(), r) == V.DeletePrefix(old(Now()), region)
    {
      var listed := ListUnder(W.Prefix(region));
      if listed.IsFailure() { return listed.PropagateFailure(); }
      var names := listed.value;
      var next := 0;
      while next < |names|
        invariant next <= |names|
        invariant V.DeleteBatches(Now(), names[next..]) == V.DeletePrefix(old(Now()), region)
      {
        var size := V.Min(10, |names| - next);
        assert names[next..][..size] == names[next..next + size];
        assert names[next..][size..] == names[next + size..];
        var deleted := DeleteParameters(names[next..next + size]);
        if deleted.IsFailure() { return deleted; }
        next := next + size;
      }
      r := Done(());
    }

    method RemoveTransitKey(region: string) returns (r: Result<()>)
      modifies this
      ensures Run(Now(), r) == V.RemoveTransitKey(old(Now()), region)
    {
      var name := W.KeyName(region);
      r := DeletePolicy(name);
      if r.IsFailure() { return; }
      r := AllowDeletion(name);
      if r.IsFailure() { return; }
      r := DeleteKey(name);
    }

    /** The retirement: the node is cut off before anything is destroyed, and a retirement
        that comes through leaves nothing of the region and everything else. */
    method Retire(region: string) returns (r: Result<()>)
      modifies this
      ensures Run(Now(), r) == V.Retire(old(Now()), region)
      ensures E.CutOff(old(Now()), Now(), region) || (roles == old(roles) && params == old(params)
                                                      && policies == old(policies) && keys == old(keys))
      ensures r.Done? ==> E.Without(old(Now()), Now(), region) && E.CutOff(old(Now()), Now(), region)
    {
      hide V.Retire, E.CutOff, E.Without;
      r := RevokeAndClear(region);
      E.RetirementCutsOffFirst(old(Now()), region);
      E.RetireEffect(old(Now()), region);
    }

    method RevokeAndClear(region: string) returns (r: Result<()>)
      modifies this
      ensures Run(Now(), r) == V.Retire(old(Now()), region)
    {
      var recorded := LookupPublic(W.AccessorPath(region));
      if recorded.IsFailure() { return recorded.PropagateFailure(); }
      if recorded.value.Some? {
        var revoked := Revoke(recorded.value.value);
        if revoked.IsFailure() { return revoked; }
      }
      r := DeleteRole(W.KeyName(region));
      if r.IsFailure() { return; }
      r := DeletePrefix(region);
      if r.IsFailure() { return; }
      r := RemoveTransitKey(region);
    }

    /** The regions among some key names. */
    static method AppliancesIn(names: seq<string>) returns (regions: seq<string>)
      ensures regions == V.RegionsOf(names)
    {
      regions := [];
      for i := 0 to |names|
        invariant regions + V.RegionsOf(names[i..]) == V.RegionsOf(names)
      {
        assert names[i..][1..] == names[i + 1..];
        if W.APPLIANCE_PREFIX <= names[i] {
          regions := regions + [names[i][|W.APPLIANCE_PREFIX|..]];
        }
      }
    }

    /** Declines when a region is on both lists, or when neither names a region that has a key. */
    static method PlanKeys(existing: seq<string>, active: seq<string>, retired: seq<string>)
      returns (plan: Option<V.KeyPlan>)
      ensures plan == V.PlanKeys(existing, active, retired)
    {
      for i := 0 to |active|
        invariant forall region | region in active[..i] :: region !in retired
      {
        if active[i] in retired {
          assert !V.Accounted(existing, active, retired);
          return None;
        }
      }
      var remove := [];
      for i := 0 to |existing|
        invariant forall region | region in existing[..i] :: region in active || region in retired
        invariant remove + V.RetiredAmong(existing[i..], active, retired) == V.RetiredAmong(existing, active, retired)
      {
        assert existing[i..][1..] == existing[i + 1..];
        if existing[i] !in active {
          if existing[i] !in retired {
            assert !V.Accounted(existing, active, retired);
            return None;
          }
          remove := remove + [existing[i]];
        }
      }
      assert active[..|active|] == active && existing[..|existing|] == existing;
      assert existing[|existing|..] == [];
      assert remove == V.RetiredAmong(existing, active, retired);
      assert V.Accounted(existing, active, retired);
      plan := Some(V.KeyPlan(active, remove));
    }

    /** The reconciliation. Short of an interruption it comes through exactly when the lists
        agree with the keys there are, and leaves the active regions' keys; a refusal changes
        nothing. */
    method Reconcile(active: seq<string>, retired: seq<string>) returns (r: Result<seq<string>>)
      modifies this
      ensures Run(Now(), r) == V.Reconcile(old(Now()), active, retired)
      ensures E.Agree(E.Regions(old(Now())), active, retired) ==> r.Done? || Interrupted(r)
      ensures !E.Agree(E.Regions(old(Now())), active, retired) ==>
        && (r == Failed(None, Declined) || Interrupted(r))
        && keys == old(keys) && policies == old(policies) && roles == old(roles) && params == old(params)
      ensures r.Done? ==> E.Reconciled(old(Now()), Now(), active, r.value)
    {
      hide V.Reconcile, E.Agree, E.Reconciled, E.Regions;
      r := PlanAndCarryOut(active, retired);
      E.ReconcileExact(old(Now()), active, retired);
    }

    method PlanAndCarryOut(active: seq<string>, retired: seq<string>) returns (r: Result<seq<string>>)
      modifies this
      ensures Run(Now(), r) == V.Reconcile(old(Now()), active, retired)
    {
      var listed := ListKeys();
      if listed.IsFailure() { return listed.PropagateFailure(); }
      var existing := AppliancesIn(listed.value);
      var plan := PlanKeys(existing, active, retired);
      if plan.None? { return Failed(None, Declined); }
      var ensured := EnsureKeys(active);
      if ensured.IsFailure() { return ensured.PropagateFailure(); }
      var remove := plan.value.remove;
      ghost var after := Now();
      for i := 0 to |remove|
        invariant V.RetireAll(Now(), remove[i..]) == V.RetireAll(after, remove)
      {
        assert remove[i..][0] == remove[i] && remove[i..][1..] == remove[i + 1..];
        var gone := Retire(remove[i]);
        if gone.IsFailure() { return gone.PropagateFailure(); }
      }
      r := Done(remove);
    }
  }
}
