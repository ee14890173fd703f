/** Reconciling the appliance transit keys with the two committed region lists,
    and the ordered retirement of a region. */
module ApplianceVault {
  import opened Outcomes
  import opened ApplianceWorld

  // ---------- planning ----------

  datatype KeyPlan = KeyPlan(active: seq<string>, remove: seq<string>)

  /** The regions among some key names, in the order the names come. */
  function RegionsOf(names: seq<string>): seq<string> {
    if names == [] then []
    else if APPLIANCE_PREFIX <= names[0]
    then [names[0][|APPLIANCE_PREFIX|..]] + RegionsOf(names[1..])
    else RegionsOf(names[1..])
  }

  function RetiredAmong(existing: seq<string>, active: seq<string>, retired: seq<string>): seq<string> {
    if existing == [] then []
    else if existing[0] !in active && existing[0] in retired
    then [existing[0]] + RetiredAmong(existing[1..], active, retired)
    else RetiredAmong(existing[1..], active, retired)
  }

  /** No region is on both lists, and every existing key is on one. */
  predicate Accounted(existing: seq<string>, active: seq<string>, retired: seq<string>) {
    && (forall region | region in active :: region !in retired)
    && (forall region | region in existing :: region in active || region in retired)
  }

  function PlanKeys(existing: seq<string>, active: seq<string>, retired: seq<string>): Option<KeyPlan> {
    if Accounted(existing, active, retired)
    then Some(KeyPlan(active, RetiredAmong(existing, active, retired)))
    else None
  }

  // ---------- carrying it out ----------

  function EnsureKey(w: World, region: string): Run<World, ()> {
    var (w, present) :- ReadKey(w, KeyName(region));
    var (w, _) :- if present then Run(w, Done(())) else CreateKey(w, KeyName(region));
    PutPolicy(w, KeyName(region))
  }

  function EnsureKeys(w: World, regions: seq<string>): Run<World, ()>
    decreases |regions|
  {
    if regions == [] then Run(w, Done(())) else
    var (w, _) :- EnsureKey(w, regions[0]);
    EnsureKeys(w, regions[1..])
  }

  function Min(a: nat, b: nat): nat {
    if a < b then a else b
  }

  /** DeleteParameters takes at most ten names per call. */
  function DeleteBatches(w: World, names: seq<string>): Run<World, ()>
    decreases |names|
  {
    if names == [] then Run(w, Done(())) else
    var batch := Min(10, |names|);
    var (w, _) :- DeleteParameters(w, names[..batch]);
    DeleteBatches(w, names[batch..])
  }

  function DeletePrefix(w: World, region: string): Run<World, ()> {
    var (w, names) :- ListUnder(w, Prefix(region), []);
    DeleteBatches(w, names)
  }

  function RemoveTransitKey(w: World, region: string): Run<World, ()> {
    var (w, _) :- DeletePolicy(w, KeyName(region));
    var (w, _) :- AllowDeletion(w, KeyName(region));
    DeleteKey(w, KeyName(region))
  }

  /** The recorded token, if there is one, is revoked. */
  function RevokeRecorded(w: World, region: string): Run<World, ()> {
    var (w, recorded) :- LookupPublic(w, AccessorPath(region));
    if recorded.None? then Run(w, Done(())) else Revoke(w, recorded.value)
  }

  /** The role, the parameters, and the key last of all. */
  function ClearRegion(w: World, region: string): Run<World, ()> {
    var (w, _) :- DeleteRole(w, KeyName(region));
    var (w, _) :- DeletePrefix(w, region);
    RemoveTransitKey(w, region)
  }

  /** Revoke first, destroy the key last. */
  function Retire(w: World, region: string): Run<World, ()> {
    var (w, _) :- RevokeRecorded(w, region);
    ClearRegion(w, region)
  }

  function RetireAll(w: World, regions: seq<string>): Run<World, ()>
    decreases |regions|
  {
    if regions == [] then Run(w, Done(())) else
    var (w, _) :- Retire(w, regions[0]);
    RetireAll(w, regions[1..])
  }

  function CarryOut(w: World, plan: KeyPlan): Run<World, seq<string>> {
    var (w, _) :- EnsureKeys(w, plan.active);
    var (w, _) :- RetireAll(w, plan.remove);
    Run(w, Done(plan.remove))
  }

  /** A finished reconciliation reports the regions it retired. */
  function Reconcile(w: World, active: seq<string>, retired: seq<string>): Run<World, seq<string>> {
    var (w, names) :- ListKeys(w);
    var plan := PlanKeys(RegionsOf(names), active, retired);
    if plan.None? then Run(w, Failed(None, Declined)) else CarryOut(w, plan.value)
  }
}
