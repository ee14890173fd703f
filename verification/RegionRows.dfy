/** Retiring a region's Ingot identity: its rows in hilt's database, in one transaction, and
    then its stored delegation. */
module RegionRows {
  import opened Outcomes

  /** A bucket names the provider that serves it; a delegation names DIDs in three columns,
      the subject of a powerline grant being none. */
  datatype Bucket = Bucket(provider: string, tenant: string)
  datatype Delegation = Delegation(issuer: string, audience: string, subject: Option<string>)

  /** hilt's tables: provider by DID to region, bucket by DID, a bucket's policy rows to the
      bucket, delegation rows, and all the rest. */
  datatype Tables = Tables(provider: map<string, string>, bucket: map<string, Bucket>,
                           policy: map<int, string>, delegation: map<int, Delegation>, rest: string)

  /** The environment's part in one call: `pick` is the row that a query for one row yields. */
  datatype Event = Event(fate: Fate, pick: string)

  /** hilt's tables, whether the region's two parameters are there, and the calls to come. */
  datatype World = World(db: Tables, proof: bool, stamp: bool, script: seq<Event>)

  /** bucket references provider, and a policy row its bucket. A DID is not empty. */
  predicate Referential(db: Tables) {
    && (forall id | id in db.bucket :: db.bucket[id].provider in db.provider)
    && (forall row | row in db.policy :: db.policy[row] in db.bucket)
    && "" !in db.provider
  }

  // ---------- statements ----------

  datatype Statement =
    | DeleteDelegations(dids: set<string>)
    | DeleteBuckets(provider: string)
    | DeleteProvider(id: string)

  predicate NamesAny(d: Delegation, dids: set<string>) {
    d.issuer in dids || d.audience in dids || (d.subject.Some? && d.subject.value in dids)
  }

  function DelegationsOf(db: Tables, dids: set<string>): set<int> {
    set row | row in db.delegation && NamesAny(db.delegation[row], dids)
  }

  function BucketsOf(db: Tables, provider: string): set<string> {
    set id | id in db.bucket && db.bucket[id].provider == provider
  }

  function PoliciesOf(db: Tables, buckets: set<string>): set<int> {
    set row | row in db.policy && db.policy[row] in buckets
  }

  /** The tables after a statement and the rows it counts, or the refusal to delete a
      provider that buckets reference. Policy rows go with their bucket. */
  function Exec(db: Tables, s: Statement): Option<(Tables, nat)> {
    match s
    case DeleteDelegations(dids) =>
      var rows := DelegationsOf(db, dids);
      Some((db.(delegation := db.delegation - rows), |rows|))
    case DeleteBuckets(provider) =>
      var ids := BucketsOf(db, provider);
      Some((db.(bucket := db.bucket - ids, policy := db.policy - PoliciesOf(db, ids)), |ids|))
    case DeleteProvider(id) =>
      if BucketsOf(db, id) != {} then None
      else Some((db.(provider := db.provider - {id}), if id in db.provider then 1 else 0))
  }

  function Table(s: Statement): string {
    match s
    case DeleteDelegations(_) => "delegation"
    case DeleteBuckets(_) => "bucket"
    case DeleteProvider(_) => "provider"
  }

  datatype Dids = Dids(provider: string, buckets: set<string>)
  {
    function All(): set<string> {
      {provider} + buckets
    }
  }

  /** In the order the schema demands. */
  function RegionDeletes(dids: Dids): seq<Statement> {
    [DeleteDelegations(dids.All()), DeleteBuckets(dids.provider), DeleteProvider(dids.provider)]
  }

  // ---------- remote calls ----------

  function Call(w: World): (World, Event) {
    if w.script == [] then (w, Event(Cut, "")) else (w.(script := w.script[1..]), w.script[0])
  }

  function Ask(w: World): Run<World, ()> {
    var (w, e) := Call(w);
    Reply(e.fate, w, w, ())
  }

  predicate HasProvider(db: Tables, region: string) {
    exists id | id in db.provider :: db.provider[id] == region
  }

  predicate Serves(db: Tables, id: string, region: string) {
    id in db.provider && db.provider[id] == region
  }

  /** A provider row of the region, any of them, and its buckets; nothing when it has none.
      An answer that is neither stands for a query that failed. */
  function ReadRegion(w: World, region: string): Run<World, Option<Dids>> {
    var (w, e) := Call(w);
    if !HasProvider(w.db, region) then Reply(e.fate, w, w, None)
    else if !Serves(w.db, e.pick, region) then Reply(if e.fate.Served? then Refused else e.fate, w, w, None)
    else
      var (w, _) :- Reply(e.fate, w, w, ());
      var (w, _) :- Ask(w);
      Run(w, Done(Some(Dids(e.pick, BucketsOf(w.db, e.pick)))))
  }

  // ---------- the plan ----------

  datatype Plan = Plan(provider: Option<string>, rows: map<string, nat>, proof: bool, stamp: bool)
  {
    predicate Empty() {
      provider.None? && !proof && !stamp
    }
  }

  function PlannedRows(db: Tables, dids: Dids): map<string, nat> {
    map["delegation" := |DelegationsOf(db, dids.All())|, "bucket" := |dids.buckets|, "provider" := 1]
  }

  function PlanRetire(w: World, region: string): Run<World, Plan> {
    var (w, _) :- Ask(w);
    var (w, _) :- Ask(w);
    var (w, dids) :- ReadRegion(w, region);
    match dids
    case None => Run(w, Done(Plan(None, map[], w.proof, w.stamp)))
    case Some(dids) =>
      var (w, _) :- Ask(w);
      Run(w, Done(Plan(Some(dids.provider), PlannedRows(w.db, dids), w.proof, w.stamp)))
  }

  // ---------- the deletion ----------

  /** The statements of the transaction, on its own view of the tables. */
  function ExecAll(w: World, tx: Tables, statements: seq<Statement>, counts: map<string, nat>)
    : Run<World, (Tables, map<string, nat>)>
    decreases |statements|
  {
    if statements == [] then Run(w, Done((tx, counts))) else
    var after := Exec(tx, statements[0]);
    var (w, e) := Call(w);
    var (w, _) :- ReplyIf(after.Some?, e.fate, w, w, ());
    var (tx, n) := if after.Some? then after.value else (tx, 0);
    ExecAll(w, tx, statements[1..], counts[Table(statements[0]) := n])
  }

  /** One transaction: nothing of it is there until it is committed. */
  function DeleteRegionRows(w: World, region: string): Run<World, map<string, nat>> {
    var (w, _) :- Ask(w);
    var (w, dids) :- ReadRegion(w, region);
    if dids.None? then Run(w, Failed(None, Declined)) else
    var (w, executed) :- ExecAll(w, w.db, RegionDeletes(dids.value), map[]);
    var (w, e) := Call(w);
    Reply(e.fate, w, w.(db := executed.0), executed.1)
  }

  /** ssmstore.Store.Delete on the two parameters. */
  function DeleteParameters(w: World): Run<World, ()> {
    var (w, _) :- Ask(w);
    var (w, _) :- Ask(w);
    if !w.proof && !w.stamp then Run(w, Done(())) else
    var (w, e) := Call(w);
    Reply(e.fate, w, w.(proof := false, stamp := false), ())
  }

  /** What a run deleted, by table. */
  function ApplyRetire(w: World, region: string, plan: Plan): Run<World, map<string, nat>> {
    var (w, rows) :- if plan.provider.Some? then DeleteRegionRows(w, region) else Run(w, Done(map[]));
    var (w, _) :- DeleteParameters(w);
    Run(w, Done(rows))
  }

  /** One confirmed retire-region run. */
  function RetireRun(w: World, region: string): Run<World, map<string, nat>> {
    var (w, plan) :- PlanRetire(w, region);
    if plan.Empty() then Run(w, Done(map[])) else ApplyRetire(w, region, plan)
  }

  /** What the phase returns: the plan alone unless it was confirmed. */
  datatype Answer = DryRun(plan: Plan) | RowsGone(rows: map<string, nat>)

  /** The phase: it needs a region, and hilt's connection string. */
  function RetirePhase(w: World, region: string, confirm: bool): Run<World, Answer> {
    if region == "" then Run(w, Failed(None, Declined)) else
    var (w, _) :- Ask(w);
    if confirm then
      var (w, rows) :- RetireRun(w, region);
      Run(w, Done(RowsGone(rows)))
    else
      var (w, plan) :- PlanRetire(w, region);
      Run(w, Done(DryRun(plan)))
  }

  // ---------- what the deletion does ----------

  /** The tables without the provider, its buckets and their policy rows, and every delegation
      that names one of them. */
  function Without(db: Tables, id: string): Tables {
    var buckets := BucketsOf(db, id);
    Tables(db.provider - {id}, db.bucket - buckets, db.policy - PoliciesOf(db, buckets),
           db.delegation - DelegationsOf(db, {id} + buckets), db.rest)
  }

  function Counts(db: Tables, id: string): map<string, nat> {
    PlannedRows(db, Dids(id, BucketsOf(db, id)))
  }

  /** In their order, the three statements are never refused, and each leaves the tables
      referential; together they take exactly what names the provider or a bucket of it. */
  lemma StatementsNeverRefused(db: Tables, id: string)
    requires Referential(db) && id in db.provider
    ensures var s := RegionDeletes(Dids(id, BucketsOf(db, id)));
      && Exec(db, s[0]).Some? && Referential(Exec(db, s[0]).value.0)
      && var db1 := Exec(db, s[0]).value.0;
      && Exec(db1, s[1]).Some? && Referential(Exec(db1, s[1]).value.0)
      && var db2 := Exec(db1, s[1]).value.0;
      && Exec(db2, s[2]).Some? && Referential(Exec(db2, s[2]).value.0)
      && Exec(db2, s[2]).value.0 == Without(db, id)
  {
    var db1 := db.(delegation := db.delegation - DelegationsOf(db, {id} + BucketsOf(db, id)));
    assert BucketsOf(db1, id) == BucketsOf(db, id);
    assert PoliciesOf(db1, BucketsOf(db, id)) == PoliciesOf(db, BucketsOf(db, id));
    var db2 := db1.(bucket := db1.bucket - BucketsOf(db, id),
                    policy := db1.policy - PoliciesOf(db1, BucketsOf(db, id)));
    assert BucketsOf(db2, id) == {};
  }

  /** Statements one after the other, as far as the schema lets them through. */
  function ExecInOrder(db: Tables, statements: seq<Statement>): Option<Tables>
    decreases |statements|
  {
    if statements == [] then Some(db) else
    var after := Exec(db, statements[0]);
    if after.None? then None else ExecInOrder(after.value.0, statements[1..])
  }

  /** Whether one statement comes before another in a list. */
  predicate Precedes(first: Statement, second: Statement, statements: seq<Statement>) {
    exists i, j | 0 <= i < j < |statements| :: statements[i] == first && statements[j] == second
  }

  /** Any order of the three statements. */
  predicate AnyOrder(statements: seq<Statement>, db: Tables, id: string) {
    multiset(statements) == multiset(RegionDeletes(Dids(id, BucketsOf(db, id))))
  }

  lemma DelegationsCommute(db: Tables, dids: set<string>, other: Statement)
    requires !other.DeleteDelegations? && Exec(db, other).Some?
    ensures var first := Exec(db, DeleteDelegations(dids)).value.0;
      && Exec(first, other).Some?
      && Exec(Exec(db, other).value.0, DeleteDelegations(dids)).value.0 == Exec(first, other).value.0
  {
    var first := Exec(db, DeleteDelegations(dids)).value.0;
    var second := Exec(db, other).value.0;
    assert DelegationsOf(second, dids) == DelegationsOf(db, dids);
    if other.DeleteBuckets? {
      assert BucketsOf(first, other.provider) == BucketsOf(db, other.provider);
      assert PoliciesOf(first, BucketsOf(db, other.provider)) == PoliciesOf(db, BucketsOf(db, other.provider));
    } else {
      assert BucketsOf(first, other.id) == BucketsOf(db, other.id);
    }
  }

  lemma DelegationsDoNotDecide(db: Tables, dids: set<string>, id: string)
    ensures Exec(Exec(db, DeleteDelegations(dids)).value.0, DeleteProvider(id)).Some? <==>
      Exec(db, DeleteProvider(id)).Some?
  {
    assert BucketsOf(Exec(db, DeleteDelegations(dids)).value.0, id) == BucketsOf(db, id);
  }

  /** A provider without buckets may go before them. */
  lemma ProviderCommutes(db: Tables, id: string)
    requires BucketsOf(db, id) == {}
    ensures var first := Exec(db, DeleteProvider(id)).value.0;
      var second := Exec(db, DeleteBuckets(id)).value.0;
      && Exec(second, DeleteProvider(id)).Some?
      && Exec(first, DeleteBuckets(id)).value.0 == Exec(second, DeleteProvider(id)).value.0
  {
    var first := Exec(db, DeleteProvider(id)).value.0;
    var second := Exec(db, DeleteBuckets(id)).value.0;
    assert BucketsOf(first, id) == {} == BucketsOf(second, id);
    assert PoliciesOf(first, {}) == {} == PoliciesOf(db, {});
  }

  lemma ThreeInOrder(db: Tables, a: Statement, b: Statement, c: Statement)
    ensures ExecInOrder(db, [a, b, c]) ==
      if Exec(db, a).None? then None
      else var db1 := Exec(db, a).value.0;
        if Exec(db1, b).None? then None
        else var db2 := Exec(db1, b).value.0;
          if Exec(db2, c).None? then None else Some(Exec(db2, c).value.0)
  {
    hide Exec;
    assert [a, b, c][1..] == [b, c] && [b, c][1..] == [c] && [c][1..] == [];
    if Exec(db, a).Some? {
      var db1 := Exec(db, a).value.0;
      assert ExecInOrder(db, [a, b, c]) == ExecInOrder(db1, [b, c]);
      if Exec(db1, b).Some? {
        assert ExecInOrder(db1, [b, c]) == ExecInOrder(Exec(db1, b).value.0, [c]);
      }
    }
  }

  /** The schema lets this order through, or not; if it does, it ends here. */
  predicate EndsHere(db: Tables, statements: seq<Statement>, through: bool, end: Tables) {
    ExecInOrder(db, statements) == if through then Some(end) else None
  }

  lemma BucketsBeforeProvider(db: Tables, id: string)
    requires Referential(db) && id in db.provider
    ensures var dids := {id} + BucketsOf(db, id);
      var a, b, c := DeleteDelegations(dids), DeleteBuckets(id), DeleteProvider(id);
      && EndsHere(db, [a, b, c], true, Without(db, id))
      && EndsHere(db, [b, a, c], true, Without(db, id))
      && EndsHere(db, [b, c, a], true, Without(db, id))
  {
    StatementsNeverRefused(db, id);
    var dids := {id} + BucketsOf(db, id);
    var a, b, c := DeleteDelegations(dids), DeleteBuckets(id), DeleteProvider(id);
    ThreeInOrder(db, a, b, c);
    ThreeInOrder(db, b, a, c);
    ThreeInOrder(db, b, c, a);
    DelegationsCommute(db, dids, b);
    var buckets := Exec(db, b).value.0;
    DelegationsDoNotDecide(buckets, dids, id);
    assert BucketsOf(buckets, id) == {};
    DelegationsCommute(buckets, dids, c);
    assert Exec(db, a).Some?;
    hide ExecInOrder, Exec, Without;
  }

  lemma ProviderBeforeBuckets(db: Tables, id: string)
    requires Referential(db) && id in db.provider
    ensures var dids := {id} + BucketsOf(db, id);
      var a, b, c := DeleteDelegations(dids), DeleteBuckets(id), DeleteProvider(id);
      var none := BucketsOf(db, id) == {};
      && EndsHere(db, [a, c, b], none, Without(db, id))
      && EndsHere(db, [c, a, b], none, Without(db, id))
      && EndsHere(db, [c, b, a], none, Without(db, id))
  {
    var dids := {id} + BucketsOf(db, id);
    var a, b, c := DeleteDelegations(dids), DeleteBuckets(id), DeleteProvider(id);
    ThreeInOrder(db, a, c, b);
    ThreeInOrder(db, c, a, b);
    ThreeInOrder(db, c, b, a);
    DelegationsDoNotDecide(db, dids, id);
    assert Exec(db, a).Some?;
    if BucketsOf(db, id) == {} {
      BucketsBeforeProvider(db, id);
      ThreeInOrder(db, a, b, c);
      ThreeInOrder(db, b, c, a);
      var first := Exec(db, a).value.0;
      assert BucketsOf(first, id) == {};
      ProviderCommutes(first, id);
      ProviderCommutes(db, id);
      DelegationsCommute(db, dids, c);
      var provider := Exec(db, c).value.0;
      DelegationsCommute(provider, dids, b);
      assert Exec(provider, b).Some? && Exec(provider, a).Some? && Exec(first, b).Some?;
    }
    hide ExecInOrder, Without;
  }

  lemma ThreeOrders(t: seq<Statement>, a: Statement, b: Statement, c: Statement)
    requires multiset(t) == multiset([a, b, c]) && a != b && a != c && b != c
    ensures t in {[a, b, c], [b, a, c], [b, c, a], [a, c, b], [c, a, b], [c, b, a]}
  {
    assert |t| == |multiset(t)| == 3;
    assert t == [t[0], t[1], t[2]];
    assert t[0] in multiset([a, b, c]) && t[1] in multiset([a, b, c]) && t[2] in multiset([a, b, c]);
    assert multiset(t)[a] == 1 && multiset(t)[b] == 1 && multiset(t)[c] == 1;
  }

  /** In whatever order, the schema lets the three statements through exactly when the
      provider has no bucket or its buckets go before it; and whenever it does, they leave the
      same tables. */
  lemma OrderMattersExactlyForTheProvider(db: Tables, id: string, statements: seq<Statement>)
    requires Referential(db) && id in db.provider && AnyOrder(statements, db, id)
    ensures EndsHere(db, statements,
                     BucketsOf(db, id) == {} || Precedes(DeleteBuckets(id), DeleteProvider(id), statements),
                     Without(db, id))
  {
    var a, b, c := DeleteDelegations({id} + BucketsOf(db, id)), DeleteBuckets(id), DeleteProvider(id);
    ThreeOrders(statements, a, b, c);
    BucketsBeforeProvider(db, id);
    ProviderBeforeBuckets(db, id);
    hide EndsHere, Without, BucketsOf, Referential, Precedes;
    WhichPrecedes(statements, a, b, c);
  }

  lemma WhichPrecedes(t: seq<Statement>, a: Statement, b: Statement, c: Statement)
    requires a != b && a != c && b != c
    ensures t in {[a, b, c], [b, a, c], [b, c, a]} ==> Precedes(b, c, t)
    ensures t in {[a, c, b], [c, a, b], [c, b, a]} ==> !Precedes(b, c, t)
  {
    if t in {[a, b, c], [b, a, c], [b, c, a]} {
      var i := if t[0] == b then 0 else 1;
      var j := if t[2] == c then 2 else 1;
      assert t[i] == b && t[j] == c;
    }
  }

  /** What is left: no bucket of that provider, no delegation that names it or a bucket that
      went; and whatever names neither is still there. */
  lemma WithoutLeavesTheRest(db: Tables, id: string)
    requires Referential(db)
    ensures var left := Without(db, id);
      && id !in left.provider && BucketsOf(left, id) == {}
      && (forall row | row in left.delegation :: !NamesAny(left.delegation[row], {id} + BucketsOf(db, id)))
      && (forall p | p in db.provider && p != id :: p in left.provider && left.provider[p] == db.provider[p])
      && (forall b | b in db.bucket && db.bucket[b].provider != id ::
            b in left.bucket && left.bucket[b] == db.bucket[b])
      && (forall row | row in db.policy && db.bucket[db.policy[row]].provider != id ::
            row in left.policy && left.policy[row] == db.policy[row])
      && (forall row | row in db.delegation && !NamesAny(db.delegation[row], {id} + BucketsOf(db, id)) ::
            row in left.delegation && left.delegation[row] == db.delegation[row])
      && left.rest == db.rest
  {
  }

  // ---------- runs ----------

  lemma ReadRegionFacts(w: World, region: string)
    ensures var run := ReadRegion(w, region);
      && run.world == w.(script := run.world.script)
      && (run.result.Done? || Interrupted(run.result))
      && (run.result.Done? ==>
            && (run.result.value.None? <==> !HasProvider(w.db, region))
            && (run.result.value.Some? ==>
                  && Serves(w.db, run.result.value.value.provider, region)
                  && run.result.value.value.buckets == BucketsOf(w.db, run.result.value.value.provider)))
  {
  }

  lemma {:induction false} ExecAllFacts(w: World, tx: Tables, statements: seq<Statement>, counts: map<string, nat>)
    ensures var run := ExecAll(w, tx, statements, counts);
      run.world == w.(script := run.world.script)
    decreases |statements|
  {
    if statements != [] {
      var after := Exec(tx, statements[0]);
      var (w1, e) := Call(w);
      if after.Some? && e.fate.Served? {
        ExecAllFacts(w1, after.value.0, statements[1..], counts[Table(statements[0]) := after.value.1]);
      }
    }
  }

  /** One statement of the transaction. */
  lemma ExecStep(w: World, tx: Tables, statements: seq<Statement>, counts: map<string, nat>)
    requires statements != [] && Exec(tx, statements[0]).Some?
    ensures var run, (w1, e) := ExecAll(w, tx, statements, counts), Call(w);
      if e.fate.Served?
      then run == ExecAll(w1, Exec(tx, statements[0]).value.0, statements[1..],
                          counts[Table(statements[0]) := Exec(tx, statements[0]).value.1])
      else Interrupted(run.result)
  {
  }

  lemma ExecRegion(w: World, db: Tables, id: string)
    requires Referential(db) && id in db.provider
    ensures var run := ExecAll(w, db, RegionDeletes(Dids(id, BucketsOf(db, id))), map[]);
      && run.world == w.(script := run.world.script)
      && (run.result.Done? || Interrupted(run.result))
      && (run.result.Done? ==> run.result.value == (Without(db, id), Counts(db, id)))
  {
    var s := RegionDeletes(Dids(id, BucketsOf(db, id)));
    StatementsNeverRefused(db, id);
    CountsHold(db, id);
    ExecAllFacts(w, db, s, map[]);
    hide ExecAll, Exec, Without, Counts;
    var db1 := Exec(db, s[0]).value.0;
    var db2 := Exec(db1, s[1]).value.0;
    var c1 := map["delegation" := Exec(db, s[0]).value.1];
    var c2 := c1["bucket" := Exec(db1, s[1]).value.1];
    ExecStep(w, db, s, map[]);
    var (w1, _) := Call(w);
    assert s[1..] == [s[1], s[2]] && s[1..][1..] == [s[2]] && [s[2]][1..] == [];
    ExecStep(w1, db1, [s[1], s[2]], c1);
    var (w2, _) := Call(w1);
    ExecStep(w2, db2, [s[2]], c2);
    ExecNothing(Call(w2).0, Exec(db2, s[2]).value.0, c2["provider" := Exec(db2, s[2]).value.1]);
  }

  lemma ExecNothing(w: World, tx: Tables, counts: map<string, nat>)
    ensures ExecAll(w, tx, [], counts) == Run(w, Done((tx, counts)))
  {
  }

  lemma CountsHold(db: Tables, id: string)
    requires Referential(db) && id in db.provider
    ensures var s := RegionDeletes(Dids(id, BucketsOf(db, id)));
      var db1 := Exec(db, s[0]).value.0;
      var db2 := Exec(db1, s[1]).value.0;
      && Exec(db2, s[2]).Some?
      && map["delegation" := Exec(db, s[0]).value.1]
            ["bucket" := Exec(db1, s[1]).value.1]
            ["provider" := Exec(db2, s[2]).value.1]
           == Counts(db, id)
  {
    StatementsNeverRefused(db, id);
    var db1 := db.(delegation := db.delegation - DelegationsOf(db, {id} + BucketsOf(db, id)));
    assert BucketsOf(db1, id) == BucketsOf(db, id);
  }

  /** A deletion of a region's rows is the environment's to stop, never the schema's. Either
      nothing has gone, or exactly one provider of the region has, with all that names it,
      and the counts say how much of what. */
  lemma DeleteRegionRowsFacts(w: World, region: string)
    requires Referential(w.db)
    ensures var run := DeleteRegionRows(w, region);
      && run.world == w.(db := run.world.db, script := run.world.script)
      && (run.result.Done? ==>
            exists id :: Serves(w.db, id, region) && run.world.db == Without(w.db, id)
              && run.result.value == Counts(w.db, id))
      && (!run.result.Done? ==> run.world.db == w.db)
      && (run.result.Done? || Interrupted(run.result)
          || (run.result == Failed(None, Declined) && !HasProvider(w.db, region)))
  {
    hide ReadRegion, ExecAll, RegionDeletes, Without, Counts, HasProvider, Referential, BucketsOf;
    var asked := Ask(w);
    if asked.result.Done? {
      ReadRegionFacts(asked.world, region);
      var read := ReadRegion(asked.world, region);
      if read.result.Done? && read.result.value.Some? {
        var dids := read.result.value.value;
        assert dids == Dids(dids.provider, BucketsOf(w.db, dids.provider));
        ExecRegion(read.world, w.db, dids.provider);
        var executed := ExecAll(read.world, w.db, RegionDeletes(dids), map[]);
        if executed.result.Done? {
          assert Serves(w.db, dids.provider, region);
        }
      }
    }
  }

  ghost predicate Only(db: Tables, id: string, region: string) {
    Serves(db, id, region) && forall p | Serves(db, p, region) :: p == id
  }

  lemma PlanFacts(w: World, region: string)
    ensures var run := PlanRetire(w, region);
      && run.world == w.(script := run.world.script)
      && (run.result.Done? || Interrupted(run.result))
      && (run.result.Done? ==>
            var plan := run.result.value;
            && plan.proof == w.proof && plan.stamp == w.stamp
            && (plan.provider.None? <==> !HasProvider(w.db, region))
            && (plan.provider.Some? ==>
                Serves(w.db, plan.provider.value, region) && plan.rows == Counts(w.db, plan.provider.value)))
  {
    hide ReadRegion, PlannedRows, BucketsOf, HasProvider, Serves;
    var first := Ask(w);
    if first.result.Done? {
      var second := Ask(first.world);
      if second.result.Done? {
        ReadRegionFacts(second.world, region);
      }
    }
  }

  /** Nothing of the region's Ingot identity is left. */
  predicate Retired(w: World, region: string) {
    !HasProvider(w.db, region) && !w.proof && !w.stamp
  }

  /** A plan is empty exactly when the region is retired. */
  lemma EmptyExactlyWhenRetired(w: World, region: string)
    ensures PlanRetire(w, region).result.Done? ==> (PlanRetire(w, region).result.value.Empty() <==> Retired(w, region))
  {
    hide PlanRetire;
    PlanFacts(w, region);
  }

  /** A run, as far as it got: the rows all there or all gone, and the parameters gone only
      after the rows. */
  lemma RetireRunFacts(w: World, region: string, id: string)
    requires Referential(w.db) && (HasProvider(w.db, region) ==> Only(w.db, id, region))
    ensures var run := RetireRun(w, region);
      var left := if HasProvider(w.db, region) then Without(w.db, id) else w.db;
      && (run.world.db == w.db || run.world.db == left)
      && ((run.world.proof == w.proof && run.world.stamp == w.stamp)
          || (run.world.db == left && !run.world.proof && !run.world.stamp))
      && (run.result.Done? ==> run.world.db == left && !run.world.proof && !run.world.stamp)
      && (run.result.Done? && HasProvider(w.db, region) ==> run.result.value == Counts(w.db, id))
      && (run.result.Done? || Interrupted(run.result))
  {
    PlanFacts(w, region);
    hide PlanRetire, Without, Counts, HasProvider, Referential;
    var planned := PlanRetire(w, region);
    if planned.result.Done? && !planned.result.value.Empty() {
      ApplyFacts(planned.world, region, id, planned.result.value);
      hide ApplyRetire;
    }
  }

  lemma DeleteParametersFacts(w: World)
    ensures var run := DeleteParameters(w);
      && run.world == w.(proof := run.world.proof, stamp := run.world.stamp, script := run.world.script)
      && ((run.world.proof == w.proof && run.world.stamp == w.stamp) || (!run.world.proof && !run.world.stamp))
      && (run.result.Done? ==> !run.world.proof && !run.world.stamp)
      && (run.result.Done? || Interrupted(run.result))
  {
  }

  lemma ApplyFacts(w: World, region: string, id: string, plan: Plan)
    requires Referential(w.db) && (HasProvider(w.db, region) ==> Only(w.db, id, region))
    requires plan.provider.None? <==> !HasProvider(w.db, region)
    ensures var run := ApplyRetire(w, region, plan);
      var left := if HasProvider(w.db, region) then Without(w.db, id) else w.db;
      && (run.world.db == w.db || run.world.db == left)
      && ((run.world.proof == w.proof && run.world.stamp == w.stamp)
          || (run.world.db == left && !run.world.proof && !run.world.stamp))
      && (run.result.Done? ==> run.world.db == left && !run.world.proof && !run.world.stamp)
      && (run.result.Done? && HasProvider(w.db, region) ==> run.result.value == Counts(w.db, id))
      && (run.result.Done? || Interrupted(run.result))
  {
    DeleteRegionRowsFacts(w, region);
    hide DeleteRegionRows, DeleteParameters, Without, Counts, HasProvider, Referential;
    var w1 := if plan.provider.Some? then DeleteRegionRows(w, region).world else w;
    DeleteParametersFacts(w1);
  }

  /** With one provider for the region and the data unchanged in between, a run deletes as
      many rows of each table as the plan announced. */
  lemma CountsAreThePlans(w: World, region: string, id: string, script: seq<Event>)
    requires Referential(w.db) && Only(w.db, id, region)
    ensures var planned, run := PlanRetire(w, region), RetireRun(w.(script := script), region);
      planned.result.Done? && run.result.Done? ==> run.result.value == planned.result.value.rows
  {
    hide PlanRetire, RetireRun, Counts;
    PlanFacts(w, region);
    assert Serves(w.db, id, region);
    RetireRunFacts(w.(script := script), region, id);
  }

  // ---------- stopped runs ----------

  function Play(w: World, region: string, scripts: seq<seq<Event>>): World
    decreases |scripts|
  {
    if scripts == [] then w
    else Play(RetireRun(w.(script := scripts[0]), region).world, region, scripts[1..])
  }

  /** Where any number of runs may have got to. */
  predicate Between(w: World, now: World, region: string, id: string) {
    var left := if HasProvider(w.db, region) then Without(w.db, id) else w.db;
    && (now.db == w.db || now.db == left)
    && ((now.proof == w.proof && now.stamp == w.stamp) || (!now.proof && !now.stamp))
  }

  lemma WithoutIsRetired(db: Tables, region: string, id: string)
    requires Referential(db) && Only(db, id, region)
    ensures !HasProvider(Without(db, id), region) && Referential(Without(db, id))
  {
    StatementsNeverRefused(db, id);
    forall p | p in Without(db, id).provider ensures Without(db, id).provider[p] != region {
      assert Serves(db, p, region) ==> p == id;
    }
  }

  lemma BetweenOn(w: World, now: World, region: string, id: string, script: seq<Event>)
    requires Referential(w.db) && (HasProvider(w.db, region) ==> Only(w.db, id, region)) && Between(w, now, region, id)
    ensures var run := RetireRun(now.(script := script), region);
      && Between(w, run.world, region, id)
      && (run.result.Done? ==>
            && run.world.db == (if HasProvider(w.db, region) then Without(w.db, id) else w.db)
            && !run.world.proof && !run.world.stamp)
  {
    if HasProvider(w.db, region) {
      WithoutIsRetired(w.db, region, id);
    }
    hide RetireRun, Without;
    RetireRunFacts(now.(script := script), region, id);
  }

  lemma {:induction false} PlayBetween(w: World, now: World, region: string, id: string, scripts: seq<seq<Event>>)
    requires Referential(w.db) && (HasProvider(w.db, region) ==> Only(w.db, id, region)) && Between(w, now, region, id)
    ensures Between(w, Play(now, region, scripts), region, id)
    decreases |scripts|
  {
    if scripts != [] {
      hide RetireRun, Between;
      BetweenOn(w, now, region, id, scripts[0]);
      PlayBetween(w, RetireRun(now.(script := scripts[0]), region).world, region, id, scripts[1..]);
    }
  }

  /** After any number of runs that stopped or failed anywhere, a run that comes through has
      left exactly what one uninterrupted run would have: the region is retired and nothing
      else has gone. */
  lemma RerunFinishesRetirement(w: World, region: string, id: string, scripts: seq<seq<Event>>, script: seq<Event>)
    requires Referential(w.db) && (HasProvider(w.db, region) ==> Only(w.db, id, region))
    ensures var run := RetireRun(Play(w, region, scripts).(script := script), region);
      run.result.Done? ==>
        && run.world.db == (if HasProvider(w.db, region) then Without(w.db, id) else w.db)
        && Retired(run.world, region)
  {
    hide RetireRun, Without;
    PlayBetween(w, w, region, id, scripts);
    BetweenOn(w, Play(w, region, scripts), region, id, script);
    if HasProvider(w.db, region) {
      WithoutIsRetired(w.db, region, id);
    }
  }

  ghost predicate AtMostOne(db: Tables, region: string) {
    forall p, q | Serves(db, p, region) && Serves(db, q, region) :: p == q
  }

  /** A run takes one provider row of the region, whatever that row is: it retires the region
      exactly when there is no second one. */
  lemma RetiresExactlyWhenOneProvider(w: World, region: string)
    requires Referential(w.db)
    ensures RetireRun(w, region).result.Done? ==>
      (Retired(RetireRun(w, region).world, region) <==> AtMostOne(w.db, region))
  {
    PlanFacts(w, region);
    var planned := PlanRetire(w, region);
    if !RetireRun(w, region).result.Done? {
    } else if HasProvider(w.db, region) {
      hide PlanRetire, DeleteRegionRows;
      DeleteRegionRowsFacts(planned.world, region);
      var rows := DeleteRegionRows(planned.world, region);
      DeleteParametersFacts(rows.world);
      hide DeleteParameters;
      var id :| Serves(w.db, id, region) && rows.world.db == Without(w.db, id);
      assert RetireRun(w, region).world.db == Without(w.db, id);
      OneFewer(w.db, id, region);
    } else {
      RetireRunFacts(w, region, "");
      hide RetireRun;
    }
  }

  lemma OneFewer(db: Tables, id: string, region: string)
    requires Serves(db, id, region)
    ensures HasProvider(Without(db, id), region) <==> !AtMostOne(db, region)
  {
    var left := Without(db, id).provider;
    assert forall p | p in left && left[p] == region :: Serves(db, p, region) && p != id;
    if p :| Serves(db, p, region) && p != id {
      assert p in left && left[p] == region;
    }
  }

  /** Without confirmation the phase changes nothing. With it, and hilt's tables referential, a
      phase that comes through has taken one provider row of the region, if there was any,
      with all that names it, and the delegation; so it retires the region exactly when there
      was no second row. */
  lemma PhaseRetires(w: World, region: string, confirm: bool)
    ensures var run := RetirePhase(w, region, confirm);
      && (!confirm ==> run.world == w.(script := run.world.script))
      && (confirm && Referential(w.db) && run.result.Done? ==>
            (Retired(run.world, region) <==> AtMostOne(w.db, region)))
  {
    hide PlanRetire, RetireRun, Retired, AtMostOne, Referential, HasProvider, Serves, Counts;
    var asked := Ask(w);
    assert asked.world.db == w.db;
    PlanFacts(asked.world, region);
    if Referential(w.db) {
      RetiresExactlyWhenOneProvider(asked.world, region);
    }
  }
}
