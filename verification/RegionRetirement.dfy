/** retire-region as the Lambda runs it: queries, a transaction, and the parameter store. */
module RegionRetirement {
  import opened Outcomes
  import R = RegionRows

  /** hilt's database and the region's two parameters. */
  class Stage {
    var db: R.Tables
    var proof: bool
    var stamp: bool
    var script: seq<R.Event>

    ghost function Now(): R.World
      reads this
    {
      R.World(db, proof, stamp, script)
    }

    method Await() returns (r: Result<()>, pick: string)
      modifies this`script
      ensures var (w, e) := R.Call(old(Now())); Run(Now(), r) == Reply(e.fate, w, w, ()) && pick == e.pick
    {
      if script == [] { return Stopped, ""; }
      pick := script[0].pick;
      r := Answer(script[0].fate);
      script := script[1..];
    }

    /** The result rows of the bucket query, one by one in whatever order they come. */
    static method CollectBuckets(db: R.Tables, provider: string) returns (buckets: seq<string>)
      ensures forall id :: id in buckets <==> id in R.BucketsOf(db, provider)
      ensures |buckets| == |R.BucketsOf(db, provider)|
    {
      var rows := R.BucketsOf(db, provider);
      buckets := [];
      while rows != {}
        invariant rows <= R.BucketsOf(db, provider)
        invariant forall id :: id in buckets <==> id in R.BucketsOf(db, provider) - rows
        invariant |buckets| + |rows| == |R.BucketsOf(db, provider)|
        decreases |rows|
      {
        var id :| id in rows;
        rows, buckets := rows - {id}, buckets + [id];
      }
    }

    method ReadRegionDids(region: string) returns (r: Result<Option<R.Dids>>)
      modifies this`script
      ensures Run(Now(), r) == R.ReadRegion(old(Now()), region)
    {
      var asked, pick := Await();
      if asked.IsFailure() { return asked.PropagateFailure(); }
      if !R.HasProvider(db, region) { return Done(None); }
      if !R.Serves(db, pick, region) { return Failed(None, Transport); }
      var answered, _ := Await();
      if answered.IsFailure() { return answered.PropagateFailure(); }
      var rows := CollectBuckets(db, pick);
      var buckets := set id | id in rows;
      assert buckets == R.BucketsOf(db, pick);
      r := Done(Some(R.Dids(pick, buckets)));
    }

    method PlanRetire(region: string) returns (r: Result<R.Plan>)
      modifies this`script
      ensures Run(Now(), r) == R.PlanRetire(old(Now()), region)
    {
      hide R.ReadRegion;
      var asked, _ := Await();
      if asked.IsFailure() { return asked.PropagateFailure(); }
      var proofFound := proof;
      var again, _ := Await();
      if again.IsFailure() { return again.PropagateFailure(); }
      var stampFound := stamp;
      var dids := ReadRegionDids(region);
      if dids.IsFailure() { return dids.PropagateFailure(); }
      if dids.value.None? { return Done(R.Plan(None, map[], proofFound, stampFound)); }
      var counted, _ := Await();
      if counted.IsFailure() { return counted.PropagateFailure(); }
      r := Done(R.Plan(Some(dids.value.value.provider), R.PlannedRows(db, dids.value.value), proofFound, stampFound));
    }

    /** The statements, one by one, on the transaction's own view of the tables. */
    method ExecAll(start: R.Tables, statements: seq<R.Statement>) returns (r: Result<(R.Tables, map<string, nat>)>)
      modifies this`script
      ensures Run(Now(), r) == R.ExecAll(old(Now()), start, statements, map[])
    {
      hide R.Exec, R.Table;
      var tx := start;
      var deleted: map<string, nat> := map[];
      for i := 0 to |statements|
        invariant R.ExecAll(Now(), tx, statements[i..], deleted) == R.ExecAll(old(Now()), start, statements, map[])
      {
        assert statements[i..][0] == statements[i] && statements[i..][1..] == statements[i + 1..];
        var after := R.Exec(tx, statements[i]);
        var executed, _ := Await();
        if executed.IsFailure() { return executed.PropagateFailure(); }
        if after.None? { return Failed(None, Rejected); }
        tx := after.value.0;
        deleted := deleted[R.Table(statements[i]) := after.value.1];
      }
      r := Done((tx, deleted));
    }

    /** The database takes the transaction's view over at the commit, and not before. */
    method DeleteRegionRows(region: string) returns (r: Result<map<string, nat>>)
      modifies this`db, this`script
      ensures Run(Now(), r) == R.DeleteRegionRows(old(Now()), region)
    {
      hide R.ReadRegion, R.ExecAll, R.RegionDeletes;
      var begun, _ := Await();
      if begun.IsFailure() { return begun.PropagateFailure(); }
      var dids := ReadRegionDids(region);
      if dids.IsFailure() { return dids.PropagateFailure(); }
      if dids.value.None? { return Failed(None, Declined); }
      var executed := ExecAll(db, R.RegionDeletes(dids.value.value));
      if executed.IsFailure() { return executed.PropagateFailure(); }
      var committed, _ := Await();
      if committed.IsFailure() { return committed.PropagateFailure(); }
      db := executed.value.0;
      r := Done(executed.value.1);
    }

    method DeleteParameters() returns (r: Result<()>)
      modifies this`proof, this`stamp, this`script
      ensures Run(Now(), r) == R.DeleteParameters(old(Now()))
    {
      var asked, _ := Await();
      if asked.IsFailure() { return asked; }
      var again, _ := Await();
      if again.IsFailure() { return again; }
      if !proof && !stamp { return Done(()); }
      var unused;
      r, unused := Await();
      if r.Done? { proof, stamp := false, false; }
    }

    method Retire(region: string) returns (r: Result<map<string, nat>>)
      modifies this
      ensures Run(Now(), r) == R.RetireRun(old(Now()), region)
    {
      hide R.PlanRetire, R.DeleteRegionRows, R.DeleteParameters;
      var plan := PlanRetire(region);
      if plan.IsFailure() { return plan.PropagateFailure(); }
      if plan.value.Empty() { return Done(map[]); }
      var rows: map<string, nat> := map[];
      if plan.value.provider.Some? {
        var deleted := DeleteRegionRows(region);
        if deleted.IsFailure() { return deleted; }
        rows := deleted.value;
      }
      var gone := DeleteParameters();
      if gone.IsFailure() { return gone.PropagateFailure(); }
      r := Done(rows);
    }

    /** retirePhase. A run that is not confirmed changes nothing; a confirmed one that comes
        through retires the region exactly when hilt has at most one provider row for it. */
    method RetirePhase(region: string, confirm: bool) returns (r: Result<R.Answer>)
      modifies this
      ensures Run(Now(), r) == R.RetirePhase(old(Now()), region, confirm)
      ensures !confirm ==> db == old(db) && proof == old(proof) && stamp == old(stamp)
      ensures confirm && R.Referential(old(db)) && r.Done? ==>
        (R.Retired(Now(), region) <==> R.AtMostOne(old(db), region))
    {
      R.PhaseRetires(Now(), region, confirm);
      hide R.PlanRetire, R.RetireRun, R.Retired, R.AtMostOne, R.Referential;
      if region == "" { return Failed(None, Declined); }
      var dsn, _ := Await();
      if dsn.IsFailure() { return dsn.PropagateFailure(); }
      if confirm {
        var rows := Retire(region);
        if rows.IsFailure() { return rows.PropagateFailure(); }
        r := Done(R.RowsGone(rows.value));
      } else {
        var plan := PlanRetire(region);
        if plan.IsFailure() { return plan.PropagateFailure(); }
        r := Done(R.DryRun(plan.value));
      }
    }
  }
}
