/** The seed phase as the Lambda runs it: loops over services, on stores that change in place. */
module SeedStage {
  import opened Outcomes
  import F = SeedFacts
  import S = Seed
  import R = SeedRuns

  /** One stage's stores, and what is in store for the calls made on them. */
  class Stores {
    var keys: map<string, S.KeyState>
    var proofs: map<string, S.Signed>
    var shared: map<string, string>
    var script: seq<S.Event>

    ghost function Now(): S.World
      reads this
    {
      S.World(keys, proofs, shared, script)
    }

    ghost function Here(id: string): S.Local
      reads this
    {
      S.Local(S.At(Now(), id), script)
    }

    method Await() returns (r: Result<()>, minted: string)
      modifies this`script
      ensures var (w, e) := S.WorldCall(old(Now())); Run(Now(), r) == Reply(e.fate, w, w, ()) && minted == e.minted
    {
      if script == [] { return Stopped, ""; }
      minted := script[0].minted;
      r := Answer(script[0].fate);
      script := script[1..];
    }

    method Write(id: string, key: S.KeyState) returns (r: Result<()>)
      requires id in keys
      modifies this`keys, this`script
      ensures id in keys
      ensures var run := S.Write(old(Here(id)), key); Now() == S.Put(old(Now()), id, run.world) && r == run.result
    {
      var unused;
      r, unused := Await();
      if r.Done? { keys := keys[id := key]; }
    }

    /** A copy alone: checked against the public record, and stored. */
    method Move(spec: S.KeySpec, copy: string) returns (r: Result<S.Ensured>)
      requires spec.id in keys
      modifies this`keys, this`script
      ensures spec.id in keys
      ensures var run := S.Move(old(Here(spec.id)), spec, copy);
        Now() == S.Put(old(Now()), spec.id, run.world) && r == run.result
    {
      var key := keys[spec.id];
      var asked, unused := Await();
      if asked.IsFailure() { return asked.PropagateFailure(); }
      if key.record.None? || spec.derive(copy) != key.record { return Failed(None, Declined); }
      var put := Write(spec.id, key.(secret := Some(copy)));
      if put.IsFailure() { return put.PropagateFailure(); }
      r := Done(S.Ensured(copy, false, true));
    }

    method EnsureKey(spec: S.KeySpec) returns (r: Result<S.Ensured>)
      requires spec.id in keys
      modifies this`keys, this`script
      ensures spec.id in keys
      ensures var run := S.EnsureKey(old(Here(spec.id)), spec);
        Now() == S.Put(old(Now()), spec.id, run.world) && r == run.result
    {
      var asked, minted := Await();
      if asked.IsFailure() { return asked.PropagateFailure(); }
      asked, minted := Await();
      if asked.IsFailure() { return asked.PropagateFailure(); }
      var key := keys[spec.id];
      match (key.secret, key.copy)
      case (Some(secret), Some(copy)) =>
        r := if secret == copy then Done(S.Ensured(secret, false, true)) else Failed(None, Declined);
      case (Some(secret), None) =>
        r := Done(S.Ensured(secret, false, false));
      case (None, Some(copy)) =>
        r := Move(spec, copy);
      case (None, None) =>
        asked, minted := Await();
        if asked.IsFailure() { return asked.PropagateFailure(); }
        keys := keys[spec.id := key.(secret := Some(minted))];
        r := Done(S.Ensured(minted, true, false));
    }

    method Copy(spec: S.KeySpec, value: string) returns (r: Result<()>)
      requires spec.id in keys
      modifies this`keys, this`script
      ensures spec.id in keys
      ensures var run := S.Copy(old(Here(spec.id)), spec, value);
        Now() == S.Put(old(Now()), spec.id, run.world) && r == run.result
    {
      if spec.multibase.None? { return Done(()); }
      var unused;
      r, unused := Await();
      if r.IsFailure() { return; }
      var wanted := Some(spec.multibase.value(value));
      if keys[spec.id].multibase == wanted { return Done(()); }
      r := Write(spec.id, keys[spec.id].(multibase := wanted));
    }

    method Publish(id: string, derived: string, created: bool) returns (r: Result<()>)
      requires id in keys
      modifies this`keys, this`script
      ensures id in keys
      ensures var run := S.Publish(old(Here(id)), derived, created);
        Now() == S.Put(old(Now()), id, run.world) && r == run.result
    {
      if !created {
        var unused;
        r, unused := Await();
        if r.IsFailure() { return; }
        if keys[id].record.Some? { return Done(()); }
      }
      r := Write(id, keys[id].(record := Some(derived)));
    }

    method SeedKey(spec: S.KeySpec) returns (r: Result<S.Ensured>)
      requires spec.id in keys
      modifies this`keys, this`script
      ensures spec.id in keys
      ensures var run := S.SeedKey(old(Here(spec.id)), spec);
        Now() == S.Put(old(Now()), spec.id, run.world) && r == run.result
    {
      hide S.EnsureKey, S.Copy, S.Publish;
      ghost var start := Here(spec.id);
      var ensured := EnsureKey(spec);
      ghost var run := S.EnsureKey(start, spec);
      assert Now() == S.Put(old(Now()), spec.id, run.world);
      assert Here(spec.id) == run.world;
      if ensured.IsFailure() { return ensured; }
      var value := ensured.value.value;
      var derived := spec.derive(value);
      if derived.None? { return Failed(None, Declined); }
      var copied := Copy(spec, value);
      ghost var copiedRun := S.Copy(run.world, spec, value);
      assert Now() == S.Put(old(Now()), spec.id, copiedRun.world);
      assert Here(spec.id) == copiedRun.world;
      if copied.IsFailure() { return copied.PropagateFailure(); }
      var published := Publish(spec.id, derived.value, ensured.value.created);
      ghost var publishedRun := S.Publish(copiedRun.world, derived.value, ensured.value.created);
      assert Now() == S.Put(old(Now()), spec.id, publishedRun.world);
      if published.IsFailure() { return published.PropagateFailure(); }
      r := Done(ensured.value);
    }

    /** A key that is there is never replaced, whatever happens; and when this comes through,
        its record and its multibase copy are the key's own, unless a record that is not was
        there beside the secret. */
    method SeedOne(spec: S.KeySpec, p: S.Progress) returns (r: Result<S.Progress>)
      modifies this`keys, this`script
      ensures Run(Now(), r) == S.SeedOne(old(Now()), spec, p)
      ensures F.Moves(spec, old(S.At(Now(), spec.id)), S.At(Now(), spec.id))
      ensures r.Done? ==> F.Completes(spec, old(S.At(Now(), spec.id)), S.At(Now(), spec.id))
    {
      F.SeedKeyFacts(Here(spec.id), spec);
      hide F.Moves, F.Completes, S.SeedKey;
      keys := keys[spec.id := S.At(S.World(keys, proofs, shared, script), spec.id)];
      assert Here(spec.id) == old(Here(spec.id));
      var ensured := SeedKey(spec);
      assert Now() == S.Put(old(Now()), spec.id, S.SeedKey(old(Here(spec.id)), spec).world);
      if ensured.IsFailure() {
        assert S.SeedKey(old(Here(spec.id)), spec).IsFailure();
        return ensured.PropagateFailure();
      }
      r := Done(S.Noted(p, spec.id, ensured.value));
    }

    method SeedKeys(specs: seq<S.KeySpec>, p: S.Progress) returns (r: Result<S.Progress>)
      modifies this`keys, this`script
      ensures Run(Now(), r) == S.SeedKeys(old(Now()), specs, p)
    {
      hide S.SeedOne;
      var progress := p;
      for i := 0 to |specs|
        invariant S.SeedKeys(Now(), specs[i..], progress) == S.SeedKeys(old(Now()), specs, p)
      {
        assert specs[i..][0] == specs[i] && specs[i..][1..] == specs[i + 1..];
        var one := SeedOne(specs[i], progress);
        if one.IsFailure() { return one; }
        progress := one.value;
      }
      r := Done(progress);
    }

    method IssueProof(spec: S.ProofSpec) returns (r: Result<()>)
      modifies this`proofs, this`script
      ensures Run(Now(), r) == S.IssueProof(old(Now()), spec)
    {
      var nonce;
      r, nonce := Await();
      if r.IsFailure() { return; }
      if spec.issuer !in keys || keys[spec.issuer].secret.None? { return Failed(None, Rejected); }
      var signer := keys[spec.issuer].secret.value;
      r, nonce := Await();
      if r.IsFailure() { return; }
      proofs := proofs[spec.name := S.Signed(signer, nonce)];
    }

    method SeedProofs(specs: seq<S.ProofSpec>, p: S.Progress) returns (r: Result<S.Progress>)
      modifies this`proofs, this`script
      ensures Run(Now(), r) == S.SeedProofs(old(Now()), specs, p)
    {
      hide S.IssueProof;
      var progress := p;
      for i := 0 to |specs|
        invariant S.SeedProofs(Now(), specs[i..], progress) == S.SeedProofs(old(Now()), specs, p)
      {
        assert specs[i..][0] == specs[i] && specs[i..][1..] == specs[i + 1..];
        var keep := false;
        if specs[i].issuer !in progress.minted {
          var asked, _ := Await();
          if asked.IsFailure() { return asked.PropagateFailure(); }
          keep := specs[i].name in proofs;
        }
        if !keep {
          var issued := IssueProof(specs[i]);
          if issued.IsFailure() { return issued.PropagateFailure(); }
          progress := progress.(created := progress.created + [specs[i].name]);
        }
      }
      r := Done(progress);
    }

    method SeedShared(names: seq<string>, p: S.Progress) returns (r: Result<S.Progress>)
      modifies this`shared, this`script
      ensures Run(Now(), r) == S.SeedShared(old(Now()), names, p)
    {
      var progress := p;
      for i := 0 to |names|
        invariant S.SeedShared(Now(), names[i..], progress) == S.SeedShared(old(Now()), names, p)
      {
        assert names[i..][0] == names[i] && names[i..][1..] == names[i + 1..];
        var asked, minted := Await();
        if asked.IsFailure() { return asked.PropagateFailure(); }
        if names[i] !in shared {
          asked, minted := Await();
          if asked.IsFailure() { return asked.PropagateFailure(); }
          shared := shared[names[i] := minted];
          progress := progress.(created := progress.created + [names[i]]);
        }
      }
      r := Done(progress);
    }

    method DeleteCopies(id: string) returns (r: Result<()>)
      modifies this`keys, this`script
      ensures Run(Now(), r) == S.DeleteCopies(old(Now()), id)
    {
      var unused;
      r, unused := Await();
      if r.IsFailure() { return; }
      if id !in keys || keys[id].copy.None? { return Done(()); }
      r, unused := Await();
      if r.Done? { keys := keys[id := keys[id].(copy := None)]; }
    }

    method DeleteMoved(ids: seq<string>) returns (r: Result<()>)
      modifies this`keys, this`script
      ensures Run(Now(), r) == S.DeleteMoved(old(Now()), ids)
    {
      for i := 0 to |ids|
        invariant S.DeleteMoved(Now(), ids[i..]) == S.DeleteMoved(old(Now()), ids)
      {
        assert ids[i..][0] == ids[i] && ids[i..][1..] == ids[i + 1..];
        r := DeleteCopies(ids[i]);
        if r.IsFailure() { return; }
      }
      r := Done(());
    }

    /** seed, up to what it does to the databases: when it comes through, every record, proof
        and multibase copy is the stored keys' own, exactly when none that was not had been
        there as it began. */
    method Seed(stage: S.Stage) returns (r: Result<seq<string>>)
      modifies this
      ensures Run(Now(), r) == S.SeedRun(old(Now()), stage)
      ensures R.WellFormed(stage) && r.Done? ==>
        (R.FullyAgrees(stage, Now()) <==> old(R.Untroubled(stage, Now())))
    {
      ghost var start := Now();
      r := SeedInOrder(stage);
      if R.WellFormed(stage) {
        R.CompletedRunAgreesExactlyWhen(start, stage);
        hide *;
      }
    }

    method SeedInOrder(stage: S.Stage) returns (r: Result<seq<string>>)
      modifies this
      ensures Run(Now(), r) == S.SeedRun(old(Now()), stage)
    {
      hide S.SeedKeys, S.SeedProofs, S.SeedShared, S.DeleteMoved;
      var p := SeedKeys(stage.identities, S.Progress({}, [], []));
      if p.IsFailure() { return p.PropagateFailure(); }
      p := SeedProofs(stage.proofs, p.value);
      if p.IsFailure() { return p.PropagateFailure(); }
      p := SeedKeys(stage.wallets, p.value);
      if p.IsFailure() { return p.PropagateFailure(); }
      p := SeedShared(stage.shared, p.value);
      if p.IsFailure() { return p.PropagateFailure(); }
      var databases, _ := Await();
      if databases.IsFailure() { return databases.PropagateFailure(); }
      var deleted := DeleteMoved(p.value.moved);
      if deleted.IsFailure() { return deleted.PropagateFailure(); }
      r := Done(p.value.created);
    }
  }
}
