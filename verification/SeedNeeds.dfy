/** What keeps a seed run from coming through, interruptions aside. */
module SeedNeeds {
  import opened Outcomes
  import opened Seed
  import opened SeedFacts
  import opened SeedRuns

  /** The key can be seeded: where it is stored twice the two agree, a copy alone agrees with
      its public record, and what is there parses. */
  predicate SeedableKey(spec: KeySpec, k: KeyState) {
    && OneValue(k)
    && (k.secret.None? && k.copy.Some? ==> k.record.Some? && k.record == spec.derive(k.copy.value))
    && (Current(k).Some? ==> spec.derive(Current(k).value).Some?)
  }

  /** What a generator comes up with parses. */
  predicate Parses(spec: KeySpec, script: seq<Event>) {
    forall e | e in script :: spec.derive(e.minted).Some?
  }

  lemma EnsureKeyEnds(l: Local, spec: KeySpec)
    requires SeedableKey(spec, l.key) && Parses(spec, l.script)
    ensures var run := EnsureKey(l, spec);
      && (run.result.Done? || Interrupted(run.result))
      && (run.result.Done? ==> spec.derive(run.result.value.value).Some?)
  {
    assert forall i | 0 <= i < |l.script| :: l.script[i] in l.script;
  }

  lemma SeedKeyEnds(l: Local, spec: KeySpec)
    requires SeedableKey(spec, l.key) && Parses(spec, l.script)
    ensures SeedKey(l, spec).result.Done? || Interrupted(SeedKey(l, spec).result)
  {
    hide EnsureKey, Copy, Publish, SeedableKey, Parses;
    EnsureKeyEnds(l, spec);
    var ensured := EnsureKey(l, spec);
    if ensured.result.Done? {
      var value := ensured.result.value.value;
      CopyEnds(ensured.world, spec, value);
      var copied := Copy(ensured.world, spec, value);
      if copied.result.Done? {
        PublishEnds(copied.world, spec.derive(value).value, ensured.result.value.created);
      }
    }
  }

  lemma CopyEnds(l: Local, spec: KeySpec, value: string)
    ensures Copy(l, spec, value).result.Done? || Interrupted(Copy(l, spec, value).result)
  {
  }

  lemma PublishEnds(l: Local, derived: string, created: bool)
    ensures Publish(l, derived, created).result.Done? || Interrupted(Publish(l, derived, created).result)
  {
  }

  // ---------- calls use up the script from the front ----------

  /** What is left of a script. */
  predicate Suffix(rest: seq<Event>, script: seq<Event>) {
    |rest| <= |script| && rest == script[|script| - |rest|..]
  }

  lemma SuffixOn(a: seq<Event>, b: seq<Event>, c: seq<Event>)
    requires Suffix(b, a) && Suffix(c, b)
    ensures Suffix(c, a)
  {
  }

  lemma CallUses(l: Local)
    ensures Suffix(Call(l).0.script, l.script)
  {
  }

  lemma EnsureKeyUses(l: Local, spec: KeySpec)
    ensures Suffix(EnsureKey(l, spec).world.script, l.script)
  {
    hide Call, Suffix;
    CallUses(l);
    var l1 := Ask(l).world;
    CallUses(l1);
    var l2 := Ask(l1).world;
    SuffixOn(l.script, l1.script, l2.script);
    CallUses(l2);
    var l3 := Ask(l2).world;
    SuffixOn(l.script, l2.script, l3.script);
    CallUses(l3);
    SuffixOn(l.script, l3.script, Call(l3).0.script);
  }

  lemma CopyUses(l: Local, spec: KeySpec, value: string)
    ensures Suffix(Copy(l, spec, value).world.script, l.script)
  {
  }

  lemma PublishUses(l: Local, derived: string, created: bool)
    ensures Suffix(Publish(l, derived, created).world.script, l.script)
  {
  }

  lemma SeedKeyUses(l: Local, spec: KeySpec)
    ensures Suffix(SeedKey(l, spec).world.script, l.script)
  {
    hide EnsureKey, Copy, Publish, Suffix;
    EnsureKeyUses(l, spec);
    var ensured := EnsureKey(l, spec);
    if ensured.result.Done? {
      var value := ensured.result.value.value;
      if spec.derive(value).Some? {
        CopyUses(ensured.world, spec, value);
        var copied := Copy(ensured.world, spec, value);
        SuffixOn(l.script, ensured.world.script, copied.world.script);
        if copied.result.Done? {
          PublishUses(copied.world, spec.derive(value).value, ensured.result.value.created);
          SuffixOn(l.script, copied.world.script,
                   Publish(copied.world, spec.derive(value).value, ensured.result.value.created).world.script);
        }
      }
    }
  }

  // ---------- whole runs ----------

  ghost predicate Seedable(specs: seq<KeySpec>, w: World) {
    forall i | 0 <= i < |specs| :: SeedableKey(specs[i], At(w, specs[i].id)) && Parses(specs[i], w.script)
  }

  lemma ParsesRest(spec: KeySpec, rest: seq<Event>, script: seq<Event>)
    requires Suffix(rest, script) && Parses(spec, script)
    ensures Parses(spec, rest)
  {
    assert forall e | e in rest :: e in script;
  }

  lemma SeedableOn(specs: seq<KeySpec>, a: World, b: World)
    requires Seedable(specs, a) && Suffix(b.script, a.script)
    requires forall i | 0 <= i < |specs| :: At(b, specs[i].id) == At(a, specs[i].id)
    ensures Seedable(specs, b)
  {
    hide SeedableKey, Parses, Suffix;
    forall i | 0 <= i < |specs| ensures SeedableKey(specs[i], At(b, specs[i].id)) && Parses(specs[i], b.script) {
      ParsesRest(specs[i], b.script, a.script);
    }
  }

  lemma SeedableRest(specs: seq<KeySpec>, w: World)
    requires specs != [] && DistinctIds(specs) && Seedable(specs, w)
    ensures DistinctIds(specs[1..]) && Seedable(specs[1..], w)
    ensures forall i | 0 <= i < |specs[1..]| :: specs[1..][i].id != specs[0].id
  {
    hide SeedableKey, Parses;
    assert forall i | 0 <= i < |specs[1..]| :: specs[1..][i] == specs[i + 1];
  }

  lemma {:induction false} SeedKeysEnds(w: World, specs: seq<KeySpec>, p: Progress)
    requires DistinctIds(specs) && Seedable(specs, w)
    ensures var run := SeedKeys(w, specs, p);
      (run.result.Done? || Interrupted(run.result)) && Suffix(run.world.script, w.script)
    decreases |specs|
  {
    if specs != [] {
      var spec := specs[0];
      var l := Local(At(w, spec.id), w.script);
      SeedKeyEnds(l, spec);
      SeedKeyUses(l, spec);
      SeedOneFacts(w, spec, p);
      hide SeedKey, Moves, Completes, KeysReport, SeedableKey, Parses, Suffix;
      var one := SeedOne(w, spec, p);
      if one.result.Done? {
        SeedableRest(specs, w);
        hide Seedable, DistinctIds;
        SeedableOn(specs[1..], w, one.world);
        SeedKeysEnds(one.world, specs[1..], one.result.value);
        SuffixOn(w.script, one.world.script, SeedKeys(w, specs, p).world.script);
      }
    }
  }

  lemma WorldCallUses(w: World)
    ensures WorldCall(w).0 == w.(script := WorldCall(w).0.script) && Suffix(WorldCall(w).0.script, w.script)
  {
  }

  lemma SuffixSelf(script: seq<Event>)
    ensures Suffix(script, script)
  {
  }

  lemma KeepsProofEnds(w: World, spec: ProofSpec, p: Progress)
    ensures var run := KeepsProof(w, spec, p);
      (run.result.Done? || Interrupted(run.result)) && Suffix(run.world.script, w.script) && run.world.keys == w.keys
  {
    WorldCallUses(w);
    hide Suffix, WorldCall;
    SuffixSelf(w.script);
  }

  lemma IssueProofEnds(w: World, spec: ProofSpec)
    requires At(w, spec.issuer).secret.Some?
    ensures var run := IssueProof(w, spec);
      (run.result.Done? || Interrupted(run.result)) && Suffix(run.world.script, w.script) && run.world.keys == w.keys
  {
    hide WorldCall, Suffix;
    WorldCallUses(w);
    var w1 := WorldCall(w).0;
    WorldCallUses(w1);
    SuffixOn(w.script, w1.script, WorldCall(w1).0.script);
  }

  lemma SeedProofEnds(w: World, spec: ProofSpec, p: Progress)
    requires At(w, spec.issuer).secret.Some?
    ensures var run := SeedProof(w, spec, p);
      (run.result.Done? || Interrupted(run.result)) && Suffix(run.world.script, w.script) && run.world.keys == w.keys
  {
    hide KeepsProof, IssueProof, Suffix;
    KeepsProofEnds(w, spec, p);
    var keep := KeepsProof(w, spec, p);
    if keep.result.Done? && !keep.result.value {
      IssueProofEnds(keep.world, spec);
      SuffixOn(w.script, keep.world.script, IssueProof(keep.world, spec).world.script);
    }
  }

  lemma {:induction false} SeedProofsEnds(w: World, specs: seq<ProofSpec>, p: Progress)
    requires forall i | 0 <= i < |specs| :: At(w, specs[i].issuer).secret.Some?
    ensures var run := SeedProofs(w, specs, p);
      (run.result.Done? || Interrupted(run.result)) && Suffix(run.world.script, w.script)
    decreases |specs|
  {
    if specs != [] {
      SeedProofEnds(w, specs[0], p);
      hide SeedProof, Suffix;
      var one := SeedProof(w, specs[0], p);
      if one.result.Done? {
        SeedProofsEnds(one.world, specs[1..], one.result.value);
        SuffixOn(w.script, one.world.script, SeedProofs(w, specs, p).world.script);
      }
    }
  }

  lemma {:induction false} SeedSharedEnds(w: World, names: seq<string>, p: Progress)
    ensures SeedShared(w, names, p).result.Done? || Interrupted(SeedShared(w, names, p).result)
    decreases |names|
  {
    if names != [] {
      var one := EnsureShared(w, names[0]);
      if one.result.Done? {
        SeedSharedEnds(one.world, names[1..], if one.result.value then p.(created := p.created + [names[0]]) else p);
      }
    }
  }

  lemma {:induction false} DeleteMovedEnds(w: World, ids: seq<string>)
    ensures DeleteMoved(w, ids).result.Done? || Interrupted(DeleteMoved(w, ids).result)
    decreases |ids|
  {
    if ids != [] {
      DeleteMovedEnds(DeleteCopies(w, ids[0]).world, ids[1..]);
    }
  }

  lemma IssuersStored(stage: Stage, w: World, w1: World)
    requires WellFormed(stage) && KeysComplete(stage.identities, w, w1)
    ensures forall i | 0 <= i < |stage.proofs| :: At(w1, stage.proofs[i].issuer).secret.Some?
  {
    forall i | 0 <= i < |stage.proofs| ensures At(w1, stage.proofs[i].issuer).secret.Some? {
      assert stage.proofs[i].issuer in Ids(stage.identities);
      var k :| 0 <= k < |stage.identities| && stage.identities[k].id == stage.proofs[i].issuer;
      assert Completes(stage.identities[k], At(w, stage.identities[k].id), At(w1, stage.identities[k].id));
    }
  }

  lemma SeedableParts(stage: Stage, w: World)
    requires Seedable(AllKeys(stage), w)
    ensures Seedable(stage.identities, w) && Seedable(stage.wallets, w)
  {
    hide SeedableKey, Parses;
    forall i | 0 <= i < |stage.identities|
      ensures SeedableKey(stage.identities[i], At(w, stage.identities[i].id)) && Parses(stage.identities[i], w.script)
    {
      IdentityIsKey(stage, i);
    }
    forall i | 0 <= i < |stage.wallets|
      ensures SeedableKey(stage.wallets[i], At(w, stage.wallets[i].id)) && Parses(stage.wallets[i], w.script)
    {
      WalletIsKey(stage, i);
    }
  }

  lemma SeedRestEnds(w: World, stage: Stage, p: Progress)
    requires WellFormed(stage) && Seedable(stage.wallets, w)
    requires forall i | 0 <= i < |stage.proofs| :: At(w, stage.proofs[i].issuer).secret.Some?
    ensures SeedRest(w, stage, p).result.Done? || Interrupted(SeedRest(w, stage, p).result)
  {
    PartsDistinct(stage);
    SeedProofsFacts(w, stage.proofs, p);
    SeedProofsEnds(w, stage.proofs, p);
    hide SeedProofs, SeedKeys, Seedable, ProofsMove, ProofsComplete;
    var proofs := SeedProofs(w, stage.proofs, p);
    if proofs.result.Done? {
      SeedableOn(stage.wallets, w, proofs.world);
      SeedKeysEnds(proofs.world, stage.wallets, proofs.result.value);
    }
  }

  lemma SeedAllEnds(w: World, stage: Stage)
    requires WellFormed(stage) && Seedable(AllKeys(stage), w)
    ensures SeedAll(w, stage).result.Done? || Interrupted(SeedAll(w, stage).result)
  {
    PartsDistinct(stage);
    SeedableParts(stage, w);
    var start := Progress({}, [], []);
    SeedKeysFacts(w, stage.identities, start);
    SeedKeysEnds(w, stage.identities, start);
    hide SeedKeys, Seedable, KeysComplete, KeysReport, SeedRest;
    var first := SeedKeys(w, stage.identities, start);
    if first.result.Done? {
      IssuersStored(stage, w, first.world);
      WalletsUntouched(stage, w, first.world);
      SeedableOn(stage.wallets, w, first.world);
      SeedRestEnds(first.world, stage, first.result.value);
    }
  }

  lemma WalletsUntouched(stage: Stage, w: World, w1: World)
    requires WellFormed(stage) && KeysMove(stage.identities, w, w1)
    ensures forall i | 0 <= i < |stage.wallets| :: At(w1, stage.wallets[i].id) == At(w, stage.wallets[i].id)
  {
    PartsDistinct(stage);
    forall i | 0 <= i < |stage.wallets| ensures At(w1, stage.wallets[i].id) == At(w, stage.wallets[i].id) {
      assert stage.wallets[i].id in Ids(stage.wallets);
    }
  }

  lemma SeedableRunComesThrough(w: World, stage: Stage)
    requires WellFormed(stage) && Seedable(AllKeys(stage), w)
    ensures SeedRun(w, stage).result.Done? || Interrupted(SeedRun(w, stage).result)
  {
    SeedAllEnds(w, stage);
    hide SeedAll, SeedShared, DeleteMoved;
    var all := SeedAll(w, stage);
    if all.result.Done? {
      SeedSharedEnds(all.world, stage.shared, all.result.value);
      var shared := SeedShared(all.world, stage.shared, all.result.value);
      if shared.result.Done? {
        var asked := WorldAsk(shared.world);
        DeleteMovedEnds(asked.world, shared.result.value.moved);
      }
    }
  }

  /** Every key of the stage can be seeded as it is. */
  ghost predicate AllSeedable(stage: Stage, w: World) {
    forall i | 0 <= i < |AllKeys(stage)| :: SeedableKey(AllKeys(stage)[i], At(w, AllKeys(stage)[i].id))
  }

  /** Whatever a generator may come up with parses. */
  ghost predicate AllParse(stage: Stage, script: seq<Event>) {
    forall i | 0 <= i < |AllKeys(stage)| :: Parses(AllKeys(stage)[i], script)
  }

  lemma EndsNeedSeedable(spec: KeySpec, a: KeyState, b: KeyState)
    requires KeyGoes(spec, a, b) && KeyEnds(spec, a, b)
    ensures SeedableKey(spec, a)
  {
  }

  /** Short of an interruption a seed run comes through exactly where keys stored twice agree,
      each key still to be moved agrees with its public record, and the keys there are parse. */
  lemma SeedComesThroughExactlyWhen(w: World, stage: Stage)
    requires WellFormed(stage) && AllParse(stage, w.script)
    ensures var result := SeedRun(w, stage).result;
      && (AllSeedable(stage, w) ==> result.Done? || Interrupted(result))
      && (!AllSeedable(stage, w) ==> !result.Done?)
  {
    SeedRunFacts(w, stage);
    hide SeedRun, SeedableKey, Parses, KeyGoes, KeyEnds;
    if AllSeedable(stage, w) {
      assert Seedable(AllKeys(stage), w);
      SeedableRunComesThrough(w, stage);
    }
    if SeedRun(w, stage).result.Done? {
      var w' := SeedRun(w, stage).world;
      forall i | 0 <= i < |AllKeys(stage)| ensures SeedableKey(AllKeys(stage)[i], At(w, AllKeys(stage)[i].id)) {
        EndsNeedSeedable(AllKeys(stage)[i], At(w, AllKeys(stage)[i].id), At(w', AllKeys(stage)[i].id));
      }
    }
  }
}
