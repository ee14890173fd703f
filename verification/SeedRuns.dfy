/** Whole seed runs, and histories of seed runs and rotations. */
module SeedRuns {
  import opened Outcomes
  import opened Seed
  import opened SeedFacts

  function AllKeys(stage: Stage): seq<KeySpec> {
    stage.identities + stage.wallets
  }

  /** No two keys share a name, nor two proofs, and identities sign the proofs. */
  predicate WellFormed(stage: Stage) {
    && DistinctIds(AllKeys(stage))
    && DistinctNames(stage.proofs)
    && forall i | 0 <= i < |stage.proofs| :: stage.proofs[i].issuer in Ids(stage.identities)
  }

  // ---------- one run ----------

  predicate KeyGoes(spec: KeySpec, a: KeyState, b: KeyState) {
    && Moves(spec, a, b.(copy := a.copy))
    && (b.copy == a.copy || (b.copy.None? && b.secret.Some?))
  }

  predicate KeyEnds(spec: KeySpec, a: KeyState, b: KeyState) {
    Completes(spec, a, b) && b.copy.None?
  }

  predicate ProofGoes(spec: ProofSpec, w: World, w': World) {
    SameProof(w, w', spec.name) || SignedByIssuer(w', spec)
  }

  predicate ProofEnds(spec: ProofSpec, w: World, w': World) {
    if Unminted(At(w, spec.issuer)) || spec.name !in w.proofs then SignedByIssuer(w', spec)
    else SameProof(w, w', spec.name)
  }

  /** What a run does, however it ends. */
  ghost predicate Goes(stage: Stage, w: World, w': World) {
    && (forall i | 0 <= i < |AllKeys(stage)| ::
        KeyGoes(AllKeys(stage)[i], At(w, AllKeys(stage)[i].id), At(w', AllKeys(stage)[i].id)))
    && (forall i | 0 <= i < |stage.proofs| :: ProofGoes(stage.proofs[i], w, w'))
  }

  /** What a run has done when it comes through. */
  ghost predicate Ends(stage: Stage, w: World, w': World) {
    && (forall i | 0 <= i < |AllKeys(stage)| ::
        KeyEnds(AllKeys(stage)[i], At(w, AllKeys(stage)[i].id), At(w', AllKeys(stage)[i].id)))
    && (forall i | 0 <= i < |stage.proofs| :: ProofEnds(stage.proofs[i], w, w'))
    && (forall name | name in stage.shared :: name in w'.shared)
  }

  lemma IdentityIsKey(stage: Stage, i: nat)
    requires i < |stage.identities|
    ensures AllKeys(stage)[i] == stage.identities[i] && stage.identities[i].id in Ids(AllKeys(stage))
  {
  }

  lemma WalletIsKey(stage: Stage, i: nat)
    requires i < |stage.wallets|
    ensures AllKeys(stage)[|stage.identities| + i] == stage.wallets[i]
  {
  }

  lemma PartsDistinct(stage: Stage)
    requires WellFormed(stage)
    ensures DistinctIds(stage.identities) && DistinctIds(stage.wallets)
    ensures Ids(stage.identities) !! Ids(stage.wallets)
  {
    var all := AllKeys(stage);
    forall i, j | 0 <= i < |stage.identities| && 0 <= j < |stage.wallets|
      ensures stage.identities[i].id != stage.wallets[j].id
    {
      assert all[i].id != all[|stage.identities| + j].id;
    }
    forall i, j | 0 <= i < j < |stage.wallets| ensures stage.wallets[i].id != stage.wallets[j].id {
      assert all[|stage.identities| + i].id != all[|stage.identities| + j].id;
    }
    forall i, j | 0 <= i < j < |stage.identities| ensures stage.identities[i].id != stage.identities[j].id {
      assert all[i].id != all[j].id;
    }
  }

  /** The states between the phase's parts: the keys through the identities, then the proofs,
      then the wallets. */
  ghost predicate Through(stage: Stage, w: World, w1: World, w2: World, w3: World) {
    && KeysMove(stage.identities, w, w1)
    && RestGoes(stage, w1, w2, w3, set id | id in MintedAmong(w, stage.identities))
  }

  /** The proofs, and then the wallets. */
  ghost predicate RestGoes(stage: Stage, w1: World, w2: World, w3: World, minted: set<string>) {
    && w2.keys == w1.keys && w2.shared == w1.shared
    && (forall name | name !in Names(stage.proofs) :: SameProof(w1, w2, name))
    && (forall i | 0 <= i < |stage.proofs| :: ProofMoves(stage.proofs[i], w1, w2, minted))
    && KeysMove(stage.wallets, w2, w3)
  }

  lemma ThroughGoes(stage: Stage, w: World, w1: World, w2: World, w3: World)
    requires WellFormed(stage) && Through(stage, w, w1, w2, w3)
    ensures Goes(stage, w, w3)
  {
    PartsDistinct(stage);
    hide Moves;
    forall i | 0 <= i < |AllKeys(stage)|
      ensures KeyGoes(AllKeys(stage)[i], At(w, AllKeys(stage)[i].id), At(w3, AllKeys(stage)[i].id))
    {
      var spec := AllKeys(stage)[i];
      if i < |stage.identities| {
        assert spec == stage.identities[i] && spec.id in Ids(stage.identities);
        assert At(w3, spec.id) == At(w1, spec.id);
        assert Moves(spec, At(w, spec.id), At(w1, spec.id));
        CopyKept(spec, At(w, spec.id), At(w1, spec.id));
      } else {
        assert spec == stage.wallets[i - |stage.identities|] && spec.id in Ids(stage.wallets);
        assert At(w2, spec.id) == At(w, spec.id);
        assert Moves(spec, At(w2, spec.id), At(w3, spec.id));
        CopyKept(spec, At(w, spec.id), At(w3, spec.id));
      }
    }
    forall i | 0 <= i < |stage.proofs| ensures ProofGoes(stage.proofs[i], w, w3) {
      assert ProofMoves(stage.proofs[i], w1, w2, set id | id in MintedAmong(w, stage.identities));
      assert At(w3, stage.proofs[i].issuer) == At(w2, stage.proofs[i].issuer);
    }
  }

  lemma CopyKept(spec: KeySpec, a: KeyState, b: KeyState)
    requires Moves(spec, a, b)
    ensures KeyGoes(spec, a, b)
  {
    assert b.(copy := a.copy) == b;
  }

  lemma KeysMoveSame(specs: seq<KeySpec>, a: World, b: World)
    requires b.keys == a.keys && b.proofs == a.proofs && b.shared == a.shared
    ensures KeysMove(specs, a, b)
  {
  }

  /** The keys and the proofs, when all three parts come through. */
  ghost predicate AllEnds(stage: Stage, w: World, w': World, p: Progress) {
    && (forall i | 0 <= i < |AllKeys(stage)| ::
          var spec := AllKeys(stage)[i];
          && Completes(spec, At(w, spec.id), At(w', spec.id))
          && At(w', spec.id).copy == At(w, spec.id).copy
          && (At(w, spec.id).copy.Some? <==> spec.id in p.moved))
    && (forall id | id in p.moved :: id in Ids(AllKeys(stage)))
    && (forall i | 0 <= i < |stage.proofs| :: ProofEnds(stage.proofs[i], w, w'))
  }

  lemma {:induction false} AmongHolds(w: World, specs: seq<KeySpec>)
    ensures forall id :: id in MintedAmong(w, specs) <==> id in Ids(specs) && Unminted(At(w, id))
    ensures forall id :: id in MovedAmong(w, specs) <==> id in Ids(specs) && At(w, id).copy.Some?
  {
    if specs != [] {
      AmongHolds(w, specs[1..]);
      IdsSplit(specs);
    }
  }

  /** The states between the parts once more, for a run that comes through all three. */
  ghost predicate ThroughDone(stage: Stage, w: World, w1: World, w2: World, w3: World, p: Progress) {
    var minted := set id | id in MintedAmong(w, stage.identities);
    && Through(stage, w, w1, w2, w3)
    && KeysComplete(stage.identities, w, w1)
    && ProofsComplete(stage.proofs, w1, w2, minted)
    && KeysComplete(stage.wallets, w2, w3)
    && p.created == MintedAmong(w, stage.identities) + Issued(w1, stage.proofs, minted) + MintedAmong(w2, stage.wallets)
    && p.moved == MovedAmong(w, stage.identities) + MovedAmong(w2, stage.wallets)
  }

  lemma ThroughEndsKeys(stage: Stage, w: World, w1: World, w2: World, w3: World, p: Progress)
    requires WellFormed(stage) && ThroughDone(stage, w, w1, w2, w3, p)
    ensures forall i | 0 <= i < |AllKeys(stage)| ::
      var spec := AllKeys(stage)[i];
      && Completes(spec, At(w, spec.id), At(w3, spec.id))
      && At(w3, spec.id).copy == At(w, spec.id).copy
  {
    PartsDistinct(stage);
    hide Completes, MintedAmong, MovedAmong, Issued, At, ProofsComplete;
    forall i | 0 <= i < |AllKeys(stage)|
      ensures var spec := AllKeys(stage)[i];
        && Completes(spec, At(w, spec.id), At(w3, spec.id))
        && At(w3, spec.id).copy == At(w, spec.id).copy
    {
      var spec := AllKeys(stage)[i];
      SameKeys(w1, w2, spec.id);
      if i < |stage.identities| {
        assert spec == stage.identities[i] && spec.id in Ids(stage.identities);
        assert At(w3, spec.id) == At(w1, spec.id);
        assert Moves(spec, At(w, spec.id), At(w1, spec.id));
      } else {
        assert spec == stage.wallets[i - |stage.identities|] && spec.id in Ids(stage.wallets);
        assert At(w1, spec.id) == At(w, spec.id);
        assert Moves(spec, At(w2, spec.id), At(w3, spec.id));
      }
    }
  }

  lemma SameKeys(a: World, b: World, id: string)
    requires a.keys == b.keys
    ensures At(a, id) == At(b, id)
  {
  }

  lemma ThroughEndsMoved(stage: Stage, w: World, w1: World, w2: World, w3: World, p: Progress)
    requires WellFormed(stage) && ThroughDone(stage, w, w1, w2, w3, p)
    ensures forall id :: id in p.moved <==> id in Ids(AllKeys(stage)) && At(w, id).copy.Some?
  {
    PartsDistinct(stage);
    AllIds(stage);
    AmongHolds(w, stage.identities);
    AmongHolds(w2, stage.wallets);
    hide MovedAmong, MintedAmong, Issued, Moves, Completes, At;
    forall id ensures id in p.moved <==> id in Ids(AllKeys(stage)) && At(w, id).copy.Some? {
      SameKeys(w1, w2, id);
    }
  }

  lemma ThroughEndsProofs(stage: Stage, w: World, w1: World, w2: World, w3: World, p: Progress)
    requires WellFormed(stage) && ThroughDone(stage, w, w1, w2, w3, p)
    ensures forall i | 0 <= i < |stage.proofs| :: ProofEnds(stage.proofs[i], w, w3)
  {
    PartsDistinct(stage);
    AmongHolds(w, stage.identities);
    hide Completes, MintedAmong, MovedAmong, Issued, Moves, KeysComplete;
    forall i | 0 <= i < |stage.proofs| ensures ProofEnds(stage.proofs[i], w, w3) {
      var spec := stage.proofs[i];
      assert ProofCompletes(spec, w1, w2, set id | id in MintedAmong(w, stage.identities));
      assert At(w3, spec.issuer) == At(w2, spec.issuer);
    }
  }

  lemma ThroughEnds(stage: Stage, w: World, w1: World, w2: World, w3: World, p: Progress)
    requires WellFormed(stage) && ThroughDone(stage, w, w1, w2, w3, p)
    ensures AllEnds(stage, w, w3, p)
  {
    ThroughEndsKeys(stage, w, w1, w2, w3, p);
    ThroughEndsMoved(stage, w, w1, w2, w3, p);
    ThroughEndsProofs(stage, w, w1, w2, w3, p);
    hide ThroughDone, WellFormed, Completes, ProofEnds, At;
    forall i | 0 <= i < |AllKeys(stage)| ensures AllKeys(stage)[i].id in Ids(AllKeys(stage)) {
    }
  }

  lemma AllIds(stage: Stage)
    ensures Ids(AllKeys(stage)) == Ids(stage.identities) + Ids(stage.wallets)
  {
    forall id | id in Ids(stage.identities) + Ids(stage.wallets) ensures id in Ids(AllKeys(stage)) {
      if id in Ids(stage.identities) {
        var i :| 0 <= i < |stage.identities| && stage.identities[i].id == id;
        assert AllKeys(stage)[i].id == id;
      } else {
        var i :| 0 <= i < |stage.wallets| && stage.wallets[i].id == id;
        WalletIsKey(stage, i);
      }
    }
    forall id | id in Ids(AllKeys(stage)) ensures id in Ids(stage.identities) + Ids(stage.wallets) {
      var i :| 0 <= i < |AllKeys(stage)| && AllKeys(stage)[i].id == id;
      if i < |stage.identities| {
        assert stage.identities[i].id == id;
      } else {
        assert stage.wallets[i - |stage.identities|].id == id;
      }
    }
  }

  lemma ReportFromNothing(specs: seq<KeySpec>, w: World, q: Progress)
    requires KeysReport(specs, w, Progress({}, [], []), q)
    ensures q == Progress((set id | id in MintedAmong(w, specs)), MintedAmong(w, specs), MovedAmong(w, specs))
  {
  }

  ghost predicate RestEnds(stage: Stage, w1: World, w2: World, w3: World, p: Progress, q: Progress) {
    && ProofsComplete(stage.proofs, w1, w2, p.minted)
    && KeysComplete(stage.wallets, w2, w3)
    && q.created == p.created + Issued(w1, stage.proofs, p.minted) + MintedAmong(w2, stage.wallets)
    && q.moved == p.moved + MovedAmong(w2, stage.wallets)
  }

  lemma SeedRestFacts(w1: World, stage: Stage, p: Progress) returns (w2: World)
    requires WellFormed(stage)
    ensures var run := SeedRest(w1, stage, p);
      && RestGoes(stage, w1, w2, run.world, p.minted)
      && (run.result.Done? ==> RestEnds(stage, w1, w2, run.world, p, run.result.value))
  {
    PartsDistinct(stage);
    hide SeedKeys, SeedProofs, KeysMove, KeysComplete, Issued, MintedAmong, MovedAmong, ProofsComplete;
    SeedProofsFacts(w1, stage.proofs, p);
    var proofs := SeedProofs(w1, stage.proofs, p);
    w2 := proofs.world;
    if proofs.result.Done? {
      SeedKeysFacts(w2, stage.wallets, proofs.result.value);
    } else {
      KeysMoveSame(stage.wallets, w2, w2);
    }
  }

  lemma SeedAllFacts(w: World, stage: Stage) returns (w1: World, w2: World)
    requires WellFormed(stage)
    ensures var run := SeedAll(w, stage);
      && Through(stage, w, w1, w2, run.world) && run.world.shared == w.shared
      && (run.result.Done? ==> ThroughDone(stage, w, w1, w2, run.world, run.result.value))
  {
    PartsDistinct(stage);
    var start := Progress({}, [], []);
    SeedKeysFacts(w, stage.identities, start);
    var first := SeedKeys(w, stage.identities, start);
    w1, w2 := first.world, first.world;
    SharedKept(stage.identities, w, w1);
    hide SeedKeys, SeedProofs, KeysMove, KeysComplete, Issued, MintedAmong, MovedAmong, SeedRest, ProofsComplete,
      ProofMoves, KeysReport;
    if first.result.Done? {
      var p := first.result.value;
      ReportFromNothing(stage.identities, w, p);
      w2 := SeedRestFacts(w1, stage, p);
      SharedKept(stage.wallets, w2, SeedRest(w1, stage, p).world);
    } else {
      KeysMoveSame(stage.wallets, w2, w2);
      forall i | 0 <= i < |stage.proofs|
        ensures ProofMoves(stage.proofs[i], w1, w1, set id | id in MintedAmong(w, stage.identities))
      {
        ProofMovesSame(stage.proofs[i], w1, set id | id in MintedAmong(w, stage.identities));
      }
    }
  }

  lemma ProofMovesSame(spec: ProofSpec, w: World, minted: set<string>)
    ensures ProofMoves(spec, w, w, minted)
  {
  }

  lemma SharedKept(specs: seq<KeySpec>, a: World, b: World)
    requires KeysMove(specs, a, b)
    ensures a.shared == b.shared
  {
  }

  /** From the end of the three parts to the end of the run: only copies go, and only of keys
      that are in Secrets Manager. */
  ghost predicate Tidies(p: Progress, w3: World, w6: World) {
    && w6.proofs == w3.proofs
    && (forall id :: CopyGone(At(w3, id), At(w6, id)))
    && (forall id | id !in p.moved :: At(w6, id) == At(w3, id))
  }

  lemma TidiesGoes(stage: Stage, w: World, w3: World, w6: World, p: Progress)
    requires Goes(stage, w, w3) && AllEnds(stage, w, w3, p) && Tidies(p, w3, w6)
    ensures Goes(stage, w, w6)
  {
    hide Completes, Moves;
    forall i | 0 <= i < |AllKeys(stage)|
      ensures KeyGoes(AllKeys(stage)[i], At(w, AllKeys(stage)[i].id), At(w6, AllKeys(stage)[i].id))
    {
      var spec := AllKeys(stage)[i];
      assert KeyGoes(spec, At(w, spec.id), At(w3, spec.id));
      CompletesStores(spec, At(w, spec.id), At(w3, spec.id));
      assert CopyGone(At(w3, spec.id), At(w6, spec.id));
      assert At(w6, spec.id).(copy := At(w, spec.id).copy) == At(w3, spec.id).(copy := At(w, spec.id).copy);
    }
    TidiesProofs(stage, w, w3, w6, p);
  }

  lemma TidiesProofs(stage: Stage, w: World, w3: World, w6: World, p: Progress)
    requires Tidies(p, w3, w6)
    ensures forall i | 0 <= i < |stage.proofs| && ProofGoes(stage.proofs[i], w, w3) :: ProofGoes(stage.proofs[i], w, w6)
    ensures forall i | 0 <= i < |stage.proofs| && ProofEnds(stage.proofs[i], w, w3) :: ProofEnds(stage.proofs[i], w, w6)
  {
    forall i | 0 <= i < |stage.proofs|
      ensures ProofGoes(stage.proofs[i], w, w3) ==> ProofGoes(stage.proofs[i], w, w6)
      ensures ProofEnds(stage.proofs[i], w, w3) ==> ProofEnds(stage.proofs[i], w, w6)
    {
      assert CopyGone(At(w3, stage.proofs[i].issuer), At(w6, stage.proofs[i].issuer));
    }
  }

  lemma CompletesStores(spec: KeySpec, a: KeyState, b: KeyState)
    requires Completes(spec, a, b)
    ensures b.secret.Some?
    ensures Completes(spec, a, b.(copy := None))
  {
  }

  lemma TidiesEnds(stage: Stage, w: World, w3: World, w6: World, p: Progress)
    requires AllEnds(stage, w, w3, p) && Tidies(p, w3, w6)
    requires forall id | id in p.moved :: At(w6, id).copy.None?
    requires forall name | name in stage.shared :: name in w6.shared
    ensures Ends(stage, w, w6)
  {
    hide Completes;
    forall i | 0 <= i < |AllKeys(stage)|
      ensures KeyEnds(AllKeys(stage)[i], At(w, AllKeys(stage)[i].id), At(w6, AllKeys(stage)[i].id))
    {
      var spec := AllKeys(stage)[i];
      CompletesStores(spec, At(w, spec.id), At(w3, spec.id));
      assert CopyGone(At(w3, spec.id), At(w6, spec.id));
      assert At(w6, spec.id) == At(w3, spec.id).(copy := None);
    }
    TidiesProofs(stage, w, w3, w6, p);
  }

  /** The run after the three parts. */
  lemma SeedLastFacts(w: World, w3: World, stage: Stage, p: Progress)
    requires Goes(stage, w, w3) && AllEnds(stage, w, w3, p)
    ensures var run := SeedLast(w3, stage, p);
      Goes(stage, w, run.world) && (run.result.Done? ==> Ends(stage, w, run.world))
  {
    hide Goes, Ends, AllEnds, SeedShared, DeleteMoved, Absent;
    SeedSharedFacts(w3, stage.shared, p);
    var shared := SeedShared(w3, stage.shared, p);
    TidiesNothing(p, w3, shared.world);
    TidiesGoes(stage, w, w3, shared.world, p);
    if shared.result.Done? {
      var asked := WorldAsk(shared.world);
      assert asked.world == shared.world.(script := asked.world.script);
      TidiesNothing(p, w3, asked.world);
      TidiesGoes(stage, w, w3, asked.world, p);
      if asked.result.Done? {
        DeleteMovedFacts(asked.world, p.moved);
        var deleted := DeleteMoved(asked.world, p.moved);
        TidiesAfter(p, w3, asked.world, deleted.world);
        TidiesGoes(stage, w, w3, deleted.world, p);
        if deleted.result.Done? {
          TidiesEnds(stage, w, w3, deleted.world, p);
        }
      }
    }
  }

  lemma SeedRunFacts(w: World, stage: Stage)
    requires WellFormed(stage)
    ensures Goes(stage, w, SeedRun(w, stage).world)
    ensures SeedRun(w, stage).result.Done? ==> Ends(stage, w, SeedRun(w, stage).world)
  {
    var w1, w2 := SeedAllFacts(w, stage);
    var all := SeedAll(w, stage);
    ThroughGoes(stage, w, w1, w2, all.world);
    if all.result.Done? {
      ThroughEnds(stage, w, w1, w2, all.world, all.result.value);
      hide Goes, Ends, AllEnds, Through, ThroughDone, SeedAll, SeedLast;
      SeedLastFacts(w, all.world, stage, all.result.value);
    }
  }

  lemma TidiesNothing(p: Progress, a: World, b: World)
    requires b.keys == a.keys && b.proofs == a.proofs
    ensures Tidies(p, a, b)
  {
  }

  lemma TidiesAfter(p: Progress, a: World, b: World, c: World)
    requires b.keys == a.keys && b.proofs == a.proofs && c.proofs == b.proofs
    requires forall id :: CopyGone(At(b, id), At(c, id))
    requires forall id | id !in p.moved :: At(c, id) == At(b, id)
    ensures Tidies(p, a, c)
  {
    forall id ensures CopyGone(At(a, id), At(c, id)) && (id !in p.moved ==> At(c, id) == At(a, id)) {
      assert CopyGone(At(b, id), At(c, id));
      assert At(a, id) == At(b, id);
    }
  }

  // ---------- what a completed run leaves ----------

  /** Every record is what its stored key derives, every multibase copy is that key's, and
      every proof is signed by its issuer's stored key. */
  ghost predicate FullyAgrees(stage: Stage, w: World) {
    && (forall i | 0 <= i < |AllKeys(stage)| :: Agrees(AllKeys(stage)[i], At(w, AllKeys(stage)[i].id)))
    && (forall i | 0 <= i < |stage.proofs| :: SignedByIssuer(w, stage.proofs[i]))
  }

  /** A proof that another key than its issuer's signed. */
  predicate StaleProof(spec: ProofSpec, w: World) {
    && spec.name in w.proofs && Current(At(w, spec.issuer)).Some?
    && Some(w.proofs[spec.name].signer) != Current(At(w, spec.issuer))
  }

  /** No stored key has a record or a proof that is not its own. */
  ghost predicate Untroubled(stage: Stage, w: World) {
    && (forall i | 0 <= i < |AllKeys(stage)| :: !Disagrees(AllKeys(stage)[i], At(w, AllKeys(stage)[i].id)))
    && (forall i | 0 <= i < |stage.proofs| :: !StaleProof(stage.proofs[i], w))
  }

  lemma IssuerEnds(stage: Stage, w: World, w': World, id: string)
    requires Ends(stage, w, w') && id in Ids(stage.identities)
    ensures At(w', id).secret.Some? && (Current(At(w, id)).Some? ==> At(w', id).secret == Current(At(w, id)))
  {
    var i :| 0 <= i < |stage.identities| && stage.identities[i].id == id;
    IdentityIsKey(stage, i);
    assert KeyEnds(AllKeys(stage)[i], At(w, id), At(w', id));
  }

  /** What a run that comes through leaves agrees throughout exactly when, as it began, no
      stored key had a record that it does not derive, and no proof was by another key. */
  lemma CompletedRunAgreesExactlyWhen(w: World, stage: Stage)
    requires WellFormed(stage)
    ensures SeedRun(w, stage).result.Done? ==> (FullyAgrees(stage, SeedRun(w, stage).world) <==> Untroubled(stage, w))
  {
    SeedRunFacts(w, stage);
    hide SeedRun, Moves;
    if SeedRun(w, stage).result.Done? {
      EndsAgrees(stage, w, SeedRun(w, stage).world);
    }
  }

  lemma EndsAgrees(stage: Stage, w: World, w': World)
    requires Ends(stage, w, w')
    requires forall i | 0 <= i < |stage.proofs| :: stage.proofs[i].issuer in Ids(stage.identities)
    ensures FullyAgrees(stage, w') <==> Untroubled(stage, w)
  {
    hide Moves;
    forall i | 0 <= i < |AllKeys(stage)|
      ensures Agrees(AllKeys(stage)[i], At(w', AllKeys(stage)[i].id)) <==>
        !Disagrees(AllKeys(stage)[i], At(w, AllKeys(stage)[i].id))
    {
      assert KeyEnds(AllKeys(stage)[i], At(w, AllKeys(stage)[i].id), At(w', AllKeys(stage)[i].id));
    }
    forall i | 0 <= i < |stage.proofs|
      ensures SignedByIssuer(w', stage.proofs[i]) <==> !StaleProof(stage.proofs[i], w)
    {
      assert ProofEnds(stage.proofs[i], w, w');
      IssuerEnds(stage, w, w', stage.proofs[i].issuer);
    }
  }

  // ---------- a further run ----------

  predicate SettledKey(spec: KeySpec, k: KeyState) {
    && k.secret.Some? && k.copy.None? && k.record.Some?
    && (spec.multibase.Some? ==> k.multibase == Some(spec.multibase.value(k.secret.value)))
  }

  ghost predicate Settled(stage: Stage, w: World) {
    && (forall i | 0 <= i < |AllKeys(stage)| :: SettledKey(AllKeys(stage)[i], At(w, AllKeys(stage)[i].id)))
    && (forall i | 0 <= i < |stage.proofs| :: stage.proofs[i].name in w.proofs)
    && (forall name | name in stage.shared :: name in w.shared)
  }

  lemma EndsSettled(stage: Stage, w: World, w': World)
    requires Ends(stage, w, w') && Goes(stage, w, w')
    ensures Settled(stage, w')
  {
    forall i | 0 <= i < |AllKeys(stage)| ensures SettledKey(AllKeys(stage)[i], At(w', AllKeys(stage)[i].id)) {
      assert KeyEnds(AllKeys(stage)[i], At(w, AllKeys(stage)[i].id), At(w', AllKeys(stage)[i].id));
      assert KeyGoes(AllKeys(stage)[i], At(w, AllKeys(stage)[i].id), At(w', AllKeys(stage)[i].id));
    }
    forall i | 0 <= i < |stage.proofs| ensures stage.proofs[i].name in w'.proofs {
      assert ProofEnds(stage.proofs[i], w, w');
    }
  }

  lemma SettledKeyStays(spec: KeySpec, a: KeyState, b: KeyState)
    requires SettledKey(spec, a) && KeyGoes(spec, a, b)
    ensures b == a
  {
  }

  lemma {:induction false} NoneAmong(w: World, specs: seq<KeySpec>)
    requires forall i | 0 <= i < |specs| :: SettledKey(specs[i], At(w, specs[i].id))
    ensures MintedAmong(w, specs) == [] && MovedAmong(w, specs) == []
  {
    if specs != [] {
      assert SettledKey(specs[0], At(w, specs[0].id));
      forall i | 0 <= i < |specs[1..]| ensures SettledKey(specs[1..][i], At(w, specs[1..][i].id)) {
        assert specs[1..][i] == specs[i + 1];
      }
      NoneAmong(w, specs[1..]);
    }
  }

  lemma {:induction false} NoneIssued(w: World, specs: seq<ProofSpec>)
    requires forall i | 0 <= i < |specs| :: specs[i].name in w.proofs
    ensures Issued(w, specs, {}) == []
  {
    if specs != [] {
      NoneIssued(w, specs[1..]);
    }
  }

  lemma {:induction false} NoneAbsent(have: set<string>, names: seq<string>)
    requires forall name | name in names :: name in have
    ensures Absent(have, names) == []
    decreases |names|
  {
    if names != [] {
      NoneAbsent(have + {names[0]}, names[1..]);
    }
  }

  lemma SettledPart(w: World, w': World, specs: seq<KeySpec>)
    requires KeysMove(specs, w, w') && forall i | 0 <= i < |specs| :: SettledKey(specs[i], At(w, specs[i].id))
    ensures forall id :: At(w', id) == At(w, id)
  {
    forall id ensures At(w', id) == At(w, id) {
      if id in Ids(specs) {
        var i :| 0 <= i < |specs| && specs[i].id == id;
        CopyKept(specs[i], At(w, id), At(w', id));
        SettledKeyStays(specs[i], At(w, id), At(w', id));
      }
    }
  }

  lemma SettledParts(stage: Stage, w: World)
    requires Settled(stage, w)
    ensures forall i | 0 <= i < |stage.identities| :: SettledKey(stage.identities[i], At(w, stage.identities[i].id))
    ensures forall i | 0 <= i < |stage.wallets| :: SettledKey(stage.wallets[i], At(w, stage.wallets[i].id))
  {
    forall i | 0 <= i < |stage.identities| ensures SettledKey(stage.identities[i], At(w, stage.identities[i].id)) {
      IdentityIsKey(stage, i);
    }
    forall i | 0 <= i < |stage.wallets| ensures SettledKey(stage.wallets[i], At(w, stage.wallets[i].id)) {
      WalletIsKey(stage, i);
    }
  }

  lemma SameProofs(a: World, b: World)
    requires forall name :: SameProof(a, b, name)
    ensures b.proofs == a.proofs
  {
    forall name
      ensures name in a.proofs <==> name in b.proofs
      ensures name in a.proofs ==> name in b.proofs && b.proofs[name] == a.proofs[name]
    {
      assert SameProof(a, b, name);
    }
  }

  lemma SettledThrough(stage: Stage, w: World, w1: World, w2: World, w3: World)
    requires Settled(stage, w) && Through(stage, w, w1, w2, w3)
    ensures MintedAmong(w, stage.identities) == []
    ensures forall id :: At(w, id) == At(w1, id) == At(w2, id) == At(w3, id)
    ensures w3.proofs == w.proofs
  {
    hide SettledKey, Moves;
    SettledParts(stage, w);
    NoneAmong(w, stage.identities);
    SettledPart(w, w1, stage.identities);
    assert forall id :: At(w2, id) == At(w1, id);
    SettledPart(w2, w3, stage.wallets);
    assert (set id | id in MintedAmong(w, stage.identities)) == {};
    forall name ensures SameProof(w1, w2, name) {
      if name in Names(stage.proofs) {
        var i :| 0 <= i < |stage.proofs| && stage.proofs[i].name == name;
        assert ProofMoves(stage.proofs[i], w1, w2, {});
        assert Stays(w1, stage.proofs[i], {});
      }
    }
    SameProofs(w1, w2);
  }

  /** The first three parts of a run that finds everything in place. */
  lemma SettledAll(w: World, stage: Stage)
    requires WellFormed(stage) && Settled(stage, w)
    ensures var run := SeedAll(w, stage);
      && (forall id :: At(run.world, id) == At(w, id))
      && run.world.proofs == w.proofs && run.world.shared == w.shared
      && (run.result.Done? ==> run.result.value.created == [] && run.result.value.moved == [])
  {
    var w1, w2 := SeedAllFacts(w, stage);
    var run := SeedAll(w, stage);
    SettledThrough(stage, w, w1, w2, run.world);
    SettledParts(stage, w);
    hide SeedAll, SettledKey, RestGoes, KeysMove;
    NoneAmong(w, stage.identities);
    NoneAmong(w2, stage.wallets);
    if run.result.Done? {
      ProofsKept(stage.identities, w, w1);
      assert (set id | id in MintedAmong(w, stage.identities)) == {};
      NoneIssued(w1, stage.proofs);
    }
  }

  lemma ProofsKept(specs: seq<KeySpec>, a: World, b: World)
    requires KeysMove(specs, a, b)
    ensures b.proofs == a.proofs
  {
  }

  lemma SettledAgain(stage: Stage, a: World, b: World)
    requires Settled(stage, a) && b == a.(script := b.script)
    ensures Settled(stage, b)
  {
    assert forall id :: At(b, id) == At(a, id);
  }

  lemma SettledShared(w: World, stage: Stage, p: Progress)
    requires forall name | name in stage.shared :: name in w.shared
    ensures var run := SeedShared(w, stage.shared, p);
      && run.world == w.(script := run.world.script)
      && (run.result.Done? ==> run.result.value == p)
  {
    SeedSharedFacts(w, stage.shared, p);
    NoneAbsent(w.shared.Keys, stage.shared);
    var run := SeedShared(w, stage.shared, p);
    assert run.world.shared == w.shared;
    assert p.created + [] == p.created;
  }

  lemma SettledFinish(w: World, stage: Stage)
    requires var all := SeedAll(w, stage);
      && (forall name | name in stage.shared :: name in all.world.shared)
      && (all.result.Done? ==> all.result.value.created == [] && all.result.value.moved == [])
    ensures var all, run := SeedAll(w, stage), SeedRun(w, stage);
      && run.world == all.world.(script := run.world.script)
      && (run.result.Done? ==> run.result.value == [])
  {
    hide SeedAll, SeedShared;
    var all := SeedAll(w, stage);
    if all.result.Done? {
      SettledShared(all.world, stage, all.result.value);
    }
  }

  lemma SettledRun(w: World, stage: Stage)
    requires WellFormed(stage) && Settled(stage, w)
    ensures var run := SeedRun(w, stage);
      && (forall id :: At(run.world, id) == At(w, id))
      && run.world.proofs == w.proofs && run.world.shared == w.shared
      && (run.result.Done? ==> run.result.value == [])
  {
    SettledAll(w, stage);
    SettledFinish(w, stage);
    hide SeedAll, SeedRun;
    assert forall id :: At(SeedRun(w, stage).world, id) == At(SeedAll(w, stage).world, id);
  }

  /** Once a run has come through, a further one creates nothing and changes nothing that is
      stored, however it ends and whatever the first one found. */
  lemma FurtherRunChangesNothing(w: World, stage: Stage, script: seq<Event>)
    requires WellFormed(stage)
    ensures var first := SeedRun(w, stage).world.(script := script);
      var further := SeedRun(first, stage);
      SeedRun(w, stage).result.Done? ==>
        && (forall id :: At(further.world, id) == At(first, id))
        && further.world.proofs == first.proofs && further.world.shared == first.shared
        && (further.result.Done? ==> further.result.value == [])
  {
    SeedRunFacts(w, stage);
    if SeedRun(w, stage).result.Done? {
      AfterDone(w, stage, script);
    }
  }

  lemma AfterDone(w: World, stage: Stage, script: seq<Event>)
    requires WellFormed(stage) && Ends(stage, w, SeedRun(w, stage).world) && Goes(stage, w, SeedRun(w, stage).world)
    ensures var first := SeedRun(w, stage).world.(script := script);
      var further := SeedRun(first, stage);
      && (forall id :: At(further.world, id) == At(first, id))
      && further.world.proofs == first.proofs && further.world.shared == first.shared
      && (further.result.Done? ==> further.result.value == [])
  {
    hide SeedRun;
    var first := SeedRun(w, stage).world.(script := script);
    EndsSettled(stage, w, SeedRun(w, stage).world);
    SettledAgain(stage, SeedRun(w, stage).world, first);
    SettledRun(first, stage);
  }

  // ---------- histories ----------

  /** Seed runs, and an operator deleting a key's secret, so that the next run mints another. */
  datatype Op = SeedOp(script: seq<Event>) | Rotate(id: string)

  function Step(stage: Stage, w: World, op: Op): World {
    match op
    case SeedOp(script) => SeedRun(w.(script := script), stage).world
    case Rotate(id) => w.(keys := w.keys[id := At(w, id).(secret := None)])
  }

  function Play(stage: Stage, w: World, ops: seq<Op>): World
    decreases |ops|
  {
    if ops == [] then w else Play(stage, Step(stage, w, ops[0]), ops[1..])
  }

  /** The key was nowhere, it is now stored, and something was published or signed under the
      key before it. */
  predicate Replaced(stage: Stage, w: World, w': World, id: string) {
    && Unminted(At(w, id)) && At(w', id).secret.Some?
    && (At(w, id).record.Some?
        || exists i | 0 <= i < |stage.proofs| :: stage.proofs[i].issuer == id && stage.proofs[i].name in w.proofs)
  }

  /** Every run that mints a replacement key comes through. */
  ghost predicate ReplacementsComplete(stage: Stage, w: World, ops: seq<Op>)
    decreases |ops|
  {
    ops == [] ||
    (&& (ops[0].SeedOp? ==>
           || SeedRun(w.(script := ops[0].script), stage).result.Done?
           || forall id | id in Ids(AllKeys(stage)) :: !Replaced(stage, w, Step(stage, w, ops[0]), id))
     && ReplacementsComplete(stage, Step(stage, w, ops[0]), ops[1..]))
  }

  predicate OneValue(k: KeyState) {
    k.secret.Some? && k.copy.Some? ==> k.secret == k.copy
  }

  ghost predicate Healthy(stage: Stage, w: World) {
    && Untroubled(stage, w)
    && forall i | 0 <= i < |AllKeys(stage)| :: OneValue(At(w, AllKeys(stage)[i].id))
  }

  lemma IssuerGoes(stage: Stage, w: World, w': World, id: string)
    requires Goes(stage, w, w') && id in Ids(stage.identities)
    ensures id in Ids(AllKeys(stage))
    ensures Current(At(w, id)).Some? ==> Current(At(w', id)) == Current(At(w, id))
    ensures At(w', id).secret.Some? || Current(At(w', id)) == Current(At(w, id))
  {
    var i :| 0 <= i < |stage.identities| && stage.identities[i].id == id;
    IdentityIsKey(stage, i);
    assert KeyGoes(AllKeys(stage)[i], At(w, id), At(w', id));
  }

  lemma StoppedRunKeeps(stage: Stage, w: World, w': World)
    requires WellFormed(stage) && Goes(stage, w, w') && Healthy(stage, w)
    requires forall id | id in Ids(AllKeys(stage)) :: !Replaced(stage, w, w', id)
    ensures Healthy(stage, w')
  {
    forall i | 0 <= i < |AllKeys(stage)|
      ensures !Disagrees(AllKeys(stage)[i], At(w', AllKeys(stage)[i].id)) && OneValue(At(w', AllKeys(stage)[i].id))
    {
      var spec := AllKeys(stage)[i];
      assert KeyGoes(spec, At(w, spec.id), At(w', spec.id));
      assert !Disagrees(spec, At(w, spec.id)) && OneValue(At(w, spec.id));
      assert spec.id in Ids(AllKeys(stage));
      assert !Replaced(stage, w, w', spec.id);
    }
    forall i | 0 <= i < |stage.proofs| ensures !StaleProof(stage.proofs[i], w') {
      var spec := stage.proofs[i];
      assert ProofGoes(spec, w, w') && !StaleProof(spec, w);
      IssuerGoes(stage, w, w', spec.issuer);
      assert !Replaced(stage, w, w', spec.issuer);
    }
  }

  lemma CompletedRunKeeps(w: World, stage: Stage)
    requires WellFormed(stage) && Healthy(stage, w) && SeedRun(w, stage).result.Done?
    ensures Healthy(stage, SeedRun(w, stage).world)
  {
    CompletedRunAgreesExactlyWhen(w, stage);
    SeedRunFacts(w, stage);
    hide SeedRun;
    var w' := SeedRun(w, stage).world;
    forall i | 0 <= i < |AllKeys(stage)|
      ensures !Disagrees(AllKeys(stage)[i], At(w', AllKeys(stage)[i].id)) && OneValue(At(w', AllKeys(stage)[i].id))
    {
      assert Agrees(AllKeys(stage)[i], At(w', AllKeys(stage)[i].id));
      assert KeyEnds(AllKeys(stage)[i], At(w, AllKeys(stage)[i].id), At(w', AllKeys(stage)[i].id));
    }
    forall i | 0 <= i < |stage.proofs| ensures !StaleProof(stage.proofs[i], w') {
      assert SignedByIssuer(w', stage.proofs[i]);
    }
  }

  lemma RotationKeeps(w: World, stage: Stage, id: string)
    requires WellFormed(stage) && Healthy(stage, w)
    ensures Healthy(stage, Step(stage, w, Rotate(id)))
  {
    var w' := Step(stage, w, Rotate(id));
    forall i | 0 <= i < |AllKeys(stage)|
      ensures !Disagrees(AllKeys(stage)[i], At(w', AllKeys(stage)[i].id)) && OneValue(At(w', AllKeys(stage)[i].id))
    {
      var spec := AllKeys(stage)[i];
      assert !Disagrees(spec, At(w, spec.id)) && OneValue(At(w, spec.id));
      assert spec.id != id ==> At(w', spec.id) == At(w, spec.id);
    }
    forall i | 0 <= i < |stage.proofs| ensures !StaleProof(stage.proofs[i], w') {
      assert !StaleProof(stage.proofs[i], w);
      var issuer := stage.proofs[i].issuer;
      var k :| 0 <= k < |stage.identities| && stage.identities[k].id == issuer;
      IdentityIsKey(stage, k);
      assert OneValue(At(w, AllKeys(stage)[k].id));
      assert Current(At(w', issuer)).Some? ==> Current(At(w', issuer)) == Current(At(w, issuer));
    }
  }

  lemma StepKeeps(w: World, stage: Stage, op: Op)
    requires WellFormed(stage) && Healthy(stage, w)
    requires ReplacementsComplete(stage, w, [op])
    ensures Healthy(stage, Step(stage, w, op))
  {
    hide SeedRun, Healthy, Goes;
    match op
    case Rotate(id) => RotationKeeps(w, stage, id);
    case SeedOp(script) =>
      var start := w.(script := script);
      HealthyAgain(stage, w, start);
      if SeedRun(start, stage).result.Done? {
        CompletedRunKeeps(start, stage);
      } else {
        SeedRunFacts(start, stage);
        ReplacedAgain(stage, w, start, SeedRun(start, stage).world);
        StoppedRunKeeps(stage, start, SeedRun(start, stage).world);
      }
  }

  lemma HealthyAgain(stage: Stage, a: World, b: World)
    requires Healthy(stage, a) && b == a.(script := b.script)
    ensures Healthy(stage, b)
  {
    assert forall id :: At(b, id) == At(a, id);
    forall i | 0 <= i < |stage.proofs| ensures !StaleProof(stage.proofs[i], b) {
      assert !StaleProof(stage.proofs[i], a);
    }
  }

  lemma ReplacedAgain(stage: Stage, a: World, b: World, w': World)
    requires b == a.(script := b.script)
    ensures forall id :: Replaced(stage, b, w', id) == Replaced(stage, a, w', id)
  {
    assert forall id :: At(b, id) == At(a, id);
  }

  lemma {:induction false} PlayKeeps(w: World, stage: Stage, ops: seq<Op>)
    requires WellFormed(stage) && Healthy(stage, w) && ReplacementsComplete(stage, w, ops)
    ensures Healthy(stage, Play(stage, w, ops))
    decreases |ops|
  {
    if ops != [] {
      assert [ops[0]][1..] == [];
      assert ReplacementsComplete(stage, Step(stage, w, ops[0]), []);
      assert ReplacementsComplete(stage, w, [ops[0]]);
      StepKeeps(w, stage, ops[0]);
      PlayKeeps(Step(stage, w, ops[0]), stage, ops[1..]);
    }
  }

  /** From any stage whose records and proofs are those of the keys it holds, whether these are
      in Secrets Manager, still to be moved, or in both places: after any history of seed runs
      and rotations in which every run that mints a replacement key comes through, a run that
      comes through leaves each record and each multibase copy as the stored key derives it,
      and each startup proof signed by its issuer's stored key. */
  lemma SeedHistoryAgrees(w: World, stage: Stage, ops: seq<Op>, script: seq<Event>)
    requires WellFormed(stage) && Healthy(stage, w) && ReplacementsComplete(stage, w, ops)
    ensures var run := SeedRun(Play(stage, w, ops).(script := script), stage);
      run.result.Done? ==> FullyAgrees(stage, run.world)
  {
    PlayKeeps(w, stage, ops);
    var end := Play(stage, w, ops);
    HealthyAgain(stage, end, end.(script := script));
    hide SeedRun;
    CompletedRunAgreesExactlyWhen(end.(script := script), stage);
  }

  /** A stage that holds nothing yet is such a stage. */
  lemma SeedHistoryFromNothing(stage: Stage, ops: seq<Op>, script: seq<Event>)
    requires WellFormed(stage)
    requires ReplacementsComplete(stage, World(map[], map[], map[], []), ops)
    ensures var run := SeedRun(Play(stage, World(map[], map[], map[], []), ops).(script := script), stage);
      run.result.Done? ==> FullyAgrees(stage, run.world)
  {
    var nothing := World(map[], map[], map[], []);
    assert Healthy(stage, nothing);
    SeedHistoryAgrees(nothing, stage, ops, script);
  }

  /** A run that stops right after minting the replacement of a rotated key leaves the record
      of the key before it. */
  lemma StoppedReplacementDisagrees(spec: KeySpec, earlier: string, minted: string, multibase: Option<string>)
    requires spec.derive(minted) != Some(earlier)
    ensures var served := Event(Served, minted);
      var run := SeedKey(Local(KeyState(None, None, Some(earlier), multibase), [served, served, served]), spec);
      !run.result.Done? && Disagrees(spec, run.world.key)
  {
    var served := Event(Served, minted);
    var k := KeyState(None, None, Some(earlier), multibase);
    assert [served, served, served][1..] == [served, served];
    assert [served, served][1..] == [served] && [served][1..] == [];
    var ensured := EnsureKey(Local(k, [served, served, served]), spec);
    assert ensured == Run(Local(k.(secret := Some(minted)), []), Done(Ensured(minted, true, false)));
  }

  /** Without that: a run that stops after minting a replacement and before publishing it
      leaves a record that no later run corrects. */
  lemma StoppedReplacementIsNeverCorrected(w: World, stage: Stage, i: nat)
    requires WellFormed(stage) && i < |AllKeys(stage)| && Disagrees(AllKeys(stage)[i], At(w, AllKeys(stage)[i].id))
    ensures var run := SeedRun(w, stage);
      run.result.Done? ==> Disagrees(AllKeys(stage)[i], At(run.world, AllKeys(stage)[i].id))
  {
    SeedRunFacts(w, stage);
    hide SeedRun;
    var spec, run := AllKeys(stage)[i], SeedRun(w, stage);
    assert run.result.Done? ==> KeyEnds(spec, At(w, spec.id), At(run.world, spec.id));
  }
}
