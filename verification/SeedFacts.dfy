/** What a completed seed run establishes, whatever the runs before it left behind. */
module SeedFacts {
  import opened Outcomes
  import opened Seed

  // ---------- one key ----------

  /** The key as it will be found: the secret, or else the copy. */
  function Current(k: KeyState): Option<string> {
    if k.secret.Some? then k.secret else k.copy
  }

  predicate Unminted(k: KeyState) {
    Current(k).None?
  }

  /** The published record is what the stored key derives, and so is the multibase copy. */
  predicate Agrees(spec: KeySpec, k: KeyState) {
    && k.secret.Some?
    && k.record.Some? && k.record == spec.derive(k.secret.value)
    && (spec.multibase.Some? ==> k.multibase == Some(spec.multibase.value(k.secret.value)))
  }

  /** A record that is there and is not what the stored secret derives. */
  predicate Disagrees(spec: KeySpec, k: KeyState) {
    k.secret.Some? && k.record.Some? && k.record != spec.derive(k.secret.value)
  }

  /** How one seed of a key leaves it, however it ends. */
  predicate Moves(spec: KeySpec, a: KeyState, b: KeyState) {
    && b.copy == a.copy
    && (b.secret == a.secret
        || (a.secret.None? && b.secret.Some?
            && (a.copy.Some? ==> b.secret == a.copy && a.record.Some? && a.record == spec.derive(a.copy.value))))
    && (b.record == a.record
        || (b.secret.Some? && b.record.Some? && b.record == spec.derive(b.secret.value)
            && (a.record.None? || Unminted(a))))
    && (b.multibase == a.multibase
        || (b.secret.Some? && spec.multibase.Some? && b.multibase == Some(spec.multibase.value(b.secret.value))))
  }

  /** How it leaves the key when it comes through. */
  predicate Completes(spec: KeySpec, a: KeyState, b: KeyState) {
    && b.secret.Some? && b.record.Some? && spec.derive(b.secret.value).Some?
    && (spec.multibase.Some? ==> b.multibase == Some(spec.multibase.value(b.secret.value)))
    && (Current(a).Some? ==> b.secret == Current(a))
    && (a.secret.Some? && a.copy.Some? ==> a.secret == a.copy)
    && (Agrees(spec, b) <==> !Disagrees(spec, a))
  }

  predicate Reports(a: KeyState, b: KeyState, ensured: Ensured) {
    && b.secret == Some(ensured.value)
    && ensured.created == Unminted(a)
    && ensured.moved == a.copy.Some?
  }

  lemma EnsureKeyFacts(l: Local, spec: KeySpec)
    ensures var run := EnsureKey(l, spec);
      && Moves(spec, l.key, run.world.key)
      && run.world.key.record == l.key.record && run.world.key.multibase == l.key.multibase
      && (run.result.Done? ==>
            && Reports(l.key, run.world.key, run.result.value)
            && (Current(l.key).Some? ==> run.world.key.secret == Current(l.key))
            && (l.key.secret.Some? && l.key.copy.Some? ==> l.key.secret == l.key.copy))
  {
  }

  lemma CopyFacts(l: Local, spec: KeySpec, value: string)
    ensures var run := Copy(l, spec, value);
      && run.world.key == l.key.(multibase := run.world.key.multibase)
      && (run.world.key.multibase == l.key.multibase
          || (spec.multibase.Some? && run.world.key.multibase == Some(spec.multibase.value(value))))
      && (run.result.Done? && spec.multibase.Some? ==> run.world.key.multibase == Some(spec.multibase.value(value)))
  {
  }

  lemma PublishFacts(l: Local, derived: string, created: bool)
    ensures var run := Publish(l, derived, created);
      && run.world.key == l.key.(record := run.world.key.record)
      && (run.world.key.record == l.key.record
          || (run.world.key.record == Some(derived) && (created || l.key.record.None?)))
      && (run.result.Done? ==>
            run.world.key.record == if created || l.key.record.None? then Some(derived) else l.key.record)
  {
  }

  lemma SeedKeyFacts(l: Local, spec: KeySpec)
    ensures var run := SeedKey(l, spec);
      && Moves(spec, l.key, run.world.key)
      && (run.result.Done? ==> Completes(spec, l.key, run.world.key) && Reports(l.key, run.world.key, run.result.value))
  {
    hide EnsureKey, Copy, Publish;
    EnsureKeyFacts(l, spec);
    var ensured := EnsureKey(l, spec);
    if ensured.result.Done? {
      var value := ensured.result.value.value;
      if spec.derive(value).Some? {
        CopyFacts(ensured.world, spec, value);
        var copied := Copy(ensured.world, spec, value);
        if copied.result.Done? {
          PublishFacts(copied.world, spec.derive(value).value, ensured.result.value.created);
        }
      }
    }
  }

  // ---------- the keys, one after the other ----------

  function Ids(specs: seq<KeySpec>): set<string> {
    set i | 0 <= i < |specs| :: specs[i].id
  }

  predicate DistinctIds(specs: seq<KeySpec>) {
    forall i, j | 0 <= i < j < |specs| :: specs[i].id != specs[j].id
  }

  ghost predicate KeysMove(specs: seq<KeySpec>, a: World, b: World) {
    && b.proofs == a.proofs && b.shared == a.shared
    && (forall id | id !in Ids(specs) :: At(b, id) == At(a, id))
    && (forall i | 0 <= i < |specs| :: Moves(specs[i], At(a, specs[i].id), At(b, specs[i].id)))
  }

  ghost predicate KeysComplete(specs: seq<KeySpec>, a: World, b: World) {
    forall i | 0 <= i < |specs| :: Completes(specs[i], At(a, specs[i].id), At(b, specs[i].id))
  }

  function MintedAmong(w: World, specs: seq<KeySpec>): seq<string> {
    if specs == [] then []
    else (if Unminted(At(w, specs[0].id)) then [specs[0].id] else []) + MintedAmong(w, specs[1..])
  }

  function MovedAmong(w: World, specs: seq<KeySpec>): seq<string> {
    if specs == [] then []
    else (if At(w, specs[0].id).copy.Some? then [specs[0].id] else []) + MovedAmong(w, specs[1..])
  }

  ghost predicate Adds(p: Progress, q: Progress, minted: seq<string>, moved: seq<string>) {
    && q.minted == p.minted + (set id | id in minted)
    && q.created == p.created + minted
    && q.moved == p.moved + moved
  }

  ghost predicate KeysReport(specs: seq<KeySpec>, w: World, p: Progress, q: Progress) {
    Adds(p, q, MintedAmong(w, specs), MovedAmong(w, specs))
  }

  lemma AddsJoin(p: Progress, q: Progress, r: Progress, a: seq<string>, b: seq<string>, c: seq<string>, d: seq<string>)
    requires Adds(p, q, a, b) && Adds(q, r, c, d)
    ensures Adds(p, r, a + c, b + d)
  {
  }

  lemma SeedOneFacts(w: World, spec: KeySpec, p: Progress)
    ensures var run := SeedOne(w, spec, p);
      && run.world.proofs == w.proofs && run.world.shared == w.shared
      && (forall id | id != spec.id :: At(run.world, id) == At(w, id))
      && Moves(spec, At(w, spec.id), At(run.world, spec.id))
      && (run.result.Done? ==>
            && Completes(spec, At(w, spec.id), At(run.world, spec.id))
            && KeysReport([spec], w, p, run.result.value))
  {
    hide SeedKey;
    SeedKeyFacts(Local(At(w, spec.id), w.script), spec);
    assert [spec][1..] == [];
    assert MintedAmong(w, [spec]) == if Unminted(At(w, spec.id)) then [spec.id] else [];
    assert MovedAmong(w, [spec]) == if At(w, spec.id).copy.Some? then [spec.id] else [];
  }

  lemma {:induction false} AmongSame(a: World, b: World, specs: seq<KeySpec>)
    requires forall i | 0 <= i < |specs| :: At(a, specs[i].id) == At(b, specs[i].id)
    ensures MintedAmong(a, specs) == MintedAmong(b, specs) && MovedAmong(a, specs) == MovedAmong(b, specs)
  {
    if specs != [] {
      AmongSame(a, b, specs[1..]);
    }
  }

  lemma AmongFirst(w: World, specs: seq<KeySpec>)
    requires specs != []
    ensures MintedAmong(w, specs) == MintedAmong(w, specs[..1]) + MintedAmong(w, specs[1..])
    ensures MovedAmong(w, specs) == MovedAmong(w, specs[..1]) + MovedAmong(w, specs[1..])
  {
    hide Unminted, At;
    assert specs[..1][1..] == [] && specs[..1][0] == specs[0];
  }

  lemma ReportsJoin(specs: seq<KeySpec>, w: World, w1: World, p: Progress, q: Progress, r: Progress)
    requires specs != [] && DistinctIds(specs)
    requires forall id | id != specs[0].id :: At(w1, id) == At(w, id)
    requires KeysReport(specs[..1], w, p, q) && KeysReport(specs[1..], w1, q, r)
    ensures KeysReport(specs, w, p, r)
  {
    AmongSame(w, w1, specs[1..]);
    hide MintedAmong, MovedAmong, At, Adds;
    AmongFirst(w, specs);
    AddsJoin(p, q, r, MintedAmong(w, specs[..1]), MovedAmong(w, specs[..1]), MintedAmong(w1, specs[1..]),
             MovedAmong(w1, specs[1..]));
  }

  lemma {:induction false} SeedKeysFacts(w: World, specs: seq<KeySpec>, p: Progress)
    requires DistinctIds(specs)
    ensures var run := SeedKeys(w, specs, p);
      && KeysMove(specs, w, run.world)
      && (run.result.Done? ==> KeysComplete(specs, w, run.world) && KeysReport(specs, w, p, run.result.value))
    decreases |specs|
  {
    hide SeedOne, Moves, Completes;
    if specs == [] {
      assert p.created + [] == p.created && p.moved + [] == p.moved && p.minted + {} == p.minted;
    } else {
      SeedOneFacts(w, specs[0], p);
      var one := SeedOne(w, specs[0], p);
      assert specs[..1] == [specs[0]];
      if one.result.Done? {
        SeedKeysFacts(one.world, specs[1..], one.result.value);
        var run := SeedKeys(w, specs, p);
        KeysJoin(w, one.world, run.world, specs);
        if run.result.Done? {
          ReportsJoin(specs, w, one.world, p, one.result.value, run.result.value);
        }
      } else {
        KeysStopped(w, one.world, specs);
      }
    }
  }

  lemma MovesSame(spec: KeySpec, k: KeyState)
    ensures Moves(spec, k, k)
  {
  }

  lemma KeysStopped(w: World, w1: World, specs: seq<KeySpec>)
    requires specs != [] && DistinctIds(specs)
    requires w1.proofs == w.proofs && w1.shared == w.shared
    requires forall id | id != specs[0].id :: At(w1, id) == At(w, id)
    requires Moves(specs[0], At(w, specs[0].id), At(w1, specs[0].id))
    ensures KeysMove(specs, w, w1)
  {
    hide Moves;
    forall i | 0 <= i < |specs| ensures Moves(specs[i], At(w, specs[i].id), At(w1, specs[i].id)) {
      MovesSame(specs[i], At(w, specs[i].id));
    }
    assert specs[0].id in Ids(specs);
  }

  lemma KeysJoin(w: World, w1: World, w2: World, specs: seq<KeySpec>)
    requires specs != [] && DistinctIds(specs)
    requires w1.proofs == w.proofs && w1.shared == w.shared
    requires forall id | id != specs[0].id :: At(w1, id) == At(w, id)
    requires Moves(specs[0], At(w, specs[0].id), At(w1, specs[0].id))
    requires KeysMove(specs[1..], w1, w2)
    ensures KeysMove(specs, w, w2)
    ensures Completes(specs[0], At(w, specs[0].id), At(w1, specs[0].id)) && KeysComplete(specs[1..], w1, w2) ==>
      KeysComplete(specs, w, w2)
  {
    hide Moves, Completes;
    assert specs[0].id !in Ids(specs[1..]);
    assert At(w2, specs[0].id) == At(w1, specs[0].id);
    forall i | 1 <= i < |specs|
      ensures Moves(specs[i], At(w, specs[i].id), At(w2, specs[i].id))
      ensures KeysComplete(specs[1..], w1, w2) ==> Completes(specs[i], At(w, specs[i].id), At(w2, specs[i].id))
    {
      assert specs[i] == specs[1..][i - 1];
      assert At(w1, specs[i].id) == At(w, specs[i].id);
    }
    IdsSplit(specs);
  }

  lemma IdsSplit(specs: seq<KeySpec>)
    requires specs != []
    ensures Ids(specs) == {specs[0].id} + Ids(specs[1..])
  {
    forall id | id in {specs[0].id} + Ids(specs[1..]) ensures id in Ids(specs) {
      if id != specs[0].id {
        var i :| 0 <= i < |specs[1..]| && specs[1..][i].id == id;
        assert specs[i + 1].id == id;
      }
    }
    forall id | id in Ids(specs) ensures id in {specs[0].id} + Ids(specs[1..]) {
      var i :| 0 <= i < |specs| && specs[i].id == id;
      if i != 0 {
        assert specs[1..][i - 1].id == id;
      }
    }
  }

  // ---------- the proofs ----------

  predicate DistinctNames(specs: seq<ProofSpec>) {
    forall i, j | 0 <= i < j < |specs| :: specs[i].name != specs[j].name
  }

  /** The proof is there and the issuer's stored key signed it. */
  predicate SignedByIssuer(w: World, spec: ProofSpec) {
    spec.name in w.proofs && Some(w.proofs[spec.name].signer) == At(w, spec.issuer).secret
  }

  predicate Stays(w: World, spec: ProofSpec, minted: set<string>) {
    spec.issuer !in minted && spec.name in w.proofs
  }

  predicate SameProof(a: World, b: World, name: string) {
    (name in a.proofs <==> name in b.proofs) && (name in a.proofs ==> a.proofs[name] == b.proofs[name])
  }

  /** How seeding a proof leaves it: as it was, or, unless it stays, signed by its issuer. */
  predicate ProofMoves(spec: ProofSpec, a: World, b: World, minted: set<string>) {
    SameProof(a, b, spec.name) || (!Stays(a, spec, minted) && SignedByIssuer(b, spec))
  }

  predicate ProofCompletes(spec: ProofSpec, a: World, b: World, minted: set<string>) {
    if Stays(a, spec, minted) then SameProof(a, b, spec.name) else SignedByIssuer(b, spec)
  }

  function Issued(w: World, specs: seq<ProofSpec>, minted: set<string>): seq<string> {
    if specs == [] then []
    else (if Stays(w, specs[0], minted) then [] else [specs[0].name]) + Issued(w, specs[1..], minted)
  }

  lemma IssueProofFacts(w: World, spec: ProofSpec)
    ensures var run := IssueProof(w, spec);
      && run.world == w.(proofs := run.world.proofs, script := run.world.script)
      && (forall name | name != spec.name :: SameProof(w, run.world, name))
      && (SameProof(w, run.world, spec.name) || SignedByIssuer(run.world, spec))
      && (run.result.Done? ==> SignedByIssuer(run.world, spec))
  {
  }

  lemma KeepsProofFacts(w: World, spec: ProofSpec, p: Progress)
    ensures var run := KeepsProof(w, spec, p);
      && run.world == w.(script := run.world.script)
      && (run.result.Done? ==> run.result.value == Stays(w, spec, p.minted))
  {
  }

  lemma SeedProofFacts(w: World, spec: ProofSpec, p: Progress)
    ensures var run := SeedProof(w, spec, p);
      && run.world.keys == w.keys && run.world.shared == w.shared
      && (forall name | name != spec.name :: SameProof(w, run.world, name))
      && ProofMoves(spec, w, run.world, p.minted)
      && (run.result.Done? ==>
            && ProofCompletes(spec, w, run.world, p.minted)
            && run.result.value == p.(created := p.created + if Stays(w, spec, p.minted) then [] else [spec.name]))
  {
    hide IssueProof, KeepsProof;
    assert p.created + [] == p.created;
    KeepsProofFacts(w, spec, p);
    var kept := KeepsProof(w, spec, p);
    if kept.result.Done? && !kept.result.value {
      IssueProofFacts(kept.world, spec);
      var issued := IssueProof(kept.world, spec).world;
      assert forall name :: SameProof(w, issued, name) == SameProof(kept.world, issued, name);
    }
  }

  function Names(specs: seq<ProofSpec>): set<string> {
    set i | 0 <= i < |specs| :: specs[i].name
  }

  lemma NamesSplit(specs: seq<ProofSpec>)
    requires specs != []
    ensures Names(specs) == {specs[0].name} + Names(specs[1..])
  {
    forall name | name in {specs[0].name} + Names(specs[1..]) ensures name in Names(specs) {
      if name != specs[0].name {
        var i :| 0 <= i < |specs[1..]| && specs[1..][i].name == name;
        assert specs[i + 1].name == name;
      }
    }
    forall name | name in Names(specs) ensures name in {specs[0].name} + Names(specs[1..]) {
      var i :| 0 <= i < |specs| && specs[i].name == name;
      if i != 0 {
        assert specs[1..][i - 1].name == name;
      }
    }
  }

  ghost predicate ProofsMove(specs: seq<ProofSpec>, a: World, b: World, minted: set<string>) {
    forall i | 0 <= i < |specs| :: ProofMoves(specs[i], a, b, minted)
  }

  ghost predicate ProofsComplete(specs: seq<ProofSpec>, a: World, b: World, minted: set<string>) {
    forall i | 0 <= i < |specs| :: ProofCompletes(specs[i], a, b, minted)
  }

  lemma {:induction false} IssuedSame(a: World, b: World, specs: seq<ProofSpec>, minted: set<string>)
    requires forall i | 0 <= i < |specs| :: SameProof(a, b, specs[i].name)
    ensures Issued(a, specs, minted) == Issued(b, specs, minted)
  {
    if specs != [] {
      IssuedSame(a, b, specs[1..], minted);
    }
  }

  lemma {:induction false} SeedProofsFacts(w: World, specs: seq<ProofSpec>, p: Progress)
    requires DistinctNames(specs)
    ensures var run := SeedProofs(w, specs, p);
      && run.world.keys == w.keys && run.world.shared == w.shared
      && (forall name | name !in Names(specs) :: SameProof(w, run.world, name))
      && ProofsMove(specs, w, run.world, p.minted)
      && (run.result.Done? ==>
            && ProofsComplete(specs, w, run.world, p.minted)
            && run.result.value == p.(created := p.created + Issued(w, specs, p.minted)))
    decreases |specs|
  {
    hide SeedProof;
    if specs == [] {
      assert p.created + [] == p.created;
    } else {
      SeedProofFacts(w, specs[0], p);
      var one := SeedProof(w, specs[0], p);
      if one.result.Done? {
        SeedProofsFacts(one.world, specs[1..], one.result.value);
        var run := SeedProofs(w, specs, p);
        ProofsJoin(w, one.world, run.world, specs, p.minted);
        IssuedSame(w, one.world, specs[1..], p.minted);
      } else {
        NamesSplit(specs);
      }
    }
  }

  lemma ProofsJoin(w: World, w1: World, w2: World, specs: seq<ProofSpec>, minted: set<string>)
    requires specs != [] && DistinctNames(specs)
    requires w.keys == w1.keys == w2.keys
    requires forall name | name != specs[0].name :: SameProof(w, w1, name)
    requires forall name | name !in Names(specs[1..]) :: SameProof(w1, w2, name)
    requires ProofMoves(specs[0], w, w1, minted) && ProofsMove(specs[1..], w1, w2, minted)
    ensures ProofsMove(specs, w, w2, minted)
    ensures ProofCompletes(specs[0], w, w1, minted) && ProofsComplete(specs[1..], w1, w2, minted) ==>
      ProofsComplete(specs, w, w2, minted)
    ensures forall name | name !in Names(specs) :: SameProof(w, w2, name)
  {
    assert specs[0].name !in Names(specs[1..]);
    assert SameProof(w1, w2, specs[0].name);
    forall i | 1 <= i < |specs|
      ensures ProofMoves(specs[i], w, w2, minted)
      ensures ProofsComplete(specs[1..], w1, w2, minted) ==> ProofCompletes(specs[i], w, w2, minted)
    {
      assert specs[i] == specs[1..][i - 1];
      assert ProofMoves(specs[1..][i - 1], w1, w2, minted);
      assert SameProof(w, w1, specs[i].name);
    }
    NamesSplit(specs);
    forall name | name !in Names(specs) ensures SameProof(w, w2, name) {
      assert SameProof(w, w1, name) && SameProof(w1, w2, name);
    }
  }

  // ---------- shared secrets and moved copies ----------

  function Absent(have: set<string>, names: seq<string>): seq<string>
    decreases |names|
  {
    if names == [] then []
    else (if names[0] in have then [] else [names[0]]) + Absent(have + {names[0]}, names[1..])
  }

  lemma EnsureSharedFacts(w: World, name: string)
    ensures var run := EnsureShared(w, name);
      && run.world == w.(shared := run.world.shared, script := run.world.script)
      && (run.world.shared == w.shared || (name !in w.shared && run.world.shared.Keys == w.shared.Keys + {name}
                                           && run.world.shared - {name} == w.shared))
      && (run.result.Done? ==> name in run.world.shared && run.result.value == (name !in w.shared))
  {
  }

  lemma {:induction false} SeedSharedFacts(w: World, names: seq<string>, p: Progress)
    ensures var run := SeedShared(w, names, p);
      && run.world.keys == w.keys && run.world.proofs == w.proofs
      && (forall name | name in w.shared :: name in run.world.shared && run.world.shared[name] == w.shared[name])
      && (forall name | name in run.world.shared :: name in w.shared || name in names)
      && (run.result.Done? ==>
            && (forall name | name in names :: name in run.world.shared)
            && run.result.value == p.(created := p.created + Absent(w.shared.Keys, names)))
    decreases |names|
  {
    hide EnsureShared;
    if names == [] {
      assert p.created + [] == p.created;
    } else {
      assert names == [names[0]] + names[1..];
      EnsureSharedFacts(w, names[0]);
      var one := EnsureShared(w, names[0]);
      assert forall name | name in w.shared :: name in one.world.shared && one.world.shared[name] == w.shared[name];
      if one.result.Done? {
        var q := if one.result.value then p.(created := p.created + [names[0]]) else p;
        SeedSharedFacts(one.world, names[1..], q);
        assert one.world.shared.Keys == w.shared.Keys + {names[0]};
        assert q.created + Absent(one.world.shared.Keys, names[1..]) == p.created + Absent(w.shared.Keys, names);
      }
    }
  }

  /** Only copies go. */
  predicate CopyGone(a: KeyState, b: KeyState) {
    b == a || b == a.(copy := None)
  }

  lemma DeleteCopiesFacts(w: World, id: string)
    ensures var run := DeleteCopies(w, id);
      && run.world.proofs == w.proofs && run.world.shared == w.shared
      && CopyGone(At(w, id), At(run.world, id))
      && (forall other | other != id :: At(run.world, other) == At(w, other))
      && (run.result.Done? ==> At(run.world, id).copy.None?)
  {
  }

  lemma {:induction false} DeleteMovedFacts(w: World, ids: seq<string>)
    ensures var run := DeleteMoved(w, ids);
      && run.world.proofs == w.proofs && run.world.shared == w.shared
      && (forall id :: CopyGone(At(w, id), At(run.world, id)))
      && (forall id | id !in ids :: At(run.world, id) == At(w, id))
      && (run.result.Done? ==> forall id | id in ids :: At(run.world, id).copy.None?)
    decreases |ids|
  {
    if ids != [] {
      var first := DeleteCopies(w, ids[0]);
      DeleteCopiesFacts(w, ids[0]);
      hide DeleteCopies;
      assert ids == [ids[0]] + ids[1..];
      if first.result.Done? {
        DeleteMovedFacts(first.world, ids[1..]);
      }
    }
  }
}
