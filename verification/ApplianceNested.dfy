/** Accountability over histories holds exactly when no region label extends another across a slash. */
module ApplianceNested {
  import opened Outcomes
  import opened ApplianceWorld
  import opened ApplianceToken
  import opened ApplianceVault
  import opened ApplianceReconcile
  import opened ApplianceHistory

  // ---------- where the labels are not flat ----------

  /** Retiring a region takes the parameters of every region whose label extends its own
      across a slash: that region's live token is then on no record, and nothing says so. */
  lemma RetirementTakesNestedRecord(w: World, a: string, b: string)
    requires a + "/" <= b && KeyName(a) in w.keys
    requires Recorded(w, b).Some?
    ensures var run := Retire(w, a);
      run.result.Done? ==>
        && Recorded(run.world, b).None?
        && forall t | t in Mine(run.world, b) :: t in Strays(run.world, b)
  {
    RetireEffect(w, a);
    NestedPrefix(a, b);
    assert AccessorPath(b) in Under(w.params, Prefix(a));
  }

  lemma NestedPrefix(a: string, b: string)
    requires a + "/" <= b
    ensures Prefix(a) <= AccessorPath(b)
  {
    var rest := b[|a + "/"|..];
    assert b == a + "/" + rest;
    assert AccessorPath(b) == Prefix(a) + (rest + "/" + ACCESSOR_KEY);
  }

  function Ok(listing: seq<string>, accessor: string): Event {
    Event(Served, {}, listing, false, accessor, false, Unreachable)
  }

  /** A history in which every call succeeds, ending with a live token that is on no
      record, was named by no error and abandoned by no stopped run. */
  function NestedHistory(a: string, b: string): seq<Op> {
    var ok := Ok([], "t");
    [VaultRun([a, b], [], [ok, ok, ok, ok, ok, ok, ok]),
     TokenRun(Request(b, "198.51.100.7/32", "72h", false, true, true), [ok, ok, ok, ok, ok]),
     VaultRun([b], [a], [Ok([KeyName(a), KeyName(b)], ""), ok, ok, ok, ok,
                         Ok([AccessorPath(b)], ""), ok, ok, ok, ok])]
  }

  lemma NothingLapses(w: World)
    requires w.script != [] && w.script[0].lapsed == {}
    ensures Call(w) == (w.(script := w.script[1..]), w.script[0])
  {
    assert w.live - {} == w.live;
  }

  lemma EnsureKeyServed(w: World, region: string, e: Event, rest: seq<Event>)
    requires e.fate.Served? && e.lapsed == {}
    requires w.script == (if KeyName(region) in w.keys then [e, e] else [e, e, e]) + rest
    ensures EnsureKey(w, region) ==
      Run(w.(keys := if KeyName(region) in w.keys then w.keys else w.keys[KeyName(region) := false],
             policies := w.policies[KeyName(region) := PolicyText(KeyName(region))],
             script := rest), Done(()))
  {
    NothingLapses(w);
    var w1 := w.(script := w.script[1..]);
    NothingLapses(w1);
    if KeyName(region) !in w.keys {
      NothingLapses(w1.(keys := w.keys[KeyName(region) := false], script := [e] + rest));
    }
  }

  /** The first run creates the two keys. */
  lemma NestedFirst(a: string, b: string)
    requires a != b
    ensures var w := Step(Fresh(map[], map[]).world, NestedHistory(a, b)[0]);
      && w.keys == map[KeyName(a) := false, KeyName(b) := false]
      && w.roles == map[] && w.params == map[] && w.live == map[] && w.issued == {}
  {
    var ok := Ok([], "t");
    var w := Fresh(map[], map[]).world.(script := [ok, ok, ok, ok, ok, ok, ok]);
    var w0 := w.(script := [ok, ok, ok, ok, ok, ok]);
    assert ListKeys(w) == Run(w0, Done([]));
    assert PlanKeys(RegionsOf([]), [a, b], []) == Some(KeyPlan([a, b], []));
    EnsureKeyServed(w0, a, ok, [ok, ok, ok]);
    var w1 := EnsureKey(w0, a).world;
    EnsureKeyServed(w1, b, ok, []);
    assert [a, b][1..] == [b] && [b][1..] == [];
    var w2 := EnsureKey(w1, b).world;
    assert EnsureKeys(w1, [b]) == Run(w2, Done(()));
    assert EnsureKeys(w0, [a, b]) == Run(w2, Done(()));
  }

  /** The second mints and records the nested region's token. */
  lemma NestedSecond(w: World, a: string, b: string)
    requires KeyName(b) in w.keys && w.roles == map[] && w.params == map[] && w.live == map[] && w.issued == {}
    ensures var op := NestedHistory(a, b)[1];
      var run := TokenPhase(w.(script := op.script), op.req);
      && run.result == Done(Issued("t"))
      && run.world.keys == w.keys
      && run.world.params == map[AccessorPath(b) := "t"]
      && run.world.live == map["t" := Token(b, "198.51.100.7/32")]
  {
    var op := NestedHistory(a, b)[1];
    var ok := Ok([], "t");
    var plan := Plan(Mint, "", false);
    var w0 := w.(script := [ok, ok, ok]);
    assert PlanToken(w.(script := op.script), op.req) == Run(w0, Done(plan));
    var w1 := w0.(roles := map[KeyName(b) := Role("198.51.100.7/32", "72h")], script := [ok, ok]);
    assert EnsureTokenRole(w0, op.req) == Run(w1, Done(()));
    var w2 := w1.(live := map["t" := Token(b, "198.51.100.7/32")], issued := {"t"}, script := [ok]);
    NothingLapses(w1);
    assert w1.live["t" := Token(b, "198.51.100.7/32")] == w2.live && w1.issued + {"t"} == w2.issued;
    assert MintWrapped(w1, b) == Run(w2, Done("t"));
  }

  lemma NestedPlan(a: string, b: string)
    requires a != b
    ensures PlanKeys(RegionsOf([KeyName(a), KeyName(b)]), [b], [a]) == Some(KeyPlan([b], [a]))
  {
    var names := [KeyName(a), KeyName(b)];
    assert names[1..] == [KeyName(b)] && [KeyName(b)][1..] == [];
    assert RegionsOf([KeyName(b)]) == [b];
    assert RegionsOf(names) == [a, b];
    assert [a, b][1..] == [b];
    assert RetiredAmong([b], [b], [a]) == [];
    assert RetiredAmong([a, b], [b], [a]) == [a];
    assert Accounted([a, b], [b], [a]);
  }

  /** Clearing the outer region lists and deletes the nested region's record. */
  lemma NestedClear(w: World, a: string, b: string)
    requires a + "/" <= b && KeyName(a) in w.keys && w.params == map[AccessorPath(b) := "t"]
    requires var ok := Ok([], "t"); w.script == [ok, Ok([AccessorPath(b)], ""), ok, ok, ok, ok]
    ensures ClearRegion(w, a).result.Done? && ClearRegion(w, a).world.live == w.live
  {
    NestedPrefix(a, b);
    var ok := Ok([], "t");
    var w1 := w.(roles := w.roles - {KeyName(a)}, script := [Ok([AccessorPath(b)], ""), ok, ok, ok, ok]);
    NothingLapses(w);
    assert DeleteRole(w, KeyName(a)) == Run(w1, Done(()));
    var w2 := w1.(script := [ok, ok, ok, ok]);
    assert Under(w1.params, Prefix(a)) == {AccessorPath(b)};
    assert [] + [AccessorPath(b)] == [AccessorPath(b)];
    assert ListUnder(w1, Prefix(a), []) == Run(w2, Done([AccessorPath(b)]));
    var w3 := w2.(params := map[], script := [ok, ok, ok]);
    assert [AccessorPath(b)][..1] == [AccessorPath(b)] && [AccessorPath(b)][1..] == [];
    assert DeleteBatches(w2, [AccessorPath(b)]) == Run(w3, Done(()));
    assert DeletePrefix(w1, a) == Run(w3, Done(()));
    NestedRemove(w3, a, ok);
  }

  lemma NestedRemove(w: World, a: string, ok: Event)
    requires KeyName(a) in w.keys && ok == Ok([], "t") && w.script == [ok, ok, ok]
    ensures RemoveTransitKey(w, a).result.Done? && RemoveTransitKey(w, a).world.live == w.live
  {
  }

  /** The third retires the outer region, and takes the nested record along. */
  lemma NestedThird(w: World, a: string, b: string)
    requires a + "/" <= b
    requires w.keys == map[KeyName(a) := false, KeyName(b) := false]
    requires w.params == map[AccessorPath(b) := "t"]
    ensures var w' := Step(w, NestedHistory(a, b)[2]);
      w'.live == w.live && Recorded(w', b).None?
  {
    var op := NestedHistory(a, b)[2];
    var w0 := w.(script := op.script[1..]);
    NothingLapses(w.(script := op.script));
    assert ListKeys(w.(script := op.script)) == Run(w0, Done([KeyName(a), KeyName(b)]));
    NestedPlan(a, b);
    NestedCarryOut(w0, a, b);
  }

  lemma NestedCarryOut(w: World, a: string, b: string)
    requires a + "/" <= b && KeyName(a) in w.keys && KeyName(b) in w.keys
    requires w.params == map[AccessorPath(b) := "t"]
    requires var ok := Ok([], "t"); w.script == [ok, ok, ok, ok, Ok([AccessorPath(b)], ""), ok, ok, ok, ok]
    ensures var w' := CarryOut(w, KeyPlan([b], [a])).world;
      w'.live == w.live && Recorded(w', b).None?
  {
    var ok := Ok([], "t");
    EnsureKeyServed(w, b, ok, w.script[2..]);
    var w1 := EnsureKey(w, b).world;
    assert [b][1..] == [] && [a][1..] == [];
    assert EnsureKeys(w, [b]) == Run(w1, Done(()));
    NestedRetire(w1, a, b);
    assert RetireAll(w1, [a]).world == Retire(w1, a).world;
  }

  lemma NestedRetire(w: World, a: string, b: string)
    requires a + "/" <= b && KeyName(a) in w.keys && w.params == map[AccessorPath(b) := "t"]
    requires var ok := Ok([], "t"); w.script == [ok, ok, Ok([AccessorPath(b)], ""), ok, ok, ok, ok]
    ensures var run := Retire(w, a);
      run.result.Done? && run.world.live == w.live && Recorded(run.world, b).None?
  {
    RetirementTakesNestedRecord(w, a, b);
    assert |AccessorPath(a)| < |AccessorPath(b)|;
    var w0 := w.(script := w.script[1..]);
    NothingLapses(w);
    assert RevokeRecorded(w, a) == Run(w0, Done(()));
    NestedClear(w0, a, b);
  }

  lemma TokenStep(w: World, op: Op)
    requires op.TokenRun?
    ensures Step(w, op) == TokenPhase(w.(script := op.script), op.req).world
  {
  }

  /** Entering what cannot concern the ledger's counts. */
  lemma QuietEnter(l: Ledger, op: Op, f: string)
    requires op.TokenRun? ==> TokenPhase(l.world.(script := op.script), op.req).result.Done?
    ensures Enter(l, op, f) == l.(world := Step(l.world, op))
  {
    hide Step, TokenPhase;
  }

  lemma NestedLabelsLoseAToken(a: string, b: string)
    requires a + "/" <= b
    ensures var l := Play(Fresh(map[], map[]), NestedHistory(a, b), b);
      && "t" in Mine(l.world, b) && Recorded(l.world, b).None?
      && l.errors == 0 && l.stops == 0 && l.named == {} && l.stranded == {}
  {
    var ops := NestedHistory(a, b);
    var l0 := Fresh(map[], map[]);
    assert ops[0].VaultRun? && ops[1].TokenRun? && ops[2].VaultRun?;
    assert ops == [ops[0], ops[1], ops[2]];
    NestedFirst(a, b);
    hide Step, TokenPhase, Enter, NestedHistory, Recorded;
    QuietEnter(l0, ops[0], b);
    var l1 := Enter(l0, ops[0], b);
    NestedSecond(l1.world, a, b);
    TokenStep(l1.world, ops[1]);
    QuietEnter(l1, ops[1], b);
    var l2 := Enter(l1, ops[1], b);
    NestedThird(l2.world, a, b);
    QuietEnter(l2, ops[2], b);
    var l3 := Enter(l2, ops[2], b);
    PlayThree(l0, ops, b);
    assert l3.world.live == map["t" := Token(b, "198.51.100.7/32")];
  }

  lemma PlayThree(l: Ledger, ops: seq<Op>, f: string)
    requires |ops| == 3
    ensures Play(l, ops, f) == Enter(Enter(Enter(l, ops[0], f), ops[1], f), ops[2], f)
  {
    hide Enter;
    var l1 := Enter(l, ops[0], f);
    var l2 := Enter(l1, ops[1], f);
    assert ops[1..][1..] == [ops[2]] && ops[1..][0] == ops[1] && [ops[2]][1..] == [];
    assert Play(l2, [ops[2]], f) == Enter(l2, ops[2], f);
    assert Play(l1, ops[1..], f) == Enter(l2, ops[2], f);
  }

  /** Every live token is accounted for after every history that keeps to these labels. */
  ghost predicate AlwaysAccounted(labels: set<string>) {
    forall ops: seq<Op>, f: string | f in labels && (forall op | op in ops :: Uses(op, labels)) ::
      Settled(Play(Fresh(map[], map[]), ops, f), f)
  }

  lemma AccountedExactlyWhenFlat(labels: set<string>)
    ensures AlwaysAccounted(labels) <==> Flat(labels)
  {
    if Flat(labels) {
      forall ops: seq<Op>, f: string | f in labels && (forall op | op in ops :: Uses(op, labels))
        ensures Settled(Play(Fresh(map[], map[]), ops, f), f)
      {
        LiveTokensAccounted(map[], map[], ops, labels, f);
      }
    } else {
      var a, b :| a in labels && b in labels && a + "/" <= b;
      NestedLabelsLoseAToken(a, b);
      assert forall op | op in NestedHistory(a, b) :: Uses(op, labels);
      assert !Settled(Play(Fresh(map[], map[]), NestedHistory(a, b), b), b);
    }
  }
}
