/** Whole histories of onboarding: the recorded Piris and hilt's storage nodes. */
module OnboardHistory {
  import opened Outcomes
  import opened Onboard
  import opened OnboardFacts
  import P = PiriRecord

  /** The Ingot's DID follows from the region and the stage's suffix. */
  function IngotDid(region: string, suffix: string): (did: string)
    ensures |did| == |"did:web:s3."| + |region| + 1 + |suffix|
    ensures did[|"did:web:s3."|..|"did:web:s3."| + |region|] == region
  {
    "did:web:s3." + region + "." + suffix
  }

  /** Onboard runs; accessors of unseal tokens coming and going; whatever becomes of hilt's key,
      the command list and the stored delegations; hilt's provider rows going, as retire-region
      and reset-apps make them go; and recorded Piris going, as reset-apps and the vault phase's
      retirement make them go, stopped anywhere. */
  datatype Op =
    | OnboardOp(req: Request, confirm: bool, script: seq<Event>)
    | Provision(regions: set<string>)
    | Otherwise(issuer: Issuer)
    | DropRows(dids: set<string>)
    | Forget(region: string, piris: set<string>)

  function Step(w: World, op: Op): World {
    match op
    case OnboardOp(req, confirm, script) => OnboardPhase(w.(script := script), req, confirm).world
    case Provision(regions) => w.(provisioned := regions)
    case Otherwise(issuer) => w.(issuer := issuer)
    case DropRows(dids) => w.(hilt := w.hilt - dids)
    case Forget(region, piris) => w.(records := w.records[region := Records(w, region) - piris])
  }

  function Play(w: World, ops: seq<Op>): World
    decreases |ops|
  {
    if ops == [] then w else Play(Step(w, ops[0]), ops[1..])
  }

  /** Requests name the Ingot their region gives. */
  predicate Derived(op: Op, suffix: string) {
    op.OnboardOp? ==> op.req.region != "" && op.req.ingot == IngotDid(op.req.region, suffix)
  }

  /** hilt has the region's Ingot, with a routing policy. */
  predicate Routed(w: World, region: string, suffix: string) {
    IngotDid(region, suffix) in w.hilt && w.hilt[IngotDid(region, suffix)].policy != ""
  }

  function Nodes(w: World, region: string, suffix: string): set<string>
    requires Routed(w, region, suffix)
  {
    w.hilt[IngotDid(region, suffix)].nodes
  }

  /** What the region is recorded to have, hilt has as nodes. */
  ghost predicate ContainedAt(w: World, region: string, suffix: string) {
    Routed(w, region, suffix) ==> Records(w, region) <= Nodes(w, region, suffix)
  }

  /** At most one of hilt's nodes for the region is not recorded. */
  ghost predicate TightAt(w: World, region: string, suffix: string) {
    Routed(w, region, suffix) ==>
      forall a, b | a in Nodes(w, region, suffix) - Records(w, region)
                    && b in Nodes(w, region, suffix) - Records(w, region) ::
        a == b
  }

  ghost predicate Contained(w: World, suffix: string) {
    forall region :: ContainedAt(w, region, suffix)
  }

  ghost predicate Tight(w: World, suffix: string) {
    forall region :: TightAt(w, region, suffix)
  }

  lemma OnboardShape(w: World, req: Request, confirm: bool)
    requires Orderly(w, req)
    ensures NodesThenRecord(w, OnboardPhase(w, req, confirm).world, req)
  {
    if confirm {
      PhaseConverges(w, req);
      hide OnboardPhase, Admitted, Delegated, Undelegable, PlanFrom, NodesThenRecord;
    } else {
      DryRunChangesNothing(w, req);
      hide OnboardPhase;
    }
  }

  lemma DidsDiffer(a: string, b: string, suffix: string)
    ensures IngotDid(a, suffix) == IngotDid(b, suffix) <==> a == b
  {
    assert |a| == |b| ==>
      IngotDid(a, suffix)[|"did:web:s3."|..|"did:web:s3."| + |a|] == a
        && IngotDid(b, suffix)[|"did:web:s3."|..|"did:web:s3."| + |a|] == b;
  }

  /** Another region's row and record are not touched. */
  lemma OthersKept(w: World, w': World, req: Request, region: string, suffix: string)
    requires NodesThenRecord(w, w', req) && req.ingot == IngotDid(req.region, suffix) && region != req.region
    ensures Records(w', region) == Records(w, region)
    ensures Routed(w', region, suffix) == Routed(w, region, suffix)
    ensures Routed(w, region, suffix) ==> Nodes(w', region, suffix) == Nodes(w, region, suffix)
  {
    DidsDiffer(region, req.region, suffix);
  }

  lemma OnboardKeepsAt(w: World, w': World, req: Request, region: string, suffix: string)
    requires NodesThenRecord(w, w', req) && req.ingot == IngotDid(req.region, suffix)
    ensures ContainedAt(w, region, suffix) ==> ContainedAt(w', region, suffix)
    ensures TightAt(w, region, suffix) ==> TightAt(w', region, suffix)
  {
    if region != req.region {
      OthersKept(w, w', req, region, suffix);
    } else if Routed(w', region, suffix) && TightAt(w, region, suffix) {
      var nodes, recorded := Nodes(w', region, suffix), Records(w', region);
      forall a, b | a in nodes - recorded && b in nodes - recorded ensures a == b {
        assert w'.hilt == w.hilt && w'.records == w.records
          ==> a in Nodes(w, region, suffix) - Records(w, region) && b in Nodes(w, region, suffix) - Records(w, region);
      }
    }
  }

  // ---------- the Piris of a history ----------

  /** All that is recorded is among these DIDs. */
  ghost predicate Within(w: World, dids: set<string>) {
    forall region :: Records(w, region) <= dids
  }

  /** An operation of this stage, about these Piris. */
  predicate Usual(op: Op, suffix: string, dids: set<string>) {
    Derived(op, suffix) && (op.OnboardOp? ==> op.req.piri in dids)
  }

  ghost predicate AllUsual(ops: seq<Op>, suffix: string, dids: set<string>) {
    forall i | 0 <= i < |ops| :: Usual(ops[i], suffix, dids)
  }

  lemma OrderlyAmong(w: World, req: Request, dids: set<string>)
    requires Regional(w) && Within(w, dids) && P.TellsApart(dids) && req.piri in dids && req.region != ""
    ensures Orderly(w, req)
  {
    assert Records(w, req.region) <= dids;
    hide P.TellsApart;
    ApartFewer(dids, Records(w, req.region) + {req.piri});
  }

  /** What a history keeps. */
  ghost predicate Sound(w: World, suffix: string, dids: set<string>) {
    Regional(w) && Within(w, dids) && Contained(w, suffix)
  }

  lemma OnboardKeeps(w: World, w': World, req: Request, suffix: string, dids: set<string>)
    requires Sound(w, suffix, dids) && NodesThenRecord(w, w', req)
    requires req.ingot == IngotDid(req.region, suffix) && req.region != "" && req.piri in dids
    ensures Sound(w', suffix, dids)
    ensures Tight(w, suffix) ==> Tight(w', suffix)
  {
    forall region
      ensures ContainedAt(w', region, suffix)
      ensures Tight(w, suffix) ==> TightAt(w', region, suffix)
      ensures Records(w', region) <= dids
    {
      assert ContainedAt(w, region, suffix) && Records(w, region) <= dids;
      assert Tight(w, suffix) ==> TightAt(w, region, suffix);
      OnboardKeepsAt(w, w', req, region, suffix);
    }
  }

  lemma EditKeeps(w: World, op: Op, suffix: string, dids: set<string>)
    requires Sound(w, suffix, dids) && !op.OnboardOp?
    ensures Sound(Step(w, op), suffix, dids)
    ensures Tight(w, suffix) && !op.Forget? ==> Tight(Step(w, op), suffix)
  {
    var w' := Step(w, op);
    forall region
      ensures ContainedAt(w', region, suffix)
      ensures Tight(w, suffix) && !op.Forget? ==> TightAt(w', region, suffix)
      ensures Records(w', region) <= dids
    {
      assert ContainedAt(w, region, suffix) && Records(w, region) <= dids;
      assert Tight(w, suffix) ==> TightAt(w, region, suffix);
      assert Records(w', region) <= Records(w, region) && (!op.Forget? ==> Records(w', region) == Records(w, region));
      assert Routed(w', region, suffix) ==>
        Routed(w, region, suffix) && Nodes(w', region, suffix) == Nodes(w, region, suffix);
    }
  }

  lemma StepKeeps(w: World, op: Op, suffix: string, dids: set<string>)
    requires Sound(w, suffix, dids) && Usual(op, suffix, dids) && P.TellsApart(dids)
    ensures Sound(Step(w, op), suffix, dids)
    ensures Tight(w, suffix) && !op.Forget? ==> Tight(Step(w, op), suffix)
  {
    if op.OnboardOp? {
      var w1 := w.(script := op.script);
      OrderlyAmong(w, op.req, dids);
      LaterScript(w, w1, op.req);
      hide Orderly, Sound, NodesThenRecord, OnboardPhase, Tight, IngotDid;
      OnboardShape(w1, op.req, op.confirm);
      NodesFromEarlier(w, w1, Step(w, op), op.req);
      OnboardKeeps(w, Step(w, op), op.req, suffix, dids);
    } else {
      EditKeeps(w, op, suffix, dids);
    }
  }

  lemma {:induction false} PlayKeeps(w: World, ops: seq<Op>, suffix: string, dids: set<string>)
    requires Sound(w, suffix, dids) && AllUsual(ops, suffix, dids) && P.TellsApart(dids)
    ensures Sound(Play(w, ops), suffix, dids)
    ensures Tight(w, suffix) && (forall i | 0 <= i < |ops| :: !ops[i].Forget?) ==> Tight(Play(w, ops), suffix)
    decreases |ops|
  {
    if ops != [] {
      assert Usual(ops[0], suffix, dids);
      hide Sound, Tight, Step, Usual, P.TellsApart;
      StepKeeps(w, ops[0], suffix, dids);
      PlayKeeps(Step(w, ops[0]), ops[1..], suffix, dids);
    }
  }

  /** From any stage where it is so, and where no two of the Piris in question are taken for
      each other: after any history of onboard runs, stopped anywhere, retirements and resets,
      what a region is recorded to have is contained in hilt's node set; and where hilt starts
      with at most one node more than a region's record, it has at most one more while nothing
      forgets a recorded Piri. */
  lemma RecordedPirisAreNodes(w: World, ops: seq<Op>, region: string, suffix: string, dids: set<string>)
    requires Regional(w) && Contained(w, suffix) && Within(w, dids)
    requires AllUsual(ops, suffix, dids) && P.TellsApart(dids)
    ensures var end := Play(w, ops);
      Routed(end, region, suffix) ==>
        && Records(end, region) <= Nodes(end, region, suffix)
        && (Tight(w, suffix) && (forall i | 0 <= i < |ops| :: !ops[i].Forget?) ==>
              |Nodes(end, region, suffix)| <= |Records(end, region)| + 1)
  {
    PlayKeeps(w, ops, suffix, dids);
    hide P.TellsApart, Play;
    var end := Play(w, ops);
    assert ContainedAt(end, region, suffix);
    if Routed(end, region, suffix) && Tight(w, suffix) && forall i | 0 <= i < |ops| :: !ops[i].Forget? {
      assert TightAt(end, region, suffix);
      AtMostOne(Nodes(end, region, suffix) - Records(end, region));
      assert Nodes(end, region, suffix) == Records(end, region) + (Nodes(end, region, suffix) - Records(end, region));
    }
  }

  /** It is so where hilt has no routing policy for any Ingot: none is registered, or those
      that are were registered before hilt took storage nodes, whatever the record says. */
  lemma UnroutedRowsAreRepaired(w: World, ops: seq<Op>, region: string, suffix: string, dids: set<string>)
    requires Regional(w) && Within(w, dids) && AllUsual(ops, suffix, dids) && P.TellsApart(dids)
    requires forall did | did in w.hilt :: w.hilt[did].policy == ""
    ensures var end := Play(w, ops);
      Routed(end, region, suffix) ==>
        && Records(end, region) <= Nodes(end, region, suffix)
        && ((forall i | 0 <= i < |ops| :: !ops[i].Forget?) ==>
              |Nodes(end, region, suffix)| <= |Records(end, region)| + 1)
  {
    forall r ensures ContainedAt(w, r, suffix) && TightAt(w, r, suffix) {
    }
    RecordedPirisAreNodes(w, ops, region, suffix, dids);
  }

  lemma AtMostOne<T>(s: set<T>)
    requires forall a, b | a in s && b in s :: a == b
    ensures |s| <= 1
  {
    if s != {} {
      var a :| a in s;
      assert s == {a};
    }
  }

  // ---------- Piris that are taken for each other ----------

  /** A row from before hilt took storage nodes, and a record with both Piris. */
  function LegacyRow(a: string, b: string, region: string, suffix: string): World {
    World({region}, {b}, map[b := Provider("", 0, 0, "")],
          map[IngotDid(region, suffix) := HiltRow(region, "", {})], map[region := {a, b}],
          Issuer(0, [], map[], 0), [])
  }

  function Again(b: string, region: string, suffix: string): Request {
    Request(region, b, IngotDid(region, suffix), "", "", 0, 0)
  }

  const SERVED := Event(Served, [])

  function ServedListing(names: seq<string>): seq<Event> {
    [SERVED, SERVED, SERVED, SERVED, Event(Served, names), SERVED, SERVED]
  }

  /** The four reads with every call served. */
  lemma ReadServed(w: World, req: Request, names: seq<string>, rest: seq<Event>)
    requires P.ListsRecord(names, req.region, Records(w, req.region))
    requires w.script == [SERVED, SERVED, SERVED, Event(Served, names)] + rest
    ensures var recorded := P.ReadBack(names, req.region, Records(w, req.region));
      Read(w, req) == Run(w.(script := rest), Done(Observe(w, req).(recorded := recorded)))
  {
    var s1 := [SERVED, SERVED, Event(Served, names)] + rest;
    var s2 := [SERVED, Event(Served, names)] + rest;
    var s3 := [Event(Served, names)] + rest;
    assert w.script[1..] == s1 && s1[1..] == s2 && s2[1..] == s3 && s3[1..] == rest;
    hide P.ListsRecord, P.ReadBack;
    assert Ask(w) == Run(w.(script := s1), Done(()));
    assert Ask(w.(script := s1)) == Run(w.(script := s2), Done(()));
    assert Ask(w.(script := s2)) == Run(w.(script := s3), Done(()));
    assert Records(w.(script := s3), req.region) == Records(w, req.region);
  }

  /** Only the last of two Piris that are taken for each other is read back. */
  lemma OnlyTheLast(region: string, a: string, b: string, names: seq<string>)
    requires P.Recordable(a) && P.Recordable(b) && P.LastSegment(P.Tail(a)) == P.LastSegment(P.Tail(b))
    requires P.ListsRecord(names, region, {a, b})
    requires var params := P.Parameters(region, {a, b});
      && (forall name | name in names :: name in params)
      && P.LastSegment(P.Tail(b)) in P.Collect(params, names)
      && P.Collect(params, names)[P.LastSegment(P.Tail(b))] == b
    ensures P.ReadBack(names, region, {a, b}) == {b}
  {
    P.RecordKeyed(names, region, {a, b});
    hide P.Collect, P.Parameters, P.LastSegment;
  }

  /** The hilt step then takes the first one off hilt's nodes, or never puts it there. */
  lemma ApplyDropsTheFirst(a: string, b: string, region: string, suffix: string)
    requires region != "" && a != b
    ensures var w := LegacyRow(a, b, region, suffix).(script := [SERVED, SERVED]);
      var req := Again(b, region, suffix);
      var run := Apply(w, req, PlanFrom(Observe(w, req).(recorded := {b}), req));
      && run.world.records == w.records
      && run.world.hilt == map[IngotDid(region, suffix) := HiltRow(region, POLICY, {b})]
  {
    hide IngotDid;
    var w := LegacyRow(a, b, region, suffix).(script := [SERVED, SERVED]);
    var req := Again(b, region, suffix);
    var state := Observe(w, req).(recorded := {b});
    assert SprueBlockers(state, req) == [] && HiltBlockers(state, req) == [];
    assert PlanFrom(state, req).blockers == [];
    assert [SERVED, SERVED][1..] == [SERVED] && [SERVED][1..] == [];
    var piri := AdmitPiri(w, req, state);
    assert piri.result.Done? && piri.world == w.(script := [SERVED]);
    assert NodeSet(state, req) == {b};
    NodesReplaced(piri.world, piri.performed, req, state);
    hide AdmitPiri, AdmitIngot;
  }

  /** With one call served, the nodes of a row without a policy are set, and nothing else. */
  lemma NodesReplaced(w: World, performed: seq<Write>, req: Request, state: State)
    requires state.hiltRegion != "" && state.hiltPolicy == "" && state.PiriRecorded(req)
    requires req.ingot in w.hilt && w.script == [SERVED]
    ensures var run := AdmitIngot(w, performed, req, state);
      var told := HiltRow(w.hilt[req.ingot].region, POLICY, NodeSet(state, req));
      run.world == w.(hilt := w.hilt[req.ingot := told], script := []) && run.result.Done?
  {
    assert [SERVED][1..] == [];
  }

  /** The phase, once its first call and its reads have been served. */
  lemma PhaseServed(w: World, w1: World, w2: World, req: Request, state: State)
    requires w.script != [] && w.script[0].fate.Served? && w1 == w.(script := w.script[1..])
    requires req.region in w.provisioned && Read(w1, req) == Run(w2, Done(state))
    ensures OnboardPhase(w, req, true) == Apply(w2, req, PlanFrom(state, req))
  {
    hide Read, Apply, PlanFrom;
  }

  lemma CollidingPiriLosesANode(a: string, b: string, region: string, suffix: string) returns (op: Op)
    requires P.Recordable(a) && P.Recordable(b) && a != b && region != ""
    requires P.LastSegment(P.Tail(a)) == P.LastSegment(P.Tail(b))
    ensures Usual(op, suffix, {a, b})
    ensures Step(LegacyRow(a, b, region, suffix), op).records == map[region := {a, b}]
    ensures Step(LegacyRow(a, b, region, suffix), op).hilt
      == map[IngotDid(region, suffix) := HiltRow(region, POLICY, {b})]
  {
    hide P.LastSegment, P.Tail, P.Collect, P.Parameters, P.ReadBack, P.ListsRecord, Read, Apply, PlanFrom, OnboardPhase;
    var names := P.ListedLast(region, {a, b}, b);
    OnlyTheLast(region, a, b, names);
    var req := Again(b, region, suffix);
    op := OnboardOp(req, true, ServedListing(names));
    var w := LegacyRow(a, b, region, suffix).(script := op.script);
    var w1 := w.(script := [SERVED, SERVED, SERVED, Event(Served, names)] + [SERVED, SERVED]);
    var w2 := w.(script := [SERVED, SERVED]);
    assert op.script[1..] == w1.script;
    ReadServed(w1, req, names, [SERVED, SERVED]);
    var state := Observe(w2, req).(recorded := {b});
    assert Observe(w1, req) == Observe(w2, req);
    PhaseServed(w, w1, w2, req, state);
    ApplyDropsTheFirst(a, b, region, suffix);
  }

  lemma CollidingIsNotContained(dids: set<string>, a: string, b: string, suffix: string)
      returns (w: World, ops: seq<Op>)
    requires P.Recordable(a) && P.Recordable(b) && a in dids && b in dids && a != b
    requires P.LastSegment(P.Tail(a)) == P.LastSegment(P.Tail(b))
    ensures Sound(w, suffix, dids) && AllUsual(ops, suffix, dids) && !Contained(Play(w, ops), suffix)
  {
    hide P.LastSegment, P.Tail;
    var op := CollidingPiriLosesANode(a, b, "r", suffix);
    LegacyIsSound(a, b, "r", suffix, dids);
    w, ops := LegacyRow(a, b, "r", suffix), [op];
    hide Step, LegacyRow, Sound;
    assert ops[1..] == [];
    var end := Step(w, op);
    assert Play(end, []) == end;
    assert Play(w, ops) == end;
    assert a in Records(end, "r") && Routed(end, "r", suffix) && a !in Nodes(end, "r", suffix);
    assert !ContainedAt(end, "r", suffix);
  }

  lemma ApartIsContained(dids: set<string>, suffix: string)
    requires P.TellsApart(dids)
    ensures forall w: World, ops: seq<Op> | Sound(w, suffix, dids) && AllUsual(ops, suffix, dids) ::
      Contained(Play(w, ops), suffix)
  {
    hide P.TellsApart;
    forall w: World, ops: seq<Op> | Sound(w, suffix, dids) && AllUsual(ops, suffix, dids)
      ensures Contained(Play(w, ops), suffix)
    {
      PlayKeeps(w, ops, suffix, dids);
      hide Contained, Play, AllUsual;
    }
  }

  /** Over every history about some Piris the recorded ones are contained in hilt's nodes,
      from every stage where they are so, exactly when no two of those Piris are taken for
      each other. */
  lemma ContainedExactlyWhenApart(dids: set<string>, suffix: string)
    requires forall did | did in dids :: P.Recordable(did)
    ensures P.TellsApart(dids) <==>
      forall w: World, ops: seq<Op> | Sound(w, suffix, dids) && AllUsual(ops, suffix, dids) ::
        Contained(Play(w, ops), suffix)
  {
    if P.TellsApart(dids) {
      ApartIsContained(dids, suffix);
    } else {
      var a, b :| a in dids && b in dids && P.LastSegment(P.Tail(a)) == P.LastSegment(P.Tail(b)) && a != b;
      var w, ops := CollidingIsNotContained(dids, a, b, suffix);
      hide Contained, Play, AllUsual, Sound, P.LastSegment, P.Tail;
    }
  }

  lemma LegacyIsSound(a: string, b: string, region: string, suffix: string, dids: set<string>)
    requires a in dids && b in dids && region != ""
    ensures Sound(LegacyRow(a, b, region, suffix), suffix, dids)
  {
    var w := LegacyRow(a, b, region, suffix);
    forall r ensures ContainedAt(w, r, suffix) && Records(w, r) <= dids {
    }
  }
}
