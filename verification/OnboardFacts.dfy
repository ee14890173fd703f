/** What holds of onboarding: its plan is honest, it converges, and over any history the
    recorded Piris are storage nodes of hilt's provider. */
module OnboardFacts {
  import opened Outcomes
  import opened Onboard
  import I = ProofIssuer
  import P = PiriRecord

  // ---------- the plan is honest ----------

  /** The write an action announces. */
  function Announced(action: Action, state: State, req: Request): Write {
    match action
    case AllowList => Allowed
    case Register => Registered(req.url, req.proof)
    case ReplaceDelegation => ProofSet(req.proof)
    case SetWeights => WeightsSet(req.weight, req.replicationWeight)
    case RegisterWithHilt => ProviderAdded(NodeSet(state, req))
    case SetNodes(nodes) => NodesSet(nodes)
    case AddNode => NodesSet(NodeSet(state, req))
    case RecordPiri => PiriRecorded
  }

  function AnnouncedAll(actions: seq<Action>, state: State, req: Request): seq<Write> {
    if actions == [] then [] else [Announced(actions[0], state, req)] + AnnouncedAll(actions[1..], state, req)
  }

  lemma {:induction false} AnnouncedConcat(a: seq<Action>, b: seq<Action>, state: State, req: Request)
    ensures AnnouncedAll(a + b, state, req) == AnnouncedAll(a, state, req) + AnnouncedAll(b, state, req)
  {
    if a == [] {
      assert a + b == b;
    } else {
      assert (a + b)[1..] == a[1..] + b;
      AnnouncedConcat(a[1..], b, state, req);
    }
  }

  function Before(state: State, req: Request): seq<Action> {
    AllowListActions(state) + SprueActions(state, req)
  }

  function After(state: State, req: Request): seq<Action> {
    HiltActions(state, req) + RecordActions(state, req)
  }

  /** The announced writes, with the weights set whether or not the plan saw a need to. */
  function Promised(state: State, req: Request): seq<Write> {
    AnnouncedAll(Before(state, req), state, req)
    + [WeightsSet(req.weight, req.replicationWeight)]
    + AnnouncedAll(After(state, req), state, req)
  }

  /** A run that goes on from `from`: what it has performed is the first so many of `all`,
      and all of them once it is through. */
  ghost predicate Follows(run: Applied, from: seq<Write>, all: seq<Write>) {
    && from <= run.performed <= all
    && (run.result.Done? ==> run.performed == all)
  }

  lemma DoFollows(w: World, performed: seq<Write>, write: Write, req: Request)
    ensures Follows(Do(w, performed, write, req), performed, performed + [write])
  {
  }

  lemma AllowFollows(w: World, req: Request, state: State)
    ensures Follows(AllowStep(w, req, state), [], AnnouncedAll(AllowListActions(state), state, req))
  {
    assert [] + [Allowed] == [Allowed];
    if !state.allowListed {
      DoFollows(w, [], Allowed, req);
    }
    hide Do;
  }

  lemma SprueFollows(w: World, performed: seq<Write>, req: Request, state: State)
    requires SprueBlockers(state, req) == []
    ensures Follows(SprueStep(w, performed, req, state), performed,
                    performed + AnnouncedAll(SprueActions(state, req), state, req))
  {
    assert performed + [] == performed;
    if state.sprue.None? {
      DoFollows(w, performed, Registered(req.url, req.proof), req);
    } else if req.proof != "" {
      DoFollows(w, performed, ProofSet(req.proof), req);
    }
    hide Do;
  }

  lemma HiltFollows(w: World, performed: seq<Write>, req: Request, state: State)
    requires HiltBlockers(state, req) == []
    ensures Follows(HiltStep(w, performed, req, state), performed,
                    performed + AnnouncedAll(HiltActions(state, req), state, req))
  {
    assert performed + [] == performed;
    if state.hiltRegion == "" {
      DoFollows(w, performed, ProviderAdded(NodeSet(state, req)), req);
    } else if state.hiltPolicy == "" || !state.PiriRecorded(req) {
      DoFollows(w, performed, NodesSet(NodeSet(state, req)), req);
    }
  }

  lemma RecordFollows(w: World, performed: seq<Write>, req: Request, state: State)
    ensures Follows(RecordStep(w, performed, req, state), performed,
                    performed + AnnouncedAll(RecordActions(state, req), state, req))
  {
    assert performed + [] == performed;
  }

  lemma ApplyFollows(w: World, req: Request, state: State)
    requires PlanFrom(state, req).blockers == []
    ensures Follows(Apply(w, req, PlanFrom(state, req)), [], Promised(state, req))
  {
    var a := AnnouncedAll(AllowListActions(state), state, req);
    var s := AnnouncedAll(SprueActions(state, req), state, req);
    var h := AnnouncedAll(HiltActions(state, req), state, req);
    var r := AnnouncedAll(RecordActions(state, req), state, req);
    var m := WeightsSet(req.weight, req.replicationWeight);
    AnnouncedConcat(AllowListActions(state), SprueActions(state, req), state, req);
    AnnouncedConcat(HiltActions(state, req), RecordActions(state, req), state, req);
    assert Promised(state, req) == a + s + [m] + h + r;
    AdmitPiriFollows(w, req, state);
    var piri := AdmitPiri(w, req, state);
    if piri.result.Done? {
      AdmitIngotFollows(piri.world, a + s + [m], req, state);
    }
  }

  lemma AdmitPiriFollows(w: World, req: Request, state: State)
    requires SprueBlockers(state, req) == []
    ensures var a := AnnouncedAll(AllowListActions(state), state, req);
      var s := AnnouncedAll(SprueActions(state, req), state, req);
      Follows(AdmitPiri(w, req, state), [], a + s + [WeightsSet(req.weight, req.replicationWeight)])
  {
    var a := AnnouncedAll(AllowListActions(state), state, req);
    var s := AnnouncedAll(SprueActions(state, req), state, req);
    var m := WeightsSet(req.weight, req.replicationWeight);
    AllowFollows(w, req, state);
    var allowed := AllowStep(w, req, state);
    if allowed.result.Done? {
      SprueFollows(allowed.world, a, req, state);
      var sprue := SprueStep(allowed.world, a, req, state);
      if sprue.result.Done? {
        DoFollows(sprue.world, a + s, m, req);
      }
    }
  }

  lemma AdmitIngotFollows(w: World, performed: seq<Write>, req: Request, state: State)
    requires HiltBlockers(state, req) == []
    ensures var h := AnnouncedAll(HiltActions(state, req), state, req);
      var r := AnnouncedAll(RecordActions(state, req), state, req);
      Follows(AdmitIngot(w, performed, req, state), performed, performed + h + r)
  {
    HiltFollows(w, performed, req, state);
    var hilted := HiltStep(w, performed, req, state);
    if hilted.result.Done? {
      RecordFollows(hilted.world, hilted.performed, req, state);
    }
  }

  /** A plan with a blocker writes nothing. Any other plan's run makes the promised writes
      in their order: as many of them as it gets to, and all of them when it comes through. */
  lemma PlanIsHonest(w: World, req: Request, state: State)
    ensures var plan := PlanFrom(state, req);
      var run := Apply(w, req, plan);
      if plan.blockers != [] then run == Applied(w, [], Failed(None, Declined))
      else run.performed <= Promised(state, req) && (run.result.Done? ==> run.performed == Promised(state, req))
  {
    if PlanFrom(state, req).blockers == [] {
      ApplyFollows(w, req, state);
    }
  }

  lemma Regroup(x: seq<Action>, h: seq<Action>, r: seq<Action>)
    ensures x + h + r == x + (h + r)
  {
  }

  lemma AnnouncedParts(before: seq<Action>, weights: seq<Action>, after: seq<Action>, state: State, req: Request)
    ensures AnnouncedAll(before + weights + after, state, req) ==
      AnnouncedAll(before, state, req) + AnnouncedAll(weights, state, req) + AnnouncedAll(after, state, req)
  {
    AnnouncedConcat(before + weights, after, state, req);
    AnnouncedConcat(before, weights, state, req);
  }

  lemma AnnouncedWeights(state: State, req: Request)
    ensures AnnouncedAll(WeightActions(state, req), state, req) ==
      if WeightActions(state, req) == [] then [] else [WeightsSet(req.weight, req.replicationWeight)]
  {
  }

  /** What a plan announces is what it promises, but that the weights are set even where
      they need no change. */
  lemma PlanAnnouncesThePromise(state: State, req: Request)
    ensures AnnouncedAll(PlanFrom(state, req).actions, state, req) ==
      AnnouncedAll(Before(state, req), state, req)
      + (if WeightActions(state, req) == [] then [] else [WeightsSet(req.weight, req.replicationWeight)])
      + AnnouncedAll(After(state, req), state, req)
  {
    Regroup(Before(state, req) + WeightActions(state, req), HiltActions(state, req), RecordActions(state, req));
    AnnouncedWeights(state, req);
    hide AnnouncedAll, WeightActions, AllowListActions, SprueActions, HiltActions, RecordActions;
    AnnouncedParts(Before(state, req), WeightActions(state, req), After(state, req), state, req);
  }

  // ---------- onboarding is a fixpoint ----------

  /** hilt names a region in every row it has. */
  predicate Regional(w: World) {
    forall did | did in w.hilt :: w.hilt[did].region != ""
  }

  /** The request names a region, and its Piri can be recorded and told apart from every other
      that the region is recorded to have. */
  predicate Orderly(w: World, req: Request) {
    Regional(w) && req.region != "" && P.TellsApart(Records(w, req.region) + {req.piri})
  }

  /** The appliance is admitted: nothing is left for a request without a delegation to do. */
  ghost predicate Admitted(w: World, req: Request) {
    && req.piri in w.allowed
    && req.piri in w.sprue
    && w.sprue[req.piri].endpoint == req.url
    && w.sprue[req.piri].weight == req.weight
    && w.sprue[req.piri].replicationWeight == req.replicationWeight
    && req.ingot in w.hilt
    && w.hilt[req.ingot].region == req.region
    && w.hilt[req.ingot].policy != ""
    && req.piri in Records(w, req.region)
  }

  lemma AdmittedHasNoPlan(w: World, req: Request)
    requires req.region != ""
    ensures var plan := PlanFrom(Observe(w, req), req.(proof := ""));
      Admitted(w, req) <==> plan.actions == [] && plan.blockers == []
  {
  }

  lemma ReadRecordReads(w: World, region: string)
    requires P.TellsApart(Records(w, region))
    ensures var run := ReadRecord(w, region);
      && (run.result.Done? ==> run.result.value == Records(w, region))
  {
    var (w1, e) := Call(w);
    hide P.TailsDiffer, P.ListsRecord, P.ReadBack;
    if P.ListsRecord(e.listing, region, Records(w, region)) {
      P.ReadBackExactlyWhen(e.listing, region, Records(w, region));
    }
  }

  lemma AsksChangeNothing(w: World, region: string)
    ensures var run := Ask(w);
      run.world == w.(script := run.world.script) && (run.result.Done? || Interrupted(run.result))
    ensures var run := ReadRecord(w, region);
      run.world == w.(script := run.world.script) && (run.result.Done? || Interrupted(run.result))
  {
    hide P.ListsRecord, P.ReadBack;
  }

  lemma ReadChangesNothing(w: World, req: Request)
    ensures var run := Read(w, req);
      && run.world == w.(script := run.world.script)
      && (run.result.Done? || Interrupted(run.result))
      && (run.result.Done? ==> run.result.value == Observe(w, req).(recorded := run.result.value.recorded))
  {
    hide Ask, ReadRecord;
    AsksChangeNothing(w, req.region);
    var first := Ask(w);
    AsksChangeNothing(first.world, req.region);
    var second := Ask(first.world);
    AsksChangeNothing(second.world, req.region);
    var third := Ask(second.world);
    AsksChangeNothing(third.world, req.region);
  }

  lemma ReadObserves(w: World, req: Request)
    requires P.TellsApart(Records(w, req.region))
    ensures Read(w, req).result.Done? ==> Read(w, req).result.value == Observe(w, req)
  {
    hide P.TellsApart, P.ListsRecord, P.ReadBack;
    var first := Ask(w);
    if first.result.Done? {
      var second := Ask(first.world);
      if second.result.Done? {
        var third := Ask(second.world);
        ReadRecordReads(third.world, req.region);
        hide ReadRecord;
      }
    }
  }

  lemma SprueStepEffect(w: World, performed: seq<Write>, req: Request, state: State)
    requires state.sprue == Observe(w, req).sprue && SprueBlockers(state, req) == []
    ensures var run := SprueStep(w, performed, req, state);
      && (run.result.Done? || Interrupted(run.result))
      && run.world == w.(sprue := run.world.sprue, script := run.world.script)
      && (run.result.Done? ==> req.piri in run.world.sprue && run.world.sprue[req.piri].endpoint == req.url)
  {
  }

  lemma WeightStepEffect(w: World, performed: seq<Write>, req: Request)
    requires req.piri in w.sprue && w.sprue[req.piri].endpoint == req.url
    ensures var run := WeightStep(w, performed, req);
      && (run.result.Done? || Interrupted(run.result))
      && run.world == w.(sprue := run.world.sprue, script := run.world.script)
      && (run.result.Done? ==>
            && req.piri in run.world.sprue
            && run.world.sprue[req.piri].endpoint == req.url
            && run.world.sprue[req.piri].weight == req.weight
            && run.world.sprue[req.piri].replicationWeight == req.replicationWeight)
  {
  }

  /** What the hilt step leaves: nothing changed, or the Ingot's row alone, now holding the
      whole node set. */
  lemma HiltStepEffect(w: World, performed: seq<Write>, req: Request, state: State)
    requires Regional(w) && req.region != ""
    requires state.hiltRegion == Observe(w, req).hiltRegion && state.hiltPolicy == Observe(w, req).hiltPolicy
    requires HiltBlockers(state, req) == []
    ensures var run := HiltStep(w, performed, req, state);
      && (run.result.Done? || Interrupted(run.result))
      && run.world == w.(hilt := run.world.hilt, script := run.world.script)
      && (run.world.hilt == w.hilt
          || run.world.hilt == w.hilt[req.ingot := HiltRow(req.region, POLICY, NodeSet(state, req))])
      && (run.result.Done? ==>
            && req.ingot in run.world.hilt
            && run.world.hilt[req.ingot].region == req.region
            && run.world.hilt[req.ingot].policy != ""
            && (run.world.hilt[req.ingot].nodes == NodeSet(state, req)
                || (run.world.hilt == w.hilt && state.PiriRecorded(req))))
  {
    if state.hiltRegion == "" {
      DoEffect(w, performed, ProviderAdded(NodeSet(state, req)), req);
    } else if state.hiltPolicy == "" || !state.PiriRecorded(req) {
      DoEffect(w, performed, NodesSet(NodeSet(state, req)), req);
    }
    hide Do;
  }

  lemma DoEffect(w: World, performed: seq<Write>, write: Write, req: Request)
    requires Possible(w, write, req)
    ensures var run := Do(w, performed, write, req);
      && (run.result.Done? || Interrupted(run.result))
      && run.world == (if run.result.Done? then Effect(w, write, req) else w).(script := run.world.script)
  {
  }

  lemma RecordStepEffect(w: World, performed: seq<Write>, req: Request, state: State)
    requires state.recorded == Records(w, req.region) && P.Recordable(req.piri)
    ensures var run := RecordStep(w, performed, req, state);
      && (run.result.Done? || Interrupted(run.result))
      && run.world == w.(records := run.world.records, script := run.world.script)
      && (run.world.records == w.records
          || run.world.records == w.records[req.region := Records(w, req.region) + {req.piri}])
      && (run.result.Done? ==> req.piri in Records(run.world, req.region))
  {
  }

  /** From the state it read, a run writes to hilt and then to the record, or stops before. */
  ghost predicate NodesThenRecord(w: World, w': World, req: Request) {
    var nodes := Records(w, req.region) + {req.piri};
    var told := w.hilt[req.ingot := HiltRow(req.region, POLICY, nodes)];
    && (w'.hilt == w.hilt || w'.hilt == told)
    && (w'.records == w.records || w'.records == w.records[req.region := nodes])
    && (w'.records != w.records ==> req.ingot in w'.hilt && w'.hilt[req.ingot].nodes == nodes)
  }

  /** The region's stored delegation grants every command and is stamped with hilt's key. */
  predicate Delegated(w: World, req: Request) {
    I.Settled(Issuing(w, req.region))
  }

  /** Issuing to the request's Ingot is stuck: what is stored does not decode, or something
      must be issued and cannot be. */
  predicate Undelegable(w: World, req: Request) {
    I.Stuck(Issuing(w, req.region), req.ingot)
  }

  lemma IssueStepEffect(w: World, req: Request)
    ensures var run := IssueStep(w, req);
      && run.world == w.(issuer := run.world.issuer, script := run.world.script)
      && (run.result.Done? ==> Delegated(run.world, req))
      && (if Undelegable(w, req) then !run.result.Done? else run.result.Done? || Interrupted(run.result))
  {
    var start := Issuing(w, req.region);
    I.IssueFacts(start, req.ingot);
    I.ComesThroughExactlyWhen(start, req.ingot);
    hide I.IssueProof, I.Stuck;
  }

  lemma AdmitPiriEffect(w: World, req: Request, state: State)
    requires state == Observe(w, req) && SprueBlockers(state, req) == []
    ensures var run := AdmitPiri(w, req, state);
      && (run.result.Done? || Interrupted(run.result))
      && run.world == w.(allowed := run.world.allowed, sprue := run.world.sprue, script := run.world.script)
      && (run.result.Done? ==>
            && req.piri in run.world.allowed
            && req.piri in run.world.sprue
            && run.world.sprue[req.piri].endpoint == req.url
            && run.world.sprue[req.piri].weight == req.weight
            && run.world.sprue[req.piri].replicationWeight == req.replicationWeight)
  {
    var allowed := AllowStep(w, req, state);
    assert allowed.world == w.(allowed := allowed.world.allowed, script := allowed.world.script);
    if allowed.result.Done? {
      SprueStepEffect(allowed.world, allowed.performed, req, state);
      var sprue := SprueStep(allowed.world, allowed.performed, req, state);
      if sprue.result.Done? {
        WeightStepEffect(sprue.world, sprue.performed, req);
      }
    }
  }

  lemma AdmitIngotEffect(w: World, performed: seq<Write>, req: Request, state: State)
    requires Regional(w) && req.region != "" && HiltBlockers(state, req) == [] && P.Recordable(req.piri)
    requires var now := Observe(w, req);
      state.hiltRegion == now.hiltRegion && state.hiltPolicy == now.hiltPolicy && state.recorded == now.recorded
    ensures var run := AdmitIngot(w, performed, req, state);
      && (run.result.Done? || Interrupted(run.result))
      && run.world == w.(hilt := run.world.hilt, records := run.world.records, script := run.world.script)
      && NodesThenRecord(w, run.world, req)
      && (run.result.Done? ==>
            && req.ingot in run.world.hilt
            && run.world.hilt[req.ingot].region == req.region
            && run.world.hilt[req.ingot].policy != ""
            && req.piri in Records(run.world, req.region))
  {
    HiltStepEffect(w, performed, req, state);
    var hilted := HiltStep(w, performed, req, state);
    if hilted.result.Done? {
      RecordStepEffect(hilted.world, hilted.performed, req, state);
    }
  }

  lemma AdmitEffect(w: World, req: Request)
    requires Regional(w) && req.region != "" && P.Recordable(req.piri)
    requires SprueBlockers(Observe(w, req), req) == [] && HiltBlockers(Observe(w, req), req) == []
    ensures var run := Admit(w, req, Observe(w, req));
      && NodesThenRecord(w, run.world, req)
      && (if Undelegable(w, req) then !run.result.Done? else run.result.Done? || Interrupted(run.result))
      && (run.result.Done? ==> Admitted(run.world, req) && Delegated(run.world, req))
  {
    var state := Observe(w, req);
    hide AdmitPiri, AdmitIngot, IssueStep;
    AdmitPiriEffect(w, req, state);
    var piri := AdmitPiri(w, req, state);
    if piri.result.Done? {
      AdmitIngotEffect(piri.world, piri.performed, req, state);
      var ingot := AdmitIngot(piri.world, piri.performed, req, state);
      assert NodesThenRecord(w, ingot.world, req);
      if ingot.result.Done? {
        assert Admitted(ingot.world, req);
        IssueStepEffect(ingot.world, req);
        SameIssuer(w, ingot.world, req);
        var issued := IssueStep(ingot.world, req);
        assert Records(issued.world, req.region) == Records(ingot.world, req.region);
      }
    }
  }

  lemma SameIssuer(a: World, b: World, req: Request)
    requires a.issuer == b.issuer
    ensures Undelegable(a, req) == Undelegable(b, req)
  {
  }

  /** What a confirmed run comes to. */
  ghost predicate Comes(w: World, run: Applied, req: Request) {
    && NodesThenRecord(w, run.world, req)
    && (run.result.Done? ==> Admitted(run.world, req) && Delegated(run.world, req))
    && (PlanFrom(Observe(w, req), req).blockers == [] && !Undelegable(w, req) ==>
          run.result.Done? || Interrupted(run.result))
    && (Undelegable(w, req) ==> !run.result.Done?)
    && (PlanFrom(Observe(w, req), req).blockers != [] ==> run.performed == [] && !run.result.Done?)
  }

  lemma ApplyEffect(w: World, req: Request)
    requires Regional(w) && req.region != "" && P.Recordable(req.piri)
    ensures Comes(w, Apply(w, req, PlanFrom(Observe(w, req), req)), req)
  {
    if PlanFrom(Observe(w, req), req).blockers == [] {
      AdmitEffect(w, req);
    }
    hide Admit, Admitted, Delegated, Undelegable;
  }

  /** Calls that change nothing, before a run, do not matter to it. */
  lemma ComesFromEarlier(w: World, w1: World, run: Applied, req: Request)
    requires w1 == w.(script := w1.script) && Comes(w1, run, req)
    ensures Comes(w, run, req)
  {
    hide Admitted, Delegated, Undelegable, PlanFrom;
    SameIssuer(w, w1, req);
    assert Observe(w1, req) == Observe(w, req);
    NodesFromEarlier(w, w1, run.world, req);
  }

  /** A run that is interrupted before it writes. */
  lemma ComesToNothing(w: World, w1: World, result: Result<()>, req: Request)
    requires w1 == w.(script := w1.script) && Interrupted(result)
    ensures Comes(w, Applied(w1, [], result), req)
  {
    hide PlanFrom, Undelegable;
    assert Records(w1, req.region) == Records(w, req.region);
  }

  lemma ApartFewer(all: set<string>, some: set<string>)
    requires P.TellsApart(all) && some <= all
    ensures P.TellsApart(some)
  {
  }

  lemma RunConverges(w: World, req: Request)
    requires Orderly(w, req)
    ensures Comes(w, OnboardRun(w, req, true), req)
  {
    ApartFewer(Records(w, req.region) + {req.piri}, Records(w, req.region));
    assert req.piri in Records(w, req.region) + {req.piri};
    ReadObserves(w, req);
    ReadChangesNothing(w, req);
    var read := Read(w, req);
    LaterScript(w, read.world, req);
    hide Read, Apply, PlanFrom, Observe, Comes, P.TellsApart, P.Recordable, P.TailsDiffer;
    if read.result.Done? {
      ApplyEffect(read.world, req);
      ComesFromEarlier(w, read.world, OnboardRun(w, req, true), req);
    } else {
      ComesToNothing(w, read.world, read.result.PropagateFailure(), req);
    }
  }

  /** Reading an admitted appliance again and planning for it without a delegation. */
  lemma AgainNothingToDo(w: World, req: Request)
    requires Admitted(w, req) && req.region != "" && P.TellsApart(Records(w, req.region))
    ensures var read := Read(w, req);
      read.result.Done? ==>
        var again := PlanFrom(read.result.value, req.(proof := ""));
        again.actions == [] && again.blockers == []
  {
    ReadObserves(w, req);
    AdmittedHasNoPlan(w, req);
    hide Read, PlanFrom, P.TellsApart;
  }

  /** Nothing the run could do to this appliance is in the way. */
  predicate Admissible(w: World, req: Request) {
    req.region in w.provisioned && PlanFrom(Observe(w, req), req).blockers == []
  }

  lemma PhaseConverges(w: World, req: Request)
    requires Orderly(w, req)
    ensures var run := OnboardPhase(w, req, true);
      if req.region in w.provisioned then Comes(w, run, req)
      else NodesThenRecord(w, run.world, req) && run.performed == [] && !run.result.Done?
  {
    var asked := Ask(w);
    LaterScript(w, asked.world, req);
    hide OnboardRun, Orderly, Observe, Comes, NodesThenRecord;
    NodesFromEarlier(w, asked.world, asked.world, req);
    if !asked.result.Done? {
      ComesToNothing(w, asked.world, asked.result, req);
    } else if req.region in w.provisioned {
      RunConverges(asked.world, req);
      ComesFromEarlier(w, asked.world, OnboardRun(asked.world, req, true), req);
    }
  }

  lemma LaterScript(w: World, w1: World, req: Request)
    requires w1 == w.(script := w1.script)
    ensures Orderly(w1, req) == Orderly(w, req) && Observe(w1, req) == Observe(w, req)
    ensures NodesThenRecord(w1, w1, req)
  {
    hide P.TellsApart;
    assert Records(w1, req.region) == Records(w, req.region);
  }

  lemma NodesFromEarlier(w: World, w1: World, w': World, req: Request)
    requires w1 == w.(script := w1.script) && NodesThenRecord(w1, w', req)
    ensures NodesThenRecord(w, w', req)
  {
    assert Records(w1, req.region) == Records(w, req.region);
  }

  /** A confirmed run that comes through has admitted the appliance and stored a delegation
      that grants every command and is stamped with hilt's key; so that reading again, in
      whatever order the record is then listed, and planning without a delegation finds nothing
      to do and nothing in the way. Short of an interruption a confirmed run comes through
      exactly when the region has an unseal token on record, the plan no blocker, and the
      delegation can be issued; without the first two it writes nothing. */
  lemma OnboardingConverges(w: World, req: Request, later: seq<Event>)
    requires Orderly(w, req)
    ensures var run := OnboardPhase(w, req, true);
      var read := Read(run.world.(script := later), req);
      && (run.result.Done? ==> Admitted(run.world, req) && Delegated(run.world, req))
      && (run.result.Done? && read.result.Done? ==>
            var again := PlanFrom(read.result.value, req.(proof := ""));
            again.actions == [] && again.blockers == [])
      && (Admissible(w, req) && !Undelegable(w, req) ==> run.result.Done? || Interrupted(run.result))
      && (!Admissible(w, req) || Undelegable(w, req) ==> !run.result.Done?)
      && (!Admissible(w, req) ==> run.performed == [])
  {
    PhaseConverges(w, req);
    hide OnboardPhase, Read, PlanFrom, P.TellsApart, Undelegable, Delegated;
    var run := OnboardPhase(w, req, true);
    if run.result.Done? {
      var end := run.world.(script := later);
      assert Admitted(end, req) by {
        assert Records(end, req.region) == Records(run.world, req.region);
      }
      ApartFewer(Records(w, req.region) + {req.piri}, Records(end, req.region));
      AgainNothingToDo(end, req);
    }
  }

  /** A run that is not confirmed reads, and changes nothing; a region without an unseal token
      on record is refused either way. */
  lemma DryRunChangesNothing(w: World, req: Request)
    ensures var run := OnboardPhase(w, req, false);
      && run.performed == [] && run.world == w.(script := run.world.script)
      && (run.result.Done? ==> req.region in w.provisioned)
  {
    var asked := Ask(w);
    ReadChangesNothing(asked.world, req);
    hide Read;
  }
}
