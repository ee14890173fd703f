/** Onboarding as the Lambda runs it: call by call on the services' own state. */
module OnboardServices {
  import opened Outcomes
  import I = ProofIssuer
  import O = Onboard
  import F = OnboardFacts
  import H = OnboardHistory
  import P = PiriRecord
  import S = ProofStore

  /** The delegator, sprue, hilt and central's record; what a run has performed on them so
      far; and what is in store for the calls it goes on to make. */
  class Services {
    var provisioned: set<string>
    var allowed: set<string>
    var sprue: map<string, O.Provider>
    var hilt: map<string, O.HiltRow>
    var records: map<string, set<string>>
    var issuer: O.Issuer
    var script: seq<O.Event>
    var performed: seq<O.Write>

    ghost function Now(): O.World
      reads this
    {
      O.World(provisioned, allowed, sprue, hilt, records, issuer, script)
    }

    method Await() returns (e: O.Event)
      modifies this
      ensures (Now(), e) == O.Call(old(Now())) && performed == old(performed)
    {
      if script == [] { return O.Event(Cut, []); }
      e := script[0];
      script := script[1..];
    }

    method Ask() returns (r: Result<()>)
      modifies this
      ensures Run(Now(), r) == O.Ask(old(Now())) && performed == old(performed)
      ensures Now() == old(Now()).(script := script)
    {
      var e := Await();
      r := Answer(e.fate);
    }

    method Allow(req: O.Request) returns (r: Result<()>)
      modifies this
      ensures O.Applied(Now(), performed, r) == O.Do(old(Now()), old(performed), O.Allowed, req)
    {
      r := Ask();
      if r.IsFailure() { return; }
      allowed := allowed + {req.piri};
      performed := performed + [O.Allowed];
    }

    method Register(req: O.Request) returns (r: Result<()>)
      modifies this
      ensures O.Applied(Now(), performed, r) == O.Do(old(Now()), old(performed), O.Registered(req.url, req.proof), req)
    {
      r := Ask();
      if r.IsFailure() { return; }
      sprue := sprue[req.piri := O.Provider(req.url, 0, 0, req.proof)];
      performed := performed + [O.Registered(req.url, req.proof)];
    }

    method SetProofs(req: O.Request) returns (r: Result<()>)
      modifies this
      ensures O.Applied(Now(), performed, r) == O.Do(old(Now()), old(performed), O.ProofSet(req.proof), req)
    {
      r := Ask();
      if r.IsFailure() { return; }
      if req.piri !in sprue { return Failed(None, Rejected); }
      sprue := sprue[req.piri := sprue[req.piri].(proof := req.proof)];
      performed := performed + [O.ProofSet(req.proof)];
    }

    method SetWeight(req: O.Request) returns (r: Result<()>)
      modifies this
      ensures O.Applied(Now(), performed, r) ==
        O.Do(old(Now()), old(performed), O.WeightsSet(req.weight, req.replicationWeight), req)
    {
      r := Ask();
      if r.IsFailure() { return; }
      if req.piri !in sprue { return Failed(None, Rejected); }
      sprue := sprue[req.piri := sprue[req.piri].(weight := req.weight, replicationWeight := req.replicationWeight)];
      performed := performed + [O.WeightsSet(req.weight, req.replicationWeight)];
    }

    method AddProvider(req: O.Request, nodes: set<string>) returns (r: Result<()>)
      modifies this
      ensures O.Applied(Now(), performed, r) == O.Do(old(Now()), old(performed), O.ProviderAdded(nodes), req)
    {
      r := Ask();
      if r.IsFailure() { return; }
      if req.ingot !in hilt {
        hilt := hilt[req.ingot := O.HiltRow(req.region, O.POLICY, nodes)];
      }
      performed := performed + [O.ProviderAdded(nodes)];
    }

    method SetProviderNodes(req: O.Request, nodes: set<string>) returns (r: Result<()>)
      modifies this
      ensures O.Applied(Now(), performed, r) == O.Do(old(Now()), old(performed), O.NodesSet(nodes), req)
    {
      r := Ask();
      if r.IsFailure() { return; }
      if req.ingot !in hilt { return Failed(None, Rejected); }
      hilt := hilt[req.ingot := O.HiltRow(hilt[req.ingot].region, O.POLICY, nodes)];
      performed := performed + [O.NodesSet(nodes)];
    }

    method Record(req: O.Request) returns (r: Result<()>)
      modifies this
      ensures O.Applied(Now(), performed, r) == O.Do(old(Now()), old(performed), O.PiriRecorded, req)
    {
      r := Ask();
      if r.IsFailure() { return; }
      var recorded := if req.region in records then records[req.region] else {};
      records := records[req.region := recorded + {req.piri}];
      performed := performed + [O.PiriRecorded];
    }

    /** piriRecords.Recorded: the listed parameters' values, each kept under its name's last segment. */
    method ReadRecord(region: string) returns (r: Result<set<string>>)
      modifies this
      ensures Run(Now(), r) == O.ReadRecord(old(Now()), region) && performed == old(performed)
      ensures Now() == old(Now()).(script := script)
    {
      hide P.Collect, P.Parameters;
      var recorded := if region in records then records[region] else {};
      var e := Await();
      var asked := Answer(e.fate);
      if asked.IsFailure() { return asked.PropagateFailure(); }
      if !P.ListsRecord(e.listing, region, recorded) { return Failed(None, Transport); }
      var params := P.Parameters(region, recorded);
      assert forall name | name in e.listing :: name in (set n | n in e.listing);
      var values := P.ListPublic(params, [Some(e.listing)]);
      P.OnePage(e.listing);
      r := Done(values.value.Values);
    }

    method Read(req: O.Request) returns (r: Result<O.State>)
      modifies this
      ensures Run(Now(), r) == O.Read(old(Now()), req) && performed == old(performed)
    {
      hide O.Ask, O.ReadRecord;
      var asked := Ask();
      if asked.IsFailure() { return asked.PropagateFailure(); }
      var allowListed := req.piri in allowed;
      asked := Ask();
      if asked.IsFailure() { return asked.PropagateFailure(); }
      var provider := if req.piri in sprue then Some(sprue[req.piri]) else None;
      asked := Ask();
      if asked.IsFailure() { return asked.PropagateFailure(); }
      var hiltRegion, hiltPolicy := "", "";
      if req.ingot in hilt {
        hiltRegion, hiltPolicy := hilt[req.ingot].region, hilt[req.ingot].policy;
      }
      var recorded := ReadRecord(req.region);
      if recorded.IsFailure() { return recorded.PropagateFailure(); }
      r := Done(O.State(allowListed, provider, hiltRegion, hiltPolicy, recorded.value));
    }

    method AdmitPiri(req: O.Request, state: O.State) returns (r: Result<()>)
      requires performed == []
      modifies this
      ensures O.Applied(Now(), performed, r) == O.AdmitPiri(old(Now()), req, state)
    {
      hide O.Do;
      if !state.allowListed {
        r := Allow(req);
        if r.IsFailure() { return; }
      }
      if state.sprue.None? {
        r := Register(req);
        if r.IsFailure() { return; }
      } else if req.proof != "" {
        r := SetProofs(req);
        if r.IsFailure() { return; }
      }
      r := SetWeight(req);
    }

    method HiltStep(req: O.Request, state: O.State) returns (r: Result<()>)
      modifies this
      ensures O.Applied(Now(), performed, r) == O.HiltStep(old(Now()), old(performed), req, state)
    {
      hide O.Do;
      var nodes := O.NodeSet(state, req);
      r := Done(());
      if state.hiltRegion == "" {
        r := AddProvider(req, nodes);
        if r.IsFailure() { return; }
        ghost var told := Now();
        r := Ask();
        assert O.Ask(told) == Run(Now(), r);
        if r.IsFailure() { return; }
        if req.ingot !in hilt || hilt[req.ingot].region != req.region {
          r := Failed(None, Declined);
        }
      } else if state.hiltPolicy == "" || !state.PiriRecorded(req) {
        r := SetProviderNodes(req, nodes);
      }
    }

    method AdmitIngot(req: O.Request, state: O.State) returns (r: Result<()>)
      modifies this
      ensures O.Applied(Now(), performed, r) == O.AdmitIngot(old(Now()), old(performed), req, state)
    {
      hide O.HiltStep;
      r := HiltStep(req, state);
      if r.IsFailure() { return; }
      r := Done(());
      if !state.PiriRecorded(req) {
        if !P.Recordable(req.piri) { return Failed(None, Declined); }
        r := Record(req);
      }
    }

    /** The issuer works on the region's own two parameters. */
    method IssueStep(req: O.Request) returns (r: Result<()>)
      modifies this
      ensures Run(Now(), r) == O.IssueStep(old(Now()), req) && performed == old(performed)
    {
      hide I.IssueProof;
      var held := O.HeldBy(issuer, req.region);
      var store := new S.Store(held.proof, held.stamp, issuer.key, issuer.commands, issuer.issued, O.Fates(script));
      var issued := store.IssueProof(req.ingot);
      var n := |store.script|;
      issuer := issuer.(held := issuer.held[req.region := O.Held(store.proof, store.stamp)], issued := store.issued);
      script := if n <= |script| then script[|script| - n..] else [];
      r := if issued.Done? then Done(()) else issued.PropagateFailure();
    }

    /** Apply does to the services what the specification says, in its order. */
    method Apply(req: O.Request, plan: O.Plan) returns (r: Result<()>)
      requires performed == []
      modifies this
      ensures O.Applied(Now(), performed, r) == O.Apply(old(Now()), req, plan)
    {
      hide O.AdmitPiri, O.AdmitIngot, O.IssueStep;
      if plan.blockers != [] { return Failed(None, Declined); }
      r := AdmitPiri(req, plan.state);
      if r.IsFailure() { return; }
      r := AdmitIngot(req, plan.state);
      if r.IsFailure() { return; }
      r := IssueStep(req);
    }

    method ReadAndApply(req: O.Request, confirm: bool) returns (r: Result<()>)
      requires performed == []
      modifies this
      ensures O.Applied(Now(), performed, r) == O.OnboardPhase(old(Now()), req, confirm)
    {
      hide O.Apply;
      var asked := Ask();
      if asked.IsFailure() { return asked; }
      if req.region !in provisioned { return Failed(None, Declined); }
      var state := Read(req);
      if state.IsFailure() { return state.PropagateFailure(); }
      if !confirm { return Done(()); }
      r := Apply(req, O.PlanFrom(state.value, req));
    }

    /** The phase. A confirmed run that comes through has admitted the appliance and stored a
        current delegation to it; one that is not confirmed changes nothing; and hilt is told of
        a Piri before central records it, however the run ends. */
    method Onboard(req: O.Request, confirm: bool) returns (r: Result<()>)
      requires performed == []
      modifies this
      ensures O.Applied(Now(), performed, r) == O.OnboardPhase(old(Now()), req, confirm)
      ensures !confirm ==> performed == [] && Now() == old(Now()).(script := script)
      ensures F.Orderly(old(Now()), req) ==> F.NodesThenRecord(old(Now()), Now(), req)
      ensures F.Orderly(old(Now()), req) && confirm && r.Done? ==> F.Admitted(Now(), req) && F.Delegated(Now(), req)
    {
      hide O.OnboardPhase, F.Orderly, F.NodesThenRecord, F.Admitted, F.Delegated;
      r := ReadAndApply(req, confirm);
      F.DryRunChangesNothing(old(Now()), req);
      if F.Orderly(old(Now()), req) {
        H.OnboardShape(old(Now()), req, confirm);
        F.PhaseConverges(old(Now()), req);
      }
    }
  }
}
