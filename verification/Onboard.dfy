/** Admitting an appliance: what is read, what is planned, what is written. */
module Onboard {
  import opened Outcomes
  import I = ProofIssuer
  import P = PiriRecord

  datatype Provider = Provider(endpoint: string, weight: int, replicationWeight: int, proof: string)

  /** hilt's row for an Ingot. The storage nodes live in its routing policy; `policy` is
      empty for a row hilt was never given nodes for. */
  datatype HiltRow = HiltRow(region: string, policy: string, nodes: set<string>)

  datatype Request = Request(region: string, piri: string, ingot: string, url: string,
                             proof: string, weight: int, replicationWeight: int)

  /** The environment's part in one call: `listing` names the parameters of a region's record,
      in the order that a listing call answers with. */
  datatype Event = Event(fate: Fate, listing: seq<string>)

  /** A region's delegation from hilt and the stamp beside it. */
  datatype Held = Held(proof: Option<I.Delegation>, stamp: Option<nat>)

  /** What delegations are issued with: hilt's identity key, the commands that Ingot invokes,
      the regions' delegations, and how many were ever signed. */
  datatype Issuer = Issuer(key: nat, commands: seq<string>, held: map<string, Held>, issued: nat)

  /** The services, central's record of each region's Piri DIDs, the regions that have an
      unseal token's accessor on record, and the issuer of delegations. */
  datatype World = World(provisioned: set<string>,
                         allowed: set<string>,
                         sprue: map<string, Provider>,
                         hilt: map<string, HiltRow>,
                         records: map<string, set<string>>,
                         issuer: Issuer,
                         script: seq<Event>)

  /** What Read reports. An empty hiltRegion says that hilt has no row. */
  datatype State = State(allowListed: bool, sprue: Option<Provider>, hiltRegion: string, hiltPolicy: string,
                         recorded: set<string>)
  {
    predicate PiriRecorded(req: Request) {
      req.piri in recorded
    }
  }

  datatype Action =
    | AllowList
    | Register
    | ReplaceDelegation
    | SetWeights
    | RegisterWithHilt
    | SetNodes(nodes: set<string>)
    | AddNode
    | RecordPiri

  datatype Blocker = NeedsProof | RegisteredElsewhere | OtherRegion

  datatype Plan = Plan(state: State, actions: seq<Action>, blockers: seq<Blocker>)

  // ---------- reading ----------

  function Records(w: World, region: string): set<string> {
    if region in w.records then w.records[region] else {}
  }

  /** What a read reports that finds the whole record. */
  function Observe(w: World, req: Request): State {
    State(req.piri in w.allowed,
          if req.piri in w.sprue then Some(w.sprue[req.piri]) else None,
          if req.ingot in w.hilt then w.hilt[req.ingot].region else "",
          if req.ingot in w.hilt then w.hilt[req.ingot].policy else "",
          Records(w, req.region))
  }

  function Call(w: World): (World, Event) {
    if w.script == [] then (w, Event(Cut, [])) else (w.(script := w.script[1..]), w.script[0])
  }

  function Ask(w: World): Run<World, ()> {
    var (w, e) := Call(w);
    Reply(e.fate, w, w, ())
  }

  /** The record as it reads back. A listing that does not name what is there stands for a
      call that failed. */
  function ReadRecord(w: World, region: string): Run<World, set<string>> {
    var (w, e) := Call(w);
    if !P.ListsRecord(e.listing, region, Records(w, region))
    then Reply(if e.fate.Served? then Refused else e.fate, w, w, {})
    else Reply(e.fate, w, w, P.ReadBack(e.listing, region, Records(w, region)))
  }

  /** Four reads, none of which changes anything. */
  function Read(w: World, req: Request): Run<World, State> {
    var (w, _) :- Ask(w);
    var (w, _) :- Ask(w);
    var (w, _) :- Ask(w);
    var (w, recorded) :- ReadRecord(w, req.region);
    Run(w, Done(Observe(w, req).(recorded := recorded)))
  }

  // ---------- planning ----------

  /** Every Piri recorded for the region, and the one onboarding now. */
  function NodeSet(state: State, req: Request): set<string> {
    state.recorded + {req.piri}
  }

  function AllowListActions(state: State): seq<Action> {
    if state.allowListed then [] else [AllowList]
  }

  function SprueActions(state: State, req: Request): seq<Action> {
    match state.sprue
    case None => if req.proof == "" then [] else [Register]
    case Some(p) => if p.endpoint == req.url && req.proof != "" then [ReplaceDelegation] else []
  }

  function SprueBlockers(state: State, req: Request): seq<Blocker> {
    match state.sprue
    case None => if req.proof == "" then [NeedsProof] else []
    case Some(p) => if p.endpoint != req.url then [RegisteredElsewhere] else []
  }

  function WeightActions(state: State, req: Request): seq<Action> {
    if state.sprue.None? || state.sprue.value.weight != req.weight
       || state.sprue.value.replicationWeight != req.replicationWeight
    then [SetWeights] else []
  }

  function HiltActions(state: State, req: Request): seq<Action> {
    if state.hiltRegion == "" then [RegisterWithHilt]
    else if state.hiltRegion != req.region then []
    else if state.hiltPolicy == "" then [SetNodes(NodeSet(state, req))]
    else if !state.PiriRecorded(req) then [AddNode]
    else []
  }

  function HiltBlockers(state: State, req: Request): seq<Blocker> {
    if state.hiltRegion != "" && state.hiltRegion != req.region then [OtherRegion] else []
  }

  function RecordActions(state: State, req: Request): seq<Action> {
    if state.PiriRecorded(req) then [] else [RecordPiri]
  }

  function PlanFrom(state: State, req: Request): Plan {
    Plan(state,
         AllowListActions(state) + SprueActions(state, req) + WeightActions(state, req)
         + HiltActions(state, req) + RecordActions(state, req),
         SprueBlockers(state, req) + HiltBlockers(state, req))
  }

  // ---------- writing ----------

  /** A write that took effect. */
  datatype Write =
    | Allowed
    | Registered(endpoint: string, proof: string)
    | ProofSet(proof: string)
    | WeightsSet(weight: int, replicationWeight: int)
    | ProviderAdded(nodes: set<string>)
    | NodesSet(nodes: set<string>)
    | PiriRecorded

  /** The writes a run made, the world after them, and how the run ended. */
  datatype Applied = Applied(world: World, performed: seq<Write>, result: Result<()>) {

    predicate IsFailure() {
      result.IsFailure()
    }

    function PropagateFailure(): Applied
      requires IsFailure()
    {
      this
    }

    function Extract(): (World, seq<Write>)
      requires !IsFailure()
    {
      (world, performed)
    }
  }

  const POLICY := "did:key:policy"

  /** hilt tolerates a DID it already has; on an absent one it stores row and nodes together. */
  function AddProvider(hilt: map<string, HiltRow>, req: Request, nodes: set<string>): map<string, HiltRow> {
    if req.ingot in hilt then hilt else hilt[req.ingot := HiltRow(req.region, POLICY, nodes)]
  }

  /** sprue and hilt change only rows that they have. */
  predicate Possible(w: World, write: Write, req: Request) {
    match write
    case ProofSet(_) => req.piri in w.sprue
    case WeightsSet(_, _) => req.piri in w.sprue
    case NodesSet(_) => req.ingot in w.hilt
    case _ => true
  }

  function Effect(w: World, write: Write, req: Request): World
    requires Possible(w, write, req)
  {
    match write
    case Allowed => w.(allowed := w.allowed + {req.piri})
    case Registered(endpoint, proof) => w.(sprue := w.sprue[req.piri := Provider(endpoint, 0, 0, proof)])
    case ProofSet(proof) => w.(sprue := w.sprue[req.piri := w.sprue[req.piri].(proof := proof)])
    case WeightsSet(a, b) =>
      w.(sprue := w.sprue[req.piri := w.sprue[req.piri].(weight := a, replicationWeight := b)])
    case ProviderAdded(nodes) => w.(hilt := AddProvider(w.hilt, req, nodes))
    case NodesSet(nodes) => w.(hilt := w.hilt[req.ingot := HiltRow(w.hilt[req.ingot].region, POLICY, nodes)])
    case PiriRecorded => w.(records := w.records[req.region := Records(w, req.region) + {req.piri}])
  }

  /** One write call: its effect is there exactly when it is reported as performed. */
  function Do(w: World, performed: seq<Write>, write: Write, req: Request): Applied {
    var (w, e) := Call(w);
    var possible := Possible(w, write, req);
    var run := ReplyIf(possible, e.fate, w, if possible then Effect(w, write, req) else w, ());
    Applied(run.world, if run.result.Done? then performed + [write] else performed, run.result)
  }

  function Skip(w: World, performed: seq<Write>): Applied {
    Applied(w, performed, Done(()))
  }

  function AllowStep(w: World, req: Request, state: State): Applied {
    if state.allowListed then Skip(w, []) else Do(w, [], Allowed, req)
  }

  function SprueStep(w: World, performed: seq<Write>, req: Request, state: State): Applied {
    if state.sprue.None? then Do(w, performed, Registered(req.url, req.proof), req)
    else if req.proof != "" then Do(w, performed, ProofSet(req.proof), req)
    else Skip(w, performed)
  }

  /** The weights are set on every run. */
  function WeightStep(w: World, performed: seq<Write>, req: Request): Applied {
    Do(w, performed, WeightsSet(req.weight, req.replicationWeight), req)
  }

  function HiltStep(w: World, performed: seq<Write>, req: Request, state: State): Applied {
    var nodes := NodeSet(state, req);
    if state.hiltRegion == "" then
      var (w, performed) :- Do(w, performed, ProviderAdded(nodes), req);
      var read := Ask(w);
      if read.IsFailure() then Applied(read.world, performed, read.result)
      else if req.ingot !in read.world.hilt || read.world.hilt[req.ingot].region != req.region
      then Applied(read.world, performed, Failed(None, Declined))
      else Applied(read.world, performed, Done(()))
    else if state.hiltPolicy == "" || !state.PiriRecorded(req) then Do(w, performed, NodesSet(nodes), req)
    else Skip(w, performed)
  }

  /** A DID that gives no parameter its name is refused before any call. */
  function RecordStep(w: World, performed: seq<Write>, req: Request, state: State): Applied {
    if state.PiriRecorded(req) then Skip(w, performed)
    else if !P.Recordable(req.piri) then Applied(w, performed, Failed(None, Declined))
    else Do(w, performed, PiriRecorded, req)
  }

  /** The delegator and sprue. */
  function AdmitPiri(w: World, req: Request, state: State): Applied {
    var (w, performed) :- AllowStep(w, req, state);
    var (w, performed) :- SprueStep(w, performed, req, state);
    WeightStep(w, performed, req)
  }

  /** hilt first and central's record after it, so that a recorded Piri is one hilt knows. */
  function AdmitIngot(w: World, performed: seq<Write>, req: Request, state: State): Applied {
    var (w, performed) :- HiltStep(w, performed, req, state);
    RecordStep(w, performed, req, state)
  }

  function Fates(script: seq<Event>): seq<Fate> {
    seq(|script|, i requires 0 <= i < |script| => script[i].fate)
  }

  function HeldBy(issuer: Issuer, region: string): Held {
    if region in issuer.held then issuer.held[region] else Held(None, None)
  }

  /** The issuer as it works for one region. */
  function Issuing(w: World, region: string): I.World {
    var held := HeldBy(w.issuer, region);
    I.World(held.proof, held.stamp, w.issuer.key, w.issuer.commands, w.issuer.issued, Fates(w.script))
  }

  function Issued(w: World, region: string, after: I.World): World {
    var n := |after.script|;
    w.(issuer := w.issuer.(held := w.issuer.held[region := Held(after.proof, after.stamp)], issued := after.issued),
       script := if n <= |w.script| then w.script[|w.script| - n..] else [])
  }

  /** Issuing the region's delegation to its Ingot. */
  function IssueStep(w: World, req: Request): Run<World, ()> {
    var run := I.IssueProof(Issuing(w, req.region), req.ingot);
    Run(Issued(w, req.region, run.world), if run.result.Done? then Done(()) else run.result.PropagateFailure())
  }

  /** Issuing the proof comes last. */
  function Admit(w: World, req: Request, state: State): Applied {
    var (w, performed) :- AdmitPiri(w, req, state);
    var (w, performed) :- AdmitIngot(w, performed, req, state);
    var issued := IssueStep(w, req);
    Applied(issued.world, performed, issued.result)
  }

  function Apply(w: World, req: Request, plan: Plan): Applied {
    if plan.blockers != [] then Applied(w, [], Failed(None, Declined)) else Admit(w, req, plan.state)
  }

  /** Read, plan and, once that is confirmed, apply. Without that only the plan is reported. */
  function OnboardRun(w: World, req: Request, confirm: bool): Applied {
    var read := Read(w, req);
    if read.IsFailure() then Applied(read.world, [], read.result.PropagateFailure())
    else if !confirm then Skip(read.world, [])
    else Apply(read.world, req, PlanFrom(read.result.value, req))
  }

  /** The phase: a region that no unseal token was ever minted for is refused. */
  function OnboardPhase(w: World, req: Request, confirm: bool): Applied {
    var asked := Ask(w);
    if asked.IsFailure() then Applied(asked.world, [], asked.result)
    else if req.region !in w.provisioned then Applied(asked.world, [], Failed(None, Declined))
    else OnboardRun(asked.world, req, confirm)
  }
}
