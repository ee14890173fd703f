/** The appliance-token phase: plan, mint, record, and revoke what was replaced. */
module ApplianceToken {
  import opened Outcomes
  import opened ApplianceWorld

  /** An operator's request. `validDurations` stands for the duration parser's verdict. */
  datatype Request = Request(region: string, cidr: string, period: string,
                             reissue: bool, confirm: bool, validDurations: bool)

  datatype Action = Mint | Reissue | Refuse

  datatype Plan = Plan(action: Action, accessor: string, live: bool)

  /** What the phase returns: the plan alone on a dry run, else the new accessor. */
  datatype Answer = DryRun(plan: Plan) | Issued(accessor: string)

  function Decide(live: bool, reissue: bool): Action {
    if !live then Mint else if reissue then Reissue else Refuse
  }

  function PlanToken(w: World, req: Request): Run<World, Plan> {
    var (w, present) :- ReadKey(w, KeyName(req.region));
    if !present || !req.validDurations then Run(w, Failed(None, Declined)) else
    var (w, recorded) :- LookupPublic(w, AccessorPath(req.region));
    if recorded.None? then Run(w, Done(Plan(Mint, "", false))) else
    var (w, live) :- TokenLive(w, recorded.value);
    Run(w, Done(Plan(Decide(live, req.reissue), recorded.value, live)))
  }

  function EnsureTokenRole(w: World, req: Request): Run<World, ()> {
    if req.cidr == "" then Run(w, Failed(None, Declined))
    else WriteRole(w, KeyName(req.region), Role(req.cidr, req.period))
  }

  /** Mints wrapped. A reply in the clear is refused and its token revoked. */
  function MintWrapped(w: World, region: string): Run<World, string> {
    var (w, minted) :- CreateToken(w, region);
    if !minted.unwrapped then Run(w, Done(minted.accessor)) else
    var (w, _) :- Revoke(w, minted.accessor);
    Run(w, Failed(None, Declined))
  }

  /** Records the accessor, revoking the token when the write is refused. */
  function RecordAccessor(w: World, region: string, accessor: string): Run<World, ()> {
    var put := PutPublic(w, AccessorPath(region), accessor);
    if !put.result.Failed? then put else
    var (w, _) :- Revoke(put.world, accessor);
    Run(w, Failed(None, Declined))
  }

  /** Once the replacement is recorded, a reissue revokes the previous token. */
  function Settle(w: World, region: string, plan: Plan, accessor: string): Run<World, Answer> {
    var (w, _) :- RecordAccessor(w, region, accessor);
    if !plan.action.Reissue? then Run(w, Done(Issued(accessor))) else
    var (w, _) :- Revoke(w, plan.accessor);
    Run(w, Done(Issued(accessor)))
  }

  function MintToken(w: World, req: Request, plan: Plan): Run<World, Answer> {
    var (w, _) :- EnsureTokenRole(w, req);
    var (w, accessor) :- MintWrapped(w, req.region);
    Settle(w, req.region, plan, accessor)
  }

  function TokenPhase(w: World, req: Request): Run<World, Answer> {
    var (w, plan) :- PlanToken(w, req);
    if !req.confirm then Run(w, Done(DryRun(plan)))
    else if plan.action.Refuse? then Run(w, Failed(Some(plan.accessor), Declined))
    else MintToken(w, req, plan)
  }
}
