/** hilt's delegation to an appliance's Ingot: issued once, stamped with the key that
    signed it, and reissued when the key or the command list has moved on. */
module ProofIssuer {
  import opened Outcomes

  /** A stored delegation. Issuing twice never gives the same bytes: `serial` tells copies
      apart. A key is the number of rotations before it. What was stored by other hands may
      be no container, and then is not readable. */
  datatype Delegation = Delegation(serial: nat, signer: nat, audience: string, commands: seq<string>, readable: bool)

  /** The two parameters of one region, hilt's identity key, the commands Ingot invokes, how
      many delegations were ever signed, and what is in store for the next calls. */
  datatype World = World(proof: Option<Delegation>, stamp: Option<nat>,
                         key: nat, commands: seq<string>, issued: nat, script: seq<Fate>)

  // ---------- remote calls ----------

  function Call(w: World): (World, Fate) {
    if w.script == [] then (w, Cut) else (w.(script := w.script[1..]), w.script[0])
  }

  function ReadKey(w: World): Run<World, nat> {
    var (w, fate) := Call(w);
    Reply(fate, w, w, w.key)
  }

  function LookupProof(w: World): Run<World, Option<Delegation>> {
    var (w, fate) := Call(w);
    Reply(fate, w, w, w.proof)
  }

  function LookupStamp(w: World): Run<World, Option<nat>> {
    var (w, fate) := Call(w);
    Reply(fate, w, w, w.stamp)
  }

  function PutProof(w: World, d: Delegation): Run<World, ()> {
    var (w, fate) := Call(w);
    Reply(fate, w, w.(proof := Some(d)), ())
  }

  function PutStamp(w: World, key: nat): Run<World, ()> {
    var (w, fate) := Call(w);
    Reply(fate, w, w.(stamp := Some(key)), ())
  }

  // ---------- issuing ----------

  /** The commands a delegation's container does not grant, in the list's order. */
  function Missing(granted: seq<string>, commands: seq<string>): seq<string> {
    if commands == [] then []
    else if commands[0] in granted then Missing(granted, commands[1..])
    else [commands[0]] + Missing(granted, commands[1..])
  }

  /** Signing is local. It refuses a proof with no audience or no commands. */
  function Sign(w: World, key: nat, audience: string): Run<World, Delegation> {
    if audience == "" || w.commands == [] then Run(w, Failed(None, Declined))
    else Run(w.(issued := w.issued + 1), Done(Delegation(w.issued, key, audience, w.commands, true)))
  }

  /** The stored delegation, and whether this run put it there. */
  function EnsureProof(w: World, key: nat, audience: string): Run<World, (Delegation, bool)> {
    var (w, found) :- LookupProof(w);
    if found.Some? then Run(w, Done((found.value, false))) else
    var (w, signed) :- Sign(w, key, audience);
    var (w, _) :- PutProof(w, signed);
    Run(w, Done((signed, true)))
  }

  /** Records which key signed the delegation, and returns it. */
  function Stamp(w: World, key: nat, d: Delegation): Run<World, Delegation> {
    var (w, _) :- PutStamp(w, key);
    Run(w, Done(d))
  }

  function Reissue(w: World, key: nat, audience: string): Run<World, Delegation> {
    var (w, signed) :- Sign(w, key, audience);
    var (w, _) :- PutProof(w, signed);
    Stamp(w, key, signed)
  }

  /** What to do about a delegation that was there already. One that does not decode is an
      error, whatever its stamp. */
  function Review(w: World, key: nat, audience: string, stored: Delegation): Run<World, Delegation> {
    if !stored.readable then Run(w, Failed(None, Declined)) else
    var (w, stamp) :- LookupStamp(w);
    if Missing(stored.commands, w.commands) != [] then Reissue(w, key, audience)
    else if stamp == Some(key) then Run(w, Done(stored))
    else if stamp.None? then Stamp(w, key, stored)
    else Reissue(w, key, audience)
  }

  function IssueProof(w: World, audience: string): Run<World, Delegation> {
    var (w, key) :- ReadKey(w);
    var (w, ensured) :- EnsureProof(w, key, audience);
    if ensured.1 then Stamp(w, key, ensured.0) else Review(w, key, audience, ensured.0)
  }

  /** retire-region's deletion: both parameters are looked for, and those there go in one call. */
  function RetireProof(w: World): Run<World, ()> {
    var (w, proof) :- LookupProof(w);
    var (w, stamp) :- LookupStamp(w);
    if proof.None? && stamp.None? then Run(w, Done(())) else
    var (w, fate) := Call(w);
    Reply(fate, w, w.(proof := None, stamp := None), ())
  }

  // ---------- one run ----------

  predicate Grants(d: Delegation, commands: seq<string>) {
    d.readable && forall c | c in commands :: c in d.commands
  }

  lemma {:induction false} MissingNothing(granted: seq<string>, commands: seq<string>)
    ensures Missing(granted, commands) == [] <==> forall c | c in commands :: c in granted
  {
    if commands != [] {
      MissingNothing(granted, commands[1..]);
      assert commands == [commands[0]] + commands[1..];
    }
  }

  /** Nothing is left for a run to do. */
  predicate Settled(w: World) {
    w.proof.Some? && Grants(w.proof.value, w.commands) && w.stamp == Some(w.key)
  }

  /** A run that finds this returns the stored delegation as it is. */
  predicate Kept(w: World) {
    w.proof.Some? && Grants(w.proof.value, w.commands) && (w.stamp.None? || w.stamp == Some(w.key))
  }

  /** What a run may leave behind: nothing new, or one new delegation by the current key to
      the audience it was asked for; and a stamp as before, or the current key's. */
  predicate Moves(w: World, w': World, audience: string) {
    var renewed := Some(Delegation(w.issued, w.key, audience, w.commands, true));
    && w' == w.(proof := w'.proof, stamp := w'.stamp, issued := w'.issued, script := w'.script)
    && w.issued <= w'.issued <= w.issued + 1
    && (w'.proof == w.proof || w'.proof == renewed)
    && (w'.stamp == w.stamp || (w'.stamp == Some(w.key) && (w'.proof == renewed || (w'.proof == w.proof && Kept(w)))))
  }

  /** What a run that comes through establishes. */
  predicate Returns(w: World, run: Run<World, Delegation>, audience: string) {
    run.result.Done? ==>
      && run.world.proof == Some(run.result.value)
      && Settled(run.world)
      && (if Kept(w) then run.world.proof == w.proof && run.world.issued == w.issued
          else run.result.value == Delegation(w.issued, w.key, audience, w.commands, true))
  }

  lemma ReissueFacts(w: World, audience: string)
    requires w.proof.Some? && w.proof.value.readable && !Kept(w)
    ensures Moves(w, Reissue(w, w.key, audience).world, audience)
    ensures Returns(w, Reissue(w, w.key, audience), audience)
  {
  }

  lemma ReviewFacts(w: World, audience: string)
    requires w.proof.Some?
    ensures Moves(w, Review(w, w.key, audience, w.proof.value).world, audience)
    ensures Returns(w, Review(w, w.key, audience, w.proof.value), audience)
  {
    MissingNothing(w.proof.value.commands, w.commands);
    var stamp := LookupStamp(w);
    if stamp.result.Done? {
      if w.proof.value.readable && !Kept(w) {
        hide Reissue;
        ReissueFacts(stamp.world, audience);
      }
    }
  }

  lemma FirstFacts(w: World, audience: string)
    requires w.proof.None?
    ensures Moves(w, IssueProof(w, audience).world, audience)
    ensures Returns(w, IssueProof(w, audience), audience)
  {
    hide Review;
  }

  /** A run that succeeds returns the stored delegation, stamped with the current key and
      granting every command. It is the one that was there exactly when that one granted
      every command and was stamped by the current key or not at all; otherwise it is new,
      by the current key, and names the audience. A run that fails or stops leaves the
      stored delegation alone or has replaced it by one such new one. */
  lemma IssueFacts(w: World, audience: string)
    ensures Moves(w, IssueProof(w, audience).world, audience)
    ensures Returns(w, IssueProof(w, audience), audience)
  {
    if w.proof.None? {
      FirstFacts(w, audience);
    } else {
      hide Review;
      var read := ReadKey(w);
      if read.result.Done? {
        var looked := LookupProof(read.world);
        if looked.result.Done? {
          ReviewFacts(looked.world, audience);
        }
      }
    }
  }

  /** Which key signed what a successful run returns: the current one, but for a delegation
      of an earlier key that a run would keep. */
  lemma SignedByCurrentKeyExactlyWhen(w: World, audience: string)
    ensures var run := IssueProof(w, audience);
      run.result.Done? ==>
        (run.result.value.signer == w.key <==> !(Kept(w) && w.proof.value.signer != w.key))
  {
    IssueFacts(w, audience);
  }

  /** A run names the DID it was asked for, but for a delegation to another DID that a run
      would keep. */
  lemma NamesAudienceExactlyWhen(w: World, audience: string)
    ensures var run := IssueProof(w, audience);
      run.result.Done? ==>
        (run.result.value.audience == audience <==> !(Kept(w) && w.proof.value.audience != audience))
  {
    IssueFacts(w, audience);
  }

  lemma SettledStays(w: World, audience: string)
    requires Settled(w)
    ensures var run := IssueProof(w, audience);
      && run.world.proof == w.proof && run.world.stamp == w.stamp && run.world.issued == w.issued
      && (run.result.Done? ==> run.result.value == w.proof.value)
  {
    MissingNothing(w.proof.value.commands, w.commands);
  }

  /** However a run ends, the next that comes through issues at most one more, and every
      further one returns that same delegation and issues nothing. */
  lemma AtMostAnotherReissue(w: World, audience: string, second: seq<Fate>, third: seq<Fate>)
    ensures var first := IssueProof(w, audience).world;
      var next := IssueProof(first.(script := second), audience);
      var last := IssueProof(next.world.(script := third), audience);
      && first.issued <= w.issued + 1
      && next.world.issued <= first.issued + 1
      && (next.result.Done? ==>
            && last.world.issued == next.world.issued
            && (last.result.Done? ==> last.result.value == next.result.value))
  {
    hide IssueProof;
    IssueFacts(w, audience);
    var first := IssueProof(w, audience).world;
    IssueFacts(first.(script := second), audience);
    var next := IssueProof(first.(script := second), audience);
    if next.result.Done? {
      SettledStays(next.world.(script := third), audience);
    }
  }

  // ---------- histories ----------

  /** Onboard runs; a rotation of hilt's identity; a release with another command list; a
      retire-region run; and the vault phase's retirement of the whole region, which deletes
      parameters ten at a time and may have taken either one when it stops. */
  datatype Op =
    | OnboardOp(audience: string, script: seq<Fate>)
    | Rotate
    | Release(commands: seq<string>)
    | RetireRegion(script: seq<Fate>)
    | Clear(proof: bool, stamp: bool)

  function Step(w: World, op: Op): World {
    match op
    case OnboardOp(audience, script) => IssueProof(w.(script := script), audience).world
    case Rotate => w.(key := w.key + 1)
    case Release(commands) => w.(commands := commands)
    case RetireRegion(script) => RetireProof(w.(script := script)).world
    case Clear(proof, stamp) =>
      w.(proof := if proof then None else w.proof, stamp := if stamp then None else w.stamp)
  }

  function Play(w: World, ops: seq<Op>): World
    decreases |ops|
  {
    if ops == [] then w else Play(Step(w, ops[0]), ops[1..])
  }

  /** No key comes after the current one, and the stamp of a delegation is its signer's or an
      earlier key's; one without a stamp is the current key's. */
  predicate Truthful(w: World) {
    && (w.stamp.Some? ==> w.stamp.value <= w.key)
    && (w.proof.Some? ==> w.proof.value.signer <= w.key)
    && (w.proof.Some? && w.stamp.Some? ==> w.stamp.value <= w.proof.value.signer)
    && (w.proof.Some? && w.stamp.None? ==> w.proof.value.signer == w.key)
  }

  /** The two ways to lose that: to rotate while the stamp is missing, or to take the stamp
      from a delegation of an earlier key and leave the delegation. */
  predicate Loosens(w: World, op: Op) {
    match op
    case Rotate => w.proof.Some? && w.stamp.None?
    case Clear(proof, stamp) => w.proof.Some? && w.proof.value.signer != w.key && !proof && stamp
    case _ => false
  }

  predicate NothingLoosens(w: World, ops: seq<Op>)
    decreases |ops|
  {
    ops == [] || (!Loosens(w, ops[0]) && NothingLoosens(Step(w, ops[0]), ops[1..]))
  }

  lemma StepKeeps(w: World, op: Op)
    requires Truthful(w)
    ensures Truthful(Step(w, op)) <==> !Loosens(w, op)
  {
    if op.OnboardOp? {
      hide IssueProof;
      IssueFacts(w.(script := op.script), op.audience);
    }
  }

  lemma {:induction false} PlayKeeps(w: World, ops: seq<Op>)
    requires Truthful(w) && NothingLoosens(w, ops)
    ensures Truthful(Play(w, ops))
    decreases |ops|
  {
    if ops != [] {
      StepKeeps(w, ops[0]);
      PlayKeeps(Step(w, ops[0]), ops[1..]);
    }
  }

  /** After any history: an onboard run that comes through returns the stored delegation, which
      grants every current command; and hilt's current key signed it, unless something loosened
      the stamp on the way or it did not tell the truth to begin with. */
  lemma OnboardReturnsCurrentProof(w: World, ops: seq<Op>, audience: string, script: seq<Fate>)
    ensures var end := Play(w, ops);
      var run := IssueProof(end.(script := script), audience);
      run.result.Done? ==>
        && run.world.proof == Some(run.result.value)
        && Grants(run.result.value, end.commands)
        && (Truthful(w) && NothingLoosens(w, ops) ==> run.result.value.signer == end.key)
  {
    hide IssueProof;
    if Truthful(w) && NothingLoosens(w, ops) {
      PlayKeeps(w, ops);
    }
    var end := Play(w, ops).(script := script);
    IssueFacts(end, audience);
    SignedByCurrentKeyExactlyWhen(end, audience);
  }

  // ---------- a delegation that does not decode ----------

  predicate Unreadable(w: World) {
    w.proof.Some? && !w.proof.value.readable
  }

  /** The operations that may take the delegation away. */
  predicate MayTakeTheProof(op: Op) {
    op.RetireRegion? || (op.Clear? && op.proof)
  }

  /** What a run can do nothing about: a delegation that does not decode, or one that has to be
      issued with nobody to issue it to or nothing to grant. */
  predicate Stuck(w: World, audience: string) {
    Unreadable(w) || (!Kept(w) && (audience == "" || w.commands == []))
  }

  /** Short of an interruption a run comes through exactly when it is not stuck. */
  predicate EndsAsItShould<A>(run: Run<World, A>, stuck: bool) {
    && (!stuck ==> run.result.Done? || Interrupted(run.result))
    && (stuck ==> !run.result.Done?)
  }

  lemma ReissueEnds(w: World, key: nat, audience: string)
    ensures EndsAsItShould(Reissue(w, key, audience), audience == "" || w.commands == [])
  {
  }

  lemma ReviewEnds(w: World, audience: string)
    requires w.proof.Some?
    ensures EndsAsItShould(Review(w, w.key, audience, w.proof.value), Stuck(w, audience))
  {
    MissingNothing(w.proof.value.commands, w.commands);
    var looked := LookupStamp(w);
    ReissueEnds(looked.world, w.key, audience);
    hide Reissue;
  }

  /** Short of an interruption an onboard run comes through exactly where the stored delegation
      decodes, or is gone, and one that must be issued can be. */
  lemma ComesThroughExactlyWhen(w: World, audience: string)
    ensures EndsAsItShould(IssueProof(w, audience), Stuck(w, audience))
  {
    var read := ReadKey(w);
    if read.result.Done? && w.proof.Some? {
      var looked := LookupProof(read.world);
      if looked.result.Done? {
        ReviewEnds(looked.world, audience);
      }
    }
    hide Review;
  }

  lemma ReadableStays(w: World, op: Op)
    requires !Unreadable(w)
    ensures !Unreadable(Step(w, op))
  {
    if op.OnboardOp? {
      hide IssueProof;
      IssueFacts(w.(script := op.script), op.audience);
    }
  }

  lemma {:induction false} ReadableThroughout(w: World, ops: seq<Op>)
    requires !Unreadable(w)
    ensures !Unreadable(Play(w, ops))
    decreases |ops|
  {
    if ops != [] {
      ReadableStays(w, ops[0]);
      ReadableThroughout(Step(w, ops[0]), ops[1..]);
    }
  }

  /** A retirement repairs the region: once one has come through, and after any history that
      follows it, an onboard run for an Ingot comes through, short of an interruption. */
  lemma RetirementRepairs(w: World, retire: seq<Fate>, ops: seq<Op>, audience: string, script: seq<Fate>)
    requires RetireProof(w.(script := retire)).result.Done? && audience != ""
    ensures var end := Play(RetireProof(w.(script := retire)).world, ops);
      var run := IssueProof(end.(script := script), audience);
      end.commands != [] ==> run.result.Done? || Interrupted(run.result)
  {
    var retired := RetireProof(w.(script := retire)).world;
    assert retired.proof.None?;
    hide RetireProof, IssueProof;
    ReadableThroughout(retired, ops);
    ComesThroughExactlyWhen(Play(retired, ops).(script := script), audience);
  }

  lemma UnreadableIsAnError(w: World, audience: string)
    requires Unreadable(w)
    ensures var run := IssueProof(w, audience);
      && !run.result.Done?
      && run.world == w.(script := run.world.script)
  {
  }

  /** A stored delegation that does not decode is never reissued: through any history of runs,
      rotations and releases it stays, and every onboard run fails, until a retirement. */
  lemma {:induction false} UnreadableUntilRetired(w: World, ops: seq<Op>, audience: string, script: seq<Fate>)
    requires Unreadable(w) && forall op | op in ops :: !MayTakeTheProof(op)
    ensures var end := Play(w, ops);
      && end.proof == w.proof && end.issued == w.issued
      && !IssueProof(end.(script := script), audience).result.Done?
    decreases |ops|
  {
    hide IssueProof;
    if ops == [] {
      UnreadableIsAnError(w.(script := script), audience);
    } else {
      if ops[0].OnboardOp? {
        UnreadableIsAnError(w.(script := ops[0].script), ops[0].audience);
      }
      assert ops[0] in ops;
      UnreadableUntilRetired(Step(w, ops[0]), ops[1..], audience, script);
    }
  }

  predicate RotatedUnstamped(w: World, ops: seq<Op>)
    decreases |ops|
  {
    ops != [] && ((ops[0].Rotate? && w.proof.Some? && w.stamp.None?) || RotatedUnstamped(Step(w, ops[0]), ops[1..]))
  }

  const ALL_SERVED := [Served, Served, Served, Served, Served]

  lemma FirstIssue(key: nat, commands: seq<string>, issued: nat, audience: string)
    requires audience != "" && commands != []
    ensures Step(World(None, None, key, commands, issued, []), OnboardOp(audience, ALL_SERVED))
      == World(Some(Delegation(issued, key, audience, commands, true)), Some(key), key, commands, issued + 1, [Served])
  {
    assert ALL_SERVED[1..] == [Served, Served, Served, Served];
    assert [Served, Served, Served, Served][1..] == [Served, Served, Served];
    assert [Served, Served, Served][1..] == [Served, Served];
    assert [Served, Served][1..] == [Served];
  }

  /** It takes no rotation while the stamp is missing: a rotation while the stamp is there,
      and then a retirement stopped after taking the stamp, leave the next onboard run to
      stamp the old key's delegation as the current key's and return it. */
  lemma RotationWhileStampedIsNotEnough(commands: seq<string>, audience: string)
    requires audience != "" && commands != []
    ensures var w := World(None, None, 0, commands, 0, []);
      var ops := [OnboardOp(audience, ALL_SERVED), Rotate, Clear(false, true)];
      var run := IssueProof(Play(w, ops).(script := ALL_SERVED), audience);
      && !RotatedUnstamped(w, ops)
      && run.result == Done(Delegation(0, 0, audience, commands, true))
      && run.world.stamp == Some(1) == Some(run.world.key)
  {
    var w := World(None, None, 0, commands, 0, []);
    var ops := [OnboardOp(audience, ALL_SERVED), Rotate, Clear(false, true)];
    FirstIssue(0, commands, 0, audience);
    var w1 := Step(w, ops[0]);
    var w2 := Step(w1, Rotate);
    var w3 := Step(w2, Clear(false, true));
    assert ops[1..] == [Rotate, Clear(false, true)] && [Rotate, Clear(false, true)][1..] == [Clear(false, true)];
    hide IssueProof;
    assert [Clear(false, true)][1..] == [];
    assert Play(w3, []) == w3;
    assert Play(w2, [Clear(false, true)]) == w3;
    assert Play(w1, [Rotate, Clear(false, true)]) == w3;
    StaleIsKept(w3.(script := ALL_SERVED), audience);
  }

  lemma StaleIsKept(w: World, audience: string)
    requires w.script == ALL_SERVED && w.proof.Some? && w.stamp.None? && w.proof.value.commands == w.commands
      && w.proof.value.readable
    ensures var run := IssueProof(w, audience);
      run.result == Done(w.proof.value) && run.world.stamp == Some(w.key) == Some(run.world.key)
  {
    MissingNothing(w.commands, w.commands);
    assert ALL_SERVED[1..] == [Served, Served, Served, Served];
    assert [Served, Served, Served, Served][1..] == [Served, Served, Served];
    assert [Served, Served, Served][1..] == [Served, Served];
  }

  // ---------- a region under another DID ----------

  predicate Asks(op: Op, audience: string) {
    op.OnboardOp? ==> op.audience == audience
  }

  predicate Names(w: World, audience: string) {
    w.proof.Some? ==> w.proof.value.audience == audience
  }

  lemma {:induction false} NamesStays(w: World, ops: seq<Op>, audience: string)
    requires Names(w, audience) && forall i | 0 <= i < |ops| :: Asks(ops[i], audience)
    ensures Names(Play(w, ops), audience)
    decreases |ops|
  {
    if ops != [] {
      assert Asks(ops[0], audience);
      if ops[0].OnboardOp? {
        hide IssueProof;
        IssueFacts(w.(script := ops[0].script), audience);
      }
      NamesStays(Step(w, ops[0]), ops[1..], audience);
    }
  }

  /** Whatever came before: once a retire-region run has come through and every later onboard
      asks for the new DID, an onboard run that comes through returns a delegation to it. */
  lemma RetirementRearmsTheIssuer(w: World, retire: seq<Fate>, ops: seq<Op>, audience: string, script: seq<Fate>)
    requires RetireProof(w.(script := retire)).result.Done?
    requires forall i | 0 <= i < |ops| :: Asks(ops[i], audience)
    ensures var end := Play(RetireProof(w.(script := retire)).world, ops);
      var run := IssueProof(end.(script := script), audience);
      run.result.Done? ==> run.result.value.audience == audience
  {
    var w1 := RetireProof(w.(script := retire)).world;
    assert w1.proof.None?;
    hide IssueProof, RetireProof;
    NamesStays(w1, ops, audience);
    IssueFacts(Play(w1, ops).(script := script), audience);
  }
}
