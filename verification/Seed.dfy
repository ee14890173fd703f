/** The seed phase: keys and their public records, the startup proofs they sign, and shared
    secrets, each ensured in turn. */
module Seed {
  import opened Outcomes

  /** What the stores hold of one key: the secret, the copy it may still have in the parameter
      store, its published record, and its copy in multibase. */
  datatype KeyState = KeyState(secret: Option<string>, copy: Option<string>,
                               record: Option<string>, multibase: Option<string>)

  /** A key: what its record derives from it, when it parses, and its multibase form if it has one. */
  datatype KeySpec = KeySpec(id: string, derive: string -> Option<string>, multibase: Option<string -> string>)

  /** A startup proof and the identity that signs it. */
  datatype ProofSpec = ProofSpec(name: string, issuer: string)

  /** A stored proof: the key that signed it. No two signings give the same proof. */
  datatype Signed = Signed(signer: string, nonce: string)

  datatype Stage = Stage(identities: seq<KeySpec>, proofs: seq<ProofSpec>, wallets: seq<KeySpec>, shared: seq<string>)

  /** The environment's part in one call; `minted` is what a generator would come up with. */
  datatype Event = Event(fate: Fate, minted: string)

  datatype World = World(keys: map<string, KeyState>, proofs: map<string, Signed>,
                         shared: map<string, string>, script: seq<Event>)

  function At(w: World, id: string): KeyState {
    if id in w.keys then w.keys[id] else KeyState(None, None, None, None)
  }

  // ---------- one key ----------

  /** One key's part of the world. */
  datatype Local = Local(key: KeyState, script: seq<Event>)

  function Call(l: Local): (Local, Event) {
    if l.script == [] then (l, Event(Cut, "")) else (l.(script := l.script[1..]), l.script[0])
  }

  function Ask(l: Local): Run<Local, ()> {
    var (l, e) := Call(l);
    Reply(e.fate, l, l, ())
  }

  function Write(l: Local, key: KeyState): Run<Local, ()> {
    var (l, e) := Call(l);
    Reply(e.fate, l, l.(key := key), ())
  }

  /** A generated value is stored as the secret. */
  function Mint(l: Local): Run<Local, string> {
    var (l, e) := Call(l);
    Reply(e.fate, l, l.(key := l.key.(secret := Some(e.minted))), e.minted)
  }

  datatype Ensured = Ensured(value: string, created: bool, moved: bool)

  /** A copy alone is checked against the public record and stored as the secret. */
  function Move(l: Local, spec: KeySpec, copy: string): Run<Local, Ensured> {
    var (l, _) :- Ask(l);
    if l.key.record.None? || spec.derive(copy) != l.key.record then Run(l, Failed(None, Declined))
    else
      var (l, _) :- Write(l, l.key.(secret := Some(copy)));
      Run(l, Done(Ensured(copy, false, true)))
  }

  function EnsureKey(l: Local, spec: KeySpec): Run<Local, Ensured> {
    var (l, _) :- Ask(l);
    var (l, _) :- Ask(l);
    match (l.key.secret, l.key.copy)
    case (Some(s), Some(c)) => if s == c then Run(l, Done(Ensured(s, false, true))) else Run(l, Failed(None, Declined))
    case (Some(s), None) => Run(l, Done(Ensured(s, false, false)))
    case (None, Some(c)) => Move(l, spec, c)
    case (None, None) =>
      var (l, minted) :- Mint(l);
      Run(l, Done(Ensured(minted, true, false)))
  }

  /** PutIfChanged: a copy that is right already is not written again. */
  function PutMultibase(l: Local, value: string): Run<Local, ()> {
    var (l, _) :- Ask(l);
    if l.key.multibase == Some(value) then Run(l, Done(()))
    else Write(l, l.key.(multibase := Some(value)))
  }

  /** A key minted in this run replaces the record; any other leaves one that is there. */
  function Publish(l: Local, derived: string, created: bool): Run<Local, ()> {
    if created then Write(l, l.key.(record := Some(derived)))
    else
      var (l, _) :- Ask(l);
      if l.key.record.Some? then Run(l, Done(())) else Write(l, l.key.(record := Some(derived)))
  }

  function Copy(l: Local, spec: KeySpec, value: string): Run<Local, ()> {
    if spec.multibase.None? then Run(l, Done(())) else PutMultibase(l, spec.multibase.value(value))
  }

  function SeedKey(l: Local, spec: KeySpec): Run<Local, Ensured> {
    var (l, ensured) :- EnsureKey(l, spec);
    var derived := spec.derive(ensured.value);
    if derived.None? then Run(l, Failed(None, Declined)) else
    var (l, _) :- Copy(l, spec, ensured.value);
    var (l, _) :- Publish(l, derived.value, ensured.created);
    Run(l, Done(ensured))
  }

  // ---------- the phase ----------

  /** The keys minted in this run, all it has created, and the keys whose copies are to go. */
  datatype Progress = Progress(minted: set<string>, created: seq<string>, moved: seq<string>)

  function Noted(p: Progress, id: string, ensured: Ensured): Progress {
    Progress(if ensured.created then p.minted + {id} else p.minted,
             if ensured.created then p.created + [id] else p.created,
             if ensured.moved then p.moved + [id] else p.moved)
  }

  function Put(w: World, id: string, l: Local): World {
    w.(keys := w.keys[id := l.key], script := l.script)
  }

  function SeedOne(w: World, spec: KeySpec, p: Progress): Run<World, Progress> {
    var run := SeedKey(Local(At(w, spec.id), w.script), spec);
    var w := Put(w, spec.id, run.world);
    if run.IsFailure() then Run(w, run.result.PropagateFailure())
    else Run(w, Done(Noted(p, spec.id, run.result.value)))
  }

  function SeedKeys(w: World, specs: seq<KeySpec>, p: Progress): Run<World, Progress>
    decreases |specs|
  {
    if specs == [] then Run(w, Done(p)) else
    var (w, p) :- SeedOne(w, specs[0], p);
    SeedKeys(w, specs[1..], p)
  }

  function WorldCall(w: World): (World, Event) {
    if w.script == [] then (w, Event(Cut, "")) else (w.(script := w.script[1..]), w.script[0])
  }

  function WorldAsk(w: World): Run<World, ()> {
    var (w, e) := WorldCall(w);
    Reply(e.fate, w, w, ())
  }

  /** Reads the issuer's key, signs, and stores the proof. */
  function IssueProof(w: World, spec: ProofSpec): Run<World, ()> {
    var (w, _) :- WorldAsk(w);
    var key := At(w, spec.issuer).secret;
    if key.None? then Run(w, Failed(None, Rejected)) else
    var (w, e) := WorldCall(w);
    Reply(e.fate, w, w.(proofs := w.proofs[spec.name := Signed(key.value, e.minted)]), ())
  }

  /** Whether the stored proof stays: there is one, and this run did not mint its issuer. */
  function KeepsProof(w: World, spec: ProofSpec, p: Progress): Run<World, bool> {
    if spec.issuer in p.minted then Run(w, Done(false)) else
    var (w, _) :- WorldAsk(w);
    Run(w, Done(spec.name in w.proofs))
  }

  function SeedProof(w: World, spec: ProofSpec, p: Progress): Run<World, Progress> {
    var (w, keep) :- KeepsProof(w, spec, p);
    if keep then Run(w, Done(p)) else
    var (w, _) :- IssueProof(w, spec);
    Run(w, Done(p.(created := p.created + [spec.name])))
  }

  function SeedProofs(w: World, specs: seq<ProofSpec>, p: Progress): Run<World, Progress>
    decreases |specs|
  {
    if specs == [] then Run(w, Done(p)) else
    var (w, p) :- SeedProof(w, specs[0], p);
    SeedProofs(w, specs[1..], p)
  }

  /** EnsureSecret on a shared secret: whether this run created it. */
  function EnsureShared(w: World, name: string): Run<World, bool> {
    var (w, _) :- WorldAsk(w);
    if name in w.shared then Run(w, Done(false)) else
    var (w, e) := WorldCall(w);
    Reply(e.fate, w, w.(shared := w.shared[name := e.minted]), true)
  }

  function SeedShared(w: World, names: seq<string>, p: Progress): Run<World, Progress>
    decreases |names|
  {
    if names == [] then Run(w, Done(p)) else
    var (w, created) :- EnsureShared(w, names[0]);
    SeedShared(w, names[1..], if created then p.(created := p.created + [names[0]]) else p)
  }

  /** A key's copies are probed for, and those there go in one call. */
  function DeleteCopies(w: World, id: string): Run<World, ()> {
    var (w, _) :- WorldAsk(w);
    if At(w, id).copy.None? then Run(w, Done(())) else
    var (w, e) := WorldCall(w);
    Reply(e.fate, w, w.(keys := w.keys[id := At(w, id).(copy := None)]), ())
  }

  function DeleteMoved(w: World, ids: seq<string>): Run<World, ()>
    decreases |ids|
  {
    if ids == [] then Run(w, Done(())) else
    var (w, _) :- DeleteCopies(w, ids[0]);
    DeleteMoved(w, ids[1..])
  }

  function SeedRest(w: World, stage: Stage, p: Progress): Run<World, Progress> {
    var (w, p) :- SeedProofs(w, stage.proofs, p);
    SeedKeys(w, stage.wallets, p)
  }

  /** The identities, the proofs they sign, and the wallets. */
  function SeedAll(w: World, stage: Stage): Run<World, Progress> {
    var (w, p) :- SeedKeys(w, stage.identities, Progress({}, [], []));
    SeedRest(w, stage, p)
  }

  /** Databases and connection strings come between the shared secrets and the deletion. A
      run that comes through reports what it has created. */
  function SeedLast(w: World, stage: Stage, p: Progress): Run<World, seq<string>> {
    var (w, p) :- SeedShared(w, stage.shared, p);
    var (w, _) :- WorldAsk(w);
    var (w, _) :- DeleteMoved(w, p.moved);
    Run(w, Done(p.created))
  }

  function SeedRun(w: World, stage: Stage): Run<World, seq<string>> {
    var (w, p) :- SeedAll(w, stage);
    SeedLast(w, stage, p)
  }
}
