/** The move of one key out of the parameter store, by any number of overlapping seed runs. */
module KeyCustody {
  import opened Outcomes

  /** One key: the parameters it replaces, itself first, and how its public half derives from it. */
  datatype KeySpec = KeySpec(legacyNames: seq<string>, derive: string -> Option<string>)

  type Spec = s: KeySpec | s.legacyNames != [] witness KeySpec(["identity"], (v: string) => None)

  /** What the two stores hold of the key, and the public record of it. */
  datatype Store = Store(secret: Option<string>, legacy: map<string, string>, record: Option<string>)

  /** Where one seed run stands with this key. */
  datatype Run =
    | Start
    | LookedUp(secret: Option<string>)
    | Checking(legacy: string)
    | Creating(value: string, copying: bool)
    | Rereading(value: string, copying: bool)
    | Returned(value: string, created: bool, moved: bool)
    | Probing(value: string, probed: nat, present: seq<string>)
    | Deleting(value: string, rest: seq<string>)
    | Finished(value: string, created: bool)
    | Differs
    | Mismatched
    | Aborted

  datatype State = State(store: Store, runs: seq<Run>)

  /** Run `who` makes its next call. `minted` is what the generator would mint. */
  datatype Event = Event(who: nat, fate: Fate, minted: string)

  function Legacy(st: Store, spec: Spec): Option<string> {
    if spec.legacyNames[0] in st.legacy then Some(st.legacy[spec.legacyNames[0]]) else None
  }

  // ---------- one call of one run ----------

  /** ensureKey's case analysis, once both stores have been read. */
  function Choose(secret: Option<string>, legacy: Option<string>, minted: string): Run {
    match (secret, legacy)
    case (Some(s), Some(l)) => if s == l then Returned(s, false, true) else Differs
    case (Some(s), None) => Returned(s, false, false)
    case (None, Some(l)) => Checking(l)
    case (None, None) => Creating(minted, false)
  }

  /** checkPublicRecord. */
  function Check(spec: Spec, record: Option<string>, legacy: string): Run {
    if record.Some? && spec.derive(legacy) == record then Creating(legacy, true) else Mismatched
  }

  /** Create reads back whatever beat it. */
  function Reread(secret: Option<string>, value: string, copying: bool): Run {
    match secret
    case None => Aborted
    case Some(s) => if copying && s != value then Differs else Returned(s, false, copying)
  }

  function Batch(names: seq<string>): nat {
    if |names| < 10 then |names| else 10
  }

  function Serve(spec: Spec, st: Store, run: Run, minted: string): (Store, Run) {
    match run
    case Start => (st, LookedUp(st.secret))
    case LookedUp(secret) => (st, Choose(secret, Legacy(st, spec), minted))
    case Checking(legacy) => (st, Check(spec, st.record, legacy))
    case Creating(value, copying) =>
      if st.secret.None? then (st.(secret := Some(value)), Returned(value, !copying, copying))
      else (st, Rereading(value, copying))
    case Rereading(value, copying) => (st, Reread(st.secret, value, copying))
    case Returned(value, created, moved) =>
      // The rest of the phase publishes the record, and only then are the copies deleted.
      if spec.derive(value).None? then (st, Aborted) else
      (st.(record := if created || st.record.None? then spec.derive(value) else st.record),
       if moved then Probing(value, 0, []) else Finished(value, created))
    case Probing(value, probed, present) =>
      if probed < |spec.legacyNames| then
        var name := spec.legacyNames[probed];
        (st, Probing(value, probed + 1, if name in st.legacy then present + [name] else present))
      else (st, Deleting(value, present))
    case Deleting(value, rest) =>
      if rest == [] then (st, Finished(value, false))
      else (st.(legacy := st.legacy - (set n | n in rest[..Batch(rest)])), Deleting(value, rest[Batch(rest)..]))
    case _ => (st, run)
  }

  function Step(spec: Spec, s: State, e: Event): State {
    if e.who >= |s.runs| then s else
    match e.fate
    case Served =>
      var (st, run) := Serve(spec, s.store, s.runs[e.who], e.minted);
      State(st, s.runs[e.who := run])
    case _ => s.(runs := s.runs[e.who := Aborted])
  }

  function Play(spec: Spec, s: State, events: seq<Event>): State
    decreases |events|
  {
    if events == [] then s else Play(spec, Step(spec, s, events[0]), events[1..])
  }

  // ---------- what every call keeps ----------

  /** How the stores may change: a secret stays as it is, of the parameters only the key's own
      copies go, its first one only once the secret holds its value, and a public record stays
      or becomes what the key derives. */
  predicate Evolves(spec: Spec, a: Store, b: Store) {
    && (a.secret.Some? ==> b.secret == a.secret)
    && (forall name | name in b.legacy :: name in a.legacy && b.legacy[name] == a.legacy[name])
    && (forall name | name in a.legacy && name !in spec.legacyNames :: name in b.legacy)
    && (b.record == a.record || (b.secret.Some? && b.record.Some? && b.record == spec.derive(b.secret.value)))
    && (Legacy(a, spec).Some? && Legacy(b, spec).None? ==> b.secret == Legacy(a, spec))
    && (Legacy(a, spec).Some? && a.secret.None? && b.secret.Some? ==> b.secret == Legacy(a, spec))
  }

  predicate Consistent(spec: Spec, st: Store) {
    st.secret.Some? && Legacy(st, spec).Some? ==> st.secret == Legacy(st, spec)
  }

  /** The key's value, wherever it is. */
  function Value(spec: Spec, st: Store): Option<string> {
    if st.secret.Some? then st.secret else Legacy(st, spec)
  }

  /** A public record is there. */
  predicate Published(st: Store) {
    st.record.Some?
  }

  /** The public record, if there is one, is what the key derives. */
  predicate RecordTrue(spec: Spec, st: Store) {
    st.record.Some? ==> Value(spec, st).Some? && st.record == spec.derive(Value(spec, st).value)
  }

  predicate OwnNames(spec: Spec, names: seq<string>) {
    forall name | name in names :: name in spec.legacyNames
  }

  /** What a run has learned is still so. */
  predicate Sound(spec: Spec, st: Store, run: Run) {
    match run
    case LookedUp(secret) => secret.Some? ==> st.secret == secret
    case Checking(legacy) => Value(spec, st) == Some(legacy)
    case Creating(value, copying) =>
      if copying then Value(spec, st) == Some(value) else Legacy(st, spec).None? || st.secret.Some?
    case Rereading(value, copying) => st.secret.Some? && (copying ==> st.secret.value == value)
    case Returned(value, _, _) => st.secret == Some(value)
    case Probing(value, _, present) => st.secret == Some(value) && Published(st) && OwnNames(spec, present)
    case Deleting(value, rest) => st.secret == Some(value) && Published(st) && OwnNames(spec, rest)
    case Finished(value, _) => st.secret == Some(value) && Published(st)
    case Differs => false
    case _ => true
  }

  ghost predicate Inv(spec: Spec, s: State) {
    && Consistent(spec, s.store)
    && forall i | 0 <= i < |s.runs| :: Sound(spec, s.store, s.runs[i])
  }

  lemma ServeKeeps(spec: Spec, st: Store, run: Run, minted: string)
    requires Consistent(spec, st) && Sound(spec, st, run)
    ensures var (st', run') := Serve(spec, st, run, minted);
      && Consistent(spec, st') && Sound(spec, st', run') && Evolves(spec, st, st')
      && (RecordTrue(spec, st) ==> RecordTrue(spec, st'))
  {
    match run
    case Probing(value, probed, present) =>
      if probed < |spec.legacyNames| {
        assert spec.legacyNames[probed] in spec.legacyNames;
      }
    case Deleting(value, rest) =>
      var batch := Batch(rest);
      assert rest == rest[..batch] + rest[batch..];
    case _ =>
  }

  lemma SoundStays(spec: Spec, a: Store, b: Store, run: Run)
    requires Consistent(spec, a) && Evolves(spec, a, b) && Sound(spec, a, run)
    ensures Sound(spec, b, run)
  {
  }

  /** The run minted the key and knows it. */
  predicate Minted(run: Run) {
    (run.Returned? || run.Finished?) && run.created
  }

  /** No two runs minted the key, and none did while no secret is stored. */
  ghost predicate MintedOnce(s: State) {
    && (forall i | 0 <= i < |s.runs| && Minted(s.runs[i]) :: s.store.secret.Some?)
    && (forall i, j | 0 <= i < j < |s.runs| :: !(Minted(s.runs[i]) && Minted(s.runs[j])))
  }

  lemma StepKeeps(spec: Spec, s: State, e: Event)
    requires Inv(spec, s) && MintedOnce(s)
    ensures var s' := Step(spec, s, e);
      && Inv(spec, s') && MintedOnce(s') && Evolves(spec, s.store, s'.store) && |s'.runs| == |s.runs|
      && (RecordTrue(spec, s.store) ==> RecordTrue(spec, s'.store))
  {
    var s' := Step(spec, s, e);
    if e.who < |s.runs| && e.fate.Served? {
      ServeKeeps(spec, s.store, s.runs[e.who], e.minted);
      forall i | 0 <= i < |s.runs| ensures Sound(spec, s'.store, s'.runs[i]) {
        if i != e.who {
          SoundStays(spec, s.store, s'.store, s.runs[i]);
        }
      }
    }
  }

  lemma EvolvesOn(spec: Spec, a: Store, b: Store, c: Store)
    requires Evolves(spec, a, b) && Evolves(spec, b, c)
    ensures Evolves(spec, a, c)
  {
  }

  lemma {:induction false} PlayKeeps(spec: Spec, s: State, events: seq<Event>)
    requires Inv(spec, s) && MintedOnce(s)
    ensures var s' := Play(spec, s, events);
      && Inv(spec, s') && MintedOnce(s') && Evolves(spec, s.store, s'.store) && |s'.runs| == |s.runs|
      && (RecordTrue(spec, s.store) ==> RecordTrue(spec, s'.store))
    decreases |events|
  {
    if events != [] {
      var s1 := Step(spec, s, events[0]);
      StepKeeps(spec, s, events[0]);
      PlayKeeps(spec, s1, events[1..]);
      EvolvesOn(spec, s.store, s1.store, Play(spec, s1, events[1..]).store);
    }
  }

  /** Seed runs that have not begun, over stores that do not already disagree. */
  ghost predicate Beginning(spec: Spec, s: State) {
    Consistent(spec, s.store) && forall i | 0 <= i < |s.runs| :: s.runs[i] == Start
  }

  /** A key's first value is its value for ever. From any beginning, through any
      interleaving of any number of runs, each of which may fail or stop at any call:
      once the key exists it is in one of the stores with that value, a copy in the
      parameter store has gone only if the secret holds what the copy held, parameters of
      other names stay, every run that came through has that value, no two runs minted it,
      and no run ever found the stores differing. A public record that is the key's stays
      so, and there is one once any run has gone on from publishing. */
  lemma KeyNeverLostOrChanged(spec: Spec, s: State, before: seq<Event>, after: seq<Event>)
    requires Beginning(spec, s)
    ensures var mid := Play(spec, s, before);
      var end := Play(spec, mid, after);
      && (Value(spec, mid.store).Some? ==> Value(spec, end.store) == Value(spec, mid.store))
      && (Legacy(mid.store, spec).Some? && Legacy(end.store, spec).None? ==>
          end.store.secret == Legacy(mid.store, spec))
      && (forall name | name in mid.store.legacy && name !in spec.legacyNames ::
            name in end.store.legacy && end.store.legacy[name] == mid.store.legacy[name])
      && (forall i | 0 <= i < |end.runs| && (end.runs[i].Returned? || end.runs[i].Finished?) ::
            end.store.secret == Some(end.runs[i].value))
      && (RecordTrue(spec, s.store) ==> RecordTrue(spec, end.store))
      && (forall i | 0 <= i < |end.runs| && (end.runs[i].Probing? || end.runs[i].Deleting? || end.runs[i].Finished?) ::
            Published(end.store))
      && (forall i, j | 0 <= i < j < |end.runs| :: !(Minted(end.runs[i]) && Minted(end.runs[j])))
      && Differs !in end.runs
  {
    PlayKeeps(spec, s, before);
    PlayKeeps(spec, Play(spec, s, before), after);
    var end := Play(spec, Play(spec, s, before), after);
    forall i | 0 <= i < |end.runs|
      ensures end.runs[i] != Differs
      ensures end.runs[i].Probing? || end.runs[i].Deleting? || end.runs[i].Finished? ==> Published(end.store)
    {
      assert Sound(spec, end.store, end.runs[i]);
    }
  }

  predicate FindsDifference(spec: Spec, s: State, events: seq<Event>) {
    Differs in Play(spec, s, events).runs
  }

  /** The error that the stores differ is out of reach exactly when they agree to begin with. */
  lemma DiffersExactlyWhenInconsistent(spec: Spec, s: State)
    requires |s.runs| > 0 && forall i | 0 <= i < |s.runs| :: s.runs[i] == Start
    ensures (exists events :: FindsDifference(spec, s, events)) <==> !Consistent(spec, s.store)
  {
    if Consistent(spec, s.store) {
      forall events ensures !FindsDifference(spec, s, events) {
        KeyNeverLostOrChanged(spec, s, [], events);
      }
    } else {
      var e := Event(0, Served, "");
      var s1, s2 := Step(spec, s, e), Step(spec, Step(spec, s, e), e);
      assert s2.runs[0] == Differs;
      assert [e, e][1..] == [e] && [e][1..] == [];
      assert Play(spec, s1, [e]) == s2;
      assert Play(spec, s, [e, e]) == s2;
      assert FindsDifference(spec, s, [e, e]);
    }
  }
}
