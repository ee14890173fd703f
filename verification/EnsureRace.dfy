/** Create-if-absent, as both stores' Ensure does it: read, and if nothing is there,
    write on condition that nothing is there still, and read back whatever won. */
module EnsureRace {
  import opened Outcomes

  datatype Run =
    | Start
    | Absent(candidate: string)
    | Beaten
    | Got(value: string, created: bool)
    | Aborted

  datatype State = State(stored: Option<string>, runs: seq<Run>)

  /** Run `who` makes its next call. `generated` is what its generator would return. */
  datatype Event = Event(who: nat, fate: Fate, generated: string)

  predicate Over(run: Run) {
    run.Got? || run.Aborted?
  }

  function Step(s: State, e: Event): State {
    if e.who >= |s.runs| || Over(s.runs[e.who]) then s
    else if !e.fate.Served? then s.(runs := s.runs[e.who := Aborted])
    else
      match s.runs[e.who]
      case Start =>
        s.(runs := s.runs[e.who := if s.stored.Some? then Got(s.stored.value, false) else Absent(e.generated)])
      case Absent(candidate) =>
        if s.stored.None? then State(Some(candidate), s.runs[e.who := Got(candidate, true)])
        else s.(runs := s.runs[e.who := Beaten])
      case Beaten =>
        s.(runs := s.runs[e.who := if s.stored.Some? then Got(s.stored.value, false) else Aborted])
      case _ => s
  }

  function Play(s: State, events: seq<Event>): State
    decreases |events|
  {
    if events == [] then s else Play(Step(s, events[0]), events[1..])
  }

  predicate Created(run: Run) {
    run.Got? && run.created
  }

  /** `first` is the value present before any run began. */
  ghost predicate Inv(s: State, first: Option<string>) {
    && (first.Some? ==> s.stored == first)
    && (forall i | 0 <= i < |s.runs| :: s.runs[i].Got? ==> s.stored == Some(s.runs[i].value))
    && (forall i, j | 0 <= i < j < |s.runs| :: !(Created(s.runs[i]) && Created(s.runs[j])))
    && ((exists i | 0 <= i < |s.runs| :: Created(s.runs[i])) <==> first.None? && s.stored.Some?)
  }

  lemma StepKeeps(s: State, e: Event, first: Option<string>)
    requires Inv(s, first)
    ensures Inv(Step(s, e), first)
    ensures s.stored.Some? ==> Step(s, e).stored == s.stored
  {
    var s' := Step(s, e);
    if exists i | 0 <= i < |s.runs| :: Created(s.runs[i]) {
      var i :| 0 <= i < |s.runs| && Created(s.runs[i]);
      assert Created(s'.runs[i]);
    } else if s'.stored != s.stored {
      assert Created(s'.runs[e.who]);
    }
  }

  lemma {:induction false} PlayKeeps(s: State, events: seq<Event>, first: Option<string>)
    requires Inv(s, first)
    ensures Inv(Play(s, events), first)
    ensures s.stored.Some? ==> Play(s, events).stored == s.stored
    decreases |events|
  {
    if events != [] {
      StepKeeps(s, events[0], first);
      PlayKeeps(Step(s, events[0]), events[1..], first);
    }
  }

  /** Any number of concurrent calls, interleaved in any way: a value there at the start
      is never replaced, all that come back have the same value, the stored one, and one
      run reports that it created it exactly when the value was not there at the start
      and is now. */
  lemma OneWinner(s: State, events: seq<Event>)
    requires forall i | 0 <= i < |s.runs| :: s.runs[i] == Start
    ensures var end := Play(s, events);
      && (s.stored.Some? ==> end.stored == s.stored)
      && (forall i | 0 <= i < |end.runs| && end.runs[i].Got? :: end.stored == Some(end.runs[i].value))
      && ((exists i | 0 <= i < |end.runs| :: Created(end.runs[i])) <==> s.stored.None? && end.stored.Some?)
      && (forall i, j | 0 <= i < j < |end.runs| :: !(Created(end.runs[i]) && Created(end.runs[j])))
  {
    PlayKeeps(s, events, s.stored);
  }
}
