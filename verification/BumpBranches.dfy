/** Bump branches: publishes force-push them, refresh runs rebuild or delete them under a
    lease, and merges take those that are up to date, all at once on one repository. */
module BumpBranches {
  import opened Outcomes

  /** What a commit on main holds: the digest each service is pinned at, and all the rest. */
  datatype Tree = Tree(pins: map<string, string>, rest: string)

  /** The commit a bump branch points at. It is main's commit `base` with one pin replaced;
      `from` is the commit that the digest's publish was built from, which rebuilds carry
      along. No two pushes make the same commit. */
  datatype Branch = Branch(id: nat, base: nat, from: nat, digest: string)

  /** main only grows. `next` is the commit that the next push will make. */
  datatype Repo = Repo(main: seq<Tree>, branches: map<string, Branch>, next: nat)

  /** What a refresh run's work tree last fetched: main's tip then, and the branches. */
  datatype Clone = Clone(main: nat, seen: map<string, Branch>)

  datatype State = State(repo: Repo, clones: seq<Clone>)

  // ---------- a refresh run's part ----------

  datatype Decision = Unseen | Current | Unpinned | Supersede | LeaveAlone | Rebuild

  /** What a run makes of one branch, from what it has fetched. A branch that does not have
      the fetched main below it was built from an older commit, its base. */
  function Decide(main: seq<Tree>, clone: Clone, service: string): Decision
    requires clone.main < |main| && forall s | s in clone.seen :: clone.seen[s].base < |main|
  {
    if service !in clone.seen then Unseen
    else
      var branch := clone.seen[service];
      var pins := main[clone.main].pins;
      if clone.main <= branch.base then Current
      else if service !in pins then Unpinned
      else if pins[service] == branch.digest then Supersede
      else if service !in main[branch.base].pins || main[branch.base].pins[service] != pins[service] then LeaveAlone
      else Rebuild
  }

  /** The remote takes a push with a lease only while the branch is still the commit that
      the run has seen. */
  predicate Leased(repo: Repo, clone: Clone, service: string) {
    service in clone.seen && service in repo.branches && repo.branches[service].id == clone.seen[service].id
  }

  /** The leased push that a decision leads to, if any. */
  function Push(repo: Repo, clone: Clone, service: string): Repo
    requires clone.main < |repo.main| && forall s | s in clone.seen :: clone.seen[s].base < |repo.main|
  {
    if !Leased(repo, clone, service) then repo
    else
      match Decide(repo.main, clone, service)
      case Supersede => repo.(branches := repo.branches - {service})
      case Rebuild =>
        var seen := clone.seen[service];
        repo.(branches := repo.branches[service := Branch(repo.next, clone.main, seen.from, seen.digest)],
              next := repo.next + 1)
      case _ => repo
  }

  // ---------- everybody's part ----------

  /** A publish, built from main's commit `checkout`, which may be behind; a merge, after
      which the branch may be deleted; any other commit to main; and what refresh runs do:
      fetch everything, fetch one branch again, act on one branch. */
  datatype Event =
    | Publish(service: string, checkout: nat, digest: string)
    | Merge(service: string, delete: bool)
    | Commit(tree: Tree)
    | Fetch(who: nat)
    | Refetch(who: nat, service: string)
    | Act(who: nat, service: string)

  /** A publish that changes nothing pushes nothing. */
  predicate Publishes(repo: Repo, service: string, checkout: nat, digest: string) {
    checkout < |repo.main| && service in repo.main[checkout].pins && repo.main[checkout].pins[service] != digest
  }

  /** The ruleset takes a branch that is up to date, and no other. */
  predicate Mergeable(repo: Repo, service: string) {
    service in repo.branches && repo.branches[service].base + 1 == |repo.main|
  }

  function Pinned(tree: Tree, service: string, digest: string): Tree {
    tree.(pins := tree.pins[service := digest])
  }

  /** A squash merge puts the branch's tree on main. */
  function Merged(repo: Repo, service: string, delete: bool): Repo
    requires Mergeable(repo, service)
  {
    var branch := repo.branches[service];
    repo.(main := repo.main + [Pinned(repo.main[branch.base], service, branch.digest)],
          branches := if delete then repo.branches - {service} else repo.branches)
  }

  function Step(st: State, e: Event): State
    requires Inv(st)
  {
    match e
    case Publish(service, checkout, digest) =>
      if !Publishes(st.repo, service, checkout, digest) then st
      else
        var branch := Branch(st.repo.next, checkout, checkout, digest);
        st.(repo := st.repo.(branches := st.repo.branches[service := branch], next := st.repo.next + 1))
    case Merge(service, delete) =>
      if Mergeable(st.repo, service) then st.(repo := Merged(st.repo, service, delete)) else st
    case Commit(tree) => st.(repo := st.repo.(main := st.repo.main + [tree]))
    case Fetch(who) =>
      if who >= |st.clones| then st
      else st.(clones := st.clones[who := Clone(|st.repo.main| - 1, st.repo.branches)])
    case Refetch(who, service) =>
      if who >= |st.clones| || service !in st.repo.branches then st
      else
        var clone := st.clones[who];
        st.(clones := st.clones[who := clone.(seen := clone.seen[service := st.repo.branches[service]])])
    case Act(who, service) =>
      if who >= |st.clones| then st
      else
        assert KnownClone(st.repo, st.clones[who]);
        st.(repo := Push(st.repo, st.clones[who], service))
  }

  // ---------- what every step keeps ----------

  /** A branch was built on main, over the very pin its publish was built over, and asks for
      another. */
  predicate Sound(repo: Repo, service: string, branch: Branch) {
    && branch.from <= branch.base < |repo.main|
    && branch.id < repo.next
    && service in repo.main[branch.base].pins
    && service in repo.main[branch.from].pins
    && repo.main[branch.base].pins[service] == repo.main[branch.from].pins[service] != branch.digest
  }

  /** A run's copy of a branch was sound, and the commit it names is still what it was. */
  predicate Known(repo: Repo, service: string, branch: Branch) {
    && Sound(repo, service, branch)
    && (service in repo.branches && repo.branches[service].id == branch.id ==> repo.branches[service] == branch)
  }

  ghost predicate KnownClone(repo: Repo, clone: Clone) {
    clone.main < |repo.main| && forall s | s in clone.seen :: Known(repo, s, clone.seen[s])
  }

  ghost predicate SoundRepo(repo: Repo) {
    repo.main != [] && forall s | s in repo.branches :: Sound(repo, s, repo.branches[s])
  }

  ghost predicate Inv(st: State) {
    SoundRepo(st.repo) && forall i | 0 <= i < |st.clones| :: KnownClone(st.repo, st.clones[i])
  }

  /** How the repository may change: main grows, and a branch is the commit it was or a new one. */
  ghost predicate Evolves(a: Repo, b: Repo) {
    && a.main <= b.main && a.next <= b.next
    && forall s | s in b.branches :: (s in a.branches && b.branches[s] == a.branches[s]) || b.branches[s].id >= a.next
  }

  lemma EvolvesSame(a: Repo)
    ensures Evolves(a, a)
  {
  }

  lemma EvolvesOn(a: Repo, b: Repo, c: Repo)
    requires Evolves(a, b) && Evolves(b, c)
    ensures Evolves(a, c)
  {
  }

  lemma KnownStays(a: Repo, b: Repo, clone: Clone)
    requires Evolves(a, b) && KnownClone(a, clone)
    ensures KnownClone(b, clone)
  {
    forall s | s in clone.seen ensures Known(b, s, clone.seen[s]) {
      assert Known(a, s, clone.seen[s]);
    }
  }

  /** Whatever a run's copy says, its push leaves the repository sound. */
  lemma PushKeeps(repo: Repo, clone: Clone, service: string)
    requires SoundRepo(repo) && KnownClone(repo, clone)
    ensures SoundRepo(Push(repo, clone, service)) && Evolves(repo, Push(repo, clone, service))
  {
    var after := Push(repo, clone, service);
    if Leased(repo, clone, service) {
      assert Known(repo, service, clone.seen[service]);
      RebuiltIsSound(repo, clone, service);
    }
    hide Decide;
    forall s | s in after.branches ensures Sound(after, s, after.branches[s]) {
      if s != service {
        assert Sound(repo, s, repo.branches[s]);
      }
    }
  }

  /** A rebuild moves to a base with the pin of the one before. */
  lemma RebuiltIsSound(repo: Repo, clone: Clone, service: string)
    requires KnownClone(repo, clone) && Leased(repo, clone, service)
    requires Sound(repo, service, clone.seen[service])
    ensures Decide(repo.main, clone, service).Rebuild? ==>
      var seen := clone.seen[service];
      Sound(repo.(next := repo.next + 1), service, Branch(repo.next, clone.main, seen.from, seen.digest))
  {
  }

  lemma RepoKeeps(st: State, e: Event)
    requires Inv(st)
    ensures SoundRepo(Step(st, e).repo) && Evolves(st.repo, Step(st, e).repo)
  {
    if e.Act? {
      hide Push;
      if e.who < |st.clones| {
        PushKeeps(st.repo, st.clones[e.who], e.service);
      }
    } else {
      var after := Step(st, e).repo;
      forall s | s in after.branches ensures Sound(after, s, after.branches[s]) {
        if s in st.repo.branches {
          assert Sound(st.repo, s, st.repo.branches[s]);
        }
      }
    }
  }

  lemma StepKeeps(st: State, e: Event)
    requires Inv(st)
    ensures Inv(Step(st, e))
  {
    RepoKeeps(st, e);
    var st' := Step(st, e);
    forall i | 0 <= i < |st'.clones| ensures KnownClone(st'.repo, st'.clones[i]) {
      if st'.clones[i] == st.clones[i] {
        KnownStays(st.repo, st'.repo, st.clones[i]);
      } else {
        assert KnownClone(st.repo, st.clones[i]);
      }
    }
  }

  function Play(st: State, events: seq<Event>): (end: State)
    requires Inv(st)
    ensures Inv(end)
    decreases |events|
  {
    if events == [] then st else
    StepKeeps(st, events[0]);
    Play(Step(st, events[0]), events[1..])
  }

  /** Where it all begins: a main with something on it, no bump branches, and work trees that
      have fetched nothing but main. */
  ghost predicate Beginning(st: State) {
    && st.repo.main != [] && st.repo.branches == map[]
    && forall i | 0 <= i < |st.clones| :: st.clones[i].main < |st.repo.main| && st.clones[i].seen == map[]
  }

  // ---------- a merge replaces the pin that its publish was built over ----------

  /** The last publish of the service that pushed anything: the commit it was built from,
      and its digest. */
  ghost function LastPublish(st: State, events: seq<Event>, service: string, last: Option<(nat, string)>)
    : Option<(nat, string)>
    requires Inv(st)
    decreases |events|
  {
    if events == [] then last else
    StepKeeps(st, events[0]);
    LastPublish(Step(st, events[0]), events[1..], service, AfterPublish(st, events[0], service, last))
  }

  ghost function AfterPublish(st: State, e: Event, service: string, last: Option<(nat, string)>)
    : Option<(nat, string)>
  {
    if e.Publish? && e.service == service && Publishes(st.repo, service, e.checkout, e.digest)
    then Some((e.checkout, e.digest)) else last
  }

  /** The branch is the last publish's, rebuilt or not. A run's copy of it is, as long as it
      still names the branch's commit. */
  predicate Follows(st: State, service: string, last: Option<(nat, string)>) {
    service in st.repo.branches ==>
      last == Some((st.repo.branches[service].from, st.repo.branches[service].digest))
  }

  lemma FollowsOn(st: State, e: Event, service: string, last: Option<(nat, string)>)
    requires Inv(st) && Follows(st, service, last)
    ensures Follows(Step(st, e), service, AfterPublish(st, e, service, last))
  {
    if e.Act? && e.who < |st.clones| && e.service == service {
      var clone := st.clones[e.who];
      assert KnownClone(st.repo, clone);
      if service in clone.seen {
        assert Known(st.repo, service, clone.seen[service]);
      }
    }
  }

  lemma {:induction false} PlayFollows(st: State, events: seq<Event>, service: string, last: Option<(nat, string)>)
    requires Inv(st) && Follows(st, service, last)
    ensures Follows(Play(st, events), service, LastPublish(st, events, service, last))
    decreases |events|
  {
    if events != [] {
      StepKeeps(st, events[0]);
      FollowsOn(st, events[0], service, last);
      PlayFollows(Step(st, events[0]), events[1..], service, AfterPublish(st, events[0], service, last));
    }
  }

  lemma BeginningHolds(st: State)
    requires Beginning(st)
    ensures Inv(st)
  {
  }

  /** In every interleaving of publishes, merges, other commits and refresh runs: a branch
      that can be merged adds to main its tip with one pin replaced. The new pin is the
      service's last published digest, and the pin it replaces is the one main had in the
      commit that publish was built from. */
  lemma MergeReplacesThePublishedPin(st: State, events: seq<Event>, service: string, delete: bool)
    requires Beginning(st)
    ensures Inv(st)
    ensures var end := Play(st, events);
      Mergeable(end.repo, service) ==>
        var tip := end.repo.main[|end.repo.main| - 1];
        var published := LastPublish(st, events, service, None);
        && published.Some? && published.value.0 < |end.repo.main|
        && var (built, digest) := published.value;
        && service in tip.pins && service in end.repo.main[built].pins
        && tip.pins[service] == end.repo.main[built].pins[service] != digest
        && Merged(end.repo, service, delete).main ==
             end.repo.main + [tip.(pins := tip.pins[service := digest])]
  {
    BeginningHolds(st);
    PlayFollows(st, events, service, None);
    var end := Play(st, events);
    if Mergeable(end.repo, service) {
      assert Sound(end.repo, service, end.repo.branches[service]);
    }
  }

  // ---------- a published digest is not lost ----------

  /** The three ways for a digest to leave its branch: a newer publish, a merge, or a run
      that found main, as it had fetched it, pinning the digest already. */
  ghost predicate MayTake(st: State, e: Event, service: string, digest: string) {
    match e
    case Publish(s, checkout, d) => s == service && Publishes(st.repo, service, checkout, d)
    case Merge(s, delete) => s == service && Mergeable(st.repo, service) && delete
    case Act(who, s) =>
      && s == service && who < |st.clones|
      && st.clones[who].main < |st.repo.main|
      && service in st.repo.main[st.clones[who].main].pins
      && st.repo.main[st.clones[who].main].pins[service] == digest
    case _ => false
  }

  predicate Asks(st: State, service: string, digest: string) {
    service in st.repo.branches && st.repo.branches[service].digest == digest
  }

  lemma DigestStays(st: State, e: Event, service: string, digest: string)
    requires Inv(st) && Asks(st, service, digest)
    ensures Asks(Step(st, e), service, digest) || MayTake(st, e, service, digest)
  {
    if e.Act? && e.who < |st.clones| && e.service == service {
      var clone := st.clones[e.who];
      assert KnownClone(st.repo, clone);
      if service in clone.seen {
        assert Known(st.repo, service, clone.seen[service]);
      }
    }
  }

  ghost predicate Taken(st: State, events: seq<Event>, service: string, digest: string)
    requires Inv(st)
    decreases |events|
  {
    events != [] &&
    (MayTake(st, events[0], service, digest)
     || (StepKeeps(st, events[0]); Taken(Step(st, events[0]), events[1..], service, digest)))
  }

  /** From any state that can come about, through any further events: a digest that a branch
      asks for is still asked for, or one of the three ways took it. */
  lemma {:induction false} PublishedDigestIsNotLost(st: State, events: seq<Event>, service: string, digest: string)
    requires Inv(st) && Asks(st, service, digest)
    ensures Asks(Play(st, events), service, digest) || Taken(st, events, service, digest)
    decreases |events|
  {
    if events != [] {
      StepKeeps(st, events[0]);
      DigestStays(st, events[0], service, digest);
      if Asks(Step(st, events[0]), service, digest) {
        PublishedDigestIsNotLost(Step(st, events[0]), events[1..], service, digest);
      }
    }
  }

  // ---------- what a run achieves ----------

  /** The branch asks for the digest that the run saw it ask for, on the main it fetched. */
  ghost predicate MovedForward(repo: Repo, clone: Clone, service: string) {
    && service in clone.seen && service in repo.branches
    && repo.branches[service].base == clone.main
    && repo.branches[service].digest == clone.seen[service].digest
  }

  /** The branch has gone, and the main that the run fetched pins its digest. */
  ghost predicate Superseded(repo: Repo, clone: Clone, service: string) {
    && service in clone.seen && service !in repo.branches && clone.main < |repo.main|
    && service in repo.main[clone.main].pins && repo.main[clone.main].pins[service] == clone.seen[service].digest
  }

  /** What a run decides depends on commits that main keeps. */
  lemma SameDecision(a: Repo, b: Repo, clone: Clone, service: string)
    requires SoundRepo(a) && SoundRepo(b) && Evolves(a, b) && KnownClone(a, clone)
    ensures KnownClone(b, clone) && Decide(b.main, clone, service) == Decide(a.main, clone, service)
  {
    KnownStays(a, b, clone);
  }

  /** A push that the remote takes does what was decided; one it does not take does nothing. */
  lemma PushDoes(repo: Repo, clone: Clone, service: string)
    requires SoundRepo(repo) && KnownClone(repo, clone)
    ensures var after := Push(repo, clone, service);
      if !Leased(repo, clone, service) then after == repo
      else match Decide(repo.main, clone, service)
        case Supersede => Superseded(after, clone, service)
        case Rebuild => MovedForward(after, clone, service)
        case _ => after == repo
  {
  }

  /** A run decides, others act, and the run pushes. */
  lemma DecideThenPush(a: Repo, b: Repo, clone: Clone, service: string)
    requires SoundRepo(a) && SoundRepo(b) && Evolves(a, b) && KnownClone(a, clone)
    ensures KnownClone(b, clone)
    ensures var after := Push(b, clone, service);
      && SoundRepo(after) && Evolves(a, after) && KnownClone(after, clone)
      && (Leased(b, clone, service) ==>
            && (Decide(a.main, clone, service).Supersede? ==> Superseded(after, clone, service))
            && (Decide(a.main, clone, service).Rebuild? ==> MovedForward(after, clone, service)))
  {
    SameDecision(a, b, clone, service);
    var after := Push(b, clone, service);
    hide Push, Decide;
    PushKeeps(b, clone, service);
    PushDoes(b, clone, service);
    hide SoundRepo;
    EvolvesOn(a, b, after);
    KnownStays(b, after, clone);
  }

  /** A branch fetched again joins what the run knows. */
  lemma RefetchKnown(repo: Repo, clone: Clone, service: string)
    requires SoundRepo(repo) && KnownClone(repo, clone) && service in repo.branches
    ensures KnownClone(repo, clone.(seen := clone.seen[service := repo.branches[service]]))
  {
  }
}
