/** One refresh run's handling of one branch, while publishes and merges go on. */
module BumpRefresh {
  import B = BumpBranches

  datatype Outcome = Rebuilt | Closed | Unseen | Current | Left | Unpinned | FetchFailed | ReplacedTwice

  /** The remote repository, and how many pushes it has taken from this run. */
  class Remote {
    var repo: B.Repo
    var taken: nat

    constructor (repo: B.Repo)
      ensures this.repo == repo && taken == 0
    {
      this.repo, taken := repo, 0;
    }

    /** Between two remote operations of this run, others may do whatever
        BumpBranches.RepoKeeps says that a step can do. */
    method Others()
      requires B.SoundRepo(repo)
      modifies this
      ensures B.SoundRepo(repo) && B.Evolves(old(repo), repo) && taken == old(taken)
    {
    }

    /** The push with a lease, of a deletion or of a rebuilt commit. */
    method Push(clone: B.Clone, service: string) returns (accepted: bool)
      requires B.SoundRepo(repo) && B.KnownClone(repo, clone)
      requires B.Decide(repo.main, clone, service) in {B.Supersede, B.Rebuild}
      modifies this
      ensures repo == B.Push(old(repo), clone, service) && accepted == B.Leased(old(repo), clone, service)
      ensures taken == old(taken) + if accepted then 1 else 0
    {
      var seen := clone.seen[service];
      accepted := service in repo.branches && repo.branches[service].id == seen.id;
      if !accepted { return; }
      if repo.main[clone.main].pins[service] == seen.digest {
        repo := repo.(branches := repo.branches - {service});
      } else {
        var rebuilt := B.Branch(repo.next, clone.main, seen.from, seen.digest);
        repo := repo.(branches := repo.branches[service := rebuilt], next := repo.next + 1);
      }
      taken := taken + 1;
    }

    /** One attempt to push what the run has decided on, after whatever others did first. */
    method Attempt(clone: B.Clone, service: string) returns (accepted: bool)
      requires B.SoundRepo(repo) && B.KnownClone(repo, clone)
      requires B.Decide(repo.main, clone, service) in {B.Supersede, B.Rebuild}
      modifies this
      ensures B.SoundRepo(repo) && B.Evolves(old(repo), repo) && B.KnownClone(repo, clone)
      ensures taken == old(taken) + if accepted then 1 else 0
      ensures accepted && B.Decide(old(repo.main), clone, service).Supersede? ==> B.Superseded(repo, clone, service)
      ensures accepted && B.Decide(old(repo.main), clone, service).Rebuild? ==> B.MovedForward(repo, clone, service)
    {
      hide *;
      Others();
      ghost var before := repo;
      B.DecideThenPush(old(repo), repo, clone, service);
      B.SameDecision(old(repo), repo, clone, service);
      accepted := Push(clone, service);
    }

    /** Fetches the one branch again, if it is still there; main is not fetched. */
    method Refetch(clone: B.Clone, service: string) returns (found: bool, again: B.Clone)
      requires B.SoundRepo(repo) && B.KnownClone(repo, clone)
      modifies this
      ensures B.SoundRepo(repo) && B.Evolves(old(repo), repo) && B.KnownClone(repo, again) && taken == old(taken)
      ensures again ==
        if found && service in repo.branches then clone.(seen := clone.seen[service := repo.branches[service]])
        else clone
      ensures found <==> service in repo.branches
    {
      Others();
      B.KnownStays(old(repo), repo, clone);
      found := service in repo.branches;
      again := clone;
      if found {
        B.RefetchKnown(repo, clone, service);
        again := clone.(seen := clone.seen[service := repo.branches[service]]);
      }
    }

    method Decide(clone: B.Clone, service: string) returns (decision: B.Decision)
      requires B.SoundRepo(repo) && B.KnownClone(repo, clone)
      ensures decision == B.Decide(repo.main, clone, service)
      ensures decision.Unseen? <==> service !in clone.seen
    {
      decision := B.Decide(repo.main, clone, service);
    }

    /** Twice at most: a push that the remote does not take is followed by fetching the
        branch again, but not main. A run that reports a rebuilt or closed branch had
        exactly one push taken, and any other had none. */
    method RefreshBranch(fetched: B.Clone, service: string) returns (outcome: Outcome, clone: B.Clone)
      requires B.SoundRepo(repo) && B.KnownClone(repo, fetched)
      modifies this
      ensures B.SoundRepo(repo) && B.Evolves(old(repo), repo) && B.KnownClone(repo, clone)
      ensures clone.main == fetched.main
      ensures taken == old(taken) + if outcome.Rebuilt? || outcome.Closed? then 1 else 0
      ensures outcome.Unseen? <==> service !in fetched.seen
      ensures outcome.Rebuilt? ==> B.MovedForward(repo, clone, service)
      ensures outcome.Closed? ==> B.Superseded(repo, clone, service)
      ensures outcome.Left? || outcome.Current? || outcome.Unpinned? ==>
        B.Decide(repo.main, clone, service) ==
          if outcome.Left? then B.LeaveAlone else if outcome.Current? then B.Current else B.Unpinned
    {
      hide *;
      clone := fetched;
      B.EvolvesSame(repo);
      var attempt := 1;
      while true
        invariant attempt == 1 || attempt == 2
        invariant B.SoundRepo(repo) && B.Evolves(old(repo), repo) && B.KnownClone(repo, clone)
        invariant clone.main == fetched.main && taken == old(taken)
        invariant service in clone.seen <==> service in fetched.seen
        decreases 2 - attempt
      {
        var decision := Decide(clone, service);
        match decision
        case Unseen => return Unseen, clone;
        case Current => return Current, clone;
        case Unpinned => return Unpinned, clone;
        case LeaveAlone => return Left, clone;
        case _ =>
          ghost var decided := repo;
          var accepted := Attempt(clone, service);
          B.EvolvesOn(old(repo), decided, repo);
          if accepted {
            return if decision.Supersede? then Closed else Rebuilt, clone;
          }
          if attempt == 2 { return ReplacedTwice, clone; }
          ghost var refused := repo;
          var found;
          found, clone := Refetch(clone, service);
          B.EvolvesOn(old(repo), refused, repo);
          if !found { return FetchFailed, clone; }
          attempt := attempt + 1;
      }
    }
  }
}
