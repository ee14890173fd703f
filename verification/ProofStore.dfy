/** The issuer of appliance proofs as the Lambda runs it, and what a stopped retirement of a
    whole region may do to its parameters. */
module ProofStore {
  import opened Outcomes
  import I = ProofIssuer
  import A = ApplianceWorld
  import E = ApplianceReconcile
  import V = ApplianceVault

  /** One region's two parameters, and what the issuer works with. */
  class Store {
    var proof: Option<I.Delegation>
    var stamp: Option<nat>
    var key: nat
    var commands: seq<string>
    var issued: nat
    var script: seq<Fate>

    constructor (proof: Option<I.Delegation>, stamp: Option<nat>, key: nat, commands: seq<string>, issued: nat,
        script: seq<Fate>)
      ensures Now() == I.World(proof, stamp, key, commands, issued, script)
    {
      this.proof, this.stamp, this.key := proof, stamp, key;
      this.commands, this.issued, this.script := commands, issued, script;
    }

    ghost function Now(): I.World
      reads this
    {
      I.World(proof, stamp, key, commands, issued, script)
    }

    method Await() returns (r: Result<()>)
      modifies this
      ensures var (w, fate) := I.Call(old(Now())); Run(Now(), r) == Reply(fate, w, w, ())
    {
      if script == [] { return Stopped; }
      r := Answer(script[0]);
      script := script[1..];
    }

    /** MissingCommands: the container's grants go into a set, and the commands outside it
        are collected in order. What is no container is an error. */
    static method MissingCommands(stored: I.Delegation, commands: seq<string>) returns (r: Option<seq<string>>)
      ensures r.None? <==> !stored.readable
      ensures r.Some? ==> r.value == I.Missing(stored.commands, commands)
      ensures r == Some([]) <==> I.Grants(stored, commands)
    {
      if !stored.readable { return None; }
      I.MissingNothing(stored.commands, commands);
      var granted := stored.commands;
      var grants: set<string> := {};
      for i := 0 to |granted|
        invariant forall c :: c in grants <==> c in granted[..i]
      {
        grants := grants + {granted[i]};
      }
      assert granted[..|granted|] == granted;
      var missing: seq<string> := [];
      for i := 0 to |commands|
        invariant missing + I.Missing(granted, commands[i..]) == I.Missing(granted, commands)
      {
        assert commands[i..][1..] == commands[i + 1..];
        if commands[i] !in grants {
          missing := missing + [commands[i]];
        }
      }
      assert commands[|commands|..] == [];
      r := Some(missing);
    }

    method Sign(key: nat, audience: string) returns (r: Result<I.Delegation>)
      modifies this
      ensures Run(Now(), r) == I.Sign(old(Now()), key, audience)
    {
      if audience == "" || commands == [] { return Failed(None, Declined); }
      r := Done(I.Delegation(issued, key, audience, commands, true));
      issued := issued + 1;
    }

    method PutProof(d: I.Delegation) returns (r: Result<()>)
      modifies this
      ensures Run(Now(), r) == I.PutProof(old(Now()), d)
    {
      r := Await();
      if r.Done? { proof := Some(d); }
    }

    method RecordProofIssuer(key: nat) returns (r: Result<()>)
      modifies this
      ensures Run(Now(), r) == I.PutStamp(old(Now()), key)
    {
      r := Await();
      if r.Done? { stamp := Some(key); }
    }

    method Stamp(key: nat, d: I.Delegation) returns (r: Result<I.Delegation>)
      modifies this
      ensures Run(Now(), r) == I.Stamp(old(Now()), key, d)
    {
      var put := RecordProofIssuer(key);
      if put.IsFailure() { return put.PropagateFailure(); }
      r := Done(d);
    }

    method Reissue(key: nat, audience: string) returns (r: Result<I.Delegation>)
      modifies this
      ensures Run(Now(), r) == I.Reissue(old(Now()), key, audience)
    {
      hide I.Stamp;
      var signed := Sign(key, audience);
      if signed.IsFailure() { return signed; }
      var put := PutProof(signed.value);
      if put.IsFailure() { return put.PropagateFailure(); }
      r := Stamp(key, signed.value);
    }

    method EnsureProof(key: nat, audience: string) returns (r: Result<(I.Delegation, bool)>)
      modifies this
      ensures Run(Now(), r) == I.EnsureProof(old(Now()), key, audience)
    {
      var looked := Await();
      if looked.IsFailure() { return looked.PropagateFailure(); }
      if proof.Some? { return Done((proof.value, false)); }
      var signed := Sign(key, audience);
      if signed.IsFailure() { return signed.PropagateFailure(); }
      var put := PutProof(signed.value);
      if put.IsFailure() { return put.PropagateFailure(); }
      r := Done((signed.value, true));
    }

    method Review(key: nat, audience: string, stored: I.Delegation) returns (r: Result<I.Delegation>)
      modifies this
      ensures Run(Now(), r) == I.Review(old(Now()), key, audience, stored)
    {
      hide I.Reissue, I.Stamp;
      var checked := MissingCommands(stored, commands);
      if checked.None? { return Failed(None, Declined); }
      var missing := checked.value;
      var looked := Await();
      if looked.IsFailure() { return looked.PropagateFailure(); }
      if missing != [] {
        r := Reissue(key, audience);
      } else if stamp == Some(key) {
        r := Done(stored);
      } else if stamp.None? {
        r := Stamp(key, stored);
      } else {
        r := Reissue(key, audience);
      }
    }

    method IssueProof(audience: string) returns (r: Result<I.Delegation>)
      modifies this
      ensures Run(Now(), r) == I.IssueProof(old(Now()), audience)
    {
      hide I.EnsureProof, I.Stamp, I.Review;
      var read := Await();
      if read.IsFailure() { return read.PropagateFailure(); }
      var hiltKey := key;
      var ensured := EnsureProof(hiltKey, audience);
      if ensured.IsFailure() { return ensured.PropagateFailure(); }
      if ensured.value.1 {
        r := Stamp(hiltKey, ensured.value.0);
      } else {
        r := Review(hiltKey, audience, ensured.value.0);
      }
    }

    /** retire-region: both parameters in one call, so neither goes without the other. */
    method RetireProof() returns (r: Result<()>)
      modifies this
      ensures Run(Now(), r) == I.RetireProof(old(Now()))
    {
      r := Await();
      if r.IsFailure() { return; }
      var found := proof.Some?;
      r := Await();
      if r.IsFailure() { return; }
      found := found || stamp.Some?;
      if !found { return Done(()); }
      r := Await();
      if r.Done? { proof, stamp := None, None; }
    }
  }

  // ---------- a stopped retirement of the region ----------

  const PROOF_KEY := "hilt-ingot-s3-proof"

  function ProofPath(region: string): string {
    A.Prefix(region) + PROOF_KEY
  }

  function StampPath(region: string): string {
    A.Prefix(region) + PROOF_KEY + ".issuer"
  }

  const SERVED := A.Event(Served, {}, [], false, "", false, A.Unreachable)

  function ListingThenOneBatch(names: seq<string>): seq<A.Event> {
    [SERVED.(listing := names), SERVED]
  }

  lemma OneListing(w: A.World, prefix: string, names: seq<string>, rest: seq<A.Event>)
    requires A.Lists(names, A.Under(w.params, prefix)) && w.script == [SERVED.(listing := names)] + rest
    ensures A.ListUnder(w, prefix, []) == Run(w.(script := rest), Done(names))
  {
    hide A.Lists, A.Under;
    assert w.script[1..] == rest && [] + names == names && w.live - {} == w.live;
  }

  lemma OneDeletion(w: A.World, names: seq<string>, rest: seq<A.Event>)
    requires w.script == [SERVED] + rest
    ensures A.DeleteParameters(w, names)
      == Run(w.(params := w.params - (set name | name in names), script := rest), Done(()))
  {
    assert w.script[1..] == rest && w.live - {} == w.live;
  }

  lemma NothingServed(w: A.World, names: seq<string>)
    requires w.script == [] && names != []
    ensures V.DeleteBatches(w, names) == Run(w, Stopped)
  {
  }

  lemma StopsAfterABatch(w: A.World, region: string, names: seq<string>)
    requires A.Lists(names, A.Under(w.params, A.Prefix(region))) && 10 < |names|
    requires w.script == ListingThenOneBatch(names)
    ensures V.DeletePrefix(w, region)
      == Run(w.(params := w.params - (set name | name in names[..10]), script := []), Stopped)
  {
    var w1 := w.(script := [SERVED]);
    var w2 := w.(params := w.params - (set name | name in names[..10]), script := []);
    OneListing(w, A.Prefix(region), names, [SERVED]);
    hide A.Lists, A.Under, A.ListUnder, A.DeleteParameters;
    assert w1.script == [SERVED] + [];
    OneDeletion(w1, names[..10], []);
    NothingServed(w2, names[10..]);
    assert V.DeleteBatches(w1, names) == Run(w2, Stopped);
  }

  /** Where a region has more than ten parameters, and the listing has the stamp in its first
      ten and neither the delegation nor the recorded accessor, a retirement that stops after
      its first batch takes the stamp and leaves both: what the next onboard run looks for
      first is still there. */
  lemma StoppedRetirementMayTakeTheStamp(w: A.World, region: string, names: seq<string>)
    requires A.Lists(names, A.Under(w.params, A.Prefix(region))) && 10 < |names|
    requires StampPath(region) in names[..10]
    requires ProofPath(region) in names[10..] && A.AccessorPath(region) in names[10..]
    ensures var run := V.DeletePrefix(w.(script := ListingThenOneBatch(names)), region);
      && run.result.Stopped?
      && StampPath(region) !in run.world.params
      && ProofPath(region) in run.world.params
      && A.AccessorPath(region) in run.world.params
  {
    StopsAfterABatch(w.(script := ListingThenOneBatch(names)), region, names);
    hide V.DeletePrefix;
    forall path | path in names[10..] ensures path !in names[..10] && path in w.params {
      var j :| 10 <= j < |names| && names[j] == path;
      assert path in (set name | name in names);
      assert path in A.Under(w.params, A.Prefix(region));
    }
  }

  lemma {:induction false} CountListed(names: seq<string>, all: set<string>)
    requires A.Lists(names, all)
    ensures |all| == |names|
    decreases |names|
  {
    if names == [] {
      assert all == {};
    } else {
      var rest, last := names[..|names| - 1], names[|names| - 1];
      assert names == rest + [last] && last !in rest;
      assert (set name | name in rest) == all - {last};
      CountListed(rest, all - {last});
    }
  }

  /** A region with no more than ten parameters loses them all at once, or none. */
  lemma SmallRegionGoesAtOnce(w: A.World, region: string)
    requires |A.Under(w.params, A.Prefix(region))| <= 10
    ensures var w' := V.DeletePrefix(w, region).world;
      w'.params == w.params || w'.params == w.params - A.Under(w.params, A.Prefix(region))
  {
    E.ListUnderEffect(w, A.Prefix(region), []);
    hide A.ListUnder, A.Under;
    var listed := A.ListUnder(w, A.Prefix(region), []);
    if listed.result.Done? {
      var names := listed.result.value;
      CountListed(names, A.Under(w.params, A.Prefix(region)));
      OneBatch(listed.world, names);
      hide A.Lists, V.DeleteBatches;
    }
  }

  lemma OneBatch(w: A.World, names: seq<string>)
    requires |names| <= 10
    ensures var w' := V.DeleteBatches(w, names).world;
      w'.params == w.params || w'.params == w.params - (set name | name in names)
  {
    if names != [] {
      assert names[..|names|] == names && names[|names|..] == [];
      assert V.Min(10, |names|) == |names|;
    }
  }

  /** All names in some order. */
  ghost function Ordered(names: set<string>): (order: seq<string>)
    ensures A.Lists(order, names)
  {
    if names == {} then []
    else
      var name :| name in names;
      var rest := Ordered(names - {name});
      assert forall n | n in rest :: n in (set m | m in rest);
      assert (set n | n in rest + [name]) == (set n | n in rest) + {name};
      rest + [name]
  }

  /** A listing with one name first and another last. */
  lemma FirstAndLast(all: set<string>, first: string, last: string) returns (names: seq<string>)
    requires first in all && last in all && first != last
    ensures A.Lists(names, all) && 2 <= |names| && names[0] == first && names[|names| - 1] == last
  {
    var rest := Ordered(all - {first, last});
    names := [first] + rest + [last];
    assert forall n | n in rest :: n in (set m | m in rest);
    assert (set n | n in names) == {first} + (set n | n in rest) + {last};
  }

  /** The retirement of a region, stopped somewhere, has taken the stamp and left the
      delegation. */
  predicate TornApart(w: A.World, region: string, script: seq<A.Event>) {
    var left := V.DeletePrefix(w.(script := script), region).world.params;
    StampPath(region) !in left && ProofPath(region) in left
  }

  /** Some stop does that exactly where the region has more than ten parameters. */
  lemma TornApartExactlyWhenLarge(w: A.World, region: string)
    requires StampPath(region) in w.params && ProofPath(region) in w.params
    ensures (exists script :: TornApart(w, region, script)) <==> 10 < |A.Under(w.params, A.Prefix(region))|
  {
    var all := A.Under(w.params, A.Prefix(region));
    assert StampPath(region) in all && ProofPath(region) in all;
    if |all| <= 10 {
      forall script ensures !TornApart(w, region, script) {
        SmallRegionGoesAtOnce(w.(script := script), region);
        hide V.DeletePrefix;
      }
    } else {
      var names := FirstAndLast(all, StampPath(region), ProofPath(region));
      CountListed(names, all);
      assert names[..10][0] == StampPath(region) && names[10..][|names| - 11] == ProofPath(region);
      assert StampPath(region) in names[..10] && ProofPath(region) in names[10..];
      var script := ListingThenOneBatch(names);
      StopsAfterABatch(w.(script := script), region, names);
      hide V.DeletePrefix;
      assert ProofPath(region) !in names[..10];
      assert TornApart(w, region, script);
    }
  }
}
