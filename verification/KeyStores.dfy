/** One seed run's handling of a key, call by call, while other runs are at work. */
module KeyStores {
  import opened Outcomes
  import C = KeyCustody

  /** Secrets Manager and the parameter store, as far as one key is concerned. */
  class Stores {
    const spec: C.Spec
    var secret: Option<string>
    var legacy: map<string, string>
    var record: Option<string>

    ghost function Now(): C.Store
      reads this
    {
      C.Store(secret, legacy, record)
    }

    ghost predicate Valid()
      reads this
    {
      C.Consistent(spec, Now())
    }

    constructor (spec: C.Spec, secret: Option<string>, legacy: map<string, string>, record: Option<string>)
      ensures Now() == C.Store(secret, legacy, record) && this.spec == spec
    {
      this.spec := spec;
      this.secret, this.legacy, this.record := secret, legacy, record;
    }

    /** Between two calls of this run, other runs may do whatever KeyCustody.StepKeeps
        says that a call can do. */
    method Others()
      requires Valid()
      modifies this
      ensures Valid() && C.Evolves(spec, old(Now()), Now())
    {
    }

    /** secretstore.Store.Create: an existing secret wins and is read back. */
    method Create(value: string) returns (stored: Option<string>, created: bool)
      requires Valid()
      requires C.Legacy(Now(), spec).None? || C.Value(spec, Now()) == Some(value) || secret.Some?
      modifies this
      ensures Valid() && C.Evolves(spec, old(Now()), Now())
      ensures stored.Some? ==> secret == stored
      ensures created ==> old(secret).None? && stored == Some(value)
      ensures old(secret).Some? ==> !created
    {
      var served: bool := *;
      if !served { return None, false; }
      if secret.None? {
        secret := Some(value);
        return secret, true;
      }
      ghost var before := Now();
      Others();
      C.EvolvesOn(spec, old(Now()), before, Now());
      var answered: bool := *;
      stored, created := if answered then secret else None, false;
    }

    /** ensureKey: whatever it returns is the stored secret, and the answer that the stores
        differ never comes up. */
    method EnsureKey(minted: string) returns (r: C.Run)
      requires Valid()
      modifies this
      ensures Valid() && C.Evolves(spec, old(Now()), Now())
      ensures r.Returned? || r.Mismatched? || r.Aborted?
      ensures r.Returned? ==>
        && secret == Some(r.value)
        && (C.Value(spec, old(Now())).Some? ==> C.Value(spec, old(Now())) == Some(r.value) && !r.created)
        && (r.created ==> r.value == minted && !r.moved)
        && (r.moved ==> old(C.Legacy(Now(), spec)) == Some(r.value))
      ensures r.Mismatched? ==> old(secret).None? && old(C.Legacy(Now(), spec)).Some?
    {
      var served: bool := *;
      if !served { return C.Aborted; }
      var found := secret;

      Others();
      ghost var st1 := Now();
      served := *;
      if !served { return C.Aborted; }
      var copy := C.Legacy(C.Store(secret, legacy, record), spec);

      r := C.Choose(found, copy, minted);
      if r.Checking? {
        Others();
        C.EvolvesOn(spec, old(Now()), st1, Now());
        served := *;
        if !served { return C.Aborted; }
        r := C.Check(spec, record, r.legacy);
      }
      if r.Creating? {
        ghost var st2 := Now();
        var value, copying := r.value, r.copying;
        Others();
        C.EvolvesOn(spec, old(Now()), st2, Now());
        ghost var st3 := Now();
        var stored, created := Create(value);
        C.EvolvesOn(spec, old(Now()), st3, Now());
        if stored.None? { return C.Aborted; }
        r := if copying && stored.value != value then C.Differs
             else C.Returned(stored.value, created && !copying, copying);
      }
    }

    /** ssmstore.Store.Delete over the key's parameters: probe each, then delete those
        present, ten at a time. What is stored under no name of the key is left alone. */
    method DeleteCopies() returns (done: bool)
      requires Valid() && (secret.Some? || C.Legacy(Now(), spec).None?)
      modifies this
      ensures Valid() && C.Evolves(spec, old(Now()), Now())
      ensures forall name | name in old(legacy) && name !in spec.legacyNames ::
        name in legacy && legacy[name] == old(legacy)[name]
      ensures done ==> forall name | name in spec.legacyNames :: name !in legacy
    {
      var names := spec.legacyNames;
      var present: seq<string> := [];
      for i := 0 to |names|
        invariant Valid() && C.Evolves(spec, old(Now()), Now())
        invariant secret.Some? || C.Legacy(Now(), spec).None?
        invariant forall name | name in present :: name in names
        invariant forall k | 0 <= k < i :: names[k] in present || names[k] !in legacy
      {
        ghost var before := Now();
        Others();
        C.EvolvesOn(spec, old(Now()), before, Now());
        var served: bool := *;
        if !served { return false; }
        if names[i] in legacy {
          present := present + [names[i]];
        }
      }
      var rest := present;
      while rest != []
        invariant Valid() && C.Evolves(spec, old(Now()), Now())
        invariant secret.Some? || C.Legacy(Now(), spec).None?
        invariant C.OwnNames(spec, rest)
        invariant forall name | name in names :: name in rest || name !in legacy
        decreases |rest|
      {
        ghost var before := Now();
        Others();
        C.EvolvesOn(spec, old(Now()), before, Now());
        var served: bool := *;
        if !served { return false; }
        ghost var middle := Now();
        var batch := C.Batch(rest);
        legacy := legacy - (set name | name in rest[..batch]);
        C.EvolvesOn(spec, old(Now()), middle, Now());
        assert rest == rest[..batch] + rest[batch..];
        rest := rest[batch..];
      }
      done := true;
    }
  }
}
