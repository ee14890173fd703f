/** Resetting the apps: each app's database is dropped and created again, and then hilt's
    tenant secrets are destroyed. */
module ResetApps {
  import opened Outcomes
  import opened DbInit
  import H = HiltSecrets

  const APPS := ["sprue", "hilt", "swarf", "plc"]

  function GetPassword(w: World, name: string): Run<World, string> {
    var (w, e) := Call(w);
    ReplyIf(name in w.stored, e.fate, w, w, if name in w.stored then w.stored[name] else "")
  }

  // ---------- the phase ----------

  datatype Report = Report(dropped: seq<string>, recreated: seq<string>, destroyed: nat)

  /** An app's database: owned by the role of its name, with no role beside it. */
  function App(name: string, password: string): Wanted {
    Wanted(name, "", password, [])
  }

  /** Recreated straight after its drop. Reports whether it was there. */
  function ResetOne(w: World, name: string): Run<World, bool> {
    var (w, password) :- GetPassword(w, name);
    var (w, dropped) :- Drop(w, name);
    var (w, _) :- Ensure(w, [App(name, password)]);
    Run(w, Done(dropped))
  }

  function Next(report: Report, name: string, dropped: bool): Report {
    report.(dropped := if dropped then report.dropped + [name] else report.dropped,
            recreated := report.recreated + [name])
  }

  function ResetEach(w: World, names: seq<string>, report: Report): Run<World, Report>
    decreases |names|
  {
    if names == [] then Run(w, Done(report)) else
    var (w, dropped) :- ResetOne(w, names[0]);
    ResetEach(w, names[1..], Next(report, names[0], dropped))
  }

  predicate Lists(names: seq<string>, all: set<string>) {
    (set name | name in names) == all && H.Distinct(names)
  }

  /** The walk over hilt's secrets: one list call for each folder. A listing that does not
      name what is there stands for a call that failed. */
  function Walk(w: World, folder: string): (run: Run<World, seq<string>>)
    requires H.IsFolder(folder)
    ensures run.world == w.(script := run.world.script)
    decreases H.LongestOf(w.secrets) + 1 - |folder|, 1, 0
  {
    var (w, e) := Call(w);
    if e.fate.Served? && Lists(e.listing, H.KeysIn(w.secrets, folder)) then
      assert forall key | key in e.listing :: key in (set name | name in e.listing);
      WalkKeys(w, folder, e.listing, [])
    else Reply(if e.fate.Served? then Refused else e.fate, w, w, [])
  }

  /** The keys of a folder, each a path or a folder of its own. */
  function WalkKeys(w: World, folder: string, keys: seq<string>, paths: seq<string>): (run: Run<World, seq<string>>)
    requires H.IsFolder(folder) && forall key | key in keys :: key in H.KeysIn(w.secrets, folder)
    ensures run.world == w.(script := run.world.script)
    decreases H.LongestOf(w.secrets) + 1 - |folder|, 0, |keys|
  {
    if keys == [] then Run(w, Done(paths)) else
    var key := keys[0];
    assert key in keys && forall k | k in keys[1..] :: k in keys;
    if key == "" then Run(w, Failed(None, Declined))
    else if !H.IsFolder(key) then WalkKeys(w, folder, keys[1..], paths + [folder + key])
    else
      H.KeyFitsIn(w.secrets, folder, key);
      var nested := Walk(w, folder + key);
      if nested.IsFailure() then nested
      else WalkKeys(nested.world, folder, keys[1..], paths + nested.result.value)
  }

  function ListSecrets(w: World): Run<World, seq<string>> {
    Walk(w, H.ROOT)
  }

  function DestroyEach(w: World, paths: seq<string>, n: nat): Run<World, nat>
    decreases |paths|
  {
    if paths == [] then Run(w, Done(n)) else
    if !(H.ROOT <= paths[0]) then Run(w, Failed(None, Declined)) else
    var (w, e) := Call(w);
    var (w, _) :- Reply(e.fate, w, w.(secrets := w.secrets - {paths[0]}), ());
    DestroyEach(w, paths[1..], n + 1)
  }

  /** The databases go first: hilt's rows are what refers to the secrets. */
  function ApplyReset(w: World): Run<World, Report> {
    var (w, report) :- ResetEach(w, APPS, Report([], [], 0));
    var (w, paths) :- ListSecrets(w);
    var (w, n) :- DestroyEach(w, paths, 0);
    Run(w, Done(report.(destroyed := n)))
  }

  // ---------- one database ----------

  /** Nothing but one database and the role of its name may have changed. */
  ghost predicate OnlyTouches(w: World, w': World, name: string) {
    && w'.stored == w.stored && w'.secrets == w.secrets
    && w'.databases - {name} == w.databases - {name}
    && w'.roles - {name} == w.roles - {name}
  }

  /** What is left of the database: as it was, gone, or created anew. */
  predicate Left(w: World, w': World, name: string) {
    || w'.databases == w.databases
    || w'.databases == w.databases - {name}
    || w'.databases == w.databases[name := Database(name, {})]
  }

  /** There, empty, owned by the role of its name, and that role has the stored password. */
  predicate Ready(w: World, name: string) {
    && name in w.databases && w.databases[name] == Database(name, {})
    && name in w.stored && Hex(w.stored[name])
    && name in w.roles && w.roles[name].password == Some(w.stored[name])
  }

  lemma EnsureSingle(w: World, name: string, password: string)
    ensures Ensure(w, [App(name, password)])
      == if Hex(password) then EnsureOwned(w, name, name, password) else Run(w, Failed(None, Declined))
  {
    hide EnsureOwned, Hex;
    OwnerOfApp(name, password);
    var wanted := [App(name, password)];
    assert wanted[1..] == [] && wanted[0] == App(name, password);
    var one := EnsureOwned(w, name, name, password);
    assert one.result.Done? ==> one.result.value == ();
    assert EnsureOne(w, wanted[0]) == one;
    assert EnsureEach(w, wanted) == one;
    assert AllValid(wanted) <==> Valid(wanted[0]);
  }

  lemma OwnerOfApp(name: string, password: string)
    ensures App(name, password).OwnerRole() == name
  {
    assert App(name, password).owner == "";
  }

  lemma RecreatedFacts(w: World, gone: World, name: string)
    requires name in w.stored && gone.stored == w.stored && gone.secrets == w.secrets
    requires gone.roles == w.roles && gone.databases == w.databases - {name}
    ensures var run := Ensure(gone, [App(name, w.stored[name])]);
      && OnlyTouches(w, run.world, name) && Left(w, run.world, name)
      && (run.result.Done? ==> Ready(run.world, name))
  {
    EnsureSingle(gone, name, w.stored[name]);
    hide Ensure, EnsureOwned;
    EnsureOwnedFacts(gone, name, name, w.stored[name]);
    assert (w.databases - {name})[name := Database(name, {})] == w.databases[name := Database(name, {})];
  }

  /** However it ends, one reset leaves the database as it was, or gone, or new. */
  lemma ResetOneFacts(w: World, name: string)
    ensures var run := ResetOne(w, name);
      && OnlyTouches(w, run.world, name) && Left(w, run.world, name)
      && (run.result.Done? ==> Ready(run.world, name) && run.result.value == (name in w.databases))
  {
    var password := GetPassword(w, name);
    if password.result.Done? {
      hide Drop, Ensure, Ready;
      DropFacts(password.world, name);
      var dropped := Drop(password.world, name);
      if dropped.result.Done? {
        RecreatedFacts(w, dropped.world, name);
      }
    }
  }

  /** A stored password that is not hex is found out only after the drop: with every call
      served, the run fails and the database is missing. */
  lemma NonHexFailsAfterTheDrop(w: World, name: string)
    requires name in w.stored && !Hex(w.stored[name]) && name in w.databases && w.databases[name].owner in w.roles
    requires w.script == [Event(Served, []), Event(Served, []), Event(Served, []), Event(Served, [])]
    ensures var run := ResetOne(w, name);
      run.result == Failed(None, Declined) && run.world.databases == w.databases - {name}
  {
    var served := Event(Served, []);
    assert w.script[1..] == [served, served, served] && [served, served, served][1..] == [served, served];
    assert [served, served][1..] == [served] && [served][1..] == [];
    var dropped := Drop(w.(script := [served, served, served]), name);
    var gone := w.(databases := w.databases - {name}, member := w.member + {w.databases[name].owner}, script := []);
    assert dropped == Run(gone, Done(true));
    EnsureSingle(dropped.world, name, w.stored[name]);
  }

  // ---------- all of them ----------

  predicate Distinct(names: seq<string>) {
    H.Distinct(names)
  }

  /** A database that was there and is not. */
  predicate Lost(w: World, w': World, name: string) {
    name in w.databases && name !in w'.databases
  }

  /** Hilt's rows refer only to secrets that are there. */
  predicate Referential(w: World) {
    "hilt" in w.databases ==> w.databases["hilt"].rows <= w.secrets
  }

  /** What a reset may have done to some databases and the roles of their names. */
  ghost predicate OnlyTouchesAll(w: World, w': World, names: seq<string>) {
    && w'.stored == w.stored && w'.secrets == w.secrets
    && (forall other | other !in names :: Same(w, w', other))
  }

  predicate Same(w: World, w': World, name: string) {
    && (name in w.databases <==> name in w'.databases)
    && (name in w.databases ==> w'.databases[name] == w.databases[name])
    && (name in w.roles <==> name in w'.roles) && (name in w.roles ==> w'.roles[name] == w.roles[name])
  }

  lemma OneTouchesOne(w: World, w': World, name: string, other: string)
    requires OnlyTouches(w, w', name) && other != name
    ensures Same(w, w', other)
  {
    assert other in w.databases <==> other in w.databases - {name};
    assert other in w'.databases <==> other in w'.databases - {name};
    assert other in w.roles <==> other in w.roles - {name};
    assert other in w'.roles <==> other in w'.roles - {name};
    assert other in w.databases ==> (w.databases - {name})[other] == w.databases[other];
    assert other in w'.databases ==> (w'.databases - {name})[other] == w'.databases[other];
    assert other in w.roles ==> (w.roles - {name})[other] == w.roles[other];
    assert other in w'.roles ==> (w'.roles - {name})[other] == w'.roles[other];
  }

  /** The database is as it was, or gone, or new; so its rows are some of those it had. */
  predicate Shrinks(w: World, w': World, name: string) {
    name in w'.databases ==>
      (name in w.databases && w'.databases[name] == w.databases[name]) || w'.databases[name] == Database(name, {})
  }

  function DroppedAmong(w: World, names: seq<string>): seq<string> {
    if names == [] then []
    else (if names[0] in w.databases then [names[0]] else []) + DroppedAmong(w, names[1..])
  }

  lemma {:induction false} DroppedSame(a: World, b: World, names: seq<string>)
    requires forall name | name in names :: name in a.databases <==> name in b.databases
    ensures DroppedAmong(a, names) == DroppedAmong(b, names)
  {
    if names != [] {
      DroppedSame(a, b, names[1..]);
    }
  }

  ghost predicate AtMostOneLost(w: World, w': World) {
    forall a, b | Lost(w, w', a) && Lost(w, w', b) :: a == b
  }

  ghost predicate Reset(w: World, w': World, names: seq<string>) {
    && OnlyTouchesAll(w, w', names)
    && (forall name :: Shrinks(w, w', name))
    && AtMostOneLost(w, w')
  }

  lemma OneResets(w: World, w': World, name: string)
    requires OnlyTouches(w, w', name) && Left(w, w', name)
    ensures Reset(w, w', [name])
  {
    forall other | other != name ensures Same(w, w', other) {
      OneTouchesOne(w, w', name, other);
    }
  }

  lemma ResetsJoin(w: World, w1: World, w2: World, names: seq<string>)
    requires names != [] && Distinct(names)
    requires Reset(w, w1, [names[0]]) && names[0] in w1.databases && Reset(w1, w2, names[1..])
    ensures Reset(w, w2, names)
  {
    assert names == [names[0]] + names[1..];
    assert names[0] !in names[1..];
    forall other | other !in names ensures Same(w, w2, other) {
      assert Same(w, w1, other) && Same(w1, w2, other);
    }
    forall name ensures Shrinks(w, w2, name) {
      assert Shrinks(w, w1, name) && Shrinks(w1, w2, name);
    }
    forall a, b | Lost(w, w2, a) && Lost(w, w2, b) ensures a == b {
      LostLater(w, w1, w2, names, a);
      LostLater(w, w1, w2, names, b);
    }
  }

  lemma LostLater(w: World, w1: World, w2: World, names: seq<string>, a: string)
    requires names != [] && Distinct(names)
    requires OnlyTouchesAll(w, w1, [names[0]]) && names[0] in w1.databases && Lost(w, w2, a)
    ensures Lost(w1, w2, a)
  {
    if a != names[0] {
      assert Same(w, w1, a);
    }
  }

  lemma ReadyStays(w: World, w': World, names: seq<string>, name: string)
    requires Ready(w, name) && OnlyTouchesAll(w, w', names) && name !in names
    ensures Ready(w', name)
  {
    assert Same(w, w', name);
  }

  /** What a run over some databases has done when it comes through. */
  ghost predicate Reported(w: World, w': World, names: seq<string>, before: Report, after: Report) {
    && (forall name | name in names :: Ready(w', name))
    && after == Report(before.dropped + DroppedAmong(w, names), before.recreated + names, before.destroyed)
  }

  lemma ReportsJoin(w: World, w1: World, w2: World, names: seq<string>, before: Report, after: Report)
    requires names != [] && Distinct(names) && Ready(w1, names[0])
    requires Reset(w, w1, [names[0]]) && Reset(w1, w2, names[1..])
    requires Reported(w1, w2, names[1..], Next(before, names[0], names[0] in w.databases), after)
    ensures Reported(w, w2, names, before, after)
  {
    assert names[0] !in names[1..];
    assert names == [names[0]] + names[1..];
    ReadyStays(w1, w2, names[1..], names[0]);
    DroppedRest(w, w1, names);
    hide Ready, Same, DroppedAmong;
  }

  lemma {:induction false} ResetEachFacts(w: World, names: seq<string>, report: Report)
    requires Distinct(names)
    ensures var run := ResetEach(w, names, report);
      && Reset(w, run.world, names)
      && (run.result.Done? ==> Reported(w, run.world, names, report, run.result.value))
    decreases |names|
  {
    if names == [] {
      assert report.dropped + [] == report.dropped && report.recreated + [] == report.recreated;
    } else {
      ResetOneFacts(w, names[0]);
      var one := ResetOne(w, names[0]);
      OneResets(w, one.world, names[0]);
      hide ResetOne, OnlyTouches, Left, Reset, Reported;
      if one.result.Done? {
        assert Distinct(names[1..]);
        var next := Next(report, names[0], one.result.value);
        ResetEachFacts(one.world, names[1..], next);
        var run := ResetEach(w, names, report);
        assert run == ResetEach(one.world, names[1..], next);
        ResetsJoin(w, one.world, run.world, names);
        if run.result.Done? {
          ReportsJoin(w, one.world, run.world, names, report, run.result.value);
        }
      } else {
        StoppedResets(w, one.world, names);
      }
    }
  }

  lemma DroppedRest(w: World, w1: World, names: seq<string>)
    requires names != [] && names[0] !in names[1..] && OnlyTouchesAll(w, w1, [names[0]])
    ensures DroppedAmong(w, names)
      == (if names[0] in w.databases then [names[0]] else []) + DroppedAmong(w1, names[1..])
  {
    forall name | name in names[1..] ensures name in w.databases <==> name in w1.databases {
      assert Same(w, w1, name);
    }
    DroppedSame(w, w1, names[1..]);
  }

  lemma StoppedResets(w: World, w': World, names: seq<string>)
    requires names != [] && Reset(w, w', [names[0]])
    ensures Reset(w, w', names)
  {
  }

  // ---------- the whole reset ----------

  lemma {:induction false} DestroyEachFacts(w: World, paths: seq<string>, n: nat)
    requires forall path | path in paths :: H.ROOT <= path
    ensures var run := DestroyEach(w, paths, n);
      && run.world == w.(secrets := run.world.secrets, script := run.world.script)
      && w.secrets - (set path | path in paths) <= run.world.secrets <= w.secrets
      && (run.result.Done? ==>
            && run.world.secrets == w.secrets - (set path | path in paths)
            && run.result.value == n + |paths|)
      && (run.result.Done? || Interrupted(run.result))
    decreases |paths|
  {
    if paths != [] {
      assert paths == [paths[0]] + paths[1..];
      assert paths[0] in paths && forall path | path in paths[1..] :: path in paths;
      var (w1, e) := Call(w);
      if e.fate.Served? {
        DestroyEachFacts(w1.(secrets := w1.secrets - {paths[0]}), paths[1..], n + 1);
      }
    }
  }

  lemma AppsDistinct()
    ensures Distinct(APPS) && "openbao" !in APPS && "hilt" in APPS
  {
  }

  /** What the destruction may have done. */
  ghost predicate Destroyed(w: World, w': World) {
    && w' == w.(secrets := w'.secrets, script := w'.script)
    && w.secrets - H.Under(w.secrets, H.ROOT) <= w'.secrets <= w.secrets
  }

  function Destroy(w: World): Run<World, nat> {
    var (w, paths) :- ListSecrets(w);
    DestroyEach(w, paths, 0)
  }

  /** What a walk comes to, from some folder. */
  ghost predicate Walks(w: World, folder: string, result: Result<seq<string>>) {
    && (result.Done? ==> H.Lists(result.value, H.Under(w.secrets, folder)) && H.Clean(w.secrets, folder))
    && (result.Done? || Interrupted(result) || (result == Failed(None, Declined) && !H.Clean(w.secrets, folder)))
  }

  /** A walk that comes through returns every path under the folder, each once; only a path
      that ends in a slash makes it fail of its own accord. */
  lemma {:induction false} WalkFacts(w: World, folder: string)
    requires H.IsFolder(folder)
    ensures Walks(w, folder, Walk(w, folder).result)
    decreases H.LongestOf(w.secrets) + 1 - |folder|, 1, 0, 0
  {
    var (w1, e) := Call(w);
    if e.fate.Served? && Lists(e.listing, H.KeysIn(w1.secrets, folder)) {
      var keys := e.listing;
      assert forall key | key in keys :: key in (set name | name in keys);
      assert [] + keys == keys;
      assert H.Behind(w1.secrets, folder, []) == {};
      assert forall key | key in H.KeysIn(w1.secrets, folder) :: key in keys;
      WalkKeysFacts(w1, folder, [], keys, []);
    }
    hide WalkKeys;
  }

  lemma {:induction false} WalkKeysFacts(w: World, folder: string, earlier: seq<string>, keys: seq<string>,
        paths: seq<string>)
    requires H.IsFolder(folder) && H.Lists(earlier + keys, H.KeysIn(w.secrets, folder))
    requires forall key | key in keys :: key in H.KeysIn(w.secrets, folder)
    requires H.Lists(paths, H.Behind(w.secrets, folder, earlier))
    requires forall path | path in H.Behind(w.secrets, folder, earlier) :: !H.Unlistable(path)
    ensures Walks(w, folder, WalkKeys(w, folder, keys, paths).result)
    decreases H.LongestOf(w.secrets) + 1 - |folder|, 0, |keys|, 1
  {
    if keys == [] {
      assert earlier + [] == earlier;
      AllBehind(w.secrets, folder, earlier);
    } else {
      var key, more := keys[0], earlier + [keys[0]];
      assert key in keys && forall k | k in keys[1..] :: k in keys;
      assert more + keys[1..] == earlier + keys;
      assert (earlier + keys)[|earlier|] == key;
      forall k | 0 <= k < |earlier| ensures earlier[k] != key {
        assert (earlier + keys)[k] != (earlier + keys)[|earlier|];
      }
      H.KeyFitsIn(w.secrets, folder, key);
      if key == "" {
        assert folder in H.Under(w.secrets, folder);
      } else {
        H.BehindOne(w.secrets, folder, key);
        H.BehindMore(w.secrets, folder, earlier, key);
        if H.IsFolder(key) {
          WalkFolderFacts(w, folder, earlier, keys, paths);
        } else {
          H.ListsMore(paths, [folder + key], H.Behind(w.secrets, folder, earlier), {folder + key});
          WalkKeysFacts(w, folder, more, keys[1..], paths + [folder + key]);
        }
      }
    }
  }

  lemma AllBehind(secrets: set<string>, folder: string, keys: seq<string>)
    requires H.Lists(keys, H.KeysIn(secrets, folder))
    ensures H.Behind(secrets, folder, keys) == H.Under(secrets, folder)
  {
  }

  lemma {:induction false} WalkFolderFacts(w: World, folder: string, earlier: seq<string>, keys: seq<string>,
        paths: seq<string>)
    requires H.IsFolder(folder) && keys != [] && H.IsFolder(keys[0])
    requires H.Lists(earlier + keys, H.KeysIn(w.secrets, folder))
    requires forall key | key in keys :: key in H.KeysIn(w.secrets, folder)
    requires H.Lists(paths, H.Behind(w.secrets, folder, earlier))
    requires forall path | path in H.Behind(w.secrets, folder, earlier) :: !H.Unlistable(path)
    requires H.Behind(w.secrets, folder, [keys[0]]) == H.Under(w.secrets, folder + keys[0])
    requires H.Behind(w.secrets, folder, earlier + [keys[0]])
      == H.Behind(w.secrets, folder, earlier) + H.Behind(w.secrets, folder, [keys[0]])
    requires H.Behind(w.secrets, folder, earlier) !! H.Behind(w.secrets, folder, [keys[0]])
    requires |folder + keys[0]| <= H.LongestOf(w.secrets)
    ensures Walks(w, folder, WalkKeys(w, folder, keys, paths).result)
    decreases H.LongestOf(w.secrets) + 1 - |folder|, 0, |keys|, 0
  {
    var key := keys[0];
    assert key in keys && forall k | k in keys[1..] :: k in keys;
    WalkFacts(w, folder + key);
    var nested := Walk(w, folder + key);
    if nested.result.Done? {
      assert nested.world.secrets == w.secrets;
      H.ListsMore(paths, nested.result.value, H.Behind(w.secrets, folder, earlier), H.Under(w.secrets, folder + key));
      assert earlier + [key] + keys[1..] == earlier + keys;
      WalkKeysFacts(nested.world, folder, earlier + [key], keys[1..], paths + nested.result.value);
    } else {
      assert H.Under(w.secrets, folder + key) <= H.Under(w.secrets, folder);
    }
    hide Walk;
  }

  /** The destruction never meets its own refusal, and when it comes through has destroyed
      all that was under the root, and counted it. Only a path that ends in a slash keeps the
      walk before it from coming through, short of an interruption. */
  lemma DestroyFacts(w: World)
    ensures var run := Destroy(w);
      && Destroyed(w, run.world)
      && (run.result.Done? || Interrupted(run.result)
          || (run.result == Failed(None, Declined) && !H.Clean(w.secrets, H.ROOT) && run.world.secrets == w.secrets))
      && (run.result.Done? ==>
            && run.world.secrets == w.secrets - H.Under(w.secrets, H.ROOT)
            && run.result.value == |H.Under(w.secrets, H.ROOT)|)
      && (!H.Clean(w.secrets, H.ROOT) ==> !run.result.Done? && run.world.secrets == w.secrets)
  {
    WalkFacts(w, H.ROOT);
    hide Walk;
    var listed := ListSecrets(w);
    if listed.result.Done? {
      var paths := listed.result.value;
      forall path | path in paths ensures H.ROOT <= path {
        assert path in H.Under(w.secrets, H.ROOT);
      }
      DestroyEachFacts(listed.world, paths, 0);
      assert (set path | path in paths) == H.Under(w.secrets, H.ROOT);
      H.CountDistinct(paths, H.Under(w.secrets, H.ROOT));
    }
  }

  /** What every stop leaves: at most one more database missing, every other database and
      role as it was, openbao's among them, every secret that a row of hilt's refers to, and
      every secret outside the tenants' root. */
  ghost predicate Safe(w: World, w': World) {
    && AtMostOneLost(w, w')
    && (forall name | name !in APPS :: Same(w, w', name))
    && Same(w, w', "openbao")
    && Referential(w')
    && w.secrets - H.Under(w.secrets, H.ROOT) <= w'.secrets <= w.secrets
  }

  /** What a reset that comes through leaves: each app's database there and empty, owned by
      the role of its name, which has the stored password; and no tenant secret. */
  ghost predicate Fresh(w: World, w': World, report: Report) {
    && (forall name | name in APPS :: Ready(w', name))
    && w'.secrets == w.secrets - H.Under(w.secrets, H.ROOT)
    && report == Report(DroppedAmong(w, APPS), APPS, |H.Under(w.secrets, H.ROOT)|)
  }

  lemma DatabasesSafe(w: World, w': World)
    requires Referential(w) && Reset(w, w', APPS)
    ensures Safe(w, w')
  {
    AppsDistinct();
    assert Shrinks(w, w', "hilt");
  }

  lemma SecretsSafe(w: World, w1: World, w': World)
    requires Safe(w, w1) && w1.secrets == w.secrets && Ready(w1, "hilt") && Destroyed(w1, w')
    ensures Safe(w, w')
  {
    forall a, b | Lost(w, w', a) && Lost(w, w', b) ensures a == b {
      assert Lost(w, w1, a) && Lost(w, w1, b);
    }
    forall name | name !in APPS ensures Same(w, w', name) {
      assert Same(w, w1, name);
    }
    AppsDistinct();
  }

  /** A reset that comes through leaves everything fresh. */
  lemma CompletedResetIsFresh(w: World)
    ensures ApplyReset(w).result.Done? ==> Fresh(w, ApplyReset(w).world, ApplyReset(w).result.value)
  {
    AppsDistinct();
    var start := Report([], [], 0);
    ResetEachFacts(w, APPS, start);
    AsParts(w);
    var each := ResetEach(w, APPS, start);
    DestroyFacts(each.world);
    var destroyed := Destroy(each.world);
    assert each.world.secrets == w.secrets;
    hide Destroy, ResetEach, Reset, ApplyReset;
    if ApplyReset(w).result.Done? {
      FreshOn(w, each.world, destroyed.world, each.result.value, destroyed.result.value);
    }
  }

  /** A reset stopped anywhere is safe. */
  lemma StoppedResetIsSafe(w: World)
    requires Referential(w)
    ensures Safe(w, ApplyReset(w).world)
  {
    AppsDistinct();
    var start := Report([], [], 0);
    ResetEachFacts(w, APPS, start);
    AsParts(w);
    var each := ResetEach(w, APPS, start);
    DatabasesSafe(w, each.world);
    if each.result.Done? {
      DestroyFacts(each.world);
      assert Ready(each.world, "hilt");
      assert each.world.secrets == w.secrets;
      SecretsSafe(w, each.world, Destroy(each.world).world);
    }
  }

  /** The reset is its two parts. */
  lemma AsParts(w: World)
    ensures var each, run := ResetEach(w, APPS, Report([], [], 0)), ApplyReset(w);
      if !each.result.Done? then run.world == each.world && run.result == each.result
      else var destroyed := Destroy(each.world);
        && run.world == destroyed.world && (run.result.Done? <==> destroyed.result.Done?)
        && (Interrupted(destroyed.result) ==> Interrupted(run.result))
        && (run.result.Done? ==> run.result.value == each.result.value.(destroyed := destroyed.result.value))
  {
    hide ResetEach, DestroyEach, ListSecrets;
  }

  lemma FreshOn(w: World, w1: World, w': World, report: Report, n: nat)
    requires Reported(w, w1, APPS, Report([], [], 0), report) && Destroyed(w1, w') && w1.secrets == w.secrets
    requires w'.secrets == w1.secrets - H.Under(w1.secrets, H.ROOT) && n == |H.Under(w1.secrets, H.ROOT)|
    ensures Fresh(w, w', report.(destroyed := n))
  {
    hide DroppedAmong;
    assert [] + DroppedAmong(w, APPS) == DroppedAmong(w, APPS) && [] + APPS == APPS;
    forall name | name in APPS ensures Ready(w', name) {
      assert Ready(w1, name);
    }
  }

  /** A completed reset keeps a database's owner exactly when that was the role of its name. */
  lemma OwnerKeptExactlyWhen(w: World, name: string)
    requires name in APPS && name in w.databases
    ensures var run := ApplyReset(w);
      run.result.Done? ==>
        && name in run.world.databases
        && (run.world.databases[name].owner == w.databases[name].owner <==> w.databases[name].owner == name)
  {
    CompletedResetIsFresh(w);
    hide ApplyReset;
    assert ApplyReset(w).result.Done? ==> Ready(ApplyReset(w).world, name);
  }

  // ---------- what a reset needs ----------

  /** Postgres keeps the role of a database that it owns. */
  predicate OwnersExist(w: World) {
    forall db | db in w.databases :: w.databases[db].owner in w.roles
  }

  predicate Passworded(w: World, name: string) {
    name in w.stored && Hex(w.stored[name])
  }

  predicate AllPassworded(w: World, names: seq<string>) {
    forall name | name in names :: Passworded(w, name)
  }

  /** What a reset needs: every app's stored password is there and hex, and no tenant secret's
      path ends in a slash. */
  ghost predicate Resettable(w: World) {
    AllPassworded(w, APPS) && H.Clean(w.secrets, H.ROOT)
  }

  lemma DropEnds(w: World, name: string)
    ensures (name in w.databases ==> w.databases[name].owner in w.roles) ==>
      Drop(w, name).result.Done? || Interrupted(Drop(w, name).result)
    ensures !(Drop(w, name).result.Failed? && Drop(w, name).result.cause.Declined?)
    ensures Drop(w, name).world.roles == w.roles
  {
  }

  lemma RolesStay(w: World, name: string, password: string)
    ensures w.roles.Keys <= EnsureOwned(w, name, name, password).world.roles.Keys
  {
    EnsureLoginRoleFacts(w, name, password);
    var role := EnsureLoginRole(w, name, password);
    forall r | r in w.roles ensures r in role.world.roles {
      assert r != name ==> r in w.roles - {name};
      assert r in role.world.roles - {name} ==> r in role.world.roles;
    }
    if role.result.Done? {
      EnsureDatabaseFacts(role.world, name, name);
    }
    hide EnsureLoginRole, EnsureDatabase;
  }

  /** A database that is created has its owner. */
  lemma OwnersStayEnsured(w: World, name: string, password: string)
    requires OwnersExist(w)
    ensures OwnersExist(EnsureOwned(w, name, name, password).world)
  {
    EnsureLoginRoleFacts(w, name, password);
    RolesStay(w, name, password);
    var role := EnsureLoginRole(w, name, password);
    if role.result.Done? {
      EnsureDatabaseFacts(role.world, name, name);
    }
    hide EnsureLoginRole, EnsureDatabase;
  }

  lemma OwnersStayOne(w: World, name: string)
    requires OwnersExist(w)
    ensures OwnersExist(ResetOne(w, name).world)
  {
    hide Drop, Ensure, EnsureOwned;
    var password := GetPassword(w, name);
    if password.result.Done? {
      DropFacts(password.world, name);
      var dropped := Drop(password.world, name);
      DropEnds(password.world, name);
      assert OwnersExist(dropped.world);
      EnsureSingle(dropped.world, name, password.result.value);
      OwnersStayEnsured(dropped.world, name, password.result.value);
    }
  }

  lemma ResetOneEnds(w: World, name: string)
    requires OwnersExist(w) && Passworded(w, name)
    ensures ResetOne(w, name).result.Done? || Interrupted(ResetOne(w, name).result)
  {
    hide Drop, Ensure, EnsureOwned;
    var password := GetPassword(w, name);
    if password.result.Done? {
      var pw := password.result.value;
      DropEnds(password.world, name);
      var dropped := Drop(password.world, name);
      EnsureSingle(dropped.world, name, pw);
      EnsureOwnedDeclinesNothing(dropped.world, name, name, pw);
    }
  }

  /** Short of an interruption, a reset of one database declines exactly when its stored
      password is not hex, and the database is then gone. */
  lemma ResetOneDeclinesExactlyWhen(w: World, name: string)
    requires name in w.databases ==> w.databases[name].owner in w.roles
    ensures var run := ResetOne(w, name);
      var declined := run.result == Failed(None, Declined) && run.world.databases == w.databases - {name};
      && (name in w.stored && !Hex(w.stored[name]) ==> declined || Interrupted(run.result))
      && (run.result.Failed? && run.result.cause.Declined? ==>
            declined && name in w.stored && !Hex(w.stored[name]))
  {
    hide Drop, Ensure, EnsureOwned, Hex;
    var password := GetPassword(w, name);
    if password.result.Done? {
      var pw := password.result.value;
      DropEnds(password.world, name);
      DropFacts(password.world, name);
      var dropped := Drop(password.world, name);
      EnsureSingle(dropped.world, name, pw);
      EnsureOwnedDeclinesNothing(dropped.world, name, name, pw);
    }
  }

  lemma PasswordedRest(w: World, w1: World, names: seq<string>)
    requires names != [] && w1.stored == w.stored && AllPassworded(w, names)
    ensures Passworded(w, names[0]) && AllPassworded(w1, names[1..])
  {
    assert names == [names[0]] + names[1..];
    forall name | name in names[1..] ensures Passworded(w1, name) {
      assert Passworded(w, name);
    }
  }

  lemma {:induction false} OwnersStayEach(w: World, names: seq<string>, report: Report)
    requires OwnersExist(w)
    ensures OwnersExist(ResetEach(w, names, report).world)
    decreases |names|
  {
    hide ResetOne, OwnersExist;
    if names != [] {
      OwnersStayOne(w, names[0]);
      var one := ResetOne(w, names[0]);
      if one.result.Done? {
        OwnersStayEach(one.world, names[1..], Next(report, names[0], one.result.value));
      }
    }
  }

  lemma {:induction false} ResetEachEnds(w: World, names: seq<string>, report: Report)
    requires OwnersExist(w) && AllPassworded(w, names)
    ensures ResetEach(w, names, report).result.Done? || Interrupted(ResetEach(w, names, report).result)
    decreases |names|
  {
    hide ResetOne, OwnersExist, Left, Ready, Passworded, AllPassworded;
    if names != [] {
      OwnersStayOne(w, names[0]);
      ResetOneFacts(w, names[0]);
      var one := ResetOne(w, names[0]);
      PasswordedRest(w, one.world, names);
      ResetOneEnds(w, names[0]);
      if one.result.Done? {
        ResetEachEnds(one.world, names[1..], Next(report, names[0], one.result.value));
      }
    }
  }

  /** Short of an interruption a reset comes through exactly where every app's stored password
      is there and hex and no tenant secret's path ends in a slash. */
  lemma ResetComesThroughExactlyWhen(w: World)
    ensures var run := ApplyReset(w);
      && (OwnersExist(w) && Resettable(w) ==> run.result.Done? || Interrupted(run.result))
      && (!Resettable(w) ==> !run.result.Done?)
  {
    CompletedResetIsFresh(w);
    ResetKeeps(w);
    AsParts(w);
    var each := ResetEach(w, APPS, Report([], [], 0));
    DestroyFacts(each.world);
    hide ApplyReset, ResetEach, Destroy, Hex;
    if OwnersExist(w) && Resettable(w) {
      ResetEachEnds(w, APPS, Report([], [], 0));
    }
    if ApplyReset(w).result.Done? {
      forall name | name in APPS ensures Passworded(w, name) {
        assert Ready(ApplyReset(w).world, name);
      }
    }
  }

  /** However a reset ends, what the next one needs is there exactly as it was before. */
  lemma ResetKeeps(w: World)
    ensures var w' := ApplyReset(w).world;
      && w'.stored == w.stored
      && (H.Clean(w'.secrets, H.ROOT) <==> H.Clean(w.secrets, H.ROOT))
      && (OwnersExist(w) ==> OwnersExist(w'))
    ensures ResetEach(w, APPS, Report([], [], 0)).world.secrets == w.secrets
  {
    AppsDistinct();
    ResetEachFacts(w, APPS, Report([], [], 0));
    AsParts(w);
    var each := ResetEach(w, APPS, Report([], [], 0));
    DestroyFacts(each.world);
    hide ApplyReset, ResetEach, Destroy;
    if OwnersExist(w) {
      OwnersStayEach(w, APPS, Report([], [], 0));
    }
  }

  // ---------- running it again ----------

  /** Resets one after the other, each stopped wherever its script has it stop. */
  function Reruns(w: World, scripts: seq<seq<Event>>): World
    decreases |scripts|
  {
    if scripts == [] then w else Reruns(ApplyReset(w.(script := scripts[0])).world, scripts[1..])
  }

  lemma {:induction false} RerunsKeep(w: World, scripts: seq<seq<Event>>)
    ensures Resettable(Reruns(w, scripts)) <==> Resettable(w)
    ensures OwnersExist(w) ==> OwnersExist(Reruns(w, scripts))
    decreases |scripts|
  {
    if scripts != [] {
      ResetKeeps(w.(script := scripts[0]));
      hide ApplyReset, H.Clean;
      RerunsKeep(ApplyReset(w.(script := scripts[0])).world, scripts[1..]);
    }
  }

  /** Running the phase again finishes the job, after any number of runs that stopped or
      failed anywhere and short of an interruption, exactly where every app's stored password
      was there and hex and no tenant secret's path ended in a slash to begin with. */
  lemma RerunFinishesExactlyWhen(w: World, scripts: seq<seq<Event>>, script: seq<Event>)
    requires OwnersExist(w)
    ensures var run := ApplyReset(Reruns(w, scripts).(script := script));
      && (Resettable(w) ==> run.result.Done? || Interrupted(run.result))
      && (!Resettable(w) ==> !run.result.Done?)
  {
    RerunsKeep(w, scripts);
    hide ApplyReset, H.Clean;
    var end := Reruns(w, scripts).(script := script);
    assert OwnersExist(end) && (Resettable(end) <==> Resettable(w));
    ResetComesThroughExactlyWhen(end);
  }
}
