/** The reset as the Lambda runs it: statement by statement on the instance and on OpenBao. */
module ResetStage {
  import opened Outcomes
  import H = HiltSecrets
  import D = DbInit
  import R = ResetApps

  class Stage {
    var databases: map<string, D.Database>
    var roles: map<string, D.Role>
    var member: set<string>
    var stored: map<string, string>
    var secrets: set<string>
    var script: seq<D.Event>

    ghost function Now(): D.World
      reads this
    {
      D.World(databases, roles, member, stored, secrets, script)
    }

    method Await() returns (r: Result<()>, listing: seq<string>)
      modifies this`script
      ensures var (w, e) := D.Call(old(Now()));
        Run(Now(), r) == Reply(e.fate, w, w, ()) && listing == e.listing
    {
      if script == [] { return Stopped, []; }
      listing := script[0].listing;
      r := Answer(script[0].fate);
      script := script[1..];
    }

    method Exec() returns (r: Result<()>)
      modifies this`script
      ensures Run(Now(), r) == D.Ask(old(Now()))
    {
      var unused;
      r, unused := Await();
    }

    method Grant(role: string) returns (r: Result<()>)
      modifies this
      ensures Run(Now(), r) == D.Grant(old(Now()), role)
    {
      r := Exec();
      if r.IsFailure() { return; }
      if role !in roles { return Failed(None, Rejected); }
      member := member + {role};
    }

    /** dbinit.Drop: the database goes, and its role stays. */
    method Drop(name: string) returns (r: Result<bool>)
      modifies this
      ensures Run(Now(), r) == D.Drop(old(Now()), name)
      ensures roles == old(roles) && (databases == old(databases) || databases == old(databases) - {name})
      ensures r.Done? ==> name !in databases && r.value == (name in old(databases))
    {
      var read := Exec();
      if read.IsFailure() { return read.PropagateFailure(); }
      if name !in databases { return Done(false); }
      var granted := Grant(databases[name].owner);
      if granted.IsFailure() { return granted.PropagateFailure(); }
      var dropped := Exec();
      if dropped.IsFailure() { return dropped.PropagateFailure(); }
      if databases[name].owner !in member { return Failed(None, Rejected); }
      databases := databases - {name};
      r := Done(true);
    }

    method SetPassword(role: string, password: string) returns (r: Result<()>)
      modifies this
      ensures Run(Now(), r) == D.SetPassword(old(Now()), role, password)
    {
      r := Exec();
      if r.IsFailure() { return; }
      if role !in roles { return Failed(None, Rejected); }
      assert roles[role].settings + map[] == roles[role].settings;
      roles := roles[role := roles[role].(password := Some(password))];
    }

    method SetDefault(role: string, setting: D.Setting) returns (r: Result<()>)
      modifies this
      ensures Run(Now(), r) == D.SetDefault(old(Now()), role, setting)
    {
      r := Exec();
      if r.IsFailure() { return; }
      if role !in roles { return Failed(None, Rejected); }
      roles := roles[role := roles[role].(settings := roles[role].settings + map[setting.name := setting.value])];
    }

    /** dbinit.ensureLoginRole. */
    method EnsureLoginRole(role: string, password: string) returns (r: Result<()>)
      modifies this
      ensures Run(Now(), r) == D.EnsureLoginRole(old(Now()), role, password)
    {
      hide D.SetPassword;
      r := Exec();
      if r.IsFailure() { return; }
      if role !in roles {
        r := Exec();
        if r.IsFailure() { return; }
        roles := roles[role := D.Role(None, map[])];
      }
      r := SetPassword(role, password);
    }

    method EnsureDatabase(name: string, owner: string) returns (r: Result<()>)
      modifies this
      ensures Run(Now(), r) == D.EnsureDatabase(old(Now()), name, owner)
    {
      r := Exec();
      if r.IsFailure() { return; }
      if name in databases { return Done(()); }
      r := Grant(owner);
      if r.IsFailure() { return; }
      r := Exec();
      if r.IsFailure() { return; }
      if owner !in member { return Failed(None, Rejected); }
      databases := databases[name := D.Database(owner, {})];
    }

    method EnsureSettings(role: string, settings: seq<D.Setting>) returns (r: Result<()>)
      modifies this
      ensures Run(Now(), r) == D.EnsureSettings(old(Now()), role, settings)
    {
      hide D.SetDefault;
      for i := 0 to |settings|
        invariant D.EnsureSettings(Now(), role, settings[i..]) == D.EnsureSettings(old(Now()), role, settings)
      {
        assert settings[i..][0] == settings[i] && settings[i..][1..] == settings[i + 1..];
        r := SetDefault(role, settings[i]);
        if r.IsFailure() { return; }
      }
      r := Done(());
    }

    method EnsureRoles(loginRoles: seq<D.LoginRole>) returns (r: Result<()>)
      modifies this
      ensures Run(Now(), r) == D.EnsureRoles(old(Now()), loginRoles)
    {
      hide D.EnsureLoginRole, D.EnsureSettings;
      for i := 0 to |loginRoles|
        invariant D.EnsureRoles(Now(), loginRoles[i..]) == D.EnsureRoles(old(Now()), loginRoles)
      {
        assert loginRoles[i..][0] == loginRoles[i] && loginRoles[i..][1..] == loginRoles[i + 1..];
        r := EnsureLoginRole(loginRoles[i].name, loginRoles[i].password);
        if r.IsFailure() { return; }
        r := EnsureSettings(loginRoles[i].name, loginRoles[i].settings);
        if r.IsFailure() { return; }
      }
      r := Done(());
    }

    /** dbinit.ensureOne. */
    method EnsureOne(wanted: D.Wanted) returns (r: Result<()>)
      modifies this
      ensures Run(Now(), r) == D.EnsureOne(old(Now()), wanted)
    {
      hide D.EnsureLoginRole, D.EnsureDatabase, D.EnsureRoles;
      r := EnsureLoginRole(wanted.OwnerRole(), wanted.password);
      if r.IsFailure() { return; }
      r := EnsureDatabase(wanted.name, wanted.OwnerRole());
      if r.IsFailure() { return; }
      r := EnsureRoles(wanted.loginRoles);
    }

    /** dbinit.validate. */
    static method Validate(wanted: D.Wanted) returns (valid: bool)
      ensures valid == D.Valid(wanted)
    {
      hide D.Hex, D.ValidSetting;
      if !D.Hex(wanted.password) { return false; }
      for i := 0 to |wanted.loginRoles|
        invariant forall k | 0 <= k < i :: D.ValidRole(wanted.loginRoles[k])
      {
        var role := wanted.loginRoles[i];
        if !D.Hex(role.password) { return false; }
        for j := 0 to |role.settings|
          invariant forall k | 0 <= k < j :: D.ValidSetting(role.settings[k])
        {
          if !D.ValidSetting(role.settings[j]) { return false; }
        }
      }
      valid := true;
    }

    /** dbinit.Ensure: all are checked, and then all are ensured. It declines exactly when an
        input is bad, and has done nothing then. */
    method Ensure(wanted: seq<D.Wanted>) returns (r: Result<()>)
      modifies this
      ensures Run(Now(), r) == D.Ensure(old(Now()), wanted)
      ensures r.Failed? && r.cause.Declined? <==> !D.AllValid(wanted)
      ensures !D.AllValid(wanted) ==> Now() == old(Now())
    {
      hide D.EnsureOne, D.Valid;
      D.EnsureDeclinesExactlyWhen(Now(), wanted);
      for i := 0 to |wanted|
        invariant Now() == old(Now())
        invariant forall k | 0 <= k < i :: D.Valid(wanted[k])
      {
        var valid := Validate(wanted[i]);
        if !valid { return Failed(None, Declined); }
      }
      for i := 0 to |wanted|
        invariant D.EnsureEach(Now(), wanted[i..]) == D.EnsureEach(old(Now()), wanted)
      {
        assert wanted[i..][0] == wanted[i] && wanted[i..][1..] == wanted[i + 1..];
        r := EnsureOne(wanted[i]);
        if r.IsFailure() { return; }
      }
      r := Done(());
    }

    method ResetOne(name: string) returns (r: Result<bool>)
      modifies this
      ensures Run(Now(), r) == R.ResetOne(old(Now()), name)
    {
      hide D.Drop, D.Ensure;
      var got := Exec();
      if got.IsFailure() { return got.PropagateFailure(); }
      if name !in stored { return Failed(None, Rejected); }
      var password := stored[name];
      r := Drop(name);
      if r.IsFailure() { return; }
      var ensured := Ensure([R.App(name, password)]);
      if ensured.IsFailure() { return ensured.PropagateFailure(); }
    }

    /** listHiltSecrets: one list call for the folder, and a walk of its own for each folder in it. */
    method Walk(folder: string) returns (r: Result<seq<string>>)
      requires H.IsFolder(folder)
      modifies this`script
      ensures Run(Now(), r) == R.Walk(old(Now()), folder)
      decreases H.LongestOf(secrets) + 1 - |folder|
    {
      var asked, keys := Await();
      if asked.IsFailure() { return asked.PropagateFailure(); }
      if !R.Lists(keys, H.KeysIn(secrets, folder)) { return Failed(None, Transport); }
      assert forall key | key in keys :: key in (set name | name in keys);
      hide R.Lists, R.Walk, H.KeysIn, H.LongestOf;
      var paths: seq<string> := [];
      ghost var listed := Now();
      for i := 0 to |keys|
        invariant forall key | key in keys :: key in H.KeysIn(secrets, folder)
        invariant R.WalkKeys(Now(), folder, keys[i..], paths) == R.WalkKeys(listed, folder, keys, [])
      {
        var key := keys[i];
        assert keys[i..][0] == key && keys[i..][1..] == keys[i + 1..];
        if key == "" { return Failed(None, Declined); }
        if H.IsFolder(key) {
          H.KeyFitsIn(secrets, folder, key);
          var nested := Walk(folder + key);
          if nested.IsFailure() { return nested; }
          paths := paths + nested.value;
        } else {
          paths := paths + [folder + key];
        }
      }
      r := Done(paths);
    }

    /** ListHiltSecrets: where it comes through, every path under the root, each once; and of
        its own accord it fails over a path that ends in a slash alone. */
    method ListSecrets() returns (r: Result<seq<string>>)
      modifies this`script
      ensures Run(Now(), r) == R.ListSecrets(old(Now()))
      ensures R.Walks(old(Now()), H.ROOT, r)
    {
      R.WalkFacts(Now(), H.ROOT);
      hide R.Walk, R.Walks;
      r := Walk(H.ROOT);
    }

    /** The loop over the app databases. */
    method ResetEach() returns (r: Result<R.Report>)
      modifies this
      ensures Run(Now(), r) == R.ResetEach(old(Now()), R.APPS, R.Report([], [], 0))
    {
      hide R.ResetOne;
      var report := R.Report([], [], 0);
      for i := 0 to |R.APPS|
        invariant R.ResetEach(Now(), R.APPS[i..], report) == R.ResetEach(old(Now()), R.APPS, R.Report([], [], 0))
      {
        assert R.APPS[i..][0] == R.APPS[i] && R.APPS[i..][1..] == R.APPS[i + 1..];
        var dropped := ResetOne(R.APPS[i]);
        if dropped.IsFailure() { return dropped.PropagateFailure(); }
        report := R.Next(report, R.APPS[i], dropped.value);
      }
      assert R.APPS[|R.APPS|..] == [];
      r := Done(report);
    }

    /** The loop over the listed secrets. */
    method DestroyEach(paths: seq<string>) returns (r: Result<nat>)
      modifies this
      ensures Run(Now(), r) == R.DestroyEach(old(Now()), paths, 0)
    {
      var n := 0;
      for i := 0 to |paths|
        invariant R.DestroyEach(Now(), paths[i..], n) == R.DestroyEach(old(Now()), paths, 0)
      {
        assert paths[i..][0] == paths[i] && paths[i..][1..] == paths[i + 1..];
        if !(H.ROOT <= paths[i]) { return Failed(None, Declined); }
        var gone := Exec();
        if gone.IsFailure() { return gone.PropagateFailure(); }
        secrets := secrets - {paths[i]};
        n := n + 1;
      }
      r := Done(n);
    }

    /** applyResetApps. Stopped anywhere it leaves at most one more database missing, nothing
        else changed, and every secret that hilt's rows refer to; where it comes through,
        everything is fresh. */
    method ApplyReset() returns (r: Result<R.Report>)
      modifies this
      ensures Run(Now(), r) == R.ApplyReset(old(Now()))
      ensures R.Referential(old(Now())) ==> R.Safe(old(Now()), Now())
      ensures r.Done? ==> R.Fresh(old(Now()), Now(), r.value)
    {
      hide R.ApplyReset, R.Referential, R.Safe, R.Fresh;
      r := ResetAndDestroy();
      R.CompletedResetIsFresh(old(Now()));
      if R.Referential(old(Now())) {
        R.StoppedResetIsSafe(old(Now()));
      }
    }

    method ResetAndDestroy() returns (r: Result<R.Report>)
      modifies this
      ensures Run(Now(), r) == R.ApplyReset(old(Now()))
    {
      hide R.ResetEach, R.ListSecrets, R.DestroyEach, R.Walks;
      r := ResetEach();
      if r.IsFailure() { return; }
      var paths := ListSecrets();
      if paths.IsFailure() { return paths.PropagateFailure(); }
      var n := DestroyEach(paths.value);
      if n.IsFailure() { return n.PropagateFailure(); }
      r := Done(r.value.(destroyed := n.value));
    }
  }
}
