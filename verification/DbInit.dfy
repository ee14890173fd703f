/** Databases and the roles that reach them: what dbinit ensures, drops and declines. */
module DbInit {
  import opened Outcomes

  /** A database and the role that owns it. A row of hilt's names a secret that it needs. */
  datatype Database = Database(owner: string, rows: set<string>)

  /** A role: its password, unset at first, and the settings it has as defaults. */
  datatype Role = Role(password: Option<string>, settings: map<string, string>)

  /** The environment's part in one call: `listing` is what a list call answers with. */
  datatype Event = Event(fate: Fate, listing: seq<string>)

  /** The instance's databases and roles; the roles the master user is a member of; and, for
      the phases that work beside it, the stored passwords and hilt's secrets. */
  datatype World = World(databases: map<string, Database>, roles: map<string, Role>, member: set<string>,
                         stored: map<string, string>, secrets: set<string>, script: seq<Event>)

  predicate Hex(password: string) {
    password != "" && forall i | 0 <= i < |password| :: '0' <= password[i] <= '9' || 'a' <= password[i] <= 'f'
  }

  // ---------- remote calls ----------

  function Call(w: World): (World, Event) {
    if w.script == [] then (w, Event(Cut, [])) else (w.(script := w.script[1..]), w.script[0])
  }

  function Ask(w: World): Run<World, ()> {
    var (w, e) := Call(w);
    Reply(e.fate, w, w, ())
  }

  function Grant(w: World, role: string): Run<World, ()> {
    var (w, e) := Call(w);
    ReplyIf(role in w.roles, e.fate, w, w.(member := w.member + {role}), ())
  }

  /** Only the owner may drop a database, and membership in its role is enough. */
  function DropDatabase(w: World, name: string): Run<World, ()> {
    var (w, e) := Call(w);
    ReplyIf(name !in w.databases || w.databases[name].owner in w.member, e.fate, w,
            w.(databases := w.databases - {name}), ())
  }

  function CreateDatabase(w: World, name: string, owner: string): Run<World, ()> {
    var (w, e) := Call(w);
    ReplyIf(owner in w.member, e.fate, w,
            w.(databases := if name in w.databases then w.databases else w.databases[name := Database(owner, {})]), ())
  }

  function CreateRole(w: World, role: string): Run<World, ()> {
    var (w, e) := Call(w);
    Reply(e.fate, w, w.(roles := if role in w.roles then w.roles else w.roles[role := Role(None, map[])]), ())
  }

  /** What changing a role comes to, for a role that is there. */
  function Altered(w: World, role: string, password: Option<string>, settings: map<string, string>): World {
    if role !in w.roles then w
    else
      var now := w.roles[role];
      var next := Role(if password.Some? then password else now.password, now.settings + settings);
      w.(roles := w.roles[role := next])
  }

  function SetPassword(w: World, role: string, password: string): Run<World, ()> {
    var (w, e) := Call(w);
    ReplyIf(role in w.roles, e.fate, w, Altered(w, role, Some(password), map[]), ())
  }

  function SetDefault(w: World, role: string, setting: Setting): Run<World, ()> {
    var (w, e) := Call(w);
    ReplyIf(role in w.roles, e.fate, w, Altered(w, role, None, map[setting.name := setting.value]), ())
  }

  // ---------- dbinit ----------

  /** Reports whether there was a database to drop. */
  function Drop(w: World, name: string): Run<World, bool> {
    var (w, _) :- Ask(w);
    if name !in w.databases then Run(w, Done(false)) else
    var (w, _) :- Grant(w, w.databases[name].owner);
    var (w, _) :- DropDatabase(w, name);
    Run(w, Done(true))
  }

  function EnsureLoginRole(w: World, role: string, password: string): Run<World, ()> {
    var (w, _) :- Ask(w);
    var (w, _) :- if role in w.roles then Run(w, Done(())) else CreateRole(w, role);
    SetPassword(w, role, password)
  }

  function EnsureDatabase(w: World, name: string, owner: string): Run<World, ()> {
    var (w, _) :- Ask(w);
    if name in w.databases then Run(w, Done(())) else
    var (w, _) :- Grant(w, owner);
    CreateDatabase(w, name, owner)
  }

  /** The owner's role with its password, and then the database. */
  function EnsureOwned(w: World, name: string, owner: string, password: string): Run<World, ()> {
    var (w, _) :- EnsureLoginRole(w, owner, password);
    EnsureDatabase(w, name, owner)
  }

  /** A default of a role; a role that logs in but owns no database; a database and its roles. */
  datatype Setting = Setting(name: string, value: string)
  datatype LoginRole = LoginRole(name: string, password: string, settings: seq<Setting>)
  datatype Wanted = Wanted(name: string, owner: string, password: string, loginRoles: seq<LoginRole>)
  {
    /** The role named after the database, unless another is named. */
    function OwnerRole(): string {
      if owner != "" then owner else name
    }
  }

  function EnsureSettings(w: World, role: string, settings: seq<Setting>): Run<World, ()>
    decreases |settings|
  {
    if settings == [] then Run(w, Done(())) else
    var (w, _) :- SetDefault(w, role, settings[0]);
    EnsureSettings(w, role, settings[1..])
  }

  function EnsureRole(w: World, role: LoginRole): Run<World, ()> {
    var (w, _) :- EnsureLoginRole(w, role.name, role.password);
    EnsureSettings(w, role.name, role.settings)
  }

  function EnsureRoles(w: World, roles: seq<LoginRole>): Run<World, ()>
    decreases |roles|
  {
    if roles == [] then Run(w, Done(())) else
    var (w, _) :- EnsureRole(w, roles[0]);
    EnsureRoles(w, roles[1..])
  }

  function EnsureOne(w: World, wanted: Wanted): Run<World, ()> {
    var (w, _) :- EnsureOwned(w, wanted.name, wanted.OwnerRole(), wanted.password);
    EnsureRoles(w, wanted.loginRoles)
  }

  function EnsureEach(w: World, wanted: seq<Wanted>): Run<World, ()>
    decreases |wanted|
  {
    if wanted == [] then Run(w, Done(())) else
    var (w, _) :- EnsureOne(w, wanted[0]);
    EnsureEach(w, wanted[1..])
  }

  const ALLOWED_SETTINGS := ["statement_timeout", "idle_in_transaction_session_timeout"]
  const UNITS := ["", "ms", "s", "min"]

  /** How many digits a text begins with. */
  function Digits(s: string): (n: nat)
    ensures n <= |s|
  {
    if s == "" || !('0' <= s[0] <= '9') then 0 else 1 + Digits(s[1..])
  }

  /** A number, and a unit or none. */
  predicate IsDuration(value: string) {
    0 < Digits(value) && value[Digits(value)..] in UNITS
  }

  predicate ValidSetting(setting: Setting) {
    setting.name in ALLOWED_SETTINGS && IsDuration(setting.value)
  }

  predicate ValidRole(role: LoginRole) {
    Hex(role.password) && forall i | 0 <= i < |role.settings| :: ValidSetting(role.settings[i])
  }

  predicate Valid(wanted: Wanted) {
    Hex(wanted.password) && forall i | 0 <= i < |wanted.loginRoles| :: ValidRole(wanted.loginRoles[i])
  }

  predicate AllValid(wanted: seq<Wanted>) {
    forall i | 0 <= i < |wanted| :: Valid(wanted[i])
  }

  /** Every input is checked before the first statement runs. */
  function Ensure(w: World, wanted: seq<Wanted>): Run<World, ()> {
    if AllValid(wanted) then EnsureEach(w, wanted) else Run(w, Failed(None, Declined))
  }

  // ---------- what comes of it ----------

  lemma DropFacts(w: World, name: string)
    ensures var run := Drop(w, name);
      && run.world == w.(databases := run.world.databases, member := run.world.member, script := run.world.script)
      && (run.world.databases == w.databases || run.world.databases == w.databases - {name})
      && (run.result.Done? ==> run.world.databases == w.databases - {name} && run.result.value == (name in w.databases))
  {
    assert name !in w.databases ==> w.databases - {name} == w.databases;
  }

  /** One role has been altered and no other; what it had as a default and is not altered stays. */
  ghost predicate OnlyRole(w: World, w': World, role: string) {
    && w' == w.(roles := w'.roles, script := w'.script)
    && w'.roles - {role} == w.roles - {role}
    && (role in w.roles ==> role in w'.roles)
  }

  lemma SetPasswordFacts(w: World, role: string, password: string)
    ensures var run := SetPassword(w, role, password);
      && OnlyRole(w, run.world, role)
      && (run.result.Done? ==> role in run.world.roles && run.world.roles[role].password == Some(password))
  {
  }

  lemma EnsureLoginRoleFacts(w: World, role: string, password: string)
    ensures var run := EnsureLoginRole(w, role, password);
      && OnlyRole(w, run.world, role)
      && (run.result.Done? ==> role in run.world.roles && run.world.roles[role].password == Some(password))
  {
    hide SetPassword;
    var asked := Ask(w);
    if asked.result.Done? {
      if role in w.roles {
        SetPasswordFacts(asked.world, role, password);
      } else {
        var created := CreateRole(asked.world, role);
        assert OnlyRole(w, created.world, role);
        SetPasswordFacts(created.world, role, password);
      }
    }
  }

  lemma EnsureDatabaseFacts(w: World, name: string, owner: string)
    ensures var run := EnsureDatabase(w, name, owner);
      && run.world == w.(databases := run.world.databases, member := run.world.member, script := run.world.script)
      && (run.world.databases == w.databases
          || (name !in w.databases && run.world.databases == w.databases[name := Database(owner, {})]))
      && (run.result.Done? ==> name in run.world.databases)
  {
  }

  /** A database that is there is left alone; one that is not is created under its owner. */
  ghost predicate Owned(w: World, w': World, name: string, owner: string) {
    || w'.databases == w.databases
    || (name !in w.databases && w'.databases == w.databases[name := Database(owner, {})])
  }

  lemma EnsureOwnedFacts(w: World, name: string, owner: string, password: string)
    ensures var run := EnsureOwned(w, name, owner, password);
      && run.world.stored == w.stored && run.world.secrets == w.secrets
      && run.world.roles - {owner} == w.roles - {owner}
      && Owned(w, run.world, name, owner)
      && (run.result.Done? ==>
            && name in run.world.databases
            && owner in run.world.roles && run.world.roles[owner].password == Some(password))
  {
    EnsureLoginRoleFacts(w, owner, password);
    var role := EnsureLoginRole(w, owner, password);
    if role.result.Done? {
      EnsureDatabaseFacts(role.world, name, owner);
    }
  }

  // ---------- login roles ----------

  /** The defaults a role had, overlaid with these, the last of each name winning. */
  function Merged(base: map<string, string>, settings: seq<Setting>): map<string, string>
    decreases |settings|
  {
    if settings == [] then base
    else Merged(base + map[settings[0].name := settings[0].value], settings[1..])
  }

  function SettingsOf(w: World, role: string): map<string, string> {
    if role in w.roles then w.roles[role].settings else map[]
  }

  lemma SetDefaultFacts(w: World, role: string, setting: Setting)
    requires role in w.roles
    ensures var run := SetDefault(w, role, setting);
      && OnlyRole(w, run.world, role)
      && run.world.roles[role].password == w.roles[role].password
      && (run.result.Done? ==> SettingsOf(run.world, role) == SettingsOf(w, role) + map[setting.name := setting.value])
      && (run.result.Done? || Interrupted(run.result))
  {
  }

  lemma {:induction false} EnsureSettingsFacts(w: World, role: string, settings: seq<Setting>)
    requires role in w.roles
    ensures var run := EnsureSettings(w, role, settings);
      && OnlyRole(w, run.world, role)
      && run.world.roles[role].password == w.roles[role].password
      && (run.result.Done? ==> SettingsOf(run.world, role) == Merged(SettingsOf(w, role), settings))
      && (run.result.Done? || Interrupted(run.result))
    decreases |settings|
  {
    if settings != [] {
      SetDefaultFacts(w, role, settings[0]);
      hide SetDefault;
      var one := SetDefault(w, role, settings[0]);
      if one.result.Done? {
        EnsureSettingsFacts(one.world, role, settings[1..]);
      }
    }
  }

  lemma SetPasswordKeepsSettings(w: World, role: string, password: string)
    ensures SettingsOf(SetPassword(w, role, password).world, role) == SettingsOf(w, role)
  {
    assert role in w.roles ==> w.roles[role].settings + map[] == w.roles[role].settings;
  }

  lemma EnsureLoginRoleKeepsSettings(w: World, role: string, password: string)
    ensures SettingsOf(EnsureLoginRole(w, role, password).world, role) == SettingsOf(w, role)
    ensures EnsureLoginRole(w, role, password).result.Done? || Interrupted(EnsureLoginRole(w, role, password).result)
  {
    var asked := Ask(w);
    if asked.result.Done? {
      var created := if role in w.roles then asked else CreateRole(asked.world, role);
      assert SettingsOf(created.world, role) == SettingsOf(w, role);
      SetPasswordKeepsSettings(created.world, role, password);
    }
  }

  /** The role logs in with its password, and has its defaults over those it had. */
  ghost predicate LogsIn(w: World, w': World, role: LoginRole) {
    && role.name in w'.roles
    && w'.roles[role.name] == Role(Some(role.password), Merged(SettingsOf(w, role.name), role.settings))
  }

  lemma EnsureRoleFacts(w: World, role: LoginRole)
    ensures var run := EnsureRole(w, role);
      && OnlyRole(w, run.world, role.name)
      && (run.result.Done? ==> LogsIn(w, run.world, role))
      && (run.result.Done? || Interrupted(run.result))
  {
    EnsureLoginRoleFacts(w, role.name, role.password);
    EnsureLoginRoleKeepsSettings(w, role.name, role.password);
    hide EnsureLoginRole, EnsureSettings;
    var login := EnsureLoginRole(w, role.name, role.password);
    if login.result.Done? {
      EnsureSettingsFacts(login.world, role.name, role.settings);
    }
  }

  function NamesOf(roles: seq<LoginRole>): set<string> {
    set i | 0 <= i < |roles| :: roles[i].name
  }

  predicate DistinctRoles(roles: seq<LoginRole>) {
    forall i, j | 0 <= i < j < |roles| :: roles[i].name != roles[j].name
  }

  /** Only these roles may have changed, and no role has gone. */
  ghost predicate OnlyRoles(w: World, w': World, names: set<string>) {
    && w' == w.(roles := w'.roles, script := w'.script)
    && w'.roles - names == w.roles - names
  }

  lemma RoleKept(w: World, w': World, names: set<string>, name: string)
    requires OnlyRoles(w, w', names) && name !in names
    ensures name in w.roles <==> name in w'.roles
    ensures name in w.roles ==> w'.roles[name] == w.roles[name]
    ensures SettingsOf(w', name) == SettingsOf(w, name)
  {
    assert name in w.roles <==> name in w.roles - names;
    assert name in w'.roles <==> name in w'.roles - names;
    assert name in w.roles ==> (w.roles - names)[name] == w.roles[name];
    assert name in w'.roles ==> (w'.roles - names)[name] == w'.roles[name];
  }

  lemma RolesJoin(w: World, w1: World, w2: World, name: string, names: set<string>, all: set<string>)
    requires OnlyRole(w, w1, name) && OnlyRoles(w1, w2, names) && all == {name} + names
    ensures OnlyRoles(w, w2, all)
  {
    assert w.roles - all == (w.roles - {name}) - names;
    assert w1.roles - all == (w1.roles - {name}) - names == (w1.roles - names) - {name};
    assert w2.roles - all == (w2.roles - names) - {name};
  }

  lemma NamesOfSplit(roles: seq<LoginRole>)
    requires roles != []
    ensures NamesOf(roles) == {roles[0].name} + NamesOf(roles[1..])
  {
    forall name | name in {roles[0].name} + NamesOf(roles[1..]) ensures name in NamesOf(roles) {
      if name != roles[0].name {
        var i :| 0 <= i < |roles[1..]| && roles[1..][i].name == name;
        assert roles[i + 1].name == name;
      }
    }
    forall name | name in NamesOf(roles) ensures name in {roles[0].name} + NamesOf(roles[1..]) {
      var i :| 0 <= i < |roles| && roles[i].name == name;
      if i != 0 {
        assert roles[1..][i - 1].name == name;
      }
    }
  }

  lemma {:induction false} EnsureRolesFacts(w: World, roles: seq<LoginRole>)
    requires DistinctRoles(roles)
    ensures var run := EnsureRoles(w, roles);
      && OnlyRoles(w, run.world, NamesOf(roles))
      && (run.result.Done? ==> forall i | 0 <= i < |roles| :: LogsIn(w, run.world, roles[i]))
      && (run.result.Done? || Interrupted(run.result))
    decreases |roles|
  {
    if roles != [] {
      EnsureRoleFacts(w, roles[0]);
      NamesOfSplit(roles);
      hide EnsureRole, LogsIn, OnlyRole, OnlyRoles, NamesOf;
      var one := EnsureRole(w, roles[0]);
      if one.result.Done? {
        EnsureRolesFacts(one.world, roles[1..]);
        var run := EnsureRoles(w, roles);
        RolesJoin(w, one.world, run.world, roles[0].name, NamesOf(roles[1..]), NamesOf(roles));
        if run.result.Done? {
          EachLogsIn(w, one.world, run.world, roles);
        }
      } else {
        JustOne(w, one.world, roles[0].name, NamesOf(roles));
      }
    }
  }

  lemma JustOne(w: World, w1: World, name: string, all: set<string>)
    requires OnlyRole(w, w1, name) && name in all
    ensures OnlyRoles(w, w1, all)
  {
    assert w.roles - all == (w.roles - {name}) - all && w1.roles - all == (w1.roles - {name}) - all;
  }

  lemma EachLogsIn(w: World, w1: World, w2: World, roles: seq<LoginRole>)
    requires roles != [] && DistinctRoles(roles)
    requires OnlyRole(w, w1, roles[0].name) && OnlyRoles(w1, w2, NamesOf(roles[1..]))
    requires LogsIn(w, w1, roles[0]) && forall i | 0 <= i < |roles[1..]| :: LogsIn(w1, w2, roles[1..][i])
    ensures forall i | 0 <= i < |roles| :: LogsIn(w, w2, roles[i])
  {
    JustOne(w, w1, roles[0].name, {roles[0].name});
    forall i | 0 <= i < |roles| ensures LogsIn(w, w2, roles[i]) {
      if i == 0 {
        assert roles[0].name !in NamesOf(roles[1..]);
        RoleKept(w1, w2, NamesOf(roles[1..]), roles[0].name);
      } else {
        assert roles[1..][i - 1] == roles[i];
        RoleKept(w, w1, {roles[0].name}, roles[i].name);
      }
    }
  }

  /** What one wanted database comes to: it is left alone if it is there and created under its
      owner if not; the owner has the password, and every login role logs in with its own and
      has its defaults; no other database and no other role changes, however it ends. */
  lemma EnsureOneFacts(w: World, wanted: Wanted)
    requires DistinctRoles(wanted.loginRoles) && wanted.OwnerRole() !in NamesOf(wanted.loginRoles)
    ensures var run := EnsureOne(w, wanted);
      var owner := wanted.OwnerRole();
      && run.world.stored == w.stored && run.world.secrets == w.secrets
      && run.world.roles - ({owner} + NamesOf(wanted.loginRoles)) == w.roles - ({owner} + NamesOf(wanted.loginRoles))
      && Owned(w, run.world, wanted.name, owner)
      && (run.result.Done? ==>
            && wanted.name in run.world.databases
            && owner in run.world.roles && run.world.roles[owner].password == Some(wanted.password)
            && forall i | 0 <= i < |wanted.loginRoles| :: LogsIn(w, run.world, wanted.loginRoles[i]))
  {
    var owner, names := wanted.OwnerRole(), NamesOf(wanted.loginRoles);
    EnsureOwnedFacts(w, wanted.name, owner, wanted.password);
    hide EnsureOwned, EnsureRoles, Merged, NamesOf;
    var owned := EnsureOwned(w, wanted.name, owner, wanted.password);
    assert w.roles - ({owner} + names) == (w.roles - {owner}) - names;
    assert owned.world.roles - ({owner} + names) == (owned.world.roles - {owner}) - names;
    if owned.result.Done? {
      EnsureRolesFacts(owned.world, wanted.loginRoles);
      var run := EnsureRoles(owned.world, wanted.loginRoles);
      assert run.world.roles - ({owner} + names) == (run.world.roles - names) - {owner};
      assert owned.world.roles - ({owner} + names) == (owned.world.roles - names) - {owner};
      RoleKept(owned.world, run.world, names, owner);
      if run.result.Done? {
        SettingsCarried(w, owned.world, run.world, owner, wanted.loginRoles);
      }
    }
  }

  lemma SettingsCarried(w: World, w1: World, w2: World, owner: string, roles: seq<LoginRole>)
    requires w1.roles - {owner} == w.roles - {owner} && owner !in NamesOf(roles)
    requires forall i | 0 <= i < |roles| :: LogsIn(w1, w2, roles[i])
    ensures forall i | 0 <= i < |roles| :: LogsIn(w, w2, roles[i])
  {
    hide Merged;
    forall i | 0 <= i < |roles| ensures LogsIn(w, w2, roles[i]) {
      var name := roles[i].name;
      assert name in NamesOf(roles);
      assert name in w.roles <==> name in w.roles - {owner};
      assert name in w1.roles <==> name in w1.roles - {owner};
      assert name in w.roles ==> (w.roles - {owner})[name] == w.roles[name];
      assert name in w1.roles ==> (w1.roles - {owner})[name] == w1.roles[name];
    }
  }

  // ---------- what dbinit declines ----------

  lemma EnsureOwnedDeclinesNothing(w: World, name: string, owner: string, password: string)
    ensures EnsureOwned(w, name, owner, password).result.Done?
      || Interrupted(EnsureOwned(w, name, owner, password).result)
  {
    EnsureLoginRoleFacts(w, owner, password);
    EnsureLoginRoleKeepsSettings(w, owner, password);
    hide EnsureLoginRole;
  }

  lemma {:induction false} EnsureRolesDeclinesNothing(w: World, roles: seq<LoginRole>)
    ensures EnsureRoles(w, roles).result.Done? || Interrupted(EnsureRoles(w, roles).result)
    decreases |roles|
  {
    if roles != [] {
      EnsureRoleFacts(w, roles[0]);
      hide EnsureRole;
      EnsureRolesDeclinesNothing(EnsureRole(w, roles[0]).world, roles[1..]);
    }
  }

  lemma {:induction false} EnsureEachDeclinesNothing(w: World, wanted: seq<Wanted>)
    ensures EnsureEach(w, wanted).result.Done? || Interrupted(EnsureEach(w, wanted).result)
    decreases |wanted|
  {
    if wanted != [] {
      var first := wanted[0];
      EnsureOwnedDeclinesNothing(w, first.name, first.OwnerRole(), first.password);
      EnsureRolesDeclinesNothing(EnsureOwned(w, first.name, first.OwnerRole(), first.password).world, first.loginRoles);
      hide EnsureOwned, EnsureRoles;
      EnsureEachDeclinesNothing(EnsureOne(w, first).world, wanted[1..]);
    }
  }

  /** Short of an interruption, a call declines exactly when some input of it is bad: a
      password that is not hex, the owner's or a login role's, or a setting that is not allowed
      or is no duration; and a call that declines has done nothing, for any database. */
  lemma EnsureDeclinesExactlyWhen(w: World, wanted: seq<Wanted>)
    ensures var run := Ensure(w, wanted);
      && (AllValid(wanted) ==> run.result.Done? || Interrupted(run.result))
      && (!AllValid(wanted) ==> run.result == Failed(None, Declined) && run.world == w)
  {
    EnsureEachDeclinesNothing(w, wanted);
    hide EnsureEach;
  }
}
