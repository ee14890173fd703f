/** What OpenBao and the parameter store hold about regional appliances, and the
    remote calls the provision Lambda makes on them. */
module ApplianceWorld {
  import opened Outcomes

  /** A token role, as EnsureApplianceTokenRole writes it. */
  datatype Role = Role(cidr: string, period: string)

  /** A live unseal token: the region whose policy it carries, and the address it is bound to. */
  datatype Token = Token(region: string, cidr: string)

  /** How a call fails: without an answer, or with the status and messages of one. */
  datatype ApiError = Unreachable | Response(status: int, messages: seq<string>)

  /** The environment's part in one call. Tokens in `lapsed` die before the call;
      `listing` is what a list call answers with, and `more` that another page
      follows; `accessor` is the accessor a mint hands out; `unwrapped` says that
      a mint answered in the clear; `error` is the error of a call that ends in one. */
  datatype Event = Event(fate: Fate, lapsed: set<string>, listing: seq<string>, more: bool,
                         accessor: string, unwrapped: bool, error: ApiError)

  /** `keys` maps a transit key's name to its deletion_allowed flag; `live` maps an
      accessor to its token; `issued` are the accessors OpenBao ever handed out;
      `script` is what the environment will do to the next calls. */
  datatype World = World(keys: map<string, bool>,
                         policies: map<string, string>,
                         roles: map<string, Role>,
                         params: map<string, string>,
                         live: map<string, Token>,
                         issued: set<string>,
                         script: seq<Event>)

  // ---------- names ----------

  const APPLIANCE_PREFIX := "appliance-unseal-"
  const ACCESSOR_KEY := "unseal-token.accessor"

  function KeyName(region: string): (name: string)
    ensures APPLIANCE_PREFIX <= name && name[|APPLIANCE_PREFIX|..] == region
  {
    APPLIANCE_PREFIX + region
  }

  /** The region's place in the parameter hierarchy, closed by a slash: a path is
      under the region exactly when it starts with this. */
  function Prefix(region: string): string {
    "appliance/" + region + "/"
  }

  function AccessorPath(region: string): (path: string)
    ensures Prefix(region) <= path
  {
    Prefix(region) + ACCESSOR_KEY
  }

  /** The policy text is derived from the name alone. */
  function PolicyText(name: string): string {
    "transit/encrypt/" + name + " transit/decrypt/" + name
  }

  function Under(params: map<string, string>, prefix: string): set<string> {
    set path | path in params && prefix <= path
  }

  function Recorded(w: World, region: string): Option<string> {
    if AccessorPath(region) in w.params then Some(w.params[AccessorPath(region)]) else None
  }

  predicate Distinct(names: seq<string>) {
    forall i, j | 0 <= i < j < |names| :: names[i] != names[j]
  }

  /** An honest listing names exactly what is there, each once, in any order. */
  predicate Lists(names: seq<string>, all: set<string>) {
    (set name | name in names) == all && Distinct(names)
  }

  // ---------- remote calls ----------

  /** Takes the environment's next event. A script that has run out stops the run. */
  function Call(w: World): (World, Event) {
    if w.script == [] then (w, Event(Cut, {}, [], false, "", false, Unreachable))
    else (w.(script := w.script[1..], live := w.live - w.script[0].lapsed), w.script[0])
  }

  /** A listing that does not name what is there stands for a listing call that failed. */
  function Honest(fate: Fate, honest: bool): Fate {
    if fate.Served? && !honest then Refused else fate
  }

  function ReadKey(w: World, name: string): Run<World, bool> {
    var (w, e) := Call(w);
    Reply(e.fate, w, w, name in w.keys)
  }

  function CreateKey(w: World, name: string): Run<World, ()> {
    var (w, e) := Call(w);
    Reply(e.fate, w, w.(keys := w.keys[name := false]), ())
  }

  function ListKeys(w: World): Run<World, seq<string>> {
    var (w, e) := Call(w);
    Reply(Honest(e.fate, Lists(e.listing, w.keys.Keys)), w, w, e.listing)
  }

  function AllowDeletion(w: World, name: string): Run<World, ()> {
    var (w, e) := Call(w);
    ReplyIf(name in w.keys, e.fate, w, w.(keys := w.keys[name := true]), ())
  }

  function DeleteKey(w: World, name: string): Run<World, ()> {
    var (w, e) := Call(w);
    ReplyIf(name in w.keys && w.keys[name], e.fate, w, w.(keys := w.keys - {name}), ())
  }

  function PutPolicy(w: World, name: string): Run<World, ()> {
    var (w, e) := Call(w);
    Reply(e.fate, w, w.(policies := w.policies[name := PolicyText(name)]), ())
  }

  function DeletePolicy(w: World, name: string): Run<World, ()> {
    var (w, e) := Call(w);
    Reply(e.fate, w, w.(policies := w.policies - {name}), ())
  }

  function WriteRole(w: World, name: string, role: Role): Run<World, ()> {
    var (w, e) := Call(w);
    Reply(e.fate, w, w.(roles := w.roles[name := role]), ())
  }

  function DeleteRole(w: World, name: string): Run<World, ()> {
    var (w, e) := Call(w);
    Reply(e.fate, w, w.(roles := w.roles - {name}), ())
  }

  /** A mint's answer. */
  datatype Minted = Minted(accessor: string, unwrapped: bool)

  /** OpenBao mints only from a role it holds, and never repeats an accessor. */
  function CreateToken(w: World, region: string): Run<World, Minted> {
    var (w, e) := Call(w);
    if KeyName(region) !in w.roles || e.accessor in w.issued
    then ReplyIf(false, e.fate, w, w, Minted("", false))
    else
      var token := Token(region, w.roles[KeyName(region)].cidr);
      Reply(e.fate, w,
            w.(live := w.live[e.accessor := token], issued := w.issued + {e.accessor}),
            Minted(e.accessor, e.unwrapped))
  }

  predicate Contains(text: string, part: string) {
    part <= text || (text != "" && Contains(text[1..], part))
  }

  const INVALID_ACCESSOR := "invalid accessor"

  /** The errors that say that OpenBao does not know the accessor. */
  predicate IsUnknownAccessor(error: ApiError) {
    && error.Response?
    && (error.status == 404 || exists i | 0 <= i < |error.messages| :: Contains(error.messages[i], INVALID_ACCESSOR))
  }

  /** OpenBao gives such an error only for an accessor whose token has gone. */
  predicate SaysUnknown(w: World, e: Event, accessor: string) {
    accessor !in w.live && IsUnknownAccessor(e.error)
  }

  /** TokenLive: an accessor OpenBao no longer knows is an answer; every other failure names it. */
  function TokenLive(w: World, accessor: string): Run<World, bool> {
    var (w, e) := Call(w);
    if e.fate.Cut? then Run(w, Stopped)
    else if e.fate.Served? && accessor in w.live then Run(w, Done(true))
    else if SaysUnknown(w, e, accessor) then Run(w, Done(false))
    else Run(w, Failed(Some(accessor), Transport))
  }

  /** RevokeTokenByAccessor: an unknown accessor counts as revoked; every other failure names it. */
  function Revoke(w: World, accessor: string): Run<World, ()> {
    var (w, e) := Call(w);
    if e.fate.Cut? then Run(w, Stopped)
    else if e.fate.Served? && accessor in w.live then Run(w.(live := w.live - {accessor}), Done(()))
    else if SaysUnknown(w, e, accessor) then Run(w, Done(()))
    else Run(w, Failed(Some(accessor), Transport))
  }

  function LookupPublic(w: World, path: string): Run<World, Option<string>> {
    var (w, e) := Call(w);
    Reply(e.fate, w, w, if path in w.params then Some(w.params[path]) else None)
  }

  function PutPublic(w: World, path: string, value: string): Run<World, ()> {
    var (w, e) := Call(w);
    Reply(e.fate, w, w.(params := w.params[path := value]), ())
  }

  /** The paging loop over GetParametersByPath: `names` is what earlier pages held. */
  function ListUnder(w: World, prefix: string, names: seq<string>): Run<World, seq<string>>
    decreases |w.script|
  {
    if w.script == [] then Run(w, Stopped) else
    var (w, e) := Call(w);
    var all := names + e.listing;
    if e.fate.Served? && e.more then ListUnder(w, prefix, all)
    else Reply(Honest(e.fate, Lists(all, Under(w.params, prefix))), w, w, all)
  }

  /** One DeleteParameters call, which is atomic. */
  function DeleteParameters(w: World, names: seq<string>): Run<World, ()> {
    var (w, e) := Call(w);
    Reply(e.fate, w, w.(params := w.params - (set name | name in names)), ())
  }
}
