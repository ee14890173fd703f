/** Central's record of a region's Piri DIDs: one parameter each, under the appliance's prefix. */
module PiriRecord {
  import opened Outcomes

  const DID_KEY := "did:key:"

  /** A Piri DID is a did:key with something after it. */
  predicate Recordable(did: string) {
    DID_KEY <= did && |DID_KEY| < |did|
  }

  function Tail(did: string): string
    requires Recordable(did)
  {
    did[|DID_KEY|..]
  }

  /** Where a region's Piri parameters sit. A path is below it exactly when it starts with this. */
  function Below(region: string): string {
    "appliance/" + region + "/piri/"
  }

  /** The parameter's path, or the refusal of a DID that names none. */
  function ParameterPath(region: string, did: string): Option<string> {
    if Recordable(did) then Some(Below(region) + Tail(did)) else None
  }

  /** Written once: a parameter that is there already stays. */
  function Record(params: map<string, string>, region: string, did: string): Option<map<string, string>> {
    match ParameterPath(region, did)
    case None => None
    case Some(path) => Some(if path in params then params else params[path := did])
  }

  /** What follows the last slash. */
  function LastSegment(name: string): string {
    if name == "" || name[|name| - 1] == '/' then ""
    else LastSegment(name[..|name| - 1]) + [name[|name| - 1]]
  }

  /** ListPublic's values, keyed by last segment, in the order the names are listed. */
  function Collect(params: map<string, string>, names: seq<string>): map<string, string>
    requires forall name | name in names :: name in params
  {
    if names == [] then map[]
    else
      var last := names[|names| - 1];
      Collect(params, names[..|names| - 1])[LastSegment(last) := params[last]]
  }

  /** One page of a listing: the names on it, or nothing where the call for it failed. */
  type Page = Option<seq<string>>

  predicate AllServed(pages: seq<Page>) {
    forall page | page in pages :: page.Some?
  }

  predicate Named(pages: seq<Page>, params: map<string, string>) {
    forall page, name | page in pages && page.Some? && name in page.value :: name in params
  }

  function Flatten(pages: seq<Page>): seq<string>
    requires AllServed(pages)
  {
    if pages == [] then []
    else
      var last := pages[|pages| - 1];
      assert last in pages;
      Flatten(pages[..|pages| - 1]) + last.value
  }

  lemma {:induction false} FlattenHolds(pages: seq<Page>, params: map<string, string>)
    requires AllServed(pages) && Named(pages, params)
    ensures forall name | name in Flatten(pages) :: name in params
  {
    if pages != [] {
      var last := pages[|pages| - 1];
      assert pages == pages[..|pages| - 1] + [last];
      FlattenHolds(pages[..|pages| - 1], params);
      assert last in pages;
    }
  }

  lemma OnePage(names: seq<string>)
    ensures AllServed([Some(names)]) && Flatten([Some(names)]) == names
  {
    var pages: seq<Page> := [Some(names)];
    assert pages[..0] == [] && Flatten(pages[..0]) == [];
    assert [] + names == names;
  }

  /** The loop over a page's parameters. */
  method CollectPage(params: map<string, string>, page: seq<string>, soFar: map<string, string>,
      ghost earlier: seq<string>)
    returns (values: map<string, string>)
    requires forall name | name in earlier + page :: name in params
    requires soFar == Collect(params, earlier)
    ensures values == Collect(params, earlier + page)
  {
    values := soFar;
    assert earlier + page[..0] == earlier;
    for k := 0 to |page|
      invariant forall name | name in earlier + page[..k] :: name in params
      invariant values == Collect(params, earlier + page[..k])
    {
      assert page[k] in earlier + page;
      ghost var names := earlier + page[..k + 1];
      assert names[..|names| - 1] == earlier + page[..k];
      values := values[LastSegment(page[k]) := params[page[k]]];
    }
    assert page[..|page|] == page;
  }

  /** The loop over pages: the names of all pages together, or nothing at all where the call
      for some page failed. */
  method ListPublic(params: map<string, string>, pages: seq<Page>) returns (r: Option<map<string, string>>)
    requires Named(pages, params)
    ensures r.Some? <==> AllServed(pages)
    ensures r.Some? ==> (forall name | name in Flatten(pages) :: name in params)
    ensures r.Some? ==> r.value == Collect(params, Flatten(pages))
  {
    var values := map[];
    for i := 0 to |pages|
      invariant AllServed(pages[..i])
      invariant forall name | name in Flatten(pages[..i]) :: name in params
      invariant values == Collect(params, Flatten(pages[..i]))
    {
      assert pages[i] in pages;
      if pages[i].None? { return None; }
      ghost var next := pages[..i + 1];
      assert next[..i] == pages[..i] && Named(next, params);
      FlattenHolds(next, params);
      assert Flatten(next) == Flatten(pages[..i]) + pages[i].value;
      values := CollectPage(params, pages[i].value, values, Flatten(pages[..i]));
    }
    assert pages[..|pages|] == pages;
    r := Some(values);
  }

  // ---------- a history of records ----------

  datatype Entry = Entry(region: string, did: string)

  function Play(params: map<string, string>, entries: seq<Entry>): map<string, string> {
    if entries == [] then params
    else
      var before := Play(params, entries[..|entries| - 1]);
      var last := entries[|entries| - 1];
      var after := Record(before, last.region, last.did);
      if after.None? then before else after.value
  }

  function RecordedFor(entries: seq<Entry>, region: string): set<string> {
    set e | e in entries && e.region == region && Recordable(e.did) :: e.did
  }

  /** A region's label holds no slash. */
  predicate Flat(region: string) {
    '/' !in region
  }

  lemma BelowSeparates(a: string, b: string, tail: string)
    requires Flat(a) && Flat(b)
    ensures Below(a) <= Below(b) + tail <==> a == b
  {
    if Below(a) <= Below(b) + tail {
      var n := |"appliance/"|;
      var path := Below(b) + tail;
      assert path[n + |b|] == '/' && forall i | 0 <= i < |b| :: path[n + i] == b[i];
      assert path[n + |a|] == Below(a)[n + |a|] == '/'
        && forall i | 0 <= i < |a| :: path[n + i] == Below(a)[n + i] == a[i];
      LabelDecided(path, n, a, b);
    }
  }

  /** A label without slashes ends where the first slash is. */
  lemma LabelDecided(path: string, n: nat, a: string, b: string)
    requires Flat(a) && Flat(b)
    requires n + |a| < |path| && n + |b| < |path| && path[n + |a|] == '/' && path[n + |b|] == '/'
    requires forall i | 0 <= i < |a| :: path[n + i] == a[i]
    requires forall i | 0 <= i < |b| :: path[n + i] == b[i]
    ensures a == b
  {
    SlashInside(path, n, a, |b|);
    SlashInside(path, n, b, |a|);
    assert |a| == |b|;
  }

  lemma SlashInside(path: string, n: nat, part: string, m: nat)
    requires n + |part| < |path| && n + m < |path| && path[n + m] == '/'
    requires forall i | 0 <= i < |part| :: path[n + i] == part[i]
    ensures m < |part| ==> '/' in part
  {
    if m < |part| {
      assert part[m] == path[n + m];
    }
  }

  /** The region's parameters are these DIDs, each under its own path. */
  ghost predicate Holds(params: map<string, string>, region: string, dids: set<string>) {
    && (forall path | path in params && Below(region) <= path ::
          params[path] in dids && ParameterPath(region, params[path]) == Some(path))
    && (forall did | did in dids ::
          Recordable(did) && Below(region) + Tail(did) in params && params[Below(region) + Tail(did)] == did)
  }

  lemma RecordHolds(params: map<string, string>, region: string, dids: set<string>, entry: Entry)
    requires Flat(region) && Flat(entry.region) && Recordable(entry.did) && Holds(params, region, dids)
    ensures Holds(Record(params, entry.region, entry.did).value, region,
                  if entry.region == region then dids + {entry.did} else dids)
  {
    BelowSeparates(region, entry.region, Tail(entry.did));
    SamePathSameDid(region, entry.did);
    hide Flat, Below;
    var path := ParameterPath(entry.region, entry.did).value;
    if path in params && entry.region == region {
      assert ParameterPath(region, params[path]) == Some(path);
    }
  }

  lemma {:induction false} PlayHolds(entries: seq<Entry>, region: string)
    requires Flat(region) && forall e | e in entries :: Flat(e.region)
    ensures Holds(Play(map[], entries), region, RecordedFor(entries, region))
  {
    hide Holds, Record, Flat;
    if entries == [] {
      NothingHolds(region);
      assert RecordedFor([], region) == {};
    } else {
      var rest, last := entries[..|entries| - 1], entries[|entries| - 1];
      assert entries == rest + [last];
      PlayHolds(rest, region);
      assert RecordedFor(entries, region)
        == RecordedFor(rest, region) + if last.region == region && Recordable(last.did) then {last.did} else {};
      if Recordable(last.did) {
        RecordHolds(Play(map[], rest), region, RecordedFor(rest, region), last);
        RecordsExactly(Play(map[], rest), last);
      } else {
        RecordsExactly(Play(map[], rest), last);
      }
      assert RecordedFor(rest, region) + {} == RecordedFor(rest, region);
    }
  }

  lemma NothingHolds(region: string)
    ensures Holds(map[], region, {})
  {
  }

  lemma RecordsExactly(params: map<string, string>, entry: Entry)
    ensures Record(params, entry.region, entry.did).Some? <==> Recordable(entry.did)
  {
  }

  lemma SamePathSameDid(region: string, did: string)
    requires Recordable(did)
    ensures forall other | Recordable(other)
      && ParameterPath(region, other) == ParameterPath(region, did) :: other == did
  {
    forall other | Recordable(other) && ParameterPath(region, other) == ParameterPath(region, did)
      ensures other == did
    {
      var path := Below(region) + Tail(did);
      assert path[|Below(region)|..] == Tail(did) && path[|Below(region)|..] == Tail(other);
      assert did == DID_KEY + Tail(did) && other == DID_KEY + Tail(other);
    }
  }

  // ---------- reading the record back ----------

  lemma {:induction false} LastSegmentAfter(front: string, tail: string)
    ensures LastSegment(front + "/" + tail) == LastSegment(tail)
  {
    var name := front + "/" + tail;
    if tail != "" {
      assert name[|name| - 1] == tail[|tail| - 1];
      assert name[..|name| - 1] == front + "/" + tail[..|tail| - 1];
      LastSegmentAfter(front, tail[..|tail| - 1]);
    }
  }

  lemma {:induction false} LastSegmentOfFlat(tail: string)
    requires '/' !in tail
    ensures LastSegment(tail) == tail
  {
    if tail != "" {
      LastSegmentOfFlat(tail[..|tail| - 1]);
      assert tail == tail[..|tail| - 1] + [tail[|tail| - 1]];
    }
  }

  /** Each value is kept under its own name's last segment, and a name whose last segment
      no other has keeps its value. */
  lemma {:induction false} CollectHolds(params: map<string, string>, names: seq<string>)
    requires forall name | name in names :: name in params
    ensures var values := Collect(params, names);
      && (forall key | key in values ::
            exists name :: name in names && LastSegment(name) == key && params[name] == values[key])
      && (forall name | name in names :: LastSegment(name) in values)
  {
    if names != [] {
      var rest, last := names[..|names| - 1], names[|names| - 1];
      assert names == rest + [last];
      CollectHolds(params, rest);
      var values := Collect(params, names);
      forall key | key in values
        ensures exists name :: name in names && LastSegment(name) == key && params[name] == values[key]
      {
        if key == LastSegment(last) {
          assert last in names;
        } else {
          var name :| name in rest && LastSegment(name) == key && params[name] == values[key];
          assert name in names;
        }
      }
    }
  }

  lemma NameOf(params: map<string, string>, names: seq<string>, key: string) returns (name: string)
    requires forall n | n in names :: n in params
    requires key in Collect(params, names)
    ensures name in names && LastSegment(name) == key && params[name] == Collect(params, names)[key]
  {
    CollectHolds(params, names);
    hide Collect, LastSegment;
    name :| name in names && LastSegment(name) == key && params[name] == Collect(params, names)[key];
  }

  predicate TailsDiffer(dids: set<string>)
    requires forall did | did in dids :: Recordable(did)
  {
    forall a, b | a in dids && b in dids && LastSegment(Tail(a)) == LastSegment(Tail(b)) :: a == b
  }

  /** All can be recorded, and no two are taken for each other. */
  predicate TellsApart(dids: set<string>) {
    (forall did | did in dids :: Recordable(did)) && TailsDiffer(dids)
  }

  lemma SegmentOfPath(region: string, did: string)
    requires Recordable(did)
    ensures LastSegment(ParameterPath(region, did).value) == LastSegment(Tail(did))
  {
    var front := "appliance/" + region + "/piri";
    assert Below(region) == front + "/";
    LastSegmentAfter(front, Tail(did));
  }

  /** Each value is a recorded DID, under the last segment of its tail. */
  ghost predicate KeyedByTail(values: map<string, string>, dids: set<string>) {
    forall key | key in values :: values[key] in dids && Recordable(values[key])
      && LastSegment(Tail(values[key])) == key
  }

  lemma ValuesKeyed(params: map<string, string>, region: string, dids: set<string>, names: seq<string>)
    requires Holds(params, region, dids)
    requires forall name :: name in names <==> name in params && Below(region) <= name
    ensures KeyedByTail(Collect(params, names), dids)
    ensures forall did | did in dids :: LastSegment(Tail(did)) in Collect(params, names)
  {
    hide Collect, LastSegment, Below;
    var values := Collect(params, names);
    CollectHolds(params, names);
    forall key | key in values
      ensures values[key] in dids && Recordable(values[key]) && LastSegment(Tail(values[key])) == key
    {
      var name := NameOf(params, names, key);
      assert name in params && Below(region) <= name;
      assert ParameterPath(region, params[name]) == Some(name);
      SegmentOfPath(region, params[name]);
    }
    forall did | did in dids ensures LastSegment(Tail(did)) in values {
      var path := Below(region) + Tail(did);
      SegmentOfPath(region, did);
      assert Below(region) <= path;
      assert path in names;
    }
  }

  lemma KeyedAllExactlyWhen(values: map<string, string>, dids: set<string>)
    requires forall did | did in dids :: Recordable(did)
    requires KeyedByTail(values, dids)
    requires forall did | did in dids :: LastSegment(Tail(did)) in values
    ensures values.Values == dids <==> TailsDiffer(dids)
  {
    hide LastSegment;
    assert values.Values <= dids;
    if TailsDiffer(dids) {
      forall did | did in dids ensures did in values.Values {
        assert values[LastSegment(Tail(did))] == did;
      }
    } else {
      var a, b :| a in dids && b in dids && LastSegment(Tail(a)) == LastSegment(Tail(b)) && a != b;
      assert a in values.Values ==> values[LastSegment(Tail(a))] == a;
      assert b in values.Values ==> values[LastSegment(Tail(b))] == b;
    }
  }

  /** Whatever order the names are listed in, the record reads back as exactly the DIDs
      recorded for the region when, and only when, their tails end in different segments. */
  lemma RecordedExactlyWhenTailsDiffer(entries: seq<Entry>, region: string, names: seq<string>)
    requires Flat(region) && forall e | e in entries :: Flat(e.region)
    requires forall name :: name in names <==> name in Play(map[], entries) && Below(region) <= name
    ensures Collect(Play(map[], entries), names).Values == RecordedFor(entries, region)
      <==> TailsDiffer(RecordedFor(entries, region))
  {
    PlayHolds(entries, region);
    hide Collect, Play, LastSegment, KeyedByTail;
    ValuesKeyed(Play(map[], entries), region, RecordedFor(entries, region), names);
    KeyedAllExactlyWhen(Collect(Play(map[], entries), names), RecordedFor(entries, region));
  }

  /** A region's record: each DID that can be recorded, as the parameter of its own. */
  function Parameters(region: string, dids: set<string>): (params: map<string, string>)
    ensures forall path | path in params :: Below(region) <= path
  {
    map path | path in (set did | did in dids && Recordable(did) :: Below(region) + Tail(did)) ::
      DID_KEY + path[|Below(region)|..]
  }

  lemma ParametersHold(region: string, dids: set<string>)
    requires forall did | did in dids :: Recordable(did)
    ensures Holds(Parameters(region, dids), region, dids)
  {
    hide Below;
    var params := Parameters(region, dids);
    forall did | did in dids ensures Below(region) + Tail(did) in params && params[Below(region) + Tail(did)] == did {
      var path := Below(region) + Tail(did);
      assert path[|Below(region)|..] == Tail(did) && did == DID_KEY + Tail(did);
    }
    forall path | path in params
      ensures params[path] in dids && ParameterPath(region, params[path]) == Some(path)
    {
      var did :| did in dids && path == Below(region) + Tail(did);
      assert params[path] == did;
    }
  }

  /** The names a listing of the region's record may have, in whatever order. */
  predicate ListsRecord(names: seq<string>, region: string, dids: set<string>) {
    (set name | name in names) == Parameters(region, dids).Keys
  }

  /** What the record reads back as. */
  function ReadBack(names: seq<string>, region: string, dids: set<string>): set<string>
    requires ListsRecord(names, region, dids)
  {
    assert forall name | name in names :: name in (set n | n in names);
    Collect(Parameters(region, dids), names).Values
  }

  /** A record reads back as some of what it holds, whatever the order of the listing: as all
      of it when, and only when, the tails end in different segments. */
  lemma ReadBackExactlyWhen(names: seq<string>, region: string, dids: set<string>)
    requires (forall did | did in dids :: Recordable(did)) && ListsRecord(names, region, dids)
    ensures ReadBack(names, region, dids) <= dids
    ensures ReadBack(names, region, dids) == dids <==> TailsDiffer(dids)
  {
    RecordKeyed(names, region, dids);
    hide Collect, LastSegment, Parameters;
    KeyedAllExactlyWhen(Collect(Parameters(region, dids), names), dids);
  }

  /** The names in some order. */
  ghost function Ordered(names: set<string>): (order: seq<string>)
    ensures (set name | name in order) == names
  {
    if names == {} then []
    else
      var name :| name in names;
      var rest := Ordered(names - {name});
      assert (set n | n in rest + [name]) == (set n | n in rest) + {name};
      rest + [name]
  }

  lemma ListedLast(region: string, dids: set<string>, last: string) returns (names: seq<string>)
    requires (forall did | did in dids :: Recordable(did)) && last in dids
    ensures ListsRecord(names, region, dids)
    ensures var params := Parameters(region, dids);
      && (forall name | name in names :: name in params)
      && LastSegment(Tail(last)) in Collect(params, names)
      && Collect(params, names)[LastSegment(Tail(last))] == last
  {
    var params := Parameters(region, dids);
    var path := Below(region) + Tail(last);
    ParametersHold(region, dids);
    SegmentOfPath(region, last);
    var rest := Ordered(params.Keys - {path});
    names := rest + [path];
    assert (set name | name in names) == (set name | name in rest) + {path} == params.Keys;
    forall name | name in names ensures name in params {
      assert name in (set n | n in names);
    }
    hide LastSegment, Parameters, Below;
    assert names[..|names| - 1] == rest;
  }

  /** A recorded DID is read back, whatever the order of the listing, exactly when no other's
      tail ends in the same segment. */
  lemma ReadBackAlwaysExactlyWhen(region: string, dids: set<string>, did: string)
    requires (forall d | d in dids :: Recordable(d)) && did in dids
    ensures (forall names | ListsRecord(names, region, dids) :: did in ReadBack(names, region, dids))
      <==> (forall other | other in dids && LastSegment(Tail(other)) == LastSegment(Tail(did)) :: other == did)
  {
    if other :| other in dids && LastSegment(Tail(other)) == LastSegment(Tail(did)) && other != did {
      var names := ListedLast(region, dids, other);
      RecordKeyed(names, region, dids);
      hide Collect, LastSegment, Parameters;
      assert did !in ReadBack(names, region, dids);
    } else {
      forall names | ListsRecord(names, region, dids) ensures did in ReadBack(names, region, dids) {
        RecordKeyed(names, region, dids);
        hide Collect, LastSegment, Parameters;
        var values := Collect(Parameters(region, dids), names);
        assert values[LastSegment(Tail(did))] == did;
      }
    }
  }

  lemma RecordKeyed(names: seq<string>, region: string, dids: set<string>)
    requires (forall did | did in dids :: Recordable(did)) && ListsRecord(names, region, dids)
    ensures forall name | name in names :: name in Parameters(region, dids)
    ensures KeyedByTail(Collect(Parameters(region, dids), names), dids)
    ensures forall did | did in dids :: LastSegment(Tail(did)) in Collect(Parameters(region, dids), names)
  {
    var params := Parameters(region, dids);
    ParametersHold(region, dids);
    forall name ensures name in names <==> name in params && Below(region) <= name {
      assert name in names <==> name in (set n | n in names);
    }
    hide Collect, LastSegment, Holds, Parameters, Below;
    ValuesKeyed(params, region, dids, names);
  }

  /** Two tails that end in the same segment: did:key:a/x and did:key:b/x. */
  lemma TailsMayAgree()
    ensures var a, b := "did:key:a/x", "did:key:b/x";
      Recordable(a) && Recordable(b) && !TailsDiffer({a, b})
  {
    var a, b := "did:key:a/x", "did:key:b/x";
    assert Tail(a) == "a" + "/" + "x" && Tail(b) == "b" + "/" + "x";
    LastSegmentAfter("a", "x");
    LastSegmentAfter("b", "x");
    assert a[8] != b[8];
  }

  /** A did:key's tail is multibase and holds no slash. */
  lemma SlashlessTailsDiffer(dids: set<string>)
    requires forall did | did in dids :: Recordable(did) && '/' !in Tail(did)
    ensures TailsDiffer(dids)
  {
    forall a, b | a in dids && b in dids && LastSegment(Tail(a)) == LastSegment(Tail(b)) ensures a == b {
      LastSegmentOfFlat(Tail(a));
      LastSegmentOfFlat(Tail(b));
      assert a == DID_KEY + Tail(a) && b == DID_KEY + Tail(b);
    }
  }
}
