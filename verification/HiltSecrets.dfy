/** The walk over hilt's secrets in OpenBao, and their destruction. */
module HiltSecrets {
  import opened Outcomes

  const ROOT := "tenant/"

  // ---------- what a list call shows ----------

  /** The first step of a path below a folder: a leaf's name, or a folder's with its slash. */
  function FirstKey(rest: string): string {
    if rest == "" then ""
    else if rest[0] == '/' then "/"
    else [rest[0]] + FirstKey(rest[1..])
  }

  function Under(secrets: set<string>, folder: string): set<string> {
    set path | path in secrets && folder <= path
  }

  function KeysIn(secrets: set<string>, folder: string): set<string> {
    set path | path in Under(secrets, folder) :: FirstKey(path[|folder|..])
  }

  predicate IsFolder(key: string) {
    key != "" && key[|key| - 1] == '/'
  }

  predicate Distinct(names: seq<string>) {
    forall i, j | 0 <= i < j < |names| :: names[i] != names[j]
  }

  /** Names exactly these, each once. */
  ghost predicate Lists(names: seq<string>, all: set<string>) {
    (forall name :: name in names <==> name in all) && Distinct(names)
  }

  /** A path that ends with a slash, which a listing shows as an empty key. */
  predicate Unlistable(path: string) {
    IsFolder(path)
  }

  lemma {:induction false} FirstKeyIsPrefix(rest: string)
    ensures FirstKey(rest) <= rest
    ensures !IsFolder(FirstKey(rest)) ==> FirstKey(rest) == rest
    ensures FirstKey(rest) == "" <==> rest == ""
  {
    if rest != "" && rest[0] != '/' {
      FirstKeyIsPrefix(rest[1..]);
    }
  }

  /** What shows as a folder is everything that has the folder before it. */
  lemma {:induction false} FolderKeyCovers(first: string, other: string)
    requires IsFolder(FirstKey(first))
    ensures FirstKey(other) == FirstKey(first) <==> FirstKey(first) <= other
  {
    var key := FirstKey(first);
    FirstKeyIsPrefix(first);
    FirstKeyIsPrefix(other);
    if first[0] != '/' && other != "" && other[0] == first[0] {
      assert key[1..] == FirstKey(first[1..]);
      assert |key| > 1;
      FolderKeyCovers(first[1..], other[1..]);
      assert FirstKey(other) == [other[0]] + FirstKey(other[1..]);
      assert key <= other <==> key[1..] <= other[1..];
    }
  }

  ghost function LongestOf(secrets: set<string>): (n: nat)
    ensures forall path | path in secrets :: |path| <= n
  {
    if secrets == {} then 0
    else
      var path :| path in secrets;
      var rest := LongestOf(secrets - {path});
      if |path| < rest then rest else |path|
  }

  // ---------- the walk ----------

  /** The list call: what is there, in whatever order the server chooses. */
  method List(secrets: set<string>, folder: string) returns (r: Result<seq<string>>)
    ensures r.Done? ==> Lists(r.value, KeysIn(secrets, folder))
    ensures r.Failed? ==> r.cause.Transport?
  {
    var served: bool := *;
    if !served {
      var stopped: bool := *;
      return if stopped then Stopped else Failed(None, Transport);
    }
    var left, keys := KeysIn(secrets, folder), [];
    while left != {}
      invariant Lists(keys, KeysIn(secrets, folder) - left) && left <= KeysIn(secrets, folder)
      decreases |left|
    {
      var key :| key in left;
      left, keys := left - {key}, keys + [key];
    }
    r := Done(keys);
  }

  /** The paths under a folder that a listing shows behind some of its keys. */
  function Behind(secrets: set<string>, folder: string, keys: seq<string>): set<string> {
    set path | path in Under(secrets, folder) && FirstKey(path[|folder|..]) in keys
  }

  ghost predicate Clean(secrets: set<string>, folder: string) {
    forall path | path in Under(secrets, folder) :: !Unlistable(path)
  }

  lemma BehindOne(secrets: set<string>, folder: string, key: string)
    requires key in KeysIn(secrets, folder) && key != ""
    ensures Behind(secrets, folder, [key]) == if IsFolder(key) then Under(secrets, folder + key) else {folder + key}
    ensures !IsFolder(key) ==> folder + key in secrets
  {
    var witnessing :| witnessing in Under(secrets, folder) && FirstKey(witnessing[|folder|..]) == key;
    forall path | path in Under(secrets, folder)
      ensures FirstKey(path[|folder|..]) == key <==>
        if IsFolder(key) then folder + key <= path else path == folder + key
    {
      var rest := path[|folder|..];
      assert path == folder + rest;
      FirstKeyIsPrefix(rest);
      FirstKeyIsPrefix(witnessing[|folder|..]);
      if IsFolder(key) {
        FolderKeyCovers(witnessing[|folder|..], rest);
        assert key <= rest <==> folder + key <= path;
      } else {
        assert witnessing == folder + key;
      }
    }
    if IsFolder(key) {
      forall path | path in Under(secrets, folder + key) ensures path in Under(secrets, folder) {
        assert folder <= folder + key;
      }
    }
  }

  lemma KeyFitsIn(secrets: set<string>, folder: string, key: string)
    requires key in KeysIn(secrets, folder)
    ensures |folder + key| <= LongestOf(secrets)
    ensures key == "" ==> folder in secrets
  {
    var path :| path in Under(secrets, folder) && FirstKey(path[|folder|..]) == key;
    FirstKeyIsPrefix(path[|folder|..]);
    assert key == "" ==> path == folder;
  }

  lemma BehindMore(secrets: set<string>, folder: string, keys: seq<string>, key: string)
    requires key !in keys
    ensures Behind(secrets, folder, keys + [key]) == Behind(secrets, folder, keys) + Behind(secrets, folder, [key])
    ensures Behind(secrets, folder, keys) !! Behind(secrets, folder, [key])
  {
  }

  lemma ListsMore(paths: seq<string>, more: seq<string>, a: set<string>, b: set<string>)
    requires Lists(paths, a) && Lists(more, b) && a !! b
    ensures Lists(paths + more, a + b)
  {
    forall i, j | 0 <= i < j < |paths + more| ensures (paths + more)[i] != (paths + more)[j] {
      assert i < |paths| <= j ==> paths[i] in a && more[j - |paths|] in b;
    }
  }

  /** listHiltSecrets: a walk that comes through returns every path under the folder, each
      once, and nothing else; and what it cannot walk is a path that ends in a slash. */
  method Walk(secrets: set<string>, folder: string) returns (r: Result<seq<string>>)
    requires IsFolder(folder)
    ensures r.Done? ==> Lists(r.value, Under(secrets, folder)) && Clean(secrets, folder)
    ensures r.Failed? && r.cause.Declined? ==> !Clean(secrets, folder)
    ensures r.Failed? ==> !r.cause.Rejected?
    decreases LongestOf(secrets) + 1 - |folder|, 0
  {
    var listed := List(secrets, folder);
    if listed.IsFailure() { return listed; }
    var keys := listed.value;
    var paths: seq<string> := [];
    for i := 0 to |keys|
      invariant Lists(paths, Behind(secrets, folder, keys[..i]))
      invariant forall path | path in Behind(secrets, folder, keys[..i]) :: !Unlistable(path)
    {
      var key := keys[i];
      KeyFitsIn(secrets, folder, key);
      if key == "" {
        assert folder in Under(secrets, folder);
        return Failed(None, Declined);
      }
      BehindOne(secrets, folder, key);
      assert keys[..i + 1] == keys[..i] + [key];
      BehindMore(secrets, folder, keys[..i], key);
      var found := [folder + key];
      if IsFolder(key) {
        var nested := Walk(secrets, folder + key);
        if nested.IsFailure() {
          assert Under(secrets, folder + key) <= Under(secrets, folder);
          return nested;
        }
        found := nested.value;
      }
      ListsMore(paths, found, Behind(secrets, folder, keys[..i]), Behind(secrets, folder, [key]));
      paths := paths + found;
    }
    assert keys[..|keys|] == keys;
    assert Behind(secrets, folder, keys) == Under(secrets, folder);
    r := Done(paths);
  }

  // ---------- the destruction ----------

  /** hilt's mount. */
  class Mount {
    var secrets: set<string>

    /** Refuses what does not live under the root. */
    method Destroy(path: string) returns (r: Result<()>)
      modifies this
      ensures r.Done? ==> ROOT <= path && secrets == old(secrets) - {path}
      ensures !r.Done? ==> secrets == old(secrets)
      ensures r.Failed? && r.cause.Declined? <==> !(ROOT <= path)
    {
      if !(ROOT <= path) { return Failed(None, Declined); }
      var served: bool := *;
      if !served {
        var stopped: bool := *;
        return if stopped then Stopped else Failed(None, Transport);
      }
      secrets := secrets - {path};
      r := Done(());
    }

    /** Destroys what the walk lists. It never meets the refusal, leaves everything outside
        the root alone however it ends, and leaves nothing under the root when it comes
        through, having destroyed as many secrets as there were. */
    method DestroyAll() returns (r: Result<nat>)
      modifies this
      ensures old(secrets) - Under(old(secrets), ROOT) <= secrets <= old(secrets)
      ensures r.Done? ==> secrets == old(secrets) - Under(old(secrets), ROOT) && r.value == |Under(old(secrets), ROOT)|
      ensures r.Failed? && r.cause.Declined? ==> secrets == old(secrets) && !Clean(secrets, ROOT)
    {
      var listed := Walk(secrets, ROOT);
      if listed.IsFailure() { return listed.PropagateFailure(); }
      var paths := listed.value;
      for i := 0 to |paths|
        invariant secrets == old(secrets) - (set path | path in paths[..i])
      {
        assert paths[i] in paths;
        assert paths[..i + 1] == paths[..i] + [paths[i]];
        var gone := Destroy(paths[i]);
        if gone.IsFailure() { return gone.PropagateFailure(); }
      }
      assert paths[..|paths|] == paths;
      assert (set path | path in paths) == Under(old(secrets), ROOT);
      CountDistinct(paths, Under(old(secrets), ROOT));
      r := Done(|paths|);
    }
  }

  lemma {:induction false} CountDistinct(names: seq<string>, all: set<string>)
    requires Lists(names, all)
    ensures |all| == |names|
    decreases |names|
  {
    if names == [] {
      assert all == {};
    } else {
      var rest, last := names[..|names| - 1], names[|names| - 1];
      assert names == rest + [last];
      assert last !in rest;
      CountDistinct(rest, all - {last});
    }
  }
}
