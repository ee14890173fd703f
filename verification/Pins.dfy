/** Image pins as lines of a tfvars file: how one is read, how one is set, and how a promotion
    sets one after the other. */
module Pins {
  import opened Outcomes

  // ---------- one line ----------

  predicate IsBlank(c: char) {
    c == ' ' || c == '\t'
  }

  /** The first place from `i` on that is not blank. */
  function PastBlanks(s: string, i: nat): (r: nat)
    requires i <= |s|
    ensures i <= r <= |s|
    ensures forall k | i <= k < r :: IsBlank(s[k])
    ensures r < |s| ==> !IsBlank(s[r])
    decreases |s| - i
  {
    if i == |s| || !IsBlank(s[i]) then i else PastBlanks(s, i + 1)
  }

  predicate EndsKey(c: char) {
    IsBlank(c) || c == '='
  }

  /** The first place from `i` on where a key ends. */
  function PastKey(s: string, i: nat): (r: nat)
    requires i <= |s|
    ensures i <= r <= |s|
    ensures forall k | i <= k < r :: !EndsKey(s[k])
    ensures r < |s| ==> EndsKey(s[r])
    decreases |s| - i
  {
    if i == |s| || EndsKey(s[i]) then i else PastKey(s, i + 1)
  }

  const DIGEST_LENGTH: nat := 71

  predicate IsHex(c: char) {
    '0' <= c <= '9' || 'a' <= c <= 'f'
  }

  predicate IsDigest(s: string) {
    |s| == DIGEST_LENGTH && s[..7] == "sha256:" && forall i | 7 <= i < |s| :: IsHex(s[i])
  }

  /** A pin found in a line: its key, where its digest begins, and what follows the closing quote. */
  datatype Pin = Pin(key: string, start: nat, trail: string)

  /** Where the digest would begin: after blanks, a key, blanks, an equals sign, blanks, and a quote. */
  function Head(line: string): (head: Option<(string, nat)>)
    ensures head.Some? ==> head.value.1 <= |line|
  {
    var i := PastBlanks(line, 0);
    var j := PastKey(line, i);
    var e := PastBlanks(line, j);
    if |line| <= e || line[e] != '=' then None else
    var q := PastBlanks(line, e + 1);
    if |line| <= q || line[q] != '"' then None else Some((line[i..j], q + 1))
  }

  /** A line that pins a key at a digest, with nothing but blanks after it. */
  function Parse(line: string): Option<Pin> {
    var head := Head(line);
    if head.None? then None else
    var (key, start) := head.value;
    var end := start + DIGEST_LENGTH;
    if |line| <= end || !IsDigest(line[start..end]) || line[end] != '"' || PastBlanks(line, end + 1) != |line|
    then None
    else Some(Pin(key, start, line[end + 1..]))
  }

  function DigestOf(line: string): string
    requires Parse(line).Some?
  {
    var start := Parse(line).value.start;
    line[start..start + DIGEST_LENGTH]
  }

  /** What pin_at reads: a pin of the service, blanks at the end or not. */
  predicate Reads(line: string, service: string) {
    Parse(line).Some? && Parse(line).value.key == service
  }

  /** What set-pin edits: a pin of the service that the closing quote ends. */
  predicate Fits(line: string, service: string) {
    Reads(line, service) && Parse(line).value.trail == ""
  }

  /** A text with as many characters replaced, from `start` on, as a digest has. */
  function Splice(s: string, start: nat, piece: string): string
    requires start + DIGEST_LENGTH <= |s|
  {
    s[..start] + piece + s[start + DIGEST_LENGTH..]
  }

  /** Another digest in the place of the one there. */
  function Replaced(line: string, digest: string): string
    requires Parse(line).Some?
  {
    Splice(line, Parse(line).value.start, digest)
  }

  function EditLine(line: string, service: string, digest: string): string {
    if Fits(line, service) then Replaced(line, digest) else line
  }

  predicate Agree(s: string, t: string, n: nat) {
    n <= |s| && n <= |t| && forall k | 0 <= k < n :: s[k] == t[k]
  }

  lemma BlanksDecided(s: string, t: string, i: nat, n: nat)
    requires Agree(s, t, n) && i <= n && PastBlanks(s, i) < n
    ensures PastBlanks(t, i) == PastBlanks(s, i)
  {
    hide IsBlank;
  }

  lemma KeyDecided(s: string, t: string, i: nat, n: nat)
    requires Agree(s, t, n) && i <= n && PastKey(s, i) < n
    ensures PastKey(t, i) == PastKey(s, i)
  {
    hide EndsKey;
  }

  /** Where the digest begins, and for which key, is settled by what comes before it. */
  lemma HeadDecided(line: string, other: string)
    requires Head(line).Some? && Head(line).value.1 <= |other|
    requires line[..Head(line).value.1] == other[..Head(line).value.1]
    ensures Head(other) == Head(line)
  {
    hide PastBlanks, PastKey, IsBlank, EndsKey;
    var start := Head(line).value.1;
    assert forall k | 0 <= k < start :: other[k] == other[..start][k] == line[k];
    var i := PastBlanks(line, 0);
    var j := PastKey(line, i);
    var e := PastBlanks(line, j);
    BlanksDecided(line, other, 0, start);
    KeyDecided(line, other, i, start);
    BlanksDecided(line, other, j, start);
    BlanksDecided(line, other, e + 1, start);
    assert line[i..j] == other[i..j];
  }

  lemma EditParses(line: string, digest: string)
    requires Parse(line).Some? && IsDigest(digest)
    ensures Parse(Replaced(line, digest)) == Parse(line)
    ensures DigestOf(Replaced(line, digest)) == digest
  {
    hide Head, IsDigest;
    var start := Parse(line).value.start;
    var end := start + DIGEST_LENGTH;
    DigestSized(digest);
    var edited := Replaced(line, digest);
    assert edited[..start] == line[..start];
    HeadDecided(line, edited);
    assert edited[start..end] == digest;
    assert |edited| == |line| && forall k | end <= k < |line| :: edited[k] == line[k];
    assert edited[end + 1..] == line[end + 1..];
  }

  lemma DigestSized(digest: string)
    requires IsDigest(digest)
    ensures |digest| == DIGEST_LENGTH
  {
  }

  lemma SpliceTwice(s: string, start: nat, first: string, second: string)
    requires start + DIGEST_LENGTH <= |s| && |first| == DIGEST_LENGTH
    ensures |Splice(s, start, first)| == |s|
    ensures Splice(Splice(s, start, first), start, second) == Splice(s, start, second)
    ensures Splice(s, start, s[start..start + DIGEST_LENGTH]) == s
  {
    var once, end := Splice(s, start, first), start + DIGEST_LENGTH;
    assert once[..start] == s[..start];
    assert once[end..] == s[end..];
    assert s == s[..start] + s[start..end] + s[end..];
  }

  /** A line takes any digest in place of its own: it reads back, everything else about it
      stays, and setting is undone by setting what was there. */
  lemma ReplaceReads(line: string, digest: string)
    requires Parse(line).Some? && IsDigest(digest)
    ensures Parse(Replaced(line, digest)) == Parse(line)
    ensures DigestOf(Replaced(line, digest)) == digest
    ensures Replaced(line, DigestOf(line)) == line
    ensures forall later :: Replaced(Replaced(line, digest), later) == Replaced(line, later)
  {
    EditParses(line, digest);
    DigestSized(digest);
    var start := Parse(line).value.start;
    assert start + DIGEST_LENGTH <= |line|;
    hide Head, IsDigest, Splice, Parse;
    SpliceTwice(line, start, digest, digest);
    assert Replaced(line, DigestOf(line)) == line;
    forall later ensures Replaced(Replaced(line, digest), later) == Replaced(line, later) {
      SpliceTwice(line, start, digest, later);
    }
  }

  // ---------- what git counts ----------

  function Max(a: nat, b: nat): nat {
    if a < b then b else a
  }

  /** The most lines that two files have in common, in order. */
  function Common(a: seq<string>, b: seq<string>): nat
    decreases |a| + |b|
  {
    if a == [] || b == [] then 0
    else if a[0] == b[0] then 1 + Common(a[1..], b[1..])
    else Max(Common(a[1..], b), Common(a, b[1..]))
  }

  /** Lines added and lines deleted, as a diff counts them: the fewest that tell the two apart. */
  function Numstat(before: seq<string>, after: seq<string>): (int, int) {
    (|after| - Common(before, after), |before| - Common(before, after))
  }

  lemma {:induction false} CommonDrops(a: seq<string>, b: seq<string>)
    ensures Common(a, b) <= |a| && Common(a, b) <= |b|
    ensures a != [] ==> Common(a[1..], b) <= Common(a, b) <= Common(a[1..], b) + 1
    ensures b != [] ==> Common(a, b[1..]) <= Common(a, b) <= Common(a, b[1..]) + 1
    decreases |a| + |b|
  {
    if a != [] && b != [] {
      CommonDrops(a[1..], b);
      CommonDrops(a, b[1..]);
      CommonDrops(a[1..], b[1..]);
    }
  }

  /** The places where two files of one length differ. */
  function Differing(a: seq<string>, b: seq<string>): nat
    requires |a| == |b|
  {
    if a == [] then 0 else (if a[0] == b[0] then 0 else 1) + Differing(a[1..], b[1..])
  }

  lemma {:induction false} CommonAtLeast(a: seq<string>, b: seq<string>)
    requires |a| == |b|
    ensures |a| - Differing(a, b) <= Common(a, b)
  {
    if a != [] {
      CommonAtLeast(a[1..], b[1..]);
      if a[0] != b[0] {
        CommonDrops(a[1..], b);
      }
    }
  }

  /** Lines of the one that the other has nowhere are common to neither. */
  function Foreign(a: seq<string>, b: seq<string>): nat {
    if a == [] then 0 else (if a[0] in b then 0 else 1) + Foreign(a[1..], b)
  }

  lemma {:induction false} CommonAtMost(a: seq<string>, b: seq<string>, all: seq<string>)
    requires forall line | line in b :: line in all
    ensures Common(a, b) <= |a| - Foreign(a, all)
    decreases |a| + |b|
  {
    ForeignSmall(a, all);
    if a != [] && b != [] {
      assert forall line | line in b[1..] :: line in b;
      if a[0] == b[0] {
        CommonAtMost(a[1..], b[1..], all);
      } else {
        CommonAtMost(a[1..], b, all);
        CommonAtMost(a, b[1..], all);
      }
    }
  }

  lemma {:induction false} ForeignSmall(a: seq<string>, all: seq<string>)
    ensures Foreign(a, all) <= |a|
  {
    if a != [] {
      ForeignSmall(a[1..], all);
    }
  }

  lemma {:induction false} ForeignIsDiffering(a: seq<string>, b: seq<string>, all: seq<string>)
    requires |a| == |b|
    requires forall i | 0 <= i < |a| :: a[i] == b[i] ==> a[i] in all
    requires forall i | 0 <= i < |a| :: a[i] != b[i] ==> a[i] !in all
    ensures Foreign(a, all) == Differing(a, b)
  {
    if a != [] {
      ForeignIsDiffering(a[1..], b[1..], all);
    }
  }

  /** Replacing lines in place by lines among which none that went is left: git counts as many
      lines added as deleted, one for each line replaced. */
  lemma ReplacingCounts(a: seq<string>, b: seq<string>)
    requires |a| == |b|
    requires forall i | 0 <= i < |a| :: a[i] != b[i] ==> a[i] !in b
    ensures Numstat(a, b) == (Differing(a, b), Differing(a, b))
  {
    CommonAtLeast(a, b);
    ForeignIsDiffering(a, b, b);
    CommonAtMost(a, b, b);
  }

  // ---------- set-pin ----------

  const SERVICES := ["sprue", "hilt", "swarf", "delegator", "signing_service", "plc"]

  predicate Known(service: string) {
    service in SERVICES
  }

  function EditFile(file: seq<string>, service: string, digest: string): seq<string> {
    if file == [] then [] else [EditLine(file[0], service, digest)] + EditFile(file[1..], service, digest)
  }

  predicate PinsAt(line: string, service: string, digest: string) {
    Fits(line, service) && DigestOf(line) == digest
  }

  predicate PinnedIn(file: seq<string>, service: string, digest: string) {
    exists i | 0 <= i < |file| :: PinsAt(file[i], service, digest)
  }

  /** How set-pin ends: with the file as it leaves it, changed or not; or with an error, the
      file then left as the edit left it. */
  datatype Outcome = Unchanged | Changed | BadRequest | NotPinned | NotOneLine

  /** `index` is what the file is compared with. */
  function SetPin(index: seq<string>, file: seq<string>, service: string, digest: string): (seq<string>, Outcome) {
    if !Known(service) || !IsDigest(digest) then (file, BadRequest)
    else
      var edited := EditFile(file, service, digest);
      if !PinnedIn(edited, service, digest) then (edited, NotPinned)
      else
        var counts := Numstat(index, edited);
        if counts == (0, 0) then (edited, Unchanged)
        else if counts == (1, 1) then (edited, Changed)
        else (edited, NotOneLine)
  }

  lemma {:induction false} EditFileAt(file: seq<string>, service: string, digest: string)
    ensures |EditFile(file, service, digest)| == |file|
    ensures forall i | 0 <= i < |file| :: EditFile(file, service, digest)[i] == EditLine(file[i], service, digest)
  {
    if file != [] {
      EditFileAt(file[1..], service, digest);
    }
  }

  /** An edited line pins the service at the digest, or was no pin of it that the edit fits. */
  lemma EditedLine(line: string, service: string, digest: string)
    requires IsDigest(digest)
    ensures var edited := EditLine(line, service, digest);
      && (PinsAt(edited, service, digest) <==> Fits(line, service))
      && (edited == line <==> !Fits(line, service) || DigestOf(line) == digest)
      && (forall other :: Reads(edited, other) <==> Reads(line, other))
      && (forall other | other != service && Reads(line, other) :: DigestOf(edited) == DigestOf(line))
      && (forall other :: Fits(edited, other) <==> Fits(line, other))
  {
    if Fits(line, service) {
      ReplaceReads(line, digest);
    }
  }

  // ---------- on a file that is as it was committed ----------

  predicate FitsSomewhere(file: seq<string>, service: string) {
    exists i | 0 <= i < |file| :: Fits(file[i], service)
  }

  lemma CleanCounts(file: seq<string>, service: string, digest: string)
    requires IsDigest(digest)
    ensures var edited := EditFile(file, service, digest);
      |edited| == |file| && Numstat(file, edited) == (Differing(file, edited), Differing(file, edited))
  {
    hide Fits, EditLine, IsDigest;
    var edited := EditFile(file, service, digest);
    EditFileAt(file, service, digest);
    forall i | 0 <= i < |file| && file[i] != edited[i] ensures file[i] !in edited {
      EditedLine(file[i], service, digest);
      forall k | 0 <= k < |edited| ensures edited[k] != file[i] {
        EditedLine(file[k], service, digest);
      }
    }
    ReplacingCounts(file, edited);
  }

  lemma {:induction false} DifferingNone(a: seq<string>, b: seq<string>)
    requires |a| == |b|
    ensures Differing(a, b) == 0 <==> a == b
  {
    if a != [] {
      DifferingNone(a[1..], b[1..]);
      assert a == [a[0]] + a[1..] && b == [b[0]] + b[1..];
    }
  }

  /** How many lines pin the service, in the form that is edited, at another digest. */
  function Elsewhere(file: seq<string>, service: string, digest: string): nat {
    if file == [] then 0
    else
      var counted := Fits(file[0], service) && DigestOf(file[0]) != digest;
      (if counted then 1 else 0) + Elsewhere(file[1..], service, digest)
  }

  lemma {:induction false} DifferingElsewhere(file: seq<string>, service: string, digest: string)
    requires IsDigest(digest)
    ensures |EditFile(file, service, digest)| == |file|
    ensures Differing(file, EditFile(file, service, digest)) == Elsewhere(file, service, digest)
  {
    hide Fits, EditLine, IsDigest, DigestOf;
    if file != [] {
      EditedLine(file[0], service, digest);
      DifferingElsewhere(file[1..], service, digest);
      assert EditFile(file, service, digest)[1..] == EditFile(file[1..], service, digest);
    }
  }

  /** set-pin succeeds on a committed file exactly when the service and the digest are well
      formed, some line pins the service in the form that is edited, and no more than one
      such line is at another digest; and it says that the file changed exactly when one is. */
  lemma SetPinSucceedsExactlyWhen(file: seq<string>, service: string, digest: string)
    ensures var (after, outcome) := SetPin(file, file, service, digest);
      && (outcome.Unchanged? || outcome.Changed? <==>
            && Known(service) && IsDigest(digest) && FitsSomewhere(file, service)
            && Elsewhere(file, service, digest) <= 1)
      && (outcome.Changed? ==> Elsewhere(file, service, digest) == 1)
      && (outcome.Unchanged? ==> Elsewhere(file, service, digest) == 0 && after == file)
  {
    hide Fits, EditLine, IsDigest, Numstat, EditFile, PinsAt, PinnedIn, Known, FitsSomewhere, Differing, Elsewhere;
    EditFileAt(file, service, digest);
    if IsDigest(digest) {
      CleanCounts(file, service, digest);
      PinnedExactlyWhenFits(file, service, digest);
      DifferingNone(file, EditFile(file, service, digest));
      DifferingElsewhere(file, service, digest);
    }
  }

  /** The read-back finds the pin exactly when the edit found a line. */
  lemma PinnedExactlyWhenFits(file: seq<string>, service: string, digest: string)
    requires IsDigest(digest)
    ensures var edited := EditFile(file, service, digest);
      PinnedIn(edited, service, digest) <==> FitsSomewhere(file, service)
  {
    hide Fits, EditLine, IsDigest, PinsAt;
    var edited := EditFile(file, service, digest);
    EditFileAt(file, service, digest);
    forall i | 0 <= i < |file| ensures PinsAt(edited[i], service, digest) <==> Fits(file[i], service) {
      EditedLine(file[i], service, digest);
    }
    if i :| 0 <= i < |file| && Fits(file[i], service) {
      assert PinsAt(edited[i], service, digest);
    }
  }

  // ---------- one pin for the service ----------

  /** The service's only pin is in line `at`, in the form that set-pin edits. */
  predicate OnePin(file: seq<string>, service: string, at: nat) {
    && at < |file| && Fits(file[at], service)
    && forall i | 0 <= i < |file| && i != at :: !Reads(file[i], service)
  }

  /** What pin_at prints: the digest of every line that pins the service. */
  function PinAt(file: seq<string>, service: string): seq<string> {
    if file == [] then []
    else (if Reads(file[0], service) then [DigestOf(file[0])] else []) + PinAt(file[1..], service)
  }

  lemma {:induction false} NoPins(file: seq<string>, service: string)
    requires forall i | 0 <= i < |file| :: !Reads(file[i], service)
    ensures PinAt(file, service) == []
  {
    if file != [] {
      NoPins(file[1..], service);
    }
  }

  lemma {:induction false} OnePinReads(file: seq<string>, service: string, at: nat)
    requires at < |file| && Reads(file[at], service)
    requires forall i | 0 <= i < |file| && i != at :: !Reads(file[i], service)
    ensures PinAt(file, service) == [DigestOf(file[at])]
  {
    if at == 0 {
      NoPins(file[1..], service);
    } else {
      OnePinReads(file[1..], service, at - 1);
    }
  }

  lemma {:induction false} SamePins(a: seq<string>, b: seq<string>, service: string)
    requires |a| == |b|
    requires forall i | 0 <= i < |a| :: Reads(a[i], service) <==> Reads(b[i], service)
    requires forall i | 0 <= i < |a| && Reads(a[i], service) && Reads(b[i], service) :: DigestOf(a[i]) == DigestOf(b[i])
    ensures PinAt(a, service) == PinAt(b, service)
  {
    if a != [] {
      SamePins(a[1..], b[1..], service);
    }
  }

  lemma EditIsOneLine(file: seq<string>, service: string, at: nat, digest: string)
    requires OnePin(file, service, at) && IsDigest(digest)
    ensures EditFile(file, service, digest) == file[at := Replaced(file[at], digest)]
  {
    EditFileAt(file, service, digest);
    hide Parse, Replaced, IsDigest;
    var edited := EditFile(file, service, digest);
    forall i | 0 <= i < |file|
      ensures edited[i] == if i == at then Replaced(file[at], digest) else file[i]
    {
      assert Fits(file[i], service) ==> Reads(file[i], service);
    }
  }

  /** What an edit does to a file with one pin for the service. */
  lemma EditOnePin(file: seq<string>, service: string, at: nat, digest: string)
    requires OnePin(file, service, at) && IsDigest(digest)
    ensures var edited := EditFile(file, service, digest);
      && edited == file[at := Replaced(file[at], digest)]
      && PinAt(edited, service) == [digest]
      && (forall other | other != service :: PinAt(edited, other) == PinAt(file, other))
      && (DigestOf(file[at]) == digest <==> edited == file)
  {
    EditIsOneLine(file, service, at, digest);
    ReplaceReads(file[at], digest);
    EditedLine(file[at], service, digest);
    hide Parse, Replaced, IsDigest;
    var edited := EditFile(file, service, digest);
    OnePinReads(edited, service, at);
    forall other | other != service ensures PinAt(edited, other) == PinAt(file, other) {
      SamePins(edited, file, other);
    }
    if edited == file {
      assert edited[at] == file[at];
    }
  }

  lemma OnePinKept(file: seq<string>, service: string, at: nat, digest: string, other: string, k: nat)
    requires OnePin(file, service, at) && IsDigest(digest) && OnePin(file, other, k)
    ensures OnePin(EditFile(file, service, digest), other, k)
  {
    EditFileAt(file, service, digest);
    hide Reads, Fits, IsDigest, EditLine;
    forall i | 0 <= i < |file|
      ensures Reads(EditFile(file, service, digest)[i], other) <==> Reads(file[i], other)
      ensures Fits(EditFile(file, service, digest)[i], other) <==> Fits(file[i], other)
    {
      EditedLine(file[i], service, digest);
    }
  }

  lemma {:induction false} DifferingOnce(a: seq<string>, at: nat, line: string)
    requires at < |a| && a[at] != line
    ensures Differing(a, a[at := line]) == 1
  {
    if at == 0 {
      DifferingNone(a[1..], a[1..]);
      assert a[0 := line][1..] == a[1..];
    } else {
      assert a[at := line][1..] == a[1..][at - 1 := line];
      DifferingOnce(a[1..], at - 1, line);
    }
  }

  /** On a committed file with one pin for the service: set-pin succeeds, says whether the
      file changed, changes at most that line, and leaves it pinning the digest; what is read
      for every other service stays. */
  lemma SettingReadsBack(file: seq<string>, service: string, at: nat, digest: string)
    requires Known(service) && IsDigest(digest) && OnePin(file, service, at)
    ensures var (after, outcome) := SetPin(file, file, service, digest);
      && outcome == (if PinAt(file, service) == [digest] then Unchanged else Changed)
      && after == file[at := Replaced(file[at], digest)]
      && PinAt(after, service) == [digest]
      && (forall other | other != service :: PinAt(after, other) == PinAt(file, other))
      && (outcome.Unchanged? ==> after == file)
  {
    hide Known, IsDigest, Parse, Replaced, Numstat, EditFile;
    OnePinReads(file, service, at);
    EditOnePin(file, service, at, digest);
    CleanCounts(file, service, digest);
    PinnedExactlyWhenFits(file, service, digest);
    var edited := EditFile(file, service, digest);
    assert FitsSomewhere(file, service);
    DifferingNone(file, edited);
    if DigestOf(file[at]) != digest {
      assert edited[at] != file[at];
      DifferingOnce(file, at, Replaced(file[at], digest));
    }
  }

  lemma OnePinParses(file: seq<string>, service: string, at: nat)
    requires OnePin(file, service, at)
    ensures at < |file| && Parse(file[at]).Some?
  {
  }

  lemma LineSetTwice(line: string, first: string, second: string)
    requires Parse(line).Some? && IsDigest(first)
    ensures var once := Replaced(line, first);
      && Parse(once).Some? && Replaced(once, second) == Replaced(line, second)
      && IsDigest(DigestOf(line)) && Replaced(once, DigestOf(line)) == line
  {
    ReplaceReads(line, first);
    DigestOfIsDigest(line);
  }

  /** Setting twice is setting once, the last digest set is the one that counts, and setting
      what was there undoes it. */
  lemma SettingTwiceAndBack(file: seq<string>, service: string, at: nat, first: string, second: string)
    requires Known(service) && IsDigest(first) && IsDigest(second) && OnePin(file, service, at)
    ensures var once := SetPin(file, file, service, first).0;
      && SetPin(once, once, service, first) == (once, Unchanged)
      && SetPin(once, once, service, second).0 == SetPin(file, file, service, second).0
      && SetPin(once, once, service, DigestOf(file[at])).0 == file
  {
    hide *;
    OnePinParses(file, service, at);
    SettingReadsBack(file, service, at, first);
    SettingReadsBack(file, service, at, second);
    OnePinKept(file, service, at, first, service, at);
    EditIsOneLine(file, service, at, first);
    LineSetTwice(file[at], first, second);
    var line, earlier := file[at], DigestOf(file[at]);
    var once := file[at := Replaced(line, first)];
    SettingReadsBack(once, service, at, first);
    SettingReadsBack(once, service, at, second);
    SettingReadsBack(once, service, at, earlier);
    assert once[at := Replaced(once[at], second)] == file[at := Replaced(line, second)];
    assert once[at := line] == file;
  }

  lemma DigestOfIsDigest(line: string)
    requires Parse(line).Some?
    ensures IsDigest(DigestOf(line))
  {
  }

  /** Where no line fits the edit, set-pin fails and leaves the file. */
  lemma NothingFitsNothingChanges(file: seq<string>, service: string, digest: string)
    requires Known(service) && IsDigest(digest) && !FitsSomewhere(file, service)
    ensures SetPin(file, file, service, digest) == (file, NotPinned)
  {
    PinnedExactlyWhenFits(file, service, digest);
    EditFileAt(file, service, digest);
    hide Known, IsDigest, PinsAt, EditFile, Fits;
    var edited := EditFile(file, service, digest);
    forall i | 0 <= i < |file| ensures edited[i] == file[i] {
      assert !Fits(file[i], service);
    }
    assert edited == file;
  }

  /** A blank after the closing quote: the line pins what it pinned, but no longer fits. */
  lemma BlankAppended(line: string, blank: char, service: string)
    requires Fits(line, service) && IsBlank(blank)
    ensures var longer := line + [blank];
      && Reads(longer, service) && Parse(longer).value.trail == [blank]
      && DigestOf(longer) == DigestOf(line) && !Fits(longer, service)
  {
    var longer := line + [blank];
    var start := Parse(line).value.start;
    var end := start + DIGEST_LENGTH;
    assert longer[..start] == line[..start];
    HeadDecided(line, longer);
    hide Head;
    assert |line| == end + 1;
    assert longer[start..end] == line[start..end];
    assert longer[end] == line[end] && longer[end + 1..] == [blank];
  }

  /** A service pinned once is edited exactly when nothing follows the closing quote. */
  lemma OnePinIsEditedExactlyWhen(file: seq<string>, service: string, at: nat, digest: string)
    requires Known(service) && IsDigest(digest) && at < |file| && Reads(file[at], service)
    requires forall i | 0 <= i < |file| && i != at :: !Reads(file[i], service)
    ensures var (after, outcome) := SetPin(file, file, service, digest);
      && PinAt(file, service) == [DigestOf(file[at])]
      && (outcome.Unchanged? || outcome.Changed? <==> Parse(file[at]).value.trail == "")
      && PinAt(after, service) == if Parse(file[at]).value.trail == "" then [digest] else PinAt(file, service)
  {
    if Parse(file[at]).value.trail == "" {
      OnePinReads(file, service, at);
      assert OnePin(file, service, at);
      hide Parse, IsDigest, SetPin;
      SettingReadsBack(file, service, at, digest);
    } else {
      BlankAfterPinIsNotEdited(file, service, at, digest);
    }
  }

  /** A service pinned once, with something after the closing quote: pin_at prints the digest,
      and set-pin fails, whatever digest it is to set, and leaves the file. */
  lemma BlankAfterPinIsNotEdited(file: seq<string>, service: string, at: nat, digest: string)
    requires Known(service) && IsDigest(digest)
    requires at < |file| && Reads(file[at], service) && Parse(file[at]).value.trail != ""
    requires forall i | 0 <= i < |file| && i != at :: !Reads(file[i], service)
    ensures PinAt(file, service) == [DigestOf(file[at])]
    ensures SetPin(file, file, service, digest) == (file, NotPinned)
  {
    OnePinReads(file, service, at);
    forall i | 0 <= i < |file| ensures !Fits(file[i], service) {
      assert i != at ==> !Reads(file[i], service);
    }
    hide Parse, IsDigest, SetPin;
    NothingFitsNothingChanges(file, service, digest);
  }

  // ---------- promotion ----------

  datatype Move = Move(service: string, digest: string)

  /** What pin_at prints, as a shell variable holds it. */
  function Printed(digests: seq<string>): string {
    if digests == [] then "" else if |digests| == 1 then digests[0] else digests[0] + "\n" + Printed(digests[1..])
  }

  /** The pins that differ, or the error that a service is not pinned on both stages. */
  function Moving(source: seq<string>, target: seq<string>, services: seq<string>): Option<seq<Move>> {
    if services == [] then Some([]) else
    var wanted, there := Printed(PinAt(source, services[0])), Printed(PinAt(target, services[0]));
    if wanted == "" || there == "" then None else
    var rest := Moving(source, target, services[1..]);
    if rest.None? then None
    else Some((if wanted == there then [] else [Move(services[0], wanted)]) + rest.value)
  }

  /** Each pin is set and then staged, so that the next is compared with it. */
  function SetAll(file: seq<string>, moves: seq<Move>): Option<seq<string>>
    decreases |moves|
  {
    if moves == [] then Some(file) else
    var (after, outcome) := SetPin(file, file, moves[0].service, moves[0].digest);
    if outcome.Changed? || outcome.Unchanged? then SetAll(after, moves[1..]) else None
  }

  function Promote(source: seq<string>, target: seq<string>): Option<seq<string>> {
    var moves := Moving(source, target, SERVICES);
    if moves.None? then None else SetAll(target, moves.value)
  }

  /** The service has one pin in the file. */
  ghost predicate Pinned(file: seq<string>, service: string) {
    exists at: nat :: OnePin(file, service, at)
  }

  /** As above, but for what may follow the closing quote. */
  ghost predicate ReadOnce(file: seq<string>, service: string) {
    exists digest :: IsDigest(digest) && PinAt(file, service) == [digest]
  }

  predicate DistinctServices(moves: seq<Move>) {
    forall i, j | 0 <= i < j < |moves| :: moves[i].service != moves[j].service
  }

  predicate Sane(moves: seq<Move>) {
    forall i | 0 <= i < |moves| :: Known(moves[i].service) && IsDigest(moves[i].digest)
  }

  /** What setting some pins leads to. */
  ghost predicate SetsAll(file: seq<string>, after: seq<string>, moves: seq<Move>) {
    && |after| == |file|
    && (forall i | 0 <= i < |moves| :: PinAt(after, moves[i].service) == [moves[i].digest])
    && (forall service | (forall i | 0 <= i < |moves| :: moves[i].service != service) ::
        PinAt(after, service) == PinAt(file, service))
    && (forall i | 0 <= i < |file|
        && (forall k | 0 <= k < |moves| :: !Reads(file[i], moves[k].service)) :: after[i] == file[i])
  }

  lemma PinnedOn(file: seq<string>, move: Move, other: string)
    requires Sane([move]) && Pinned(file, move.service) && Pinned(file, other)
    ensures Pinned(SetPin(file, file, move.service, move.digest).0, other)
  {
    hide Known, IsDigest, Fits, Reads;
    assert Known([move][0].service) && IsDigest([move][0].digest);
    var at: nat :| OnePin(file, move.service, at);
    var k: nat :| OnePin(file, other, k);
    SettingReadsBack(file, move.service, at, move.digest);
    EditIsOneLine(file, move.service, at, move.digest);
    OnePinKept(file, move.service, at, move.digest, other, k);
  }

  lemma SetFirst(file: seq<string>, move: Move)
    requires Known(move.service) && IsDigest(move.digest) && Pinned(file, move.service)
    ensures var (after, outcome) := SetPin(file, file, move.service, move.digest);
      && (outcome.Changed? || outcome.Unchanged?)
      && |after| == |file|
      && PinAt(after, move.service) == [move.digest]
      && (forall other | other != move.service :: PinAt(after, other) == PinAt(file, other))
      && (forall i | 0 <= i < |file| :: (!Reads(file[i], move.service) ==> after[i] == file[i]))
  {
    var at: nat :| OnePin(file, move.service, at);
    SettingReadsBack(file, move.service, at, move.digest);
    hide SetPin, Parse, Replaced, IsDigest, Known, PinAt;
    var after := SetPin(file, file, move.service, move.digest).0;
    forall i | 0 <= i < |file| && !Reads(file[i], move.service) ensures after[i] == file[i] {
      assert i != at;
    }
  }

  lemma LineReadsSame(line: string, digest: string, other: string)
    requires Parse(line).Some? && IsDigest(digest)
    ensures Reads(Replaced(line, digest), other) <==> Reads(line, other)
  {
    ReplaceReads(line, digest);
  }

  /** An edit does not change which services a line pins. */
  lemma ReadsSame(file: seq<string>, move: Move, i: nat, other: string)
    requires Known(move.service) && IsDigest(move.digest) && Pinned(file, move.service) && i < |file|
    ensures var after := SetPin(file, file, move.service, move.digest).0;
      |after| == |file| && (Reads(after[i], other) <==> Reads(file[i], other))
  {
    var at: nat :| OnePin(file, move.service, at);
    SettingReadsBack(file, move.service, at, move.digest);
    LineReadsSame(file[at], move.digest, other);
    hide SetPin, Parse, Replaced, IsDigest, Known, PinAt;
  }

  lemma {:induction false} SetAllSets(file: seq<string>, moves: seq<Move>)
    requires Sane(moves) && DistinctServices(moves)
    requires forall i | 0 <= i < |moves| :: Pinned(file, moves[i].service)
    ensures SetAll(file, moves).Some? && SetsAll(file, SetAll(file, moves).value, moves)
    decreases |moves|
  {
    hide SetPin, Pinned, Known, IsDigest, PinAt, Reads;
    if moves != [] {
      var move := moves[0];
      SetFirst(file, move);
      var after := SetPin(file, file, move.service, move.digest).0;
      forall i | 0 <= i < |moves[1..]| ensures Pinned(after, moves[1..][i].service) {
        PinnedOn(file, move, moves[i + 1].service);
      }
      SetAllSets(after, moves[1..]);
      var end := SetAll(after, moves[1..]).value;
      SetsAllJoin(file, after, end, moves);
    }
  }

  lemma SetsAllJoin(file: seq<string>, after: seq<string>, end: seq<string>, moves: seq<Move>)
    requires moves != [] && DistinctServices(moves) && Sane(moves)
    requires Pinned(file, moves[0].service)
    requires after == SetPin(file, file, moves[0].service, moves[0].digest).0
    requires SetsAll(after, end, moves[1..])
    ensures SetsAll(file, end, moves)
  {
    hide SetPin, Pinned, Known, IsDigest, PinAt, Reads;
    var move := moves[0];
    SetFirst(file, move);
    assert forall i | 0 <= i < |moves[1..]| :: moves[1..][i] == moves[i + 1];
    forall i | 0 <= i < |moves| ensures PinAt(end, moves[i].service) == [moves[i].digest] {
      if i != 0 {
        assert moves[1..][i - 1] == moves[i];
      }
    }
    forall service | (forall i | 0 <= i < |moves| :: moves[i].service != service)
      ensures PinAt(end, service) == PinAt(file, service)
    {
      assert moves[0].service != service;
    }
    forall i | 0 <= i < |file| && (forall k | 0 <= k < |moves| :: !Reads(file[i], moves[k].service))
      ensures end[i] == file[i]
    {
      assert !Reads(file[i], moves[0].service);
      forall k | 0 <= k < |moves[1..]| ensures !Reads(after[i], moves[1..][k].service) {
        assert moves[1..][k] == moves[k + 1];
        ReadsSame(file, move, i, moves[k + 1].service);
      }
    }
  }

  predicate DistinctNames(names: seq<string>) {
    forall i, j | 0 <= i < j < |names| :: names[i] != names[j]
  }

  /** The moves are of these services, each to its digest in the source; and a service that
      does not move has the same pin in both. */
  ghost predicate MovesRight(source: seq<string>, target: seq<string>, services: seq<string>, moves: seq<Move>) {
    && Sane(moves) && DistinctServices(moves)
    && (forall i | 0 <= i < |moves| ::
          moves[i].service in services && PinAt(source, moves[i].service) == [moves[i].digest])
    && (forall service | service in services ::
          || (exists i | 0 <= i < |moves| :: moves[i].service == service)
          || PinAt(source, service) == PinAt(target, service))
  }

  lemma PinnedReadsOnce(file: seq<string>, service: string)
    requires Pinned(file, service)
    ensures ReadOnce(file, service)
  {
    var at: nat :| OnePin(file, service, at);
    OnePinReads(file, service, at);
    DigestOfIsDigest(file[at]);
  }

  lemma ReadOncePrints(file: seq<string>, service: string)
    requires ReadOnce(file, service)
    ensures IsDigest(Printed(PinAt(file, service))) && PinAt(file, service) == [Printed(PinAt(file, service))]
    ensures Printed(PinAt(file, service)) != ""
  {
    var digest :| IsDigest(digest) && PinAt(file, service) == [digest];
  }

  lemma {:induction false} MovingIsRight(source: seq<string>, target: seq<string>, services: seq<string>)
    requires DistinctNames(services) && forall service | service in services :: Known(service)
    requires forall service | service in services :: ReadOnce(source, service) && Pinned(target, service)
    ensures Moving(source, target, services).Some?
    ensures MovesRight(source, target, services, Moving(source, target, services).value)
    decreases |services|
  {
    hide Known, ReadOnce, Pinned, PinAt, IsDigest, Printed;
    if services != [] {
      var first := services[0];
      assert services == [first] + services[1..];
      assert first in services && first !in services[1..];
      MovingIsRight(source, target, services[1..]);
      PinnedReadsOnce(target, first);
      ReadOncePrints(source, first);
      ReadOncePrints(target, first);
      var rest := Moving(source, target, services[1..]).value;
      if PinAt(source, first) == PinAt(target, first) {
        MovesSame(source, target, services, rest);
        assert [] + rest == rest;
      } else {
        MovesMore(source, target, services, rest, Printed(PinAt(source, first)));
      }
    }
  }

  lemma MovesSame(source: seq<string>, target: seq<string>, services: seq<string>, rest: seq<Move>)
    requires services != [] && PinAt(source, services[0]) == PinAt(target, services[0])
    requires MovesRight(source, target, services[1..], rest)
    ensures MovesRight(source, target, services, rest)
  {
    hide Known, PinAt, IsDigest, DistinctServices, Sane;
    assert services == [services[0]] + services[1..];
    forall service | service in services
      ensures (exists i | 0 <= i < |rest| :: rest[i].service == service)
        || PinAt(source, service) == PinAt(target, service)
    {
      assert service == services[0] || service in services[1..];
    }
  }

  lemma MovesMore(source: seq<string>, target: seq<string>, services: seq<string>, rest: seq<Move>, digest: string)
    requires services != [] && Known(services[0]) && services[0] !in services[1..]
    requires MovesRight(source, target, services[1..], rest)
    requires IsDigest(digest) && PinAt(source, services[0]) == [digest]
    ensures MovesRight(source, target, services, [Move(services[0], digest)] + rest)
  {
    hide Known, PinAt, IsDigest;
    var first := services[0];
    var moves := [Move(first, digest)] + rest;
    assert services == [first] + services[1..];
    assert forall i | 1 <= i < |moves| :: moves[i] == rest[i - 1];
    forall i | 0 <= i < |moves|
      ensures Known(moves[i].service) && IsDigest(moves[i].digest)
      ensures moves[i].service in services && PinAt(source, moves[i].service) == [moves[i].digest]
    {
    }
    forall i, j | 0 <= i < j < |moves| ensures moves[i].service != moves[j].service {
      assert rest[j - 1].service in services[1..];
    }
    forall service | service in services
      ensures (exists i | 0 <= i < |moves| :: moves[i].service == service)
        || PinAt(source, service) == PinAt(target, service)
    {
      if service == first {
        assert moves[0].service == service;
      } else if i :| 0 <= i < |rest| && rest[i].service == service {
        assert moves[i + 1].service == service;
      } else {
        assert service in services[1..];
      }
    }
  }

  /** Where the source can be read and the target edited, for every service: a promotion comes
      through, every pin of the target is then the source's, and every line that pins no
      service is as it was. */
  lemma PromotionCopiesThePins(source: seq<string>, target: seq<string>)
    requires forall service | service in SERVICES :: ReadOnce(source, service) && Pinned(target, service)
    ensures Promote(source, target).Some?
    ensures var after := Promote(source, target).value;
      && |after| == |target|
      && (forall service | service in SERVICES :: PinAt(after, service) == PinAt(source, service))
      && (forall i | 0 <= i < |target|
          && (forall service | service in SERVICES :: !Reads(target[i], service)) :: after[i] == target[i])
  {
    ServicesKnown();
    hide Known, ReadOnce, Pinned, PinAt, Reads, IsDigest, SetAll;
    MovingIsRight(source, target, SERVICES);
    var moves := Moving(source, target, SERVICES).value;
    SetAllSets(target, moves);
    var after := SetAll(target, moves).value;
    forall service | service in SERVICES ensures PinAt(after, service) == PinAt(source, service) {
      if i :| 0 <= i < |moves| && moves[i].service == service {
        assert PinAt(after, moves[i].service) == [moves[i].digest];
      }
    }
    forall i | 0 <= i < |target| && (forall service | service in SERVICES :: !Reads(target[i], service))
      ensures after[i] == target[i]
    {
      assert forall k | 0 <= k < |moves| :: moves[k].service in SERVICES;
    }
  }

  // ---------- when a promotion comes through ----------

  lemma {:induction false} PinsAreDigests(file: seq<string>, service: string)
    ensures forall digest | digest in PinAt(file, service) :: IsDigest(digest)
  {
    hide IsDigest, Parse;
    if file != [] {
      PinsAreDigests(file[1..], service);
      if Reads(file[0], service) {
        DigestOfIsDigest(file[0]);
      }
    }
  }

  lemma {:induction false} PrintedTells(digests: seq<string>)
    requires forall digest | digest in digests :: IsDigest(digest)
    ensures Printed(digests) == "" <==> digests == []
    ensures IsDigest(Printed(digests)) <==> |digests| == 1
  {
    if digests != [] {
      DigestSized(digests[0]);
      hide IsDigest;
      if 1 < |digests| {
        if IsDigest(Printed(digests)) {
          DigestSized(Printed(digests));
        }
      }
    }
  }

  /** set-pin would succeed with this move. */
  predicate Settable(file: seq<string>, move: Move) {
    IsDigest(move.digest) && FitsSomewhere(file, move.service) && Elsewhere(file, move.service, move.digest) <= 1
  }

  /** An edit for one service leaves another's lines fit for the same edits. */
  lemma {:induction false} ElsewhereKept(file: seq<string>, move: Move, other: Move)
    requires IsDigest(move.digest) && other.service != move.service
    ensures var after := EditFile(file, move.service, move.digest);
      Elsewhere(after, other.service, other.digest) == Elsewhere(file, other.service, other.digest)
  {
    hide Fits, Reads, EditLine, IsDigest, DigestOf;
    if file != [] {
      EditedLine(file[0], move.service, move.digest);
      FitsReads(file[0], other.service);
      ElsewhereKept(file[1..], move, other);
      assert EditFile(file, move.service, move.digest)[1..] == EditFile(file[1..], move.service, move.digest);
    }
  }

  lemma FitsReads(line: string, service: string)
    ensures Fits(line, service) ==> Reads(line, service) && Parse(line).Some?
  {
  }

  lemma SettableKept(file: seq<string>, move: Move, other: Move)
    requires IsDigest(move.digest) && other.service != move.service
    ensures Settable(EditFile(file, move.service, move.digest), other) <==> Settable(file, other)
  {
    hide Fits, EditLine, EditFile, IsDigest, Elsewhere;
    ElsewhereKept(file, move, other);
    EditFileAt(file, move.service, move.digest);
    var after := EditFile(file, move.service, move.digest);
    forall i | 0 <= i < |file| ensures Fits(after[i], other.service) <==> Fits(file[i], other.service) {
      EditedLine(file[i], move.service, move.digest);
    }
  }

  lemma SetPinOfMove(file: seq<string>, move: Move)
    requires Known(move.service)
    ensures var (after, outcome) := SetPin(file, file, move.service, move.digest);
      && (outcome.Changed? || outcome.Unchanged? <==> Settable(file, move))
      && (Settable(file, move) ==> after == EditFile(file, move.service, move.digest))
  {
    SetPinSucceedsExactlyWhen(file, move.service, move.digest);
    hide IsDigest, FitsSomewhere, Elsewhere, EditFile, PinnedIn, Numstat, Known;
  }

  lemma {:induction false} SetAllExactlyWhen(file: seq<string>, moves: seq<Move>)
    requires DistinctServices(moves) && forall i | 0 <= i < |moves| :: Known(moves[i].service)
    ensures SetAll(file, moves).Some? <==> forall i | 0 <= i < |moves| :: Settable(file, moves[i])
    decreases |moves|
  {
    hide SetPin, Settable, Known, EditFile;
    if moves != [] {
      var first := moves[0];
      SetPinOfMove(file, first);
      if Settable(file, first) {
        var after := EditFile(file, first.service, first.digest);
        assert IsDigest(first.digest) by {
          SettableHasDigest(file, first);
        }
        SetAllExactlyWhen(after, moves[1..]);
        forall i | 0 <= i < |moves[1..]| ensures Settable(after, moves[1..][i]) <==> Settable(file, moves[i + 1]) {
          SettableKept(file, first, moves[i + 1]);
        }
        assert forall i | 1 <= i < |moves| :: moves[i] == moves[1..][i - 1];
      }
    }
  }

  lemma SettableHasDigest(file: seq<string>, move: Move)
    requires Settable(file, move)
    ensures IsDigest(move.digest)
  {
  }

  /** Whether a service is on the moving list, and as what. */
  lemma {:induction false} MovingExactly(source: seq<string>, target: seq<string>, services: seq<string>)
    requires DistinctNames(services)
    ensures var moves := Moving(source, target, services);
      && (moves.Some? <==> forall s | s in services :: PinAt(source, s) != [] && PinAt(target, s) != [])
      && (moves.Some? ==>
            && DistinctServices(moves.value)
            && (forall move | move in moves.value ::
                  move.service in services && move.digest == Printed(PinAt(source, move.service)))
            && (forall s | s in services ::
                  Move(s, Printed(PinAt(source, s))) in moves.value
                  <==> Printed(PinAt(source, s)) != Printed(PinAt(target, s))))
    decreases |services|
  {
    hide PinAt, Printed, IsDigest;
    if services != [] {
      var first := services[0];
      assert services == [first] + services[1..];
      assert first !in services[1..];
      PinsAreDigests(source, first);
      PinsAreDigests(target, first);
      PrintedTells(PinAt(source, first));
      PrintedTells(PinAt(target, first));
      MovingExactly(source, target, services[1..]);
      if Moving(source, target, services).Some? {
        var rest := Moving(source, target, services[1..]).value;
        var moves := Moving(source, target, services).value;
        var one := Move(first, Printed(PinAt(source, first)));
        forall i | 0 <= i < |rest| ensures rest[i].service != first {
          assert rest[i] in rest;
        }
        assert moves == (if Printed(PinAt(source, first)) == Printed(PinAt(target, first)) then [] else [one]) + rest;
      }
    }
  }

  /** What a promotion needs of a service: it is pinned on both sides, and where the pins
      differ the source's is a single one that set-pin can set. */
  predicate Promotable(source: seq<string>, target: seq<string>, service: string) {
    var wanted, there := PinAt(source, service), PinAt(target, service);
    && wanted != [] && there != []
    && (wanted != there ==> |wanted| == 1 && Settable(target, Move(service, wanted[0])))
  }

  lemma {:induction false} PrintedInjective(a: seq<string>, b: seq<string>)
    requires forall digest | digest in a || digest in b :: IsDigest(digest)
    ensures Printed(a) == Printed(b) <==> a == b
  {
    PrintedTells(a);
    PrintedTells(b);
    if a != [] && b != [] && Printed(a) == Printed(b) {
      DigestSized(a[0]);
      DigestSized(b[0]);
      hide IsDigest;
      assert a[0] == Printed(a)[..DIGEST_LENGTH] && b[0] == Printed(b)[..DIGEST_LENGTH];
      if 1 < |a| {
        assert Printed(a[1..]) == Printed(a)[DIGEST_LENGTH + 1..] && Printed(b[1..]) == Printed(b)[DIGEST_LENGTH + 1..];
        PrintedInjective(a[1..], b[1..]);
        assert a == [a[0]] + a[1..] && b == [b[0]] + b[1..];
      } else {
        assert a == [a[0]] && b == [b[0]];
      }
    }
  }

  /** A promotion comes through exactly when every service is pinned on both sides and every
      pin that differs can be set to the source's single one. */
  lemma PromotionSucceedsExactlyWhen(source: seq<string>, target: seq<string>)
    ensures Promote(source, target).Some? <==> forall s | s in SERVICES :: Promotable(source, target, s)
  {
    ServicesKnown();
    MovingExactly(source, target, SERVICES);
    hide Known, Settable, SetAll, PinAt, Printed, IsDigest, Moving;
    forall s | s in SERVICES
      ensures var wanted, there := PinAt(source, s), PinAt(target, s);
        && (Printed(wanted) == Printed(there) <==> wanted == there)
        && (Settable(target, Move(s, Printed(wanted))) ==> |wanted| == 1)
        && (|wanted| == 1 ==> Printed(wanted) == wanted[0])
    {
      PinsAreDigests(source, s);
      PinsAreDigests(target, s);
      PrintedInjective(PinAt(source, s), PinAt(target, s));
      PrintedTells(PinAt(source, s));
      SettableIsPrinted(source, target, s);
    }
    var moves := Moving(source, target, SERVICES);
    if moves.Some? {
      assert forall i | 0 <= i < |moves.value| :: moves.value[i] in moves.value;
      SetAllExactlyWhen(target, moves.value);
      PromotableMoves(source, target, moves.value);
    }
  }

  lemma SettableIsPrinted(source: seq<string>, target: seq<string>, service: string)
    ensures Settable(target, Move(service, Printed(PinAt(source, service)))) ==>
      IsDigest(Printed(PinAt(source, service)))
    ensures |PinAt(source, service)| == 1 ==> Printed(PinAt(source, service)) == PinAt(source, service)[0]
  {
  }

  lemma PromotableMoves(source: seq<string>, target: seq<string>, moves: seq<Move>)
    requires forall s | s in SERVICES :: PinAt(source, s) != [] && PinAt(target, s) != []
    requires forall move | move in moves ::
      move.service in SERVICES && move.digest == Printed(PinAt(source, move.service))
    requires forall s | s in SERVICES ::
      var wanted, there := PinAt(source, s), PinAt(target, s);
      && (Move(s, Printed(wanted)) in moves <==> wanted != there)
      && (Settable(target, Move(s, Printed(wanted))) ==> |wanted| == 1)
      && (|wanted| == 1 ==> Printed(wanted) == wanted[0])
    ensures (forall i | 0 <= i < |moves| :: Settable(target, moves[i]))
      <==> forall s | s in SERVICES :: Promotable(source, target, s)
  {
    hide Settable, PinAt, Printed;
    if forall i | 0 <= i < |moves| :: Settable(target, moves[i]) {
      forall s | s in SERVICES ensures Promotable(source, target, s) {
        var move := Move(s, Printed(PinAt(source, s)));
        if move in moves {
          var i :| 0 <= i < |moves| && moves[i] == move;
          assert Settable(target, moves[i]);
        }
      }
    } else {
      var i :| 0 <= i < |moves| && !Settable(target, moves[i]);
      var s := moves[i].service;
      assert moves[i] in moves && moves[i] == Move(s, Printed(PinAt(source, s)));
      assert !Promotable(source, target, s);
    }
  }

  lemma ServicesKnown()
    ensures DistinctNames(SERVICES) && forall service | service in SERVICES :: Known(service)
  {
  }

  // ---------- as the scripts do it ----------

  /** sed's edit, line by line, of the file in place. */
  method EditInPlace(file: array<string>, service: string, digest: string)
    modifies file
    ensures file[..] == EditFile(old(file[..]), service, digest)
  {
    hide EditLine;
    for i := 0 to file.Length
      invariant forall k | 0 <= k < i :: file[k] == EditLine(old(file[k]), service, digest)
      invariant forall k | i <= k < file.Length :: file[k] == old(file[k])
    {
      file[i] := EditLine(file[i], service, digest);
    }
    EditFileAt(old(file[..]), service, digest);
  }

  /** set-pin.sh: the edit, the read-back, and the count of changed lines. */
  method SetPinInPlace(index: seq<string>, file: array<string>, service: string, digest: string)
    returns (outcome: Outcome)
    modifies file
    ensures (file[..], outcome) == SetPin(index, old(file[..]), service, digest)
  {
    hide EditFile, EditLine, Numstat, Fits, IsDigest, Known;
    if !Known(service) || !IsDigest(digest) { return BadRequest; }
    EditInPlace(file, service, digest);
    var found := false;
    for i := 0 to file.Length
      invariant file[..] == EditFile(old(file[..]), service, digest)
      invariant found <==> exists k | 0 <= k < i :: PinsAt(file[k], service, digest)
    {
      found := found || PinsAt(file[i], service, digest);
    }
    ghost var edited := file[..];
    assert found <==> PinnedIn(edited, service, digest);
    if !found { return NotPinned; }
    var counts := Numstat(index, file[..]);
    outcome := if counts == (0, 0) then Unchanged else if counts == (1, 1) then Changed else NotOneLine;
  }

  /** The list so far, and what the rest of the services add to it, make up the whole. */
  predicate MovingFrom(source: seq<string>, target: seq<string>, services: seq<string>, moving: seq<Move>, i: nat)
    requires i <= |services|
  {
    var rest := Moving(source, target, services[i..]);
    Moving(source, target, services) == if rest.None? then None else Some(moving + rest.value)
  }

  lemma MovingAt(source: seq<string>, target: seq<string>, services: seq<string>, i: nat)
    requires i < |services|
    ensures var wanted, there := Printed(PinAt(source, services[i])), Printed(PinAt(target, services[i]));
      var rest := Moving(source, target, services[i + 1..]);
      Moving(source, target, services[i..]) ==
        if wanted == "" || there == "" || rest.None? then None
        else Some((if wanted == there then [] else [Move(services[i], wanted)]) + rest.value)
  {
    hide PinAt, Printed;
    assert services[i..][0] == services[i] && services[i..][1..] == services[i + 1..];
  }

  lemma MovingStep(source: seq<string>, target: seq<string>, services: seq<string>, moving: seq<Move>, i: nat)
    requires i < |services| && MovingFrom(source, target, services, moving, i)
    ensures var wanted, there := Printed(PinAt(source, services[i])), Printed(PinAt(target, services[i]));
      if wanted == "" || there == "" then Moving(source, target, services) == None
      else
        var more := if wanted == there then moving else moving + [Move(services[i], wanted)];
        MovingFrom(source, target, services, more, i + 1)
  {
    MovingAt(source, target, services, i);
    hide PinAt, Printed, Moving;
    var wanted, there := Printed(PinAt(source, services[i])), Printed(PinAt(target, services[i]));
    var rest := Moving(source, target, services[i + 1..]);
    if wanted != "" && there != "" && rest.Some? {
      if wanted == there {
        assert [] + rest.value == rest.value;
      } else {
        Joined(moving, [Move(services[i], wanted)], rest.value);
      }
    }
  }

  lemma Joined(a: seq<Move>, b: seq<Move>, c: seq<Move>)
    ensures a + (b + c) == a + b + c
  {
  }

  /** promote.sh: the list of what moves. */
  method CollectMoves(source: seq<string>, target: seq<string>, services: seq<string>)
    returns (moves: Option<seq<Move>>)
    ensures moves == Moving(source, target, services)
  {
    hide PinAt, Printed;
    var moving: seq<Move> := [];
    assert services[0..] == services;
    assert Moving(source, target, services).Some? ==>
      [] + Moving(source, target, services).value == Moving(source, target, services).value;
    for i := 0 to |services|
      invariant MovingFrom(source, target, services, moving, i)
    {
      var wanted, there := Printed(PinAt(source, services[i])), Printed(PinAt(target, services[i]));
      MovingStep(source, target, services, moving, i);
      hide MovingFrom;
      if wanted == "" || there == "" { return None; }
      if wanted != there { moving := moving + [Move(services[i], wanted)]; }
    }
    assert services[|services|..] == [] && moving + [] == moving;
    moves := Some(moving);
  }

  /** promote.sh: what moves, and then one pin after the other. */
  method PromoteInPlace(source: seq<string>, target: array<string>) returns (promoted: bool)
    modifies target
    ensures promoted <==> Promote(source, old(target[..])).Some?
    ensures promoted ==> target[..] == Promote(source, old(target[..])).value
  {
    hide SetPin, Moving;
    ghost var before := target[..];
    var moves := CollectMoves(source, target[..], SERVICES);
    if moves.None? { return false; }
    var moving := moves.value;
    for i := 0 to |moving|
      invariant SetAll(target[..], moving[i..]) == SetAll(before, moving)
    {
      assert moving[i..][0] == moving[i] && moving[i..][1..] == moving[i + 1..];
      var outcome := SetPinInPlace(target[..], target, moving[i].service, moving[i].digest);
      if !outcome.Changed? && !outcome.Unchanged? { return false; }
    }
    promoted := true;
  }
}
