/** Object keys: what is accepted from outside, and where storage puts it
    (server/emi/objectkeys.go, server/emi/blob_s3.go, server/local/fileblob.go,
    server/emi/api_agent.go). */
module Keys {
  import opened Options

  // ---------- strings and their segments ----------

  predicate HasPrefix(s: string, prefix: string) {
    |prefix| <= |s| && s[..|prefix|] == prefix
  }

  function TrimPrefix(s: string, prefix: string): (r: string) {
    if HasPrefix(s, prefix) then s[|prefix|..] else s
  }

  /** The parts between slashes; the empty string has one empty part. */
  function Split(s: string): (segs: seq<string>)
    ensures segs != []
  {
    if s == "" then [""]
    else if s[0] == '/' then [""] + Split(s[1..])
    else
      var r := Split(s[1..]);
      [[s[0]] + r[0]] + r[1..]
  }

  function Join(segs: seq<string>): (s: string)
    requires segs != []
  {
    if |segs| == 1 then segs[0] else segs[0] + "/" + Join(segs[1..])
  }

  predicate SlashFree(s: string) {
    '/' !in s
  }

  lemma {:induction false} PartsAreSlashFree(s: string)
    ensures forall i :: 0 <= i < |Split(s)| ==> SlashFree(Split(s)[i])
  {
    if s != "" {
      PartsAreSlashFree(s[1..]);
      var r := Split(s[1..]);
      assert SlashFree(r[0]);
    }
  }

  lemma JoinFirst(c: char, r: seq<string>)
    requires r != []
    ensures Join([[c] + r[0]] + r[1..]) == [c] + Join(r)
  {
    var segs := [[c] + r[0]] + r[1..];
    assert segs[1..] == r[1..];
    if |r| > 1 {
      calc {
        Join(segs);
        [c] + r[0] + "/" + Join(r[1..]);
        [c] + (r[0] + "/" + Join(r[1..]));
        [c] + Join(r);
      }
    }
  }

  lemma JoinSlash(r: seq<string>)
    requires r != []
    ensures Join([""] + r) == "/" + Join(r)
  {
    assert ([""] + r)[1..] == r;
    assert "" + "/" + Join(r) == "/" + Join(r);
  }

  lemma {:induction false} JoinSplit(s: string)
    ensures Join(Split(s)) == s
  {
    if s != "" {
      JoinSplit(s[1..]);
      JoinSlash(Split(s[1..]));
      JoinFirst(s[0], Split(s[1..]));
      hide Join;
      assert s == [s[0]] + s[1..];
    }
  }

  lemma {:induction false} SplitSlashFree(s: string)
    requires SlashFree(s)
    ensures Split(s) == [s]
  {
    if s != "" {
      SplitSlashFree(s[1..]);
      assert s[0] != '/' && s == [s[0]] + s[1..];
    }
  }

  /** A slash always separates parts. */
  lemma {:induction false} SplitAtSlash(a: string, b: string)
    ensures Split(a + "/" + b) == Split(a) + Split(b)
  {
    var s := a + "/" + b;
    if a == "" {
      assert s[1..] == b;
    } else {
      assert s[1..] == a[1..] + "/" + b;
      SplitAtSlash(a[1..], b);
    }
  }

  lemma {:induction false} SplitJoin(segs: seq<string>)
    requires segs != [] && forall i :: 0 <= i < |segs| ==> SlashFree(segs[i])
    ensures Split(Join(segs)) == segs
  {
    if |segs| == 1 {
      SplitSlashFree(segs[0]);
    } else {
      SplitJoin(segs[1..]);
      SplitAtSlash(segs[0], Join(segs[1..]));
      SplitSlashFree(segs[0]);
    }
  }

  // ---------- path.Clean ----------

  /** The parts that are left once "." and ".." have been applied. */
  function Resolve(done: seq<string>, segs: seq<string>, rooted: bool): (r: seq<string>)
    decreases |segs|
  {
    if segs == [] then done
    else
      var seg, rest := segs[0], segs[1..];
      if seg == "" || seg == "." then Resolve(done, rest, rooted)
      else if seg == ".." then
        if done != [] && done[|done| - 1] != ".." then Resolve(done[..|done| - 1], rest, rooted)
        else if rooted then Resolve(done, rest, rooted)
        else Resolve(done + [".."], rest, rooted)
      else Resolve(done + [seg], rest, rooted)
  }

  function JoinAll(segs: seq<string>): (s: string) {
    if segs == [] then "" else Join(segs)
  }

  /** Go's path.Clean, as its documentation states it. */
  function Clean(p: string): (r: string) {
    if p == "" then "."
    else if p[0] == '/' then "/" + JoinAll(Resolve([], Split(p), true))
    else
      var segs := Resolve([], Split(p), false);
      if segs == [] then "." else Join(segs)
  }

  // ---------- the two checks and the storage mapping ----------

  predicate Plain(seg: string) {
    seg != "" && seg != "." && seg != ".."
  }

  ghost predicate AllPlain(segs: seq<string>) {
    forall i :: 0 <= i < |segs| ==> Plain(segs[i])
  }

  /** The test of each segment, which both checks end with. */
  method OnlyPlain(segs: seq<string>) returns (ok: bool)
    ensures ok == AllPlain(segs)
  {
    var i := 0;
    while i < |segs|
      invariant 0 <= i <= |segs| && forall j :: 0 <= j < i ==> Plain(segs[j])
    {
      var seg := segs[i];
      if seg == "" || seg == "." || seg == ".." {
        assert !Plain(segs[i]);
        return false;
      }
      i := i + 1;
    }
    return true;
  }

  /** cleanKey of objectkeys.go. */
  method IsCleanKey(key: string) returns (ok: bool)
    ensures ok == CleanKey(key)
  {
    hide Clean, Split, AllPlain;
    if key == "" || HasPrefix(key, "/") || '\\' in key {
      return false;
    }
    if Clean(key) != key {
      return false;
    }
    ok := OnlyPlain(Split(key));
  }

  ghost predicate CleanKey(key: string) {
    && key != "" && !HasPrefix(key, "/") && '\\' !in key
    && Clean(key) == key && AllPlain(Split(key))
  }

  function UploadKeyPrefix(orgID: string): (p: string) {
    "uploads/" + orgID + "/"
  }

  function ArtifactKey(runID: string, name: string): (key: string) {
    "runs/" + runID + "/" + name
  }

  ghost predicate UploadKeyAllowed(key: string, orgID: string) {
    orgID != "" && CleanKey(key) && HasPrefix(key, UploadKeyPrefix(orgID))
  }

  ghost predicate RunKeyAllowed(key: string, runID: string) {
    runID != "" && CleanKey(key) && HasPrefix(key, ArtifactKey(runID, ""))
  }

  /** Where a key lives below the storage's prefix or directory: both backends clean it rooted. */
  function BlobKey(key: string): (r: string) {
    TrimPrefix(Clean("/" + key), "/")
  }

  // ---------- what a clean key is ----------

  lemma {:induction false} ResolvePlain(done: seq<string>, segs: seq<string>, rooted: bool)
    requires AllPlain(segs)
    ensures Resolve(done, segs, rooted) == done + segs
    decreases |segs|
  {
    if segs != [] {
      assert Plain(segs[0]);
      ResolvePlain(done + [segs[0]], segs[1..], rooted);
    }
  }

  lemma PlainIsClean(key: string)
    requires AllPlain(Split(key)) && key != "" && key[0] != '/'
    ensures Clean(key) == key
  {
    ResolvePlain([], Split(key), false);
    assert [] + Split(key) == Split(key);
    JoinSplit(key);
  }

  /** A key is clean exactly when it has no backslash and every segment is plain. */
  lemma CleanIffPlain(key: string)
    ensures CleanKey(key) <==> '\\' !in key && AllPlain(Split(key))
  {
    if '\\' !in key && AllPlain(Split(key)) {
      assert Plain(Split(key)[0]);
      PlainIsClean(key);
    }
  }

  /** Resolving from the root leaves plain segments only, whatever it is given. */
  lemma {:induction false} RootedIsPlain(done: seq<string>, segs: seq<string>)
    requires AllPlain(done) && forall i :: 0 <= i < |done| ==> SlashFree(done[i])
    requires forall i :: 0 <= i < |segs| ==> SlashFree(segs[i])
    ensures var r := Resolve(done, segs, true); AllPlain(r) && forall i :: 0 <= i < |r| ==> SlashFree(r[i])
    decreases |segs|
  {
    if segs != [] {
      var seg, rest := segs[0], segs[1..];
      if seg == "" || seg == "." {
        RootedIsPlain(done, rest);
      } else if seg == ".." {
        if done != [] && done[|done| - 1] != ".." {
          RootedIsPlain(done[..|done| - 1], rest);
        } else {
          RootedIsPlain(done, rest);
        }
      } else {
        RootedIsPlain(done + [seg], rest);
      }
    }
  }

  lemma BlobKeyIsResolved(key: string)
    ensures BlobKey(key) == JoinAll(Resolve([], Split(key), true))
  {
    assert ("/" + key)[1..] == key;
    assert Split("/" + key) == [""] + Split(key);
    assert ([""] + Split(key))[1..] == Split(key);
    assert Clean("/" + key)[1..] == JoinAll(Resolve([], Split(key), true));
  }

  /** No key leads out of the storage's namespace: what it maps to is nothing, or plain segments. */
  lemma StaysInside(key: string)
    ensures BlobKey(key) == "" || AllPlain(Split(BlobKey(key)))
  {
    BlobKeyIsResolved(key);
    PartsAreSlashFree(key);
    RootedIsPlain([], Split(key));
    var r := Resolve([], Split(key), true);
    if r != [] {
      SplitJoin(r);
    }
  }

  lemma PlainKeyStays(key: string)
    requires AllPlain(Split(key))
    ensures BlobKey(key) == key
  {
    BlobKeyIsResolved(key);
    ResolvePlain([], Split(key), true);
    assert [] + Split(key) == Split(key);
    JoinSplit(key);
  }

  /** Mapping a mapped key changes nothing. */
  lemma BlobKeyIdempotent(key: string)
    ensures BlobKey(BlobKey(key)) == BlobKey(key)
  {
    StaysInside(key);
    if BlobKey(key) == "" {
      BlobKeyIsResolved("");
      assert [""][1..] == [];
      assert Resolve([], [""], true) == Resolve([], [""][1..], true);
    } else {
      PlainKeyStays(BlobKey(key));
    }
  }

  /** A key that passes the check names the object of that very name: so two such keys name one
      object only when they are equal. */
  lemma CleanKeyIsItsObject(key: string)
    requires CleanKey(key)
    ensures BlobKey(key) == key
  {
    PlainKeyStays(key);
  }

  // ---------- whose keys are whose ----------

  lemma {:induction false} FirstSlash(a: string, x: string, b: string, y: string)
    requires SlashFree(a) && SlashFree(b) && a + "/" + x == b + "/" + y
    ensures a == b && x == y
  {
    if a == "" || b == "" {
      assert (a + "/" + x)[0] == (b + "/" + y)[0];
      assert (a + "/" + x)[1..] == x && (b + "/" + y)[1..] == y;
    } else {
      assert (a + "/" + x)[0] == a[0] && (b + "/" + y)[0] == b[0];
      assert (a + "/" + x)[1..] == a[1..] + "/" + x && (b + "/" + y)[1..] == b[1..] + "/" + y;
      FirstSlash(a[1..], x, b[1..], y);
      assert a == [a[0]] + a[1..] && b == [b[0]] + b[1..];
    }
  }

  /** A key that starts as one id's prefix does. */
  lemma UnderPrefix(key: string, head: string, id: string) returns (rest: string)
    requires HasPrefix(key, head + id + "/")
    ensures key == head + (id + "/" + rest)
  {
    rest := key[|head + id + "/"|..];
    assert key == key[..|head + id + "/"|] + rest;
  }

  lemma SamePlace(key: string, head: string, id: string, id': string)
    requires SlashFree(id) && SlashFree(id') && HasPrefix(key, head + id + "/") && HasPrefix(key, head + id' + "/")
    ensures id == id'
  {
    var rest := UnderPrefix(key, head, id);
    var rest' := UnderPrefix(key, head, id');
    assert key[|head|..] == id + "/" + rest && key[|head|..] == id' + "/" + rest';
    FirstSlash(id, rest, id', rest');
  }

  lemma FirstOfPrefix(key: string, prefix: string)
    requires key != "" && prefix != ""
    ensures HasPrefix(key, prefix) ==> key[0] == prefix[0]
  {
  }

  /** No key is allowed both for a run and as an upload. */
  lemma RunKeyIsNoUpload(key: string, run: string, org: string)
    requires RunKeyAllowed(key, run)
    ensures !UploadKeyAllowed(key, org)
  {
    FirstOfPrefix(key, ArtifactKey(run, ""));
    FirstOfPrefix(key, UploadKeyPrefix(org));
    assert ArtifactKey(run, "")[0] == 'r' && UploadKeyPrefix(org)[0] == 'u';
    hide Clean, Split;
  }

  /** No key is allowed for two runs, or for two organizations, when their ids have no slash. */
  lemma AllowedKeysAreDisjoint(key: string, id: string, id': string)
    requires SlashFree(id) && SlashFree(id')
    ensures RunKeyAllowed(key, id) && RunKeyAllowed(key, id') ==> id == id'
    ensures UploadKeyAllowed(key, id) && UploadKeyAllowed(key, id') ==> id == id'
  {
    hide CleanKey;
    assert ArtifactKey(id, "") == "runs/" + id + "/" && ArtifactKey(id', "") == "runs/" + id' + "/";
    if RunKeyAllowed(key, id) && RunKeyAllowed(key, id') {
      SamePlace(key, "runs/", id, id');
    }
    if UploadKeyAllowed(key, id) && UploadKeyAllowed(key, id') {
      SamePlace(key, "uploads/", id, id');
    }
  }

  /** Without that the ids overlap: every key of the organization "a/b" is also one of "a". */
  lemma SlashedIdsOverlap(a: string, b: string, key: string)
    requires a != "" && UploadKeyAllowed(key, a + "/" + b)
    ensures UploadKeyAllowed(key, a)
  {
    hide CleanKey;
    var p, q := UploadKeyPrefix(a + "/" + b), UploadKeyPrefix(a);
    assert p == q + (b + "/");
    assert key[..|p|][..|q|] == key[..|q|];
  }

  // ---------- artifact names ----------

  /** One id is the other, or begins with the other and a slash. */
  ghost predicate Nested(a: string, b: string) {
    CleanKey(a) && CleanKey(b) && (a == b || HasPrefix(a, b + "/") || HasPrefix(b, a + "/"))
  }

  ghost predicate Under(key: string, head: string, id: string) {
    CleanKey(key) && HasPrefix(key, head + "/" + id + "/")
  }

  /** What an allowed key is made of. */
  lemma UnderIsPlain(key: string, head: string, id: string)
    requires Under(key, head, id)
    ensures CleanKey(id)
  {
    CleanIffPlain(key);
    CleanIffPlain(id);
    hide CleanKey, Plain;
    var rest := UnderPrefix(key, head + "/", id);
    assert key == head + "/" + (id + "/" + rest);
    SplitAtSlash(head, id + "/" + rest);
    SplitAtSlash(id, rest);
    forall i | 0 <= i < |Split(id)| ensures Plain(Split(id)[i]) {
      assert Split(id)[i] == Split(key)[|Split(head)| + i];
    }
  }

  lemma UnderBoth(key: string, head: string, a: string, b: string)
    requires Under(key, head, a) && Under(key, head, b) && |a| <= |b|
    ensures a == b || HasPrefix(b, a + "/")
  {
    hide CleanKey;
    var n := |head| + 1;
    assert key[n..n + |a| + 1] == a + "/" && key[n..n + |b| + 1] == b + "/";
    var both := (b + "/")[..|a| + 1];
    assert both == key[n..n + |b| + 1][..|a| + 1] == a + "/";
    if |a| == |b| {
      assert both == b + "/";
      assert (a + "/")[..|a|] == a && (b + "/")[..|b|] == b;
    } else {
      assert both == b[..|a| + 1];
    }
  }

  lemma SomeKeyUnder(head: string, a: string, b: string)
    requires CleanKey(b) && CleanKey(head) && SlashFree(head) && (a == b || HasPrefix(b, a + "/"))
    ensures Under(head + "/" + b + "/x", head, a) && Under(head + "/" + b + "/x", head, b)
  {
    var key := head + "/" + b + "/x";
    CleanIffPlain(b);
    CleanIffPlain(head);
    CleanIffPlain(key);
    hide CleanKey;
    assert key == head + "/" + (b + "/" + "x");
    SplitAtSlash(head, b + "/" + "x");
    SplitAtSlash(b, "x");
    SplitSlashFree("x");
    hide Split;
    assert key[..|head| + 1 + |b| + 1] == head + "/" + b + "/";
    assert a != b ==> key[..|head| + 1 + |a| + 1] == head + "/" + a + "/";
  }

  lemma OverlapExactly(head: string, a: string, b: string)
    requires CleanKey(head) && SlashFree(head)
    ensures (exists key :: Under(key, head, a) && Under(key, head, b)) <==> Nested(a, b)
  {
    hide CleanKey;
    if key :| Under(key, head, a) && Under(key, head, b) {
      UnderIsPlain(key, head, a);
      UnderIsPlain(key, head, b);
      if |a| <= |b| {
        UnderBoth(key, head, a, b);
      } else {
        UnderBoth(key, head, b, a);
      }
    }
    if Nested(a, b) {
      if a == b || HasPrefix(b, a + "/") {
        SomeKeyUnder(head, a, b);
      } else {
        SomeKeyUnder(head, b, a);
      }
    }
  }

  /** Two ids have an allowed key in common exactly when they are clean, and the same or one inside
      the other. */
  lemma AllowedKeysOverlapExactly(a: string, b: string)
    ensures (exists key :: UploadKeyAllowed(key, a) && UploadKeyAllowed(key, b)) <==> Nested(a, b)
    ensures (exists key :: RunKeyAllowed(key, a) && RunKeyAllowed(key, b)) <==> Nested(a, b)
  {
    HeadsAreClean();
    OverlapExactly("uploads", a, b);
    OverlapExactly("runs", a, b);
    forall key ensures UploadKeyAllowed(key, a) <==> Under(key, "uploads", a) {
      AllowedIsUnder(key, a);
    }
    forall key ensures UploadKeyAllowed(key, b) <==> Under(key, "uploads", b) {
      AllowedIsUnder(key, b);
    }
    forall key ensures RunKeyAllowed(key, a) <==> Under(key, "runs", a) {
      AllowedIsUnder(key, a);
    }
    forall key ensures RunKeyAllowed(key, b) <==> Under(key, "runs", b) {
      AllowedIsUnder(key, b);
    }
    hide CleanKey, Nested, Under, UploadKeyAllowed, RunKeyAllowed;
  }

  lemma AllowedIsUnder(key: string, id: string)
    ensures UploadKeyAllowed(key, id) <==> Under(key, "uploads", id)
    ensures RunKeyAllowed(key, id) <==> Under(key, "runs", id)
  {
    PrefixesAre(id);
    UnderNeedsId(key, "uploads", id);
    UnderNeedsId(key, "runs", id);
    hide CleanKey, HasPrefix, UploadKeyPrefix, ArtifactKey;
  }

  lemma PrefixesAre(id: string)
    ensures UploadKeyPrefix(id) == "uploads" + "/" + id + "/" && ArtifactKey(id, "") == "runs" + "/" + id + "/"
  {
    assert "runs" + "/" + id + "/" + "" == "runs" + "/" + id + "/";
  }

  lemma UnderNeedsId(key: string, head: string, id: string)
    ensures Under(key, head, id) ==> id != ""
  {
    hide CleanKey, HasPrefix;
    if Under(key, head, id) {
      UnderIsPlain(key, head, id);
      NotEmpty(id);
    }
  }

  lemma NotEmpty(id: string)
    ensures CleanKey(id) ==> id != ""
  {
  }

  lemma HeadsAreClean()
    ensures CleanKey("uploads") && CleanKey("runs") && SlashFree("uploads") && SlashFree("runs")
  {
    SplitSlashFree("uploads");
    SplitSlashFree("runs");
    CleanIffPlain("uploads");
    CleanIffPlain("runs");
    hide Split, CleanKey;
  }

  /** White space as Unicode defines it. */
  predicate IsSpace(c: char) {
    || '\t' <= c <= '\r' || c == ' ' || c == '\U{85}' || c == '\U{A0}' || c == '\U{1680}'
    || '\U{2000}' <= c <= '\U{200A}' || c == '\U{2028}' || c == '\U{2029}' || c == '\U{202F}'
    || c == '\U{205F}' || c == '\U{3000}'
  }

  function TrimSpace(s: string): (r: string)
    ensures r != "" ==> !IsSpace(r[0]) && !IsSpace(r[|r| - 1])
    decreases |s|
  {
    if s == "" then s
    else if IsSpace(s[0]) then TrimSpace(s[1..])
    else if IsSpace(s[|s| - 1]) then TrimSpace(s[..|s| - 1])
    else s
  }

  /** How many bytes the string takes in UTF-8. */
  function Bytes(s: string): (n: nat) {
    if s == "" then 0
    else
      var c := s[0] as int;
      (if c < 0x80 then 1 else if c < 0x800 then 2 else if c < 0x10000 then 3 else 4) + Bytes(s[1..])
  }

  /** sanitiseArtifactName: the name to use, or none. */
  method SanitiseArtifactName(raw: string) returns (r: Option<string>)
    ensures r == Sanitised(raw)
  {
    hide Clean, Split, AllPlain, TrimSpace, Bytes;
    var name := TrimSpace(raw);
    if name == "" || Bytes(name) > 200 {
      return None;
    }
    if HasPrefix(name, "/") || '\\' in name {
      return None;
    }
    var clean := Clean(name);
    DotIsNotPlain();
    if clean != name || clean == "." || HasPrefix(clean, "..") {
      return None;
    }
    var plain := OnlyPlain(Split(clean));
    return if plain then Some(clean) else None;
  }

  lemma DotIsNotPlain()
    ensures !AllPlain(Split("."))
  {
    SplitSlashFree(".");
    assert !Plain(Split(".")[0]);
  }

  /** Accepted is a clean relative name of at most 200 bytes that does not begin with two dots. */
  ghost function Sanitised(raw: string): (r: Option<string>) {
    var name := TrimSpace(raw);
    if CleanKey(name) && Bytes(name) <= 200 && !HasPrefix(name, "..") then Some(name) else None
  }

  lemma {:induction false} TrimAgain(s: string)
    ensures TrimSpace(TrimSpace(s)) == TrimSpace(s)
    decreases |s|
  {
    if s != "" {
      if IsSpace(s[0]) {
        TrimAgain(s[1..]);
      } else if IsSpace(s[|s| - 1]) {
        TrimAgain(s[..|s| - 1]);
      }
    }
  }

  /** An accepted name is accepted again, as it is. */
  lemma SanitisedAgain(raw: string)
    requires Sanitised(raw).Some?
    ensures Sanitised(Sanitised(raw).value) == Sanitised(raw)
  {
    TrimAgain(raw);
  }

  lemma BackslashFree(a: string, b: string, c: char)
    ensures c in a + b <==> c in a || c in b
  {
  }

  /** The key an accepted name gets by default is allowed for its run, whenever the run's id is
      itself a clean key; it never is for any other id. */
  lemma DefaultKeyAllowed(runID: string, raw: string)
    requires Sanitised(raw).Some?
    ensures RunKeyAllowed(ArtifactKey(runID, Sanitised(raw).value), runID) <==> CleanKey(runID)
  {
    var name := Sanitised(raw).value;
    var key := ArtifactKey(runID, name);
    hide Split, Clean, AllPlain;
    ArtifactKeyParts(runID, name);
    CleanIffPlain(key);
    CleanIffPlain(runID);
    CleanIffPlain(name);
    assert key == ArtifactKey(runID, "") + name;
  }

  lemma ArtifactKeyParts(runID: string, name: string)
    ensures AllPlain(Split(ArtifactKey(runID, name))) <==> AllPlain(Split(runID)) && AllPlain(Split(name))
    ensures '\\' in ArtifactKey(runID, name) <==> '\\' in runID || '\\' in name
    ensures AllPlain(Split(runID)) ==> runID != ""
  {
    var key := ArtifactKey(runID, name);
    assert key == "runs" + "/" + (runID + "/" + name);
    SplitAtSlash("runs", runID + "/" + name);
    SplitAtSlash(runID, name);
    SplitSlashFree("runs");
    SplitSlashFree("");
    assert !Plain([""][0]);
    hide Split;
    PlainConcat(["runs"], Split(runID), Split(name));
    hide *;
    BackslashFree("runs/" + runID + "/", name, '\\');
    BackslashFree("runs/" + runID, "/", '\\');
    BackslashFree("runs/", runID, '\\');
  }

  lemma PlainConcat(a: seq<string>, b: seq<string>, c: seq<string>)
    ensures AllPlain(a + (b + c)) <==> AllPlain(a) && AllPlain(b) && AllPlain(c)
  {
    var all := a + (b + c);
    if AllPlain(all) {
      forall i | 0 <= i < |b| ensures Plain(b[i]) { assert all[|a| + i] == b[i]; }
      forall i | 0 <= i < |c| ensures Plain(c[i]) { assert all[|a| + |b| + i] == c[i]; }
      forall i | 0 <= i < |a| ensures Plain(a[i]) { assert all[i] == a[i]; }
    }
  }
}
