/** Object storage: what a key names in it, and what deleting a key or a prefix removes
    (server/emi/blob_s3.go, server/local/fileblob.go). */
module Blobs {
  import opened Keys

  // ---------- the bucket's prefix ----------

  const DEFAULT_KEY_PREFIX := "emi/"

  function TrimSlashes(s: string): (r: string)
    ensures r != "" ==> r[0] != '/' && r[|r| - 1] != '/'
    decreases |s|
  {
    if s == "" then s
    else if s[0] == '/' then TrimSlashes(s[1..])
    else if s[|s| - 1] == '/' then TrimSlashes(s[..|s| - 1])
    else s
  }

  function NormaliseKeyPrefix(prefix: string): (r: string) {
    var trimmed := TrimSlashes(if prefix == "" then DEFAULT_KEY_PREFIX else prefix);
    if trimmed == "" then "" else trimmed + "/"
  }

  lemma DefaultTrimmed()
    ensures TrimSlashes(DEFAULT_KEY_PREFIX) == "emi"
  {
    assert DEFAULT_KEY_PREFIX[..3] == "emi";
    assert TrimSlashes(DEFAULT_KEY_PREFIX) == TrimSlashes("emi");
  }

  /** All that trimming leaves of slashes is nothing, and of anything else something. */
  lemma {:induction false} TrimmedAway(s: string)
    ensures TrimSlashes(s) == "" <==> forall i :: 0 <= i < |s| ==> s[i] == '/'
    decreases |s|
  {
    if s != "" && s[0] == '/' {
      TrimmedAway(s[1..]);
      assert s == [s[0]] + s[1..];
    } else if s != "" && s[|s| - 1] == '/' {
      TrimmedAway(s[..|s| - 1]);
      assert s == s[..|s| - 1] + [s[|s| - 1]];
    }
  }

  lemma {:induction false} TrimmedBehind(s: string)
    ensures TrimSlashes(s + "/") == TrimSlashes(s)
    decreases |s|
  {
    if s == "" {
      assert s + "/" == "/";
      assert TrimSlashes("/") == TrimSlashes("");
    } else if s[0] == '/' {
      assert (s + "/")[1..] == s[1..] + "/";
      TrimmedBehind(s[1..]);
    } else {
      assert (s + "/")[..|s|] == s;
    }
  }

  /** A result is empty, or ends in exactly one slash and does not start with one; one slash more
      before or after a prefix makes no difference to it. */
  lemma NormalisedPrefix(prefix: string)
    ensures var r := NormaliseKeyPrefix(prefix);
      r == "" || (r[0] != '/' && r[|r| - 1] == '/' && |r| > 1 && r[|r| - 2] != '/')
    ensures prefix != "" ==> NormaliseKeyPrefix("/" + prefix) == NormaliseKeyPrefix(prefix) == NormaliseKeyPrefix(prefix + "/")
  {
    TrimmedBehind(prefix);
    assert ("/" + prefix)[1..] == prefix;
  }

  /** Normalising twice is normalising once exactly for the empty prefix and those with anything but
      slashes in them. */
  lemma NormalisedTwice(prefix: string)
    ensures NormaliseKeyPrefix(NormaliseKeyPrefix(prefix)) == NormaliseKeyPrefix(prefix)
       <==> prefix == "" || exists i :: 0 <= i < |prefix| && prefix[i] != '/'
  {
    var trimmed := TrimSlashes(if prefix == "" then DEFAULT_KEY_PREFIX else prefix);
    DefaultTrimmed();
    TrimmedAway(prefix);
    if trimmed != "" {
      TrimmedBehind(trimmed);
      assert TrimSlashes(trimmed) == trimmed;
    }
  }

  /** The prefix "/" becomes empty, and the empty prefix the default. */
  lemma SlashBecomesDefault()
    ensures NormaliseKeyPrefix("/") == "" && NormaliseKeyPrefix("") == "emi/"
    ensures NormaliseKeyPrefix(NormaliseKeyPrefix("/")) != NormaliseKeyPrefix("/")
  {
    DefaultTrimmed();
    assert TrimSlashes("/") == TrimSlashes("/"[1..]);
  }

  // ---------- what a key names, and what deleting removes ----------

  /** A bucket under a prefix, or a directory. */
  datatype Storage = Bucket(prefix: string) | Directory

  /** The bucket's prefix is normalised: empty, or ending in a slash. */
  predicate StorageOk(storage: Storage) {
    storage.Bucket? ==> storage.prefix == "" || storage.prefix[|storage.prefix| - 1] == '/'
  }

  /** The object a key names. */
  function ObjectName(storage: Storage, key: string): (o: string) {
    match storage
    case Bucket(prefix) => prefix + BlobKey(key)
    case Directory => BlobKey(key)
  }

  function TrimSlash(s: string): (r: string) {
    if s != "" && s[|s| - 1] == '/' then s[..|s| - 1] else s
  }

  /** The whole namespace is never deleted. */
  predicate Refused(storage: Storage, prefix: string) {
    match storage
    case Bucket(own) => TrimSlash(ObjectName(storage, prefix)) == TrimSlash(own)
    case Directory => BlobKey(prefix) == ""
  }

  /** A bucket matches names by their start; a directory holds what is below it. */
  predicate Covers(storage: Storage, prefix: string, o: string) {
    !Refused(storage, prefix) &&
    match storage
    case Bucket(_) => HasPrefix(o, ObjectName(storage, prefix))
    case Directory => o == ObjectName(storage, prefix) || HasPrefix(o, ObjectName(storage, prefix) + "/")
  }

  /** The storage as a whole: its objects by name. */
  class BlobStore {
    const storage: Storage
    var objects: set<string>

    constructor (storage: Storage)
      ensures this.storage == storage && objects == {}
    {
      this.storage := storage;
      objects := {};
    }

    method Delete(key: string)
      modifies this`objects
      ensures objects == old(objects) - {ObjectName(storage, key)}
    {
      objects := objects - {ObjectName(storage, key)};
    }

    method DeletePrefix(prefix: string)
      modifies this`objects
      ensures objects == set o | o in old(objects) && !Covers(storage, prefix, o)
    {
      objects := set o | o in objects && !Covers(storage, prefix, o);
    }
  }

  // ---------- ids, and what a run's prefix covers ----------

  predicate HexDigit(c: char) {
    '0' <= c <= '9' || 'a' <= c <= 'f'
  }

  /** newID: 16 bytes in hexadecimal. */
  predicate ValidId(id: string) {
    |id| == 32 && forall i :: 0 <= i < |id| ==> HexDigit(id[i])
  }

  lemma IdIsPlain(id: string)
    requires ValidId(id)
    ensures SlashFree(id) && Plain(id) && '\\' !in id && CleanKey(id)
  {
    assert HexDigit(id[0]);
    SplitSlashFree(id);
    CleanIffPlain(id);
  }

  function RunPrefix(run: string): (p: string) {
    "runs/" + run + "/"
  }

  lemma {:induction false} EmptyLastPart(done: seq<string>, segs: seq<string>, rooted: bool)
    ensures Resolve(done, segs + [""], rooted) == Resolve(done, segs, rooted)
    decreases |segs|
  {
    if segs == [] {
      assert ([""])[1..] == [];
      assert segs + [""] == [""];
    } else {
      assert (segs + [""])[1..] == segs[1..] + [""];
      var seg, rest := segs[0], segs[1..];
      if seg == "" || seg == "." {
        EmptyLastPart(done, rest, rooted);
      } else if seg == ".." {
        if done != [] && done[|done| - 1] != ".." {
          EmptyLastPart(done[..|done| - 1], rest, rooted);
        } else {
          EmptyLastPart(done, rest, rooted);
          EmptyLastPart(done + [".."], rest, rooted);
        }
      } else {
        EmptyLastPart(done + [seg], rest, rooted);
      }
    }
  }

  lemma RunPrefixParts(run: string)
    requires SlashFree(run)
    ensures Split(RunPrefix(run)) == ["runs", run] + [""] && Split("runs/" + run) == ["runs", run]
  {
    assert RunPrefix(run) == "runs" + "/" + (run + "/" + "");
    assert "runs/" + run == "runs" + "/" + run;
    SplitAtSlash("runs", run + "/" + "");
    SplitAtSlash("runs", run);
    SplitAtSlash(run, "");
    SplitSlashFree("runs");
    SplitSlashFree(run);
  }

  /** Cleaning drops the slash a run's prefix ends with. */
  lemma RunPrefixLosesSlash(run: string)
    requires ValidId(run)
    ensures BlobKey(RunPrefix(run)) == "runs/" + run
  {
    IdIsPlain(run);
    RunPrefixParts(run);
    hide Split;
    var segs := ["runs", run];
    BlobKeyIsResolved(RunPrefix(run));
    EmptyLastPart([], segs, true);
    ResolvePlain([], segs, true);
    assert [] + segs == segs;
    JoinSplit("runs/" + run);
  }

  lemma PrefixCancels(head: string, a: string, b: string)
    ensures HasPrefix(head + a, head + b) <==> HasPrefix(a, b)
  {
    if |b| <= |a| {
      assert (head + a)[..|head + b|] == head + a[..|b|];
      if head + a[..|b|] == head + b {
        assert (head + a[..|b|])[|head|..] == a[..|b|] && (head + b)[|head|..] == b;
      }
    }
  }

  lemma NotRefused(storage: Storage, run: string)
    requires ValidId(run) && StorageOk(storage)
    ensures !Refused(storage, RunPrefix(run))
  {
    RunPrefixLosesSlash(run);
    if storage.Bucket? {
      var full := storage.prefix + ("runs/" + run);
      assert HexDigit(run[31]);
      assert full[|full| - 1] == run[31];
      assert TrimSlash(full) == full;
    }
  }

  /** Deleting a run's prefix removes exactly that run's objects from among the allowed keys:
      whatever the storage, and although a bucket matches the name without its slash, because ids
      are all of one length. */
  lemma PrefixCoversOwnRun(storage: Storage, run: string, other: string, key: string)
    requires ValidId(run) && ValidId(other) && RunKeyAllowed(key, other)
    requires StorageOk(storage)
    ensures Covers(storage, RunPrefix(run), ObjectName(storage, key)) <==> run == other
  {
    hide ValidId, CleanKey;
    NotRefused(storage, run);
    RunPrefixLosesSlash(run);
    CleanKeyIsItsObject(key);
    hide BlobKey;
    AllowedUnder(key, run, other);
    if storage.Bucket? {
      PrefixCancels(storage.prefix, key, "runs/" + run);
    }
  }

  lemma AllowedUnder(key: string, run: string, other: string)
    requires ValidId(run) && ValidId(other) && RunKeyAllowed(key, other)
    ensures HasPrefix(key, "runs/" + run) <==> run == other
    ensures HasPrefix(key, "runs/" + run + "/") <==> run == other
    ensures key != "runs/" + run
  {
    assert ArtifactKey(other, "") == "runs/" + other + "/";
    var p := "runs/" + other + "/";
    assert key[..38] == p && |p| == 38;
    assert key[..37] == "runs/" + other && p[..37] == "runs/" + other;
    assert ("runs/" + other)[5..] == other && ("runs/" + run)[5..] == run;
    assert HasPrefix(key, "runs/" + run) ==> key[..37] == "runs/" + run;
    if HasPrefix(key, "runs/" + run + "/") {
      assert key[..38] == "runs/" + run + "/" && ("runs/" + run + "/")[..37] == "runs/" + run;
    }
  }

  /** Deleting a run's prefix spares every upload. */
  lemma PrefixSparesUploads(storage: Storage, run: string, org: string, key: string)
    requires ValidId(run) && UploadKeyAllowed(key, org)
    requires StorageOk(storage)
    ensures !Covers(storage, RunPrefix(run), ObjectName(storage, key))
  {
    RunPrefixLosesSlash(run);
    CleanKeyIsItsObject(key);
    assert key[0] == UploadKeyPrefix(org)[0] == 'u';
    assert ("runs/" + run)[0] == 'r';
    hide BlobKey, CleanKey;
    if storage.Bucket? {
      PrefixCancels(storage.prefix, key, "runs/" + run);
    }
  }
}
