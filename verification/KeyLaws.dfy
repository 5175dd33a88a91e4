/** What the mapping of keys, the trimming of names and of prefixes, and the counting of bytes come to
    (server/emi/objectkeys.go, server/emi/blob_s3.go, server/local/fileblob.go, server/emi/api_agent.go). */
module KeyLaws {
  import opened Keys
  import opened Blobs

  // ---------- a path, part by part ----------

  /** The parts of a mapped key: none when it is empty. */
  function PartsOf(key: string): (parts: seq<string>) {
    if key == "" then [] else Split(key)
  }

  lemma {:induction false} ResolveConcat(done: seq<string>, a: seq<string>, b: seq<string>, rooted: bool)
    ensures Resolve(done, a + b, rooted) == Resolve(Resolve(done, a, rooted), b, rooted)
    decreases |a|
  {
    if a == [] {
      assert a + b == b;
    } else {
      var seg, rest := a[0], a[1..];
      assert (a + b)[1..] == rest + b && (a + b)[0] == seg;
      if seg == "" || seg == "." {
        ResolveConcat(done, rest, b, rooted);
      } else if seg == ".." {
        if done != [] && done[|done| - 1] != ".." {
          ResolveConcat(done[..|done| - 1], rest, b, rooted);
        } else if rooted {
          ResolveConcat(done, rest, b, rooted);
        } else {
          ResolveConcat(done + [".."], rest, b, rooted);
        }
      } else {
        ResolveConcat(done + [seg], rest, b, rooted);
      }
    }
  }

  lemma MappedParts(key: string)
    ensures PartsOf(BlobKey(key)) == Resolve([], Split(key), true)
    ensures var r := PartsOf(BlobKey(key)); forall i :: 0 <= i < |r| ==> Plain(r[i])
  {
    BlobKeyIsResolved(key);
    PartsAreSlashFree(key);
    RootedIsPlain([], Split(key));
    var r := Resolve([], Split(key), true);
    if r != [] {
      SplitJoin(r);
      JoinNotEmpty(r);
    }
  }

  lemma JoinNotEmpty(r: seq<string>)
    requires r != [] && Plain(r[0])
    ensures Join(r) != ""
  {
  }

  lemma ResolveOne(done: seq<string>, seg: string)
    ensures Resolve(done, [seg], true) ==
      if seg == "" || seg == "." then done
      else if seg == ".." then (if done != [] && done[|done| - 1] != ".." then done[..|done| - 1] else done)
      else done + [seg]
  {
    assert [seg][1..] == [];
  }

  lemma OneMorePart(key: string, seg: string)
    requires SlashFree(seg)
    ensures PartsOf(BlobKey(key + "/" + seg)) == Resolve(PartsOf(BlobKey(key)), [seg], true)
  {
    hide BlobKey, PartsOf, Resolve;
    MappedParts(key);
    MappedParts(key + "/" + seg);
    SplitAtSlash(key, seg);
    SplitSlashFree(seg);
    ResolveConcat([], Split(key), [seg], true);
  }

  /** A key is mapped part by part from the root: a name is added, an empty part or one dot is dropped,
      and two dots take the last name away again, if there is one. */
  lemma MapsPartByPart(key: string, name: string)
    requires SlashFree(name) && name != "" && name != "." && name != ".."
    ensures BlobKey("") == ""
    ensures PartsOf(BlobKey(key + "/" + name)) == PartsOf(BlobKey(key)) + [name]
    ensures BlobKey(key + "/") == BlobKey(key + "/.") == BlobKey(key)
    ensures var was := PartsOf(BlobKey(key)); PartsOf(BlobKey(key + "/..")) == if was == [] then [] else was[..|was| - 1]
  {
    EmptyKey();
    MappedParts(key);
    hide BlobKey, Resolve;
    var was := PartsOf(BlobKey(key));
    OneMorePart(key, name);
    OneMorePart(key, "");
    OneMorePart(key, ".");
    OneMorePart(key, "..");
    ResolveOne(was, name);
    ResolveOne(was, "");
    ResolveOne(was, ".");
    ResolveOne(was, "..");
    assert key + "/" + "" == key + "/";
    assert key + "/" + "." == key + "/." && key + "/" + ".." == key + "/..";
    SamePartsSameKey(BlobKey(key + "/"), BlobKey(key));
    SamePartsSameKey(BlobKey(key + "/."), BlobKey(key));
  }

  lemma EmptyKey()
    ensures BlobKey("") == ""
  {
    BlobKeyIsResolved("");
    ResolveOne([], "");
  }

  lemma SamePartsSameKey(a: string, b: string)
    requires PartsOf(a) == PartsOf(b)
    ensures a == b
  {
    if a != "" {
      JoinSplit(a);
    }
    if b != "" {
      JoinSplit(b);
    }
  }

  // ---------- trimming ----------

  lemma OneInFront(s: string, a: string, middle: string, b: string)
    requires s != "" && s[1..] == a + middle + b
    ensures s == ([s[0]] + a) + middle + b
  {
    assert s == [s[0]] + s[1..];
  }

  lemma OneBehind(s: string, a: string, middle: string, b: string)
    requires s != "" && s[..|s| - 1] == a + middle + b
    ensures s == a + middle + (b + [s[|s| - 1]])
  {
    assert s == s[..|s| - 1] + [s[|s| - 1]];
  }

  ghost predicate AllSpace(s: string) {
    forall i :: 0 <= i < |s| ==> IsSpace(s[i])
  }

  /** Trimming takes white space off both ends and nothing else. */
  lemma {:induction false} TrimsSpaceOnly(s: string) returns (a: string, b: string)
    ensures s == a + TrimSpace(s) + b && AllSpace(a) && AllSpace(b)
    decreases |s|
  {
    hide IsSpace;
    a, b := "", "";
    if s != "" {
      if IsSpace(s[0]) {
        a, b := TrimsSpaceOnly(s[1..]);
        OneInFront(s, a, TrimSpace(s), b);
        a := [s[0]] + a;
      } else if IsSpace(s[|s| - 1]) {
        a, b := TrimsSpaceOnly(s[..|s| - 1]);
        OneBehind(s, a, TrimSpace(s), b);
        b := b + [s[|s| - 1]];
      }
    }
  }

  ghost predicate AllSlashes(s: string) {
    forall i :: 0 <= i < |s| ==> s[i] == '/'
  }

  lemma {:induction false} TrimsEnds(s: string) returns (a: string, b: string)
    ensures s == a + TrimSlashes(s) + b && AllSlashes(a) && AllSlashes(b)
    decreases |s|
  {
    a, b := "", "";
    if s != "" {
      if s[0] == '/' {
        a, b := TrimsEnds(s[1..]);
        OneInFront(s, a, TrimSlashes(s), b);
        a := [s[0]] + a;
      } else if s[|s| - 1] == '/' {
        a, b := TrimsEnds(s[..|s| - 1]);
        OneBehind(s, a, TrimSlashes(s), b);
        b := b + [s[|s| - 1]];
      }
    }
  }

  /** Of a prefix that is not all slashes the slashes at both ends are taken off, and one is put behind
      what is left. */
  lemma TrimsSlashesOnly(s: string) returns (a: string, r: string, b: string)
    requires !AllSlashes(s)
    ensures s == a + r + b && AllSlashes(a) && AllSlashes(b) && r != "" && r[0] != '/' && r[|r| - 1] != '/'
    ensures NormaliseKeyPrefix(s) == r + "/"
  {
    hide TrimSlashes;
    TrimmedAway(s);
    a, b := TrimsEnds(s);
    r := TrimSlashes(s);
  }

  // ---------- bytes ----------

  /** The bytes of a text are those of its characters, one to four each by the ranges of UTF-8. */
  lemma {:induction false} BytesAdd(a: string, b: string, c: char)
    ensures Bytes(a + b) == Bytes(a) + Bytes(b) && Bytes("") == 0
    ensures Bytes([c]) == if c <= '\U{7F}' then 1 else if c <= '\U{7FF}' then 2 else if c <= '\U{FFFF}' then 3 else 4
  {
    OneChar(c);
    if a == "" {
      assert a + b == b;
    } else {
      BytesAdd(a[1..], b, c);
      assert (a + b)[1..] == a[1..] + b;
    }
  }

  lemma OneChar(c: char)
    ensures Bytes([c]) == if c <= '\U{7F}' then 1 else if c <= '\U{7FF}' then 2 else if c <= '\U{FFFF}' then 3 else 4
  {
    assert [c][1..] == "";
  }

  // ---------- names of objects ----------

  /** A clean key names the object of its own name, behind the bucket's prefix. */
  lemma CleanKeyNames(prefix: string, key: string)
    requires CleanKey(key)
    ensures ObjectName(Bucket(prefix), key) == prefix + key && ObjectName(Directory, key) == key
  {
    CleanKeyIsItsObject(key);
  }

  /** Only deleting the whole of the storage's namespace is refused. */
  lemma WholeIsRefused(storage: Storage, prefix: string)
    requires StorageOk(storage)
    ensures Refused(storage, prefix) <==> PartsOf(BlobKey(prefix)) == []
  {
    hide BlobKey, PartsOf, TrimSlash;
    MappedParts(prefix);
    SplitIsSome(BlobKey(prefix));
    if storage.Bucket? {
      if BlobKey(prefix) == "" {
        assert storage.prefix + "" == storage.prefix;
      } else {
        EndsPlain(BlobKey(prefix));
        LongerTrimmed(storage.prefix, BlobKey(prefix));
      }
    }
  }

  lemma SplitIsSome(key: string)
    ensures PartsOf(key) == [] <==> key == ""
  {
  }

  lemma {:induction false} LastPart(s: string)
    requires s != "" && s[|s| - 1] == '/'
    ensures Split(s)[|Split(s)| - 1] == ""
  {
    SplitAtSlash(s[..|s| - 1], "");
    assert s[..|s| - 1] + "/" + "" == s;
    SplitSlashFree("");
  }

  lemma EndsPlain(key: string)
    requires key != "" && var r := PartsOf(key); forall i :: 0 <= i < |r| ==> Plain(r[i])
    ensures key[|key| - 1] != '/'
  {
    var r := PartsOf(key);
    assert r == Split(key) && Plain(r[|r| - 1]);
    if key[|key| - 1] == '/' {
      LastPart(key);
    }
  }

  lemma LongerTrimmed(own: string, key: string)
    requires key != "" && key[|key| - 1] != '/'
    ensures TrimSlash(own + key) != TrimSlash(own)
  {
    assert (own + key)[|own + key| - 1] == key[|key| - 1];
    assert |TrimSlash(own + key)| > |own| >= |TrimSlash(own)|;
  }

  /** Deleting by prefix takes, in a bucket, every object whose name begins with the bucket's prefix and
      the mapped one; in a directory, the file of that name or all that is below it. */
  lemma PrefixTakes(own: string, prefix: string, o: string)
    requires StorageOk(Bucket(own))
    ensures var k := BlobKey(prefix);
      && (Covers(Bucket(own), prefix, o) <==> k != "" && |o| >= |own + k| && o[..|own + k|] == own + k)
      && (Covers(Directory, prefix, o) <==> k != "" && (o == k || (|o| > |k| && o[..|k|] == k && o[|k|] == '/')))
  {
    hide BlobKey, Refused;
    WholeIsRefused(Bucket(own), prefix);
    WholeIsRefused(Directory, prefix);
    SplitIsSome(BlobKey(prefix));
    SlashBelow(o, BlobKey(prefix));
  }

  lemma SlashBelow(o: string, k: string)
    ensures HasPrefix(o, k + "/") <==> |o| > |k| && o[..|k|] == k && o[|k|] == '/'
  {
    if |o| > |k| {
      assert o[..|k| + 1] == o[..|k|] + [o[|k|]];
      assert o[..|k| + 1] == k + "/" ==> o[..|k| + 1][..|k|] == (k + "/")[..|k|];
    }
  }
}
