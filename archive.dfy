/** What `unzip` of services/plugin/manager.go does to the filesystem, as a
    function of the archive's entries: entries are extracted in order, the
    first failing entry ends the extraction, and whatever that entry had
    already written stays behind. */
module Archive {
  import opened Wrappers
  import opened Errors
  import opened Paths
  import opened Files

  /** What reading an entry's contents gives: all the bytes, a failure of
      `f.Open`, or a copy that fails after writing a prefix. */
  datatype Payload =
    | Data(bytes: Bytes)
    | OpenFails(openReason: string)
    | CopyFails(written: Bytes, copyReason: string)

  /** One entry of the archive: its stored name, whether it is a
      directory, and its contents. */
  datatype ZipEntry = ZipEntry(name: string, isDir: bool, payload: Payload)

  /** The part of the filesystem extraction changes. */
  datatype Tree = Tree(files: map<string, Bytes>, dirs: set<string>)

  datatype Outcome = Outcome(tree: Tree, err: Option<Error>)

  /** The contents a file entry leaves behind: the truncated file stays
      empty when the entry cannot be opened. */
  function Written(p: Payload): Bytes {
    match p
    case Data(b) => b
    case OpenFails(_) => []
    case CopyFails(w, _) => w
  }

  /** The error extracting `e` into `dest` from the tree `t` returns, if
      any: the parent directory is made with os.MkdirAll, then the file
      is opened for writing and the contents copied. A directory entry
      never fails: its MkdirAll error is ignored. A file entry fails where
      a directory stands at its path or a file stands at or above its
      parent. */
  function EntryError(fs: FileSystem, t: Tree, dest: string, e: ZipEntry): (r: Option<Error>)
    ensures !IsSafeEntry(dest, e.name) ==> r == Some(Failure("illegal file path: " + Join([dest, e.name])))
    ensures IsSafeEntry(dest, e.name) && e.isDir ==> r == None
    ensures r.None? ==> IsSafeEntry(dest, e.name) && (e.isDir || e.payload.Data?)
    ensures !e.isDir && Join([dest, e.name]) in t.dirs ==> r.Some?
    ensures !e.isDir && FileOnPath(t.files, Dir(Join([dest, e.name]))) ==> r.Some?
  {
    var fpath := Join([dest, e.name]);
    if !IsSafeEntry(dest, e.name) then Some(Failure("illegal file path: " + fpath))
    else if e.isDir then None
    else if fs.MkdirError(t.files, t.dirs, Dir(fpath)).Some? then fs.MkdirError(t.files, t.dirs, Dir(fpath))
    else if fs.CreateError(t.files, t.dirs + {Dir(fpath)}, fpath).Some? then
      fs.CreateError(t.files, t.dirs + {Dir(fpath)}, fpath)
    else match e.payload
      case Data(_) => None
      case OpenFails(reason) => Some(Failure(reason))
      case CopyFails(_, reason) => Some(Failure(reason))
  }

  /** What extracting `e` into `dest` does to the tree `t`, failing or
      not. */
  function EntryEffect(fs: FileSystem, t: Tree, dest: string, e: ZipEntry): Tree {
    var fpath := Join([dest, e.name]);
    if !IsSafeEntry(dest, e.name) then t
    else if e.isDir then
      if fs.MkdirError(t.files, t.dirs, fpath).Some? then t else t.(dirs := t.dirs + {fpath})
    else if fs.MkdirError(t.files, t.dirs, Dir(fpath)).Some? then t
    else
      var t1 := t.(dirs := t.dirs + {Dir(fpath)});
      if fs.CreateError(t1.files, t1.dirs, fpath).Some? then t1
      else t1.(files := t1.files[fpath := Written(e.payload)])
  }

  /** The tree once every entry of `es` has had its effect in order. */
  function Applied(fs: FileSystem, t: Tree, dest: string, es: seq<ZipEntry>): Tree
    decreases |es|
  {
    if es == [] then t else Applied(fs, EntryEffect(fs, t, dest, es[0]), dest, es[1..])
  }

  lemma AppliedPrefix(fs: FileSystem, t: Tree, dest: string, es: seq<ZipEntry>, i: int)
    requires 1 <= i <= |es|
    ensures Applied(fs, t, dest, es[..i]) == Applied(fs, EntryEffect(fs, t, dest, es[0]), dest, es[1..][..i - 1])
  {
    assert es[..i][0] == es[0] && es[..i][1..] == es[1..][..i - 1];
  }

  /** Extracting the entries in order, up to and including the first one
      that fails. */
  function Extract(fs: FileSystem, t: Tree, dest: string, es: seq<ZipEntry>): Outcome
    decreases |es|
  {
    if es == [] then Outcome(t, None)
    else
      var t' := EntryEffect(fs, t, dest, es[0]);
      if EntryError(fs, t, dest, es[0]).Some? then Outcome(t', EntryError(fs, t, dest, es[0]))
      else Extract(fs, t', dest, es[1..])
  }

  /** The tree `u` differs from `t` only by files strictly inside `dest`
      and directories within it, and loses nothing. */
  ghost predicate ConfinedTo(t: Tree, u: Tree, dest: string) {
    && t.files.Keys <= u.files.Keys
    && t.dirs <= u.dirs
    && (forall p :: p in u.files && (p !in t.files || u.files[p] != t.files[p]) ==> StrictlyInside(dest, p))
    && (forall d :: d in u.dirs && d !in t.dirs ==> Within(dest, d))
  }

  lemma ConfinedTrans(t: Tree, u: Tree, v: Tree, dest: string)
    requires ConfinedTo(t, u, dest) && ConfinedTo(u, v, dest)
    ensures ConfinedTo(t, v, dest)
  {
  }

  /** One entry writes at most the file it names, strictly inside `dest`,
      and creates only that path or its parent directory, within `dest`. */
  lemma EntryConfined(fs: FileSystem, t: Tree, dest: string, e: ZipEntry)
    ensures ConfinedTo(t, EntryEffect(fs, t, dest, e), dest)
  {
    if IsSafeEntry(dest, e.name) {
      SafeEntryInside(dest, e.name);
      InsideIsWithin(dest, Join([dest, e.name]));
      SafeEntryParentWithin(dest, e.name);
    }
  }

  /** Zip-slip: however many entries are extracted and wherever extraction
      stops, every file written lies strictly inside `dest`, every
      directory created lies within it, and nothing is deleted. */
  lemma {:induction false} ExtractConfined(fs: FileSystem, t: Tree, dest: string, es: seq<ZipEntry>)
    ensures ConfinedTo(t, Extract(fs, t, dest, es).tree, dest)
    decreases |es|
  {
    if es != [] {
      var t' := EntryEffect(fs, t, dest, es[0]);
      EntryConfined(fs, t, dest, es[0]);
      if EntryError(fs, t, dest, es[0]).None? {
        ExtractConfined(fs, t', dest, es[1..]);
        ConfinedTrans(t, t', Extract(fs, t', dest, es[1..]).tree, dest);
      }
    }
  }

  /** Extraction succeeds exactly when every entry does in the tree the
      entries before it leave, and then leaves the tree of all of them. */
  lemma {:induction false} ExtractSucceeds(fs: FileSystem, t: Tree, dest: string, es: seq<ZipEntry>)
    ensures Extract(fs, t, dest, es).err.None? <==>
              forall i :: 0 <= i < |es| ==> EntryError(fs, Applied(fs, t, dest, es[..i]), dest, es[i]).None?
    ensures Extract(fs, t, dest, es).err.None? ==> Extract(fs, t, dest, es).tree == Applied(fs, t, dest, es)
    decreases |es|
  {
    if es != [] {
      var t' := EntryEffect(fs, t, dest, es[0]);
      ExtractSucceeds(fs, t', dest, es[1..]);
      assert es[..0] == [];
      forall i | 1 <= i < |es|
        ensures es[i] == es[1..][i - 1]
        ensures Applied(fs, t, dest, es[..i]) == Applied(fs, t', dest, es[1..][..i - 1])
      {
        AppliedPrefix(fs, t, dest, es, i);
      }
    }
  }

  /** When entry `k` is the first to fail, its error is the result and the
      entries after it have no effect. */
  lemma {:induction false} ExtractStopsAt(fs: FileSystem, t: Tree, dest: string, es: seq<ZipEntry>, k: int)
    requires 0 <= k < |es|
    requires EntryError(fs, Applied(fs, t, dest, es[..k]), dest, es[k]).Some?
    requires forall i :: 0 <= i < k ==> EntryError(fs, Applied(fs, t, dest, es[..i]), dest, es[i]).None?
    ensures Extract(fs, t, dest, es).err == EntryError(fs, Applied(fs, t, dest, es[..k]), dest, es[k])
    ensures Extract(fs, t, dest, es) == Extract(fs, t, dest, es[..k + 1])
    decreases k
  {
    if k > 0 {
      var t' := EntryEffect(fs, t, dest, es[0]);
      assert es[..0] == [];
      assert EntryError(fs, t, dest, es[0]).None?;
      assert es[..k + 1][1..] == es[1..][..k];
      forall i | 1 <= i <= k
        ensures es[i] == es[1..][i - 1]
        ensures Applied(fs, t, dest, es[..i]) == Applied(fs, t', dest, es[1..][..i - 1])
      {
        AppliedPrefix(fs, t, dest, es, i);
      }
      ExtractStopsAt(fs, t', dest, es[1..], k - 1);
    } else {
      assert es[..0] == [];
    }
  }

  /** An entry whose name leaves `dest` stops the extraction with the
      "illegal file path" error and writes nothing. */
  lemma UnsafeEntryStops(fs: FileSystem, t: Tree, dest: string, e: ZipEntry, rest: seq<ZipEntry>)
    requires !IsSafeEntry(dest, e.name)
    ensures Extract(fs, t, dest, [e] + rest) ==
              Outcome(t, Some(Failure("illegal file path: " + Join([dest, e.name]))))
  {
    assert ([e] + rest)[0] == e;
  }
}
