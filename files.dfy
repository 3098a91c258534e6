/** The part of the operating system's filesystem the plugin manager
    touches, as a map from path to contents plus a set of directories.
    Which operations the host refuses (permissions, full disks, ...) is
    fixed per path by the three fault sets. */
module Files {
  import opened Strings
  import opened Wrappers
  import opened Errors
  import opened Paths

  type Bytes = seq<bv8>

  const NoSuchFile := "no such file or directory"
  const PermissionDenied := "permission denied"
  const InvalidArgument := "invalid argument"
  const NotEmpty := "directory not empty"
  const NotADirectory := "not a directory"
  const IsADirectory := "is a directory"

  /** `p` is `root` itself or a path below it. */
  predicate Under(p: string, root: string) {
    p == root || HasPrefix(p, root + "/")
  }

  /** filepath ends in "." as os.RemoveAll tests it: "." itself or "/.". */
  predicate EndsWithDot(p: string) {
    p == "." || (|p| >= 2 && p[|p| - 2..] == "/.")
  }

  /** The entries of `files` that survive removing `root` and its subtree. */
  function Prune<V>(files: map<string, V>, root: string): (r: map<string, V>)
    ensures forall p :: p in r <==> p in files && !Under(p, root)
    ensures forall p :: p in r ==> r[p] == files[p]
  {
    map p | p in files && !Under(p, root) :: files[p]
  }

  function PruneSet(dirs: set<string>, root: string): (r: set<string>)
    ensures forall p :: p in r <==> p in dirs && !Under(p, root)
  {
    set p | p in dirs && !Under(p, root)
  }

  /** Some path of `paths` lies strictly below `d`. */
  predicate HoldsAny(paths: set<string>, d: string) {
    exists q :: q in paths && q != d && Under(q, d)
  }

  /** Something lies at `p` or below it: os.Lstat(p) finds it. A
      directory holding a recorded path need not be recorded itself. */
  predicate Present(files: map<string, Bytes>, dirs: set<string>, p: string) {
    p in files || p in dirs || HoldsAny(files.Keys, p) || HoldsAny(dirs, p)
  }

  /** `d` is a directory: recorded, holding a recorded path, or a root. */
  predicate IsDirectory(files: map<string, Bytes>, dirs: set<string>, d: string) {
    d in dirs || d == "." || d == "/" || HoldsAny(files.Keys, d) || HoldsAny(dirs, d)
  }

  /** Making directories never unmakes one. */
  lemma IsDirectoryGrows(files: map<string, Bytes>, dirs: set<string>, more: set<string>, d: string)
    requires dirs <= more
    ensures IsDirectory(files, dirs, d) ==> IsDirectory(files, more, d)
  {
    if HoldsAny(dirs, d) {
      var q :| q in dirs && q != d && Under(q, d);
      assert q in more;
    }
  }

  /** A file lies at `p` or at a path above it, so `p` cannot be a
      directory. */
  predicate FileOnPath(files: map<string, Bytes>, p: string) {
    exists q :: q in files && Under(p, q)
  }

  /** From `before` to `after` entries are only ever removed, and only
      paths under `root`. */
  ghost predicate RemovedOnlyBelow(before: map<string, Bytes>, after: map<string, Bytes>,
                                   beforeDirs: set<string>, afterDirs: set<string>, root: string)
  {
    && (forall q :: q in after ==> q in before && after[q] == before[q])
    && (forall q :: q in before && !Under(q, root) ==> q in after)
    && afterDirs <= beforeDirs
    && (forall d :: d in beforeDirs && !Under(d, root) ==> d in afterDirs)
  }

  class FileSystem {
    var files: map<string, Bytes>
    var dirs: set<string>
    /** Paths that cannot be opened for writing. */
    const createFails: set<string>
    /** Directories that cannot be created. */
    const mkdirFails: set<string>
    /** Paths that cannot be removed. */
    const removeFails: set<string>

    constructor (files0: map<string, Bytes>, dirs0: set<string>,
                 createFails0: set<string>, mkdirFails0: set<string>, removeFails0: set<string>)
      ensures files == files0 && dirs == dirs0
      ensures createFails == createFails0 && mkdirFails == mkdirFails0 && removeFails == removeFails0
    {
      files, dirs := files0, dirs0;
      createFails, mkdirFails, removeFails := createFails0, mkdirFails0, removeFails0;
    }

    /** os.Stat(p) succeeds: `fileExists` of the loader. */
    predicate Exists(p: string)
      reads this
    {
      p in files || p in dirs
    }

    /** os.ReadFile */
    function ReadFile(p: string): (r: Result<Bytes>)
      reads this
      ensures r.Ok? <==> p in files
      ensures r.Ok? ==> r.value == files[p]
      ensures r.Err? ==> r.error == PathError("open", p, NoSuchFile)
    {
      if p in files then Ok(files[p]) else Err(PathError("open", p, NoSuchFile))
    }

    /** The error os.MkdirAll(p) returns from the tree `files`, `dirs`:
        none for a directory that is already there, ENOTDIR when a file
        stands at `p` or above it, and the host's refusal otherwise. */
    function MkdirError(files: map<string, Bytes>, dirs: set<string>, p: string): Option<Error> {
      if IsDirectory(files, dirs, p) then None
      else if FileOnPath(files, p) then Some(PathError("mkdir", p, NotADirectory))
      else if p in mkdirFails then Some(PathError("mkdir", p, PermissionDenied))
      else None
    }

    /** os.MkdirAll: an existing directory is not an error; only the
        target directory is recorded. */
    method MkdirAll(p: string) returns (err: Option<Error>)
      modifies this`dirs
      ensures err == MkdirError(old(files), old(dirs), p)
      ensures IsDirectory(old(files), old(dirs), p) ==> err == None && dirs == old(dirs) + {p}
      ensures !IsDirectory(old(files), old(dirs), p) && FileOnPath(files, p) ==>
                err == Some(PathError("mkdir", p, NotADirectory)) && dirs == old(dirs)
      ensures !IsDirectory(old(files), old(dirs), p) && !FileOnPath(files, p) && p in mkdirFails ==>
                err == Some(PathError("mkdir", p, PermissionDenied)) && dirs == old(dirs)
      ensures err.None? <==> IsDirectory(old(files), old(dirs), p) || (!FileOnPath(files, p) && p !in mkdirFails)
      ensures err.None? ==> dirs == old(dirs) + {p}
      ensures err.Some? ==> dirs == old(dirs)
    {
      if IsDirectory(files, dirs, p) {
        dirs := dirs + {p};
        return None;
      }
      if FileOnPath(files, p) {
        return Some(PathError("mkdir", p, NotADirectory));
      }
      if p in mkdirFails {
        return Some(PathError("mkdir", p, PermissionDenied));
      }
      dirs := dirs + {p};
      return None;
    }

    /** The error opening `p` for writing, creating and truncating it,
        returns from the tree `files`, `dirs`: EISDIR for a directory,
        ENOTDIR or ENOENT when its parent is not a directory, and the
        host's refusal otherwise. */
    function CreateError(files: map<string, Bytes>, dirs: set<string>, p: string): Option<Error> {
      if IsDirectory(files, dirs, p) then Some(PathError("open", p, IsADirectory))
      else if FileOnPath(files, Dir(p)) then Some(PathError("open", p, NotADirectory))
      else if !IsDirectory(files, dirs, Dir(p)) then Some(PathError("open", p, NoSuchFile))
      else if p in createFails then Some(PathError("open", p, PermissionDenied))
      else None
    }

    /** os.Create / os.OpenFile(p, O_WRONLY|O_CREATE|O_TRUNC): the file
        exists and is empty afterwards. */
    method Create(p: string) returns (err: Option<Error>)
      modifies this`files
      ensures err == CreateError(old(files), dirs, p)
      ensures IsDirectory(old(files), dirs, p) ==> err == Some(PathError("open", p, IsADirectory))
      ensures !IsDirectory(old(files), dirs, p) && FileOnPath(old(files), Dir(p)) ==>
                err == Some(PathError("open", p, NotADirectory))
      ensures !IsDirectory(old(files), dirs, p) && !FileOnPath(old(files), Dir(p)) && !IsDirectory(old(files), dirs, Dir(p)) ==>
                err == Some(PathError("open", p, NoSuchFile))
      ensures err.None? <==>
                && !IsDirectory(old(files), dirs, p) && !FileOnPath(old(files), Dir(p))
                && IsDirectory(old(files), dirs, Dir(p)) && p !in createFails
      ensures err.None? ==> files == old(files)[p := []]
      ensures err.Some? ==> files == old(files)
    {
      err := CreateError(files, dirs, p);
      if err.None? {
        files := files[p := []];
      }
    }

    /** Writing through a handle opened by `Create`. */
    method Append(p: string, data: Bytes)
      requires p in files
      modifies this`files
      ensures files == old(files)[p := old(files)[p] + data]
    {
      files := files[p := files[p] + data];
    }

    /** os.Remove: a file, or a directory with nothing below it; a
        missing path fails as missing whatever the host would refuse. */
    method Remove(p: string) returns (err: Option<Error>)
      modifies this
      ensures !old(Present(files, dirs, p)) ==> err == Some(PathError("remove", p, NoSuchFile))
      ensures old(Present(files, dirs, p)) && p in removeFails ==> err == Some(PathError("remove", p, PermissionDenied))
      ensures p !in removeFails && p in old(files) ==> err == None && files == old(files) - {p}
      ensures p !in removeFails ==> p !in files
      ensures err.Some? ==> files == old(files) && dirs == old(dirs)
      ensures err.None? ==> files == old(files) - {p} && dirs == old(dirs) - {p} && old(Exists(p))
    {
      if !Present(files, dirs, p) {
        return Some(PathError("remove", p, NoSuchFile));
      }
      if p in removeFails {
        return Some(PathError("remove", p, PermissionDenied));
      }
      if p in files {
        files := files - {p};
        dirs := dirs - {p};
        return None;
      }
      if HoldsAny(files.Keys, p) || HoldsAny(dirs, p) {
        return Some(PathError("remove", p, NotEmpty));
      }
      dirs := dirs - {p};
      return None;
    }

    /** os.RemoveAll of `p` from the tree `files`, `dirs` succeeds. */
    predicate RemoveAllSucceeds(files: map<string, Bytes>, dirs: set<string>, p: string) {
      p == "" || (!EndsWithDot(p) && (p !in removeFails || !Present(files, dirs, p)))
    }

    /** os.RemoveAll: "" is a silent no-op, a path ending in "." is
        refused, a missing path is not an error whatever the host would
        refuse. When `p` itself cannot be removed, what lies below it and
        can be removed is gone all the same. */
    method RemoveAll(p: string) returns (err: Option<Error>)
      modifies this
      ensures p == "" ==> err == None && files == old(files) && dirs == old(dirs)
      ensures p != "" && EndsWithDot(p) ==>
                err == Some(PathError("RemoveAll", p, InvalidArgument)) && files == old(files) && dirs == old(dirs)
      ensures p != "" && !EndsWithDot(p) && !old(Present(files, dirs, p)) ==>
                err == None && files == old(files) && dirs == old(dirs)
      ensures p != "" && !EndsWithDot(p) && old(Present(files, dirs, p)) && p in removeFails ==>
                err == Some(PathError("unlinkat", p, PermissionDenied))
      ensures err.Some? ==> RemovedOnlyBelow(old(files), files, old(dirs), dirs, p)
      ensures err.Some? ==> (p in old(files) ==> p in files) && (p in old(dirs) ==> p in dirs)
      ensures err.None? && p != "" ==> files == Prune(old(files), p) && dirs == PruneSet(old(dirs), p)
      ensures err.None? <==> old(RemoveAllSucceeds(files, dirs, p))
    {
      if p == "" {
        return None;
      }
      if EndsWithDot(p) {
        return Some(PathError("RemoveAll", p, InvalidArgument));
      }
      if !Present(files, dirs, p) {
        assert Prune(files, p) == files && PruneSet(dirs, p) == dirs;
        return None;
      }
      if p in removeFails {
        // the entries below `p` are removed one by one; those that cannot
        // be removed stay, and so do the directories holding them
        var kept := map q | q in files && (!Under(q, p) || q == p || q in removeFails) :: files[q];
        dirs := set d | d in dirs && (!Under(d, p) || d == p || d in removeFails || HoldsAny(kept.Keys, d));
        files := kept;
        return Some(PathError("unlinkat", p, PermissionDenied));
      }
      files := Prune(files, p);
      dirs := PruneSet(dirs, p);
      return None;
    }
  }
}
