/** services/plugin/manager.go: installation from the marketplace,
    uninstallation, enabling and disabling, over the loader, the plugin
    table and the filesystem. The HTTP client and the zip reader are
    oracles. */
module Manager {
  import opened Wrappers
  import opened Strings
  import opened Errors
  import opened Paths
  import opened Files
  import opened PluginTypes
  import opened PluginRegistry
  import opened Instances
  import opened Loader
  import opened Archive

  /** An HTTP GET: no response at all, or a status and a body whose
      reading may break off with an error. */
  datatype Response =
    | NoResponse(reason: string)
    | Response(status: int, body: Bytes, readError: Option<string>)

  datatype Marketplace = Marketplace(
    /** http.Get by URL */
    get: string -> Response,
    /** zip.OpenReader's view of an archive's bytes; None when they are
        not a zip archive */
    unpack: Bytes -> Option<seq<ZipEntry>>,
    /** the JSON decoder for the marketplace's plugin list */
    decodeList: Bytes -> Result<seq<PluginMetadata>>)

  const StatusOK := 200
  /** zip.ErrFormat */
  const NotAZip := Failure("zip: not a valid zip file")

  function DownloadURL(base: string, pluginId: string, version: string): string {
    base + "/plugins/" + pluginId + "/" + version + "/download"
  }

  function ListURL(base: string): string {
    base + "/api/plugins"
  }

  /** Where the archive is downloaded to. */
  function ZipPath(pluginsDir: string, pluginId: string): string {
    Join([pluginsDir, "temp", pluginId + ".zip"])
  }

  /** Where the archive is extracted to. */
  function InstallDir(pluginsDir: string, pluginId: string): string {
    DefaultInstallDir(pluginsDir, pluginId)
  }

  /** The directories InitManager creates, in order. */
  function ManagerDirs(pluginsDir: string): seq<string> {
    [Join([pluginsDir, "installed"]), Join([pluginsDir, "temp"]), Join([pluginsDir, "config"])]
  }

  /** The row Install saves for a manifest: copied descriptive fields,
      installed but not enabled, no config. */
  function NewRecord(m: PluginMetadata, installPath: string): (p: Plugin)
    ensures p.pluginId == m.id && p.name == m.name && p.version == m.version
    ensures p.isInstalled && !p.isEnabled && p.installPath == installPath && p.config == ""
  {
    Plugin(0, m.id, m.name, m.version, m.description, m.author, m.homepage, m.license,
           false, true, installPath, "")
  }

  /** The table once Install has saved the record for `m` under the
      primary key `id`. */
  function SavedTable(table: map<string, Plugin>, m: PluginMetadata, installPath: string, id: int): map<string, Plugin> {
    table[m.id := NewRecord(m, installPath).(id := id)]
  }

  /** The tree extraction leaves and the manifest read from it, or the
      error of whichever of the two steps failed. */
  datatype Unpacked = Unpacked(tree: Tree, manifest: Result<PluginMetadata>)

  /** For a plain plugin id the archive is `<dir>/temp/<id>.zip`, the
      extraction target is `<dir>/installed/<id>`, and the archive never
      lies inside the directory it is extracted into. */
  lemma InstallLayout(pluginsDir: string, pluginId: string)
    requires IsComponent(pluginId) && pluginId != ".."
    ensures CleanParts(ZipPath(pluginsDir, pluginId)) == CleanParts(pluginsDir) + ["temp", pluginId + ".zip"]
    ensures CleanParts(InstallDir(pluginsDir, pluginId)) == CleanParts(pluginsDir) + ["installed", pluginId]
    ensures !Within(InstallDir(pluginsDir, pluginId), ZipPath(pluginsDir, pluginId))
  {
    var z := pluginId + ".zip";
    assert z[|z| - 1] == 'p';
    assert forall c :: c in z ==> c in pluginId || c in ".zip";
    JoinThree(pluginsDir, "temp", z);
    DefaultInstallDirLayout(pluginsDir, pluginId);
    var q, r := CleanParts(InstallDir(pluginsDir, pluginId)), CleanParts(ZipPath(pluginsDir, pluginId));
    var n := |CleanParts(pluginsDir)|;
    assert q[n] == "installed" && r[n] == "temp";
  }

  /** Two maps that agree with a third everywhere agree off `z` once one
      of them changes at `z` alone. */
  lemma MapOffPath<V>(a: map<string, V>, b: map<string, V>, a': map<string, V>, z: string)
    requires a - {z} == a' - {z}
    ensures a - {} == b - {} ==> a' - {z} == b - {z}
  {
    if a - {} == b - {} {
      assert a == a - {} && b == b - {};
    }
  }

  lemma SetOffPath(a: set<string>, b: set<string>, a': set<string>, z: string)
    requires a - {z} == a' - {z}
    ensures a - {} == b - {} ==> a' - {z} == b - {z}
  {
    if a - {} == b - {} {
      assert a == a - {} && b == b - {};
    }
  }

  class PluginManager {
    const loader: PluginLoader
    const pluginsDir: string
    const marketplaceURL: string
    const net: Marketplace

    ghost predicate Valid()
      reads loader.db`plugins, loader.db`nextId
    {
      loader.Valid()
    }

    constructor (loader0: PluginLoader, pluginsDir0: string, marketplaceURL0: string, net0: Marketplace)
      ensures loader == loader0 && pluginsDir == pluginsDir0
      ensures marketplaceURL == marketplaceURL0 && net == net0
    {
      loader, pluginsDir, marketplaceURL, net := loader0, pluginsDir0, marketplaceURL0, net0;
    }

    /** The download of `url` answers 200. */
    predicate Fetched(url: string) {
      net.get(url).Response? && net.get(url).status == StatusOK
    }

    /** Every step of downloadFile succeeds from the tree `t`. */
    predicate DownloadOk(t: Tree, url: string, path: string) {
      Fetched(url) && loader.fs.CreateError(t.files, t.dirs, path).None? && net.get(url).readError.None?
    }

    /** downloadFile: the file is created only once the server has answered
        200, and keeps what was received even when reading breaks off. */
    method DownloadFile(url: string, path: string) returns (err: Option<Error>)
      modifies loader.fs`files
      ensures net.get(url).NoResponse? ==>
                err == Some(Failure(net.get(url).reason)) && loader.fs.files == old(loader.fs.files)
      ensures net.get(url).Response? && net.get(url).status != StatusOK ==>
                err == Some(Failure("download failed with status " + IntToString(net.get(url).status))) &&
                loader.fs.files == old(loader.fs.files)
      ensures Fetched(url) && loader.fs.CreateError(old(loader.fs.files), loader.fs.dirs, path).Some? ==>
                err == loader.fs.CreateError(old(loader.fs.files), loader.fs.dirs, path) &&
                loader.fs.files == old(loader.fs.files)
      ensures Fetched(url) && loader.fs.CreateError(old(loader.fs.files), loader.fs.dirs, path).None? ==>
                loader.fs.files == old(loader.fs.files)[path := net.get(url).body]
      ensures err.None? <==> DownloadOk(old(Current()), url, path)
      ensures Fetched(url) && loader.fs.CreateError(old(loader.fs.files), loader.fs.dirs, path).None? &&
              net.get(url).readError.Some? ==>
                err == Some(Failure(net.get(url).readError.value))
    {
      var resp := net.get(url);
      if resp.NoResponse? {
        return Some(Failure(resp.reason));
      }
      if resp.status != StatusOK {
        return Some(Failure("download failed with status " + IntToString(resp.status)));
      }
      var e := loader.fs.Create(path);
      if e.Some? {
        return e;
      }
      loader.fs.Append(path, resp.body);
      assert [] + resp.body == resp.body;
      if resp.readError.Some? {
        return Some(Failure(resp.readError.value));
      }
      err := None;
    }

    /** The files and directories of the filesystem. */
    ghost function Current(): Tree
      reads loader.fs
    {
      Tree(loader.fs.files, loader.fs.dirs)
    }

    /** unzip from the tree `t`: an archive that is missing or unreadable
        changes nothing; otherwise the entries are extracted in order,
        stopping at the first failing entry. Every change lies inside
        `dest`, and the extraction succeeds exactly when every entry
        does. */
    function UnzipOf(t: Tree, src: string, dest: string): (o: Outcome)
      ensures src !in t.files ==> o == Outcome(t, Some(PathError("open", src, NoSuchFile)))
      ensures src in t.files && net.unpack(t.files[src]).None? ==> o == Outcome(t, Some(NotAZip))
      ensures ConfinedTo(t, o.tree, dest)
      ensures o.err.None? <==>
                && src in t.files && net.unpack(t.files[src]).Some?
                && var es := net.unpack(t.files[src]).value;
                   forall i :: 0 <= i < |es| ==> EntryError(loader.fs, Applied(loader.fs, t, dest, es[..i]), dest, es[i]).None?
    {
      if src !in t.files then Outcome(t, Some(PathError("open", src, NoSuchFile)))
      else match net.unpack(t.files[src])
        case None => Outcome(t, Some(NotAZip))
        case Some(es) =>
          ExtractConfined(loader.fs, t, dest, es);
          ExtractSucceeds(loader.fs, t, dest, es);
          Extract(loader.fs, t, dest, es)
    }

    /** Steps 2 and 3 of Install from the tree `t`: extraction into
        `installPath`, then plugin.json of `installPath` in the tree it
        leaves. Extraction changes nothing outside `installPath`, and a
        manifest is read only when every entry was extracted. */
    function Unpack(t: Tree, zipPath: string, installPath: string): (u: Unpacked)
      ensures u.tree == UnzipOf(t, zipPath, installPath).tree
      ensures ConfinedTo(t, u.tree, installPath)
      ensures u.manifest.Ok? <==>
                UnzipOf(t, zipPath, installPath).err.None? && loader.MetadataIn(u.tree.files, installPath).Ok?
      ensures u.manifest.Ok? ==> u.manifest == loader.MetadataIn(u.tree.files, installPath)
      ensures UnzipOf(t, zipPath, installPath).err.Some? ==>
                u.manifest == Err(Wrapped("unzip plugin", UnzipOf(t, zipPath, installPath).err.value))
      ensures UnzipOf(t, zipPath, installPath).err.None? && loader.MetadataIn(u.tree.files, installPath).Err? ==>
                u.manifest == Err(Wrapped("read metadata", loader.MetadataIn(u.tree.files, installPath).error))
    {
      var o := UnzipOf(t, zipPath, installPath);
      if o.err.Some? then Unpacked(o.tree, Err(Wrapped("unzip plugin", o.err.value)))
      else match loader.MetadataIn(o.tree.files, installPath)
        case Err(e) => Unpacked(o.tree, Err(Wrapped("read metadata", e)))
        case Ok(m) => Unpacked(o.tree, Ok(m))
    }

    /** unzip: the filesystem and the error are those of UnzipOf from the
        filesystem it starts with. */
    method Unzip(src: string, dest: string) returns (err: Option<Error>)
      modifies loader.fs`files, loader.fs`dirs
      ensures Outcome(Current(), err) == UnzipOf(old(Current()), src, dest)
    {
      if src !in loader.fs.files {
        return Some(PathError("open", src, NoSuchFile));
      }
      var archive := net.unpack(loader.fs.files[src]);
      if archive.None? {
        return Some(NotAZip);
      }
      var entries := archive.value;
      ghost var start := Current();
      var i := 0;
      while i < |entries|
        invariant 0 <= i <= |entries|
        invariant Extract(loader.fs, start, dest, entries) == Extract(loader.fs, Current(), dest, entries[i..])
      {
        assert entries[i..][0] == entries[i] && entries[i..][1..] == entries[i + 1..];
        var e := ExtractEntry(dest, entries[i]);
        if e.Some? {
          return e;
        }
        i := i + 1;
      }
      err := None;
    }

    /** One iteration of unzip's loop: the entry's effect and error. */
    method ExtractEntry(dest: string, f: ZipEntry) returns (err: Option<Error>)
      modifies loader.fs`files, loader.fs`dirs
      ensures Current() == EntryEffect(loader.fs, old(Current()), dest, f)
      ensures err == EntryError(loader.fs, old(Current()), dest, f)
    {
      var fpath := Join([dest, f.name]);
      if !HasPrefix(fpath, Clean(dest) + [Sep]) {
        return Some(Failure("illegal file path: " + fpath));
      }
      if f.isDir {
        var ignored := loader.fs.MkdirAll(fpath);
        return None;
      }
      err := loader.fs.MkdirAll(Dir(fpath));
      if err.Some? {
        return;
      }
      err := loader.fs.Create(fpath);
      if err.Some? {
        return;
      }
      match f.payload {
        case OpenFails(reason) =>
          err := Some(Failure(reason));
        case CopyFails(written, reason) =>
          loader.fs.Append(fpath, written);
          err := Some(Failure(reason));
        case Data(bytes) =>
          loader.fs.Append(fpath, bytes);
      }
      assert [] + Written(f.payload) == Written(f.payload);
    }

    /** The record GetPluginByID finds for `pluginId` is marked installed. */
    predicate AlreadyInstalled(pluginId: string)
      requires Valid()
      reads loader.db`plugins, loader.db`nextId
    {
      loader.db.GetPluginByID(pluginId).Ok? && loader.db.GetPluginByID(pluginId).value.isInstalled
    }

    /** The tree once the archive for `url` has been downloaded to `zipPath`. */
    function Downloaded(t: Tree, url: string, zipPath: string): Tree
      requires net.get(url).Response?
    {
      Tree(t.files[zipPath := net.get(url).body], t.dirs)
    }

    /** Install: refuses a plugin whose record is marked installed;
        otherwise downloads the archive, extracts it, saves a record built
        from the extracted manifest and loads the plugin by the requested
        id. Once the download has succeeded the archive is removed at the
        end, whatever happens after; a failed download is left behind. */
    method Install(pluginId: string, version: string) returns (err: Option<Error>)
      requires Valid()
      modifies loader`plugins, loader.db`plugins, loader.db`nextId, loader.db`synced, loader.fs, loader.tools.objects
      ensures Valid()
      ensures old(AlreadyInstalled(pluginId)) ==>
                && err == Some(PluginAlreadyExist(pluginId))
                && loader.fs.files == old(loader.fs.files) && loader.fs.dirs == old(loader.fs.dirs)
                && loader.db.plugins == old(loader.db.plugins) && loader.plugins == old(loader.plugins)
      ensures var url, zip := DownloadURL(marketplaceURL, pluginId, version), ZipPath(pluginsDir, pluginId);
                !old(AlreadyInstalled(pluginId)) && !DownloadOk(old(Current()), url, zip) ==>
                  && err.Some? && err.value.Wrapped? && err.value.context == "download plugin"
                  && loader.fs.files == (if Fetched(url) && loader.fs.CreateError(old(loader.fs.files), old(loader.fs.dirs), zip).None?
                                        then old(loader.fs.files)[zip := net.get(url).body] else old(loader.fs.files))
                  && loader.fs.dirs == old(loader.fs.dirs)
                  && loader.db.plugins == old(loader.db.plugins) && loader.plugins == old(loader.plugins)
      ensures var url, zip := DownloadURL(marketplaceURL, pluginId, version), ZipPath(pluginsDir, pluginId);
                !old(AlreadyInstalled(pluginId)) && DownloadOk(old(Current()), url, zip) ==>
                  && DeployedFrom(Unpack(Downloaded(old(Current()), url, zip), zip, InstallDir(pluginsDir, pluginId)),
                                  old(loader.db.plugins), old(loader.db.nextId),
                                  old(loader.plugins), pluginId, InstallDir(pluginsDir, pluginId),
                                  loader.fs.files, loader.fs.dirs, {zip}, err, loader.db.plugins, loader.plugins)
                  && (zip !in loader.fs.removeFails ==> zip !in loader.fs.files)
      ensures var url, zip := DownloadURL(marketplaceURL, pluginId, version), ZipPath(pluginsDir, pluginId);
                err.None? <==>
                  && !old(AlreadyInstalled(pluginId)) && DownloadOk(old(Current()), url, zip)
                  && DeploySucceeds(Unpack(Downloaded(old(Current()), url, zip), zip, InstallDir(pluginsDir, pluginId)),
                                    old(loader.db.plugins), old(loader.db.nextId),
                                    old(loader.plugins), pluginId, InstallDir(pluginsDir, pluginId))
      ensures forall k :: k in old(loader.plugins) ==> k in loader.plugins && loader.plugins[k] == old(loader.plugins)[k]
      ensures forall k :: k in loader.plugins ==> k in old(loader.plugins) || (k == pluginId && err.None?)
    {
      var existing := loader.db.GetPluginByID(pluginId);
      if existing.Ok? && existing.value.isInstalled {
        return Some(PluginAlreadyExist(pluginId));
      }
      var url := DownloadURL(marketplaceURL, pluginId, version);
      var zipPath := ZipPath(pluginsDir, pluginId);
      var e := DownloadFile(url, zipPath);
      if e.Some? {
        return Some(Wrapped("download plugin", e.value));
      }
      err := DeployAndRemove(pluginId, zipPath, InstallDir(pluginsDir, pluginId));
    }

    /** Deploy followed by the deferred removal of the archive, which
        leaves every other path as Deploy left it. */
    method DeployAndRemove(pluginId: string, zipPath: string, installPath: string) returns (err: Option<Error>)
      requires Valid()
      modifies loader`plugins, loader.db`plugins, loader.db`nextId, loader.db`synced, loader.fs, loader.tools.objects
      ensures Valid()
      ensures DeployedFrom(Unpack(old(Current()), zipPath, installPath), old(loader.db.plugins), old(loader.db.nextId),
                           old(loader.plugins), pluginId, installPath, loader.fs.files, loader.fs.dirs, {zipPath}, err,
                           loader.db.plugins, loader.plugins)
      ensures zipPath !in loader.fs.removeFails ==> zipPath !in loader.fs.files
      ensures forall k :: k in old(loader.plugins) ==> k in loader.plugins && loader.plugins[k] == old(loader.plugins)[k]
      ensures forall k :: k in loader.plugins ==> k in old(loader.plugins) || (k == pluginId && err.None?)
    {
      err := Deploy(pluginId, zipPath, installPath);
      ghost var files, dirs := loader.fs.files, loader.fs.dirs;
      var ignored := loader.fs.Remove(zipPath);
      IgnorePath(Unpack(old(Current()), zipPath, installPath), old(loader.db.plugins), old(loader.db.nextId),
                 old(loader.plugins), pluginId, zipPath, installPath, files, dirs, loader.fs.files, loader.fs.dirs, err,
                 loader.db.plugins, loader.plugins);
    }

    /** What Deploy did is unaffected by changes to `zipPath` alone. */
    lemma IgnorePath(u: Unpacked, table: map<string, Plugin>, nextId: int, loaded: map<string, Instance>,
                     pluginId: string, zipPath: string, installPath: string,
                     files: map<string, Bytes>, dirs: set<string>, files': map<string, Bytes>, dirs': set<string>,
                     err: Option<Error>, tableNow: map<string, Plugin>, loadedNow: map<string, Instance>)
      requires loader.db.ScanPicksRow()
      requires DeployedFrom(u, table, nextId, loaded, pluginId, installPath, files, dirs, {}, err, tableNow, loadedNow)
      requires files - {zipPath} == files' - {zipPath} && dirs - {zipPath} == dirs' - {zipPath}
      ensures DeployedFrom(u, table, nextId, loaded, pluginId, installPath, files', dirs', {zipPath}, err, tableNow, loadedNow)
    {
      SetOffPath(dirs, u.tree.dirs, dirs', zipPath);
      MapOffPath(files, u.tree.files, files', zipPath);
      var r := loader.db.Lookup(tableNow, pluginId);
      if u.manifest.Ok? && r.Ok? {
        var dir := PluginDir(r.value, loader.pluginsDir, pluginId);
        if loader.tools.build(dir).Built? {
          MapOffPath(files, u.tree.files[SoPath(dir) := loader.tools.build(dir).so], files', zipPath);
        }
      }
    }

    /** Every step from extraction to loading succeeds from the extracted
        tree and manifest `u`, the table `table`, the next primary key
        `nextId` and the loaded plugins `loaded`. */
    ghost predicate DeploySucceeds(u: Unpacked, table: map<string, Plugin>, nextId: int, loaded: map<string, Instance>,
                                   pluginId: string, installPath: string)
      reads loader`pluginsDir
    {
      && u.manifest.Ok? && u.manifest.value.id !in table
      && loader.LoadsIn(pluginId, loaded, SavedTable(table, u.manifest.value, installPath, nextId), u.tree.files, u.tree.dirs)
    }

    /** What Deploy does, given what Unpack makes of the starting tree
        (`u`), the table `table`, the next primary key `nextId` and the
        loaded plugins `loaded`, and ending with the files `files`, the
        directories `dirs`, the table `tableNow` and the loaded plugins
        `loadedNow`, ignoring the paths of `ignore`: the directories are
        those Unpack leaves; a failed extraction or manifest is returned and
        leaves the table and the loaded plugins alone; a manifest read goes
        on to steps 4 and 5; and the outcome succeeds exactly when
        DeploySucceeds. */
    ghost predicate DeployedFrom(u: Unpacked, table: map<string, Plugin>, nextId: int, loaded: map<string, Instance>,
                                 pluginId: string, installPath: string,
                                 files: map<string, Bytes>, dirs: set<string>, ignore: set<string>, err: Option<Error>,
                                 tableNow: map<string, Plugin>, loadedNow: map<string, Instance>)
      requires loader.db.ScanPicksRow()
      reads loader`pluginsDir
    {
      && dirs - ignore == u.tree.dirs - ignore
      && (u.manifest.Err? ==>
            err == Some(u.manifest.error) && files - ignore == u.tree.files - ignore &&
            tableNow == table && loadedNow == loaded)
      && (u.manifest.Ok? ==>
            Saved(table, nextId, loaded, u.tree, pluginId, u.manifest.value, installPath, files, ignore, err, tableNow, loadedNow))
      && (err.None? <==> DeploySucceeds(u, table, nextId, loaded, pluginId, installPath))
    }

    /** Steps 2 to 5 of Install from the filesystem it starts with: extract,
        read the manifest, save the record, load. */
    method Deploy(pluginId: string, zipPath: string, installPath: string) returns (err: Option<Error>)
      requires Valid()
      modifies loader`plugins, loader.db`plugins, loader.db`nextId, loader.db`synced, loader.fs`files, loader.fs`dirs, loader.tools.objects
      ensures Valid()
      ensures DeployedFrom(Unpack(old(Current()), zipPath, installPath), old(loader.db.plugins), old(loader.db.nextId),
                           old(loader.plugins), pluginId, installPath, loader.fs.files, loader.fs.dirs, {}, err,
                           loader.db.plugins, loader.plugins)
      ensures forall k :: k in old(loader.plugins) ==> k in loader.plugins && loader.plugins[k] == old(loader.plugins)[k]
      ensures forall k :: k in loader.plugins ==> k in old(loader.plugins) || (k == pluginId && err.None?)
    {
      var e := Unzip(zipPath, installPath);
      if e.Some? {
        return Some(Wrapped("unzip plugin", e.value));
      }
      var meta := loader.ReadMetadata(installPath);
      if meta.Err? {
        return Some(Wrapped("read metadata", meta.error));
      }
      err := SaveAndLoad(pluginId, meta.value, installPath);
    }

    /** What steps 4 and 5 of Install do from the table `table`, the next
        primary key `nextId`, the loaded plugins `loaded` and the tree `t`,
        given the manifest `m`, and ending with the files `files`, the table
        `tableNow` and the loaded plugins `loadedNow`, ignoring the paths of
        `ignore`: a `plugin_id` already present is refused and changes
        nothing; otherwise the table gains the record, the load by the
        requested id decides the outcome, and the tree changes at most by
        the plugin.so the load builds. */
    ghost predicate Saved(table: map<string, Plugin>, nextId: int, loaded: map<string, Instance>, t: Tree,
                          pluginId: string, m: PluginMetadata, installPath: string,
                          files: map<string, Bytes>, ignore: set<string>, err: Option<Error>,
                          tableNow: map<string, Plugin>, loadedNow: map<string, Instance>)
      requires loader.db.ScanPicksRow()
      reads loader`pluginsDir
    {
      && (m.id in table ==>
            err == Some(Wrapped("save to database", UniqueViolation)) && files - ignore == t.files - ignore &&
            tableNow == table && loadedNow == loaded)
      && (m.id !in table ==>
            && tableNow == SavedTable(table, m, installPath, nextId)
            && (err.Some? ==> err.value.Wrapped? && err.value.context == "load plugin")
            && (pluginId in loaded ==> err == Some(Wrapped("load plugin", Failure("plugin already loaded: " + pluginId))))
            && (pluginId !in loaded && loader.db.Lookup(tableNow, pluginId).Err? ==>
                  err == Some(Wrapped("load plugin", Wrapped("get plugin from database", PluginNotExist(pluginId)))))
            && (files - ignore == t.files - ignore ||
                (loader.db.Lookup(tableNow, pluginId).Ok? &&
                 var dir := PluginDir(loader.db.Lookup(tableNow, pluginId).value, loader.pluginsDir, pluginId);
                 loader.tools.build(dir).Built? &&
                 files - ignore == t.files[SoPath(dir) := loader.tools.build(dir).so] - ignore)))
      && (err.None? <==>
            m.id !in table && loader.LoadsIn(pluginId, loaded, SavedTable(table, m, installPath, nextId), t.files, t.dirs))
      && (err.None? ==> loader.RecordLoadedIn(pluginId, loadedNow, tableNow))
    }

    /** Steps 4 and 5 of Install: save the record built from `m`, then load
        the plugin by the requested id. */
    method SaveAndLoad(pluginId: string, m: PluginMetadata, installPath: string) returns (err: Option<Error>)
      requires Valid()
      modifies loader`plugins, loader.db`plugins, loader.db`nextId, loader.db`synced, loader.fs`files, loader.tools.objects
      ensures Valid()
      ensures Saved(old(loader.db.plugins), old(loader.db.nextId), old(loader.plugins), old(Current()), pluginId, m, installPath,
                    loader.fs.files, {}, err, loader.db.plugins, loader.plugins)
      ensures forall k :: k in old(loader.plugins) ==> k in loader.plugins && loader.plugins[k] == old(loader.plugins)[k]
      ensures forall k :: k in loader.plugins ==> k in old(loader.plugins) || (k == pluginId && err.None?)
    {
      var rec := NewRecord(m, installPath);
      var ce, id := loader.db.CreatePlugin(rec);
      if ce.Some? {
        return Some(Wrapped("save to database", ce.value));
      }
      assert loader.db.plugins == SavedTable(old(loader.db.plugins), m, installPath, old(loader.db.nextId));
      var le := loader.LoadPlugin(pluginId);
      if le.Some? {
        return Some(Wrapped("load plugin", le.value));
      }
      err := None;
    }

    /** Uninstall: the record is looked up first; a failing unload is
        ignored, so the instance may stay loaded while its files and its
        record go; the record stays when the files cannot be removed, and
        so may some of the files. The record is then deleted by the
        requested id, which for the empty id is not the row found. */
    method Uninstall(pluginId: string) returns (err: Option<Error>)
      requires Valid()
      modifies loader`plugins, loader.db`plugins, loader.fs
      ensures Valid()
      ensures old(loader.db.GetPluginByID(pluginId)).Err? ==>
                && err == Some(PluginNotExist(pluginId))
                && loader.plugins == old(loader.plugins) && loader.db.plugins == old(loader.db.plugins)
                && loader.fs.files == old(loader.fs.files) && loader.fs.dirs == old(loader.fs.dirs)
      ensures old(loader.db.GetPluginByID(pluginId)).Ok? ==>
                loader.plugins ==
                  if pluginId in old(loader.plugins) && UninstallResult(old(loader.plugins)[pluginId]).None?
                  then old(loader.plugins) - {pluginId}
                  else old(loader.plugins)
      ensures old(loader.db.GetPluginByID(pluginId)).Ok? ==>
                var path := old(loader.db.GetPluginByID(pluginId)).value.installPath;
                !loader.fs.RemoveAllSucceeds(old(loader.fs.files), old(loader.fs.dirs), path) ==>
                  && err.Some? && err.value.Wrapped? && err.value.context == "remove plugin files"
                  && loader.db.plugins == old(loader.db.plugins)
                  && RemovedOnlyBelow(old(loader.fs.files), loader.fs.files, old(loader.fs.dirs), loader.fs.dirs, path)
      ensures old(loader.db.GetPluginByID(pluginId)).Ok? ==>
                var path := old(loader.db.GetPluginByID(pluginId)).value.installPath;
                loader.fs.RemoveAllSucceeds(old(loader.fs.files), old(loader.fs.dirs), path) ==>
                  && err == None
                  && loader.db.plugins == old(loader.db.plugins) - {pluginId}
                  && (path == "" ==> loader.fs.files == old(loader.fs.files) && loader.fs.dirs == old(loader.fs.dirs))
                  && (path != "" ==> loader.fs.files == Prune(old(loader.fs.files), path) &&
                                     loader.fs.dirs == PruneSet(old(loader.fs.dirs), path))
    {
      var rec := loader.db.GetPluginByID(pluginId);
      if rec.Err? {
        return Some(rec.error);
      }
      var ignored := loader.UnloadPlugin(pluginId);
      var e := loader.fs.RemoveAll(rec.value.installPath);
      if e.Some? {
        return Some(Wrapped("remove plugin files", e.value));
      }
      // DeletePlugin cannot fail here, so "delete from database" is never returned
      err := loader.db.DeletePlugin(pluginId);
    }

    /** Step 3 of Enable and Disable: look the record up again and write
        the flag back through its primary key. */
    method WriteEnabled(pluginId: string, enabled: bool) returns (err: Option<Error>)
      requires Valid()
      modifies loader.db`plugins
      ensures Valid()
      ensures old(loader.db.GetPluginByID(pluginId)).Err? ==>
                err == Some(PluginNotExist(pluginId)) && loader.db.plugins == old(loader.db.plugins)
      ensures old(loader.db.GetPluginByID(pluginId)).Ok? ==>
                var row := old(loader.db.GetPluginByID(pluginId)).value;
                err == None && loader.db.plugins == old(loader.db.plugins)[row.pluginId := row.(isEnabled := enabled)]
    {
      var rec := loader.db.GetPluginByID(pluginId);
      if rec.Err? {
        return Some(rec.error);
      }
      var row := rec.value.(isEnabled := enabled);
      assert loader.db.KeyOfId(row.id) == Some(rec.value.pluginId);
      // the row keeps its own plugin_id, so UpdatePlugin cannot fail and
      // "update database" is never returned
      err := loader.db.UpdatePlugin(row);
    }

    /** Enable: the plugin must be loaded and its hook must succeed before
        the record is marked enabled; the loaded instances never change. */
    method Enable(pluginId: string) returns (err: Option<Error>)
      requires Valid()
      modifies loader.db`plugins
      ensures Valid()
      ensures pluginId !in loader.plugins ==>
                err == Some(Failure("plugin not loaded: " + pluginId)) && loader.db.plugins == old(loader.db.plugins)
      ensures pluginId in loader.plugins && EnableResult(loader.plugins[pluginId]).Some? ==>
                err == Some(Wrapped("enable plugin", EnableResult(loader.plugins[pluginId]).value)) &&
                loader.db.plugins == old(loader.db.plugins)
      ensures pluginId in loader.plugins && EnableResult(loader.plugins[pluginId]).None? &&
              old(loader.db.GetPluginByID(pluginId)).Err? ==>
                err == Some(PluginNotExist(pluginId)) && loader.db.plugins == old(loader.db.plugins)
      ensures pluginId in loader.plugins && EnableResult(loader.plugins[pluginId]).None? &&
              old(loader.db.GetPluginByID(pluginId)).Ok? ==>
                var row := old(loader.db.GetPluginByID(pluginId)).value;
                err == None && loader.db.plugins == old(loader.db.plugins)[row.pluginId := row.(isEnabled := true)]
    {
      var inst := loader.GetPlugin(pluginId);
      if inst.None? {
        return Some(Failure("plugin not loaded: " + pluginId));
      }
      var e := Instances.Enable(inst.value);
      if e.Some? {
        return Some(Wrapped("enable plugin", e.value));
      }
      err := WriteEnabled(pluginId, true);
    }

    /** Disable: as Enable, with the Disable hook and the flag cleared. */
    method Disable(pluginId: string) returns (err: Option<Error>)
      requires Valid()
      modifies loader.db`plugins
      ensures Valid()
      ensures pluginId !in loader.plugins ==>
                err == Some(Failure("plugin not loaded: " + pluginId)) && loader.db.plugins == old(loader.db.plugins)
      ensures pluginId in loader.plugins && DisableResult(loader.plugins[pluginId]).Some? ==>
                err == Some(Wrapped("disable plugin", DisableResult(loader.plugins[pluginId]).value)) &&
                loader.db.plugins == old(loader.db.plugins)
      ensures pluginId in loader.plugins && DisableResult(loader.plugins[pluginId]).None? &&
              old(loader.db.GetPluginByID(pluginId)).Err? ==>
                err == Some(PluginNotExist(pluginId)) && loader.db.plugins == old(loader.db.plugins)
      ensures pluginId in loader.plugins && DisableResult(loader.plugins[pluginId]).None? &&
              old(loader.db.GetPluginByID(pluginId)).Ok? ==>
                var row := old(loader.db.GetPluginByID(pluginId)).value;
                err == None && loader.db.plugins == old(loader.db.plugins)[row.pluginId := row.(isEnabled := false)]
    {
      var inst := loader.GetPlugin(pluginId);
      if inst.None? {
        return Some(Failure("plugin not loaded: " + pluginId));
      }
      var e := Instances.Disable(inst.value);
      if e.Some? {
        return Some(Wrapped("disable plugin", e.value));
      }
      err := WriteEnabled(pluginId, false);
    }

    /** Enabling and then disabling a loaded plugin whose hooks succeed
        leaves its row as it was apart from a cleared flag. The empty id is
        excluded: each of the two lookups takes whichever row the database
        scans first, which an update in between may change. */
    method EnableThenDisable(pluginId: string) returns (err1: Option<Error>, err2: Option<Error>)
      requires Valid()
      requires pluginId != "" && pluginId in loader.plugins && pluginId in loader.db.plugins
      requires EnableResult(loader.plugins[pluginId]).None? && DisableResult(loader.plugins[pluginId]).None?
      modifies loader.db`plugins
      ensures Valid()
      ensures err1 == None && err2 == None
      ensures loader.db.plugins == old(loader.db.plugins)[pluginId := old(loader.db.plugins)[pluginId].(isEnabled := false)]
    {
      err1 := Enable(pluginId);
      err2 := Disable(pluginId);
    }

    /** ListInstalled: every row of the table, installed or not. */
    method ListInstalled() returns (err: Option<Error>, rows: seq<Plugin>)
      requires Valid()
      ensures err == None
      ensures |rows| == |loader.db.plugins|
      ensures forall i :: 0 <= i < |rows| ==> rows[i].pluginId in loader.db.plugins && loader.db.plugins[rows[i].pluginId] == rows[i]
      ensures forall k :: k in loader.db.plugins ==> loader.db.plugins[k] in rows
    {
      err, rows := loader.db.ListPlugins();
    }

    /** ListAvailable: the marketplace's plugin list. */
    function ListAvailable(): (r: Result<seq<PluginMetadata>>)
      ensures net.get(ListURL(marketplaceURL)).NoResponse? ==>
                r == Err(Wrapped("fetch from marketplace", Failure(net.get(ListURL(marketplaceURL)).reason)))
      ensures net.get(ListURL(marketplaceURL)).Response? && net.get(ListURL(marketplaceURL)).status != StatusOK ==>
                r == Err(Failure("marketplace returned status " + IntToString(net.get(ListURL(marketplaceURL)).status)))
      ensures r.Ok? <==>
                && Fetched(ListURL(marketplaceURL))
                && net.get(ListURL(marketplaceURL)).readError.None?
                && net.decodeList(net.get(ListURL(marketplaceURL)).body).Ok?
      ensures r.Ok? ==> r == net.decodeList(net.get(ListURL(marketplaceURL)).body)
      ensures r.Err? && Fetched(ListURL(marketplaceURL)) ==> r.error.Wrapped? && r.error.context == "decode response"
    {
      match net.get(ListURL(marketplaceURL))
      case NoResponse(reason) => Err(Wrapped("fetch from marketplace", Failure(reason)))
      case Response(status, body, readError) =>
        if status != StatusOK then Err(Failure("marketplace returned status " + IntToString(status)))
        else if readError.Some? then Err(Wrapped("decode response", Failure(readError.value)))
        else match net.decodeList(body)
          case Err(e) => Err(Wrapped("decode response", e))
          case Ok(list) => Ok(list)
    }

    /** GetPluginInfo: the Info of the loaded instance. */
    function GetPluginInfo(pluginId: string): (r: Result<PluginInfo>)
      reads loader
      ensures r.Ok? <==> pluginId in loader.plugins
      ensures r.Ok? ==> r.value == InfoOf(loader.plugins[pluginId])
      ensures r.Err? ==> r.error == Failure("plugin not loaded: " + pluginId)
    {
      match loader.GetPlugin(pluginId)
      case None => Err(Failure("plugin not loaded: " + pluginId))
      case Some(inst) => Ok(InfoOf(inst))
    }
  }

  /** The directories `dirs0` and the first `k` of `ds`. */
  function Made(dirs0: set<string>, ds: seq<string>, k: int): set<string>
    requires 0 <= k <= |ds|
  {
    dirs0 + set i | 0 <= i < k :: ds[i]
  }

  /** When every directory of `ds` already exists, no os.MkdirAll of
      them can fail, whatever the host would refuse. */
  lemma {:induction false} ExistingDirsMade(fs: FileSystem, files: map<string, Bytes>, dirs0: set<string>, ds: seq<string>)
    requires forall i :: 0 <= i < |ds| ==> IsDirectory(files, dirs0, ds[i])
    ensures forall i :: 0 <= i < |ds| ==> fs.MkdirError(files, Made(dirs0, ds, i), ds[i]).None?
  {
    forall i | 0 <= i < |ds|
      ensures fs.MkdirError(files, Made(dirs0, ds, i), ds[i]).None?
    {
      IsDirectoryGrows(files, dirs0, Made(dirs0, ds, i), ds[i]);
    }
  }

  /** The loop of InitManager: os.MkdirAll of each directory of `ds` in
      order, from the directories made before it, stopping at the first
      failure. */
  method MakeDirs(fs: FileSystem, ds: seq<string>) returns (err: Option<Error>)
    modifies fs`dirs
    ensures err.None? <==> forall i :: 0 <= i < |ds| ==> fs.MkdirError(fs.files, Made(old(fs.dirs), ds, i), ds[i]).None?
    ensures err.None? ==> fs.dirs == Made(old(fs.dirs), ds, |ds|)
    ensures err.Some? ==>
              exists k :: 0 <= k < |ds| &&
                fs.MkdirError(fs.files, Made(old(fs.dirs), ds, k), ds[k]).Some? &&
                (forall i :: 0 <= i < k ==> fs.MkdirError(fs.files, Made(old(fs.dirs), ds, i), ds[i]).None?) &&
                err == Some(Wrapped("create directory " + ds[k], fs.MkdirError(fs.files, Made(old(fs.dirs), ds, k), ds[k]).value)) &&
                fs.dirs == Made(old(fs.dirs), ds, k)
  {
    var k := 0;
    while k < |ds|
      invariant 0 <= k <= |ds|
      invariant forall i :: 0 <= i < k ==> fs.MkdirError(fs.files, Made(old(fs.dirs), ds, i), ds[i]).None?
      invariant fs.dirs == Made(old(fs.dirs), ds, k)
    {
      var e := fs.MkdirAll(ds[k]);
      if e.Some? {
        return Some(Wrapped("create directory " + ds[k], e.value));
      }
      assert Made(old(fs.dirs), ds, k + 1) == Made(old(fs.dirs), ds, k) + {ds[k]};
      k := k + 1;
    }
    err := None;
  }

  /** InitManager: points the loader at `pluginsDir` and creates the
      installed, temp and config directories in that order, stopping at
      the first that cannot be created. Each os.MkdirAll starts from the
      directories made before it, and when all three directories already
      exist nothing can fail. */
  method InitManager(loader: PluginLoader, pluginsDir: string, marketplaceURL: string, net: Marketplace)
      returns (m: PluginManager, err: Option<Error>)
    requires loader.Valid()
    modifies loader`pluginsDir, loader.fs`dirs
    ensures fresh(m) && m.loader == loader && m.pluginsDir == pluginsDir
    ensures m.marketplaceURL == marketplaceURL && m.net == net && m.Valid()
    ensures loader.pluginsDir == pluginsDir
    ensures var ds := ManagerDirs(pluginsDir);
              err.None? <==>
                forall i :: 0 <= i < 3 ==> loader.fs.MkdirError(loader.fs.files, Made(old(loader.fs.dirs), ds, i), ds[i]).None?
    ensures err.None? ==> loader.fs.dirs == Made(old(loader.fs.dirs), ManagerDirs(pluginsDir), 3)
    ensures var ds := ManagerDirs(pluginsDir);
              err.Some? ==>
                exists k :: 0 <= k < 3 &&
                  loader.fs.MkdirError(loader.fs.files, Made(old(loader.fs.dirs), ds, k), ds[k]).Some? &&
                  (forall i :: 0 <= i < k ==>
                     loader.fs.MkdirError(loader.fs.files, Made(old(loader.fs.dirs), ds, i), ds[i]).None?) &&
                  err == Some(Wrapped("create directory " + ds[k],
                                      loader.fs.MkdirError(loader.fs.files, Made(old(loader.fs.dirs), ds, k), ds[k]).value)) &&
                  loader.fs.dirs == Made(old(loader.fs.dirs), ds, k)
    ensures (forall i :: 0 <= i < 3 ==> IsDirectory(loader.fs.files, old(loader.fs.dirs), ManagerDirs(pluginsDir)[i])) ==>
              err == None
  {
    m := new PluginManager(loader, pluginsDir, marketplaceURL, net);
    loader.SetPluginsDir(pluginsDir);
    ghost var dirs0 := loader.fs.dirs;
    err := MakeDirs(loader.fs, ManagerDirs(pluginsDir));
    if forall i :: 0 <= i < 3 ==> IsDirectory(loader.fs.files, dirs0, ManagerDirs(pluginsDir)[i]) {
      ExistingDirsMade(loader.fs, loader.fs.files, dirs0, ManagerDirs(pluginsDir));
    }
  }
}
