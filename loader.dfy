/** services/plugin/loader.go: the registry of loaded plugin instances.
    Each method is one critical section of the Go mutex; the singleton
    returned by GetLoader is an explicit object. */
module Loader {
  import opened Wrappers
  import opened Errors
  import opened Paths
  import opened Files
  import opened PluginTypes
  import opened PluginRegistry
  import opened Instances
  import opened LicenseManagerExample

  const DefaultPluginsDir := "./plugins"

  /** filepath.Join(pluginsDir, "installed", id) */
  function DefaultInstallDir(pluginsDir: string, pluginId: string): string {
    Join([pluginsDir, "installed", pluginId])
  }

  function ManifestPath(dir: string): string {
    Join([dir, "plugin.json"])
  }

  function SoPath(dir: string): string {
    Join([dir, "plugin.so"])
  }

  /** The directory LoadPlugin works in: the record's InstallPath, or the
      default location when that is empty. */
  function PluginDir(rec: Plugin, pluginsDir: string, pluginId: string): string {
    if rec.installPath == "" then DefaultInstallDir(pluginsDir, pluginId) else rec.installPath
  }

  /** Loading syncs models only when the manifest's "models" hook is on and
      the instance declares at least one model. */
  predicate NeedsSync(meta: PluginMetadata, inst: Instance) {
    HookOn(meta, "models") && |ModelsOf(inst)| > 0
  }

  /** The ids of the installed rows, in list order. */
  function InstalledIds(rows: seq<Plugin>): seq<string> {
    if rows == [] then []
    else InstalledIds(rows[..|rows| - 1]) +
         (if rows[|rows| - 1].isInstalled then [rows[|rows| - 1].pluginId] else [])
  }

  lemma {:induction false} InstalledIdsSpec(rows: seq<Plugin>)
    ensures forall k :: k in InstalledIds(rows) <==> exists j :: 0 <= j < |rows| && rows[j].isInstalled && rows[j].pluginId == k
    ensures (forall i, j :: 0 <= i < j < |rows| ==> rows[i].pluginId != rows[j].pluginId) ==>
              forall i, j :: 0 <= i < j < |InstalledIds(rows)| ==> InstalledIds(rows)[i] != InstalledIds(rows)[j]
  {
    if rows != [] {
      var init, last := rows[..|rows| - 1], rows[|rows| - 1];
      InstalledIdsSpec(init);
      assert forall j :: 0 <= j < |init| ==> init[j] == rows[j];
      if (forall i, j :: 0 <= i < j < |rows| ==> rows[i].pluginId != rows[j].pluginId) && last.isInstalled {
        assert last.pluginId !in InstalledIds(init);
      }
    }
  }

  /** Over a complete listing of the table, the installed ids are exactly
      the keys of the installed rows, each once. */
  lemma InstalledIdsOfListing(rows: seq<Plugin>, table: map<string, Plugin>)
    requires forall i :: 0 <= i < |rows| ==> rows[i].pluginId in table && table[rows[i].pluginId] == rows[i]
    requires forall k :: k in table ==> table[k] in rows
    requires forall k :: k in table ==> table[k].pluginId == k
    requires forall i, j :: 0 <= i < j < |rows| ==> rows[i].pluginId != rows[j].pluginId
    ensures forall k :: k in InstalledIds(rows) <==> k in table && table[k].isInstalled
    ensures forall i, j :: 0 <= i < j < |InstalledIds(rows)| ==> InstalledIds(rows)[i] != InstalledIds(rows)[j]
  {
    InstalledIdsSpec(rows);
    forall k | k in table && table[k].isInstalled
      ensures k in InstalledIds(rows)
    {
      var j :| 0 <= j < |rows| && rows[j] == table[k];
    }
  }

  /** The manifest and the shared object sit directly in the plugin
      directory, whatever string names it. */
  lemma PluginFilesInDir(dir: string)
    ensures CleanParts(ManifestPath(dir)) == CleanParts(dir) + ["plugin.json"]
    ensures CleanParts(SoPath(dir)) == CleanParts(dir) + ["plugin.so"]
    ensures ManifestPath(dir) != SoPath(dir)
  {
    JoinChild(dir, "plugin.json");
    JoinChild(dir, "plugin.so");
    var m, s := CleanParts(ManifestPath(dir)), CleanParts(SoPath(dir));
    assert m[|m| - 1] != s[|s| - 1];
  }

  /** No plugin.so path names a plugin.json, whichever directories the
      two are in. */
  lemma ManifestIsNotSo(a: string, b: string)
    ensures ManifestPath(a) != SoPath(b)
  {
    PluginFilesInDir(a);
    PluginFilesInDir(b);
    var m, o := CleanParts(ManifestPath(a)), CleanParts(SoPath(b));
    assert m[|m| - 1] != o[|o| - 1];
  }

  /** For a plain plugin id, the default directory is
      `<pluginsDir>/installed/<id>` component by component. */
  lemma DefaultInstallDirLayout(pluginsDir: string, pluginId: string)
    requires IsComponent(pluginId) && pluginId != ".."
    ensures IsRooted(DefaultInstallDir(pluginsDir, pluginId)) == IsRooted(pluginsDir)
    ensures CleanParts(DefaultInstallDir(pluginsDir, pluginId)) == CleanParts(pluginsDir) + ["installed", pluginId]
    ensures CleanParts(ManifestPath(DefaultInstallDir(pluginsDir, pluginId))) ==
              CleanParts(pluginsDir) + ["installed", pluginId, "plugin.json"]
  {
    JoinThree(pluginsDir, "installed", pluginId);
    PluginFilesInDir(DefaultInstallDir(pluginsDir, pluginId));
  }

  class PluginLoader {
    var pluginsDir: string
    var plugins: map<string, Instance>
    const db: Database
    const fs: FileSystem
    const tools: Toolchain

    ghost predicate Valid()
      reads db`plugins, db`nextId
    {
      db.Valid() && tools.Valid()
    }

    /** GetLoader's first call: "./plugins" and nothing loaded. */
    constructor (db0: Database, fs0: FileSystem, tools0: Toolchain)
      requires db0.Valid() && tools0.Valid()
      ensures Valid()
      ensures pluginsDir == DefaultPluginsDir && plugins == map[]
      ensures db == db0 && fs == fs0 && tools == tools0
    {
      pluginsDir := DefaultPluginsDir;
      plugins := map[];
      db, fs, tools := db0, fs0, tools0;
    }

    method SetPluginsDir(dir: string)
      modifies this`pluginsDir
      ensures pluginsDir == dir
    {
      pluginsDir := dir;
    }

    /** plugin.json of `dir` in the files `files`, read and decoded. */
    function MetadataIn(files: map<string, Bytes>, dir: string): Result<PluginMetadata> {
      if ManifestPath(dir) !in files then Err(Wrapped("read plugin.json", PathError("open", ManifestPath(dir), NoSuchFile)))
      else match tools.parse(files[ManifestPath(dir)])
        case Err(e) => Err(Wrapped("parse plugin.json", e))
        case Ok(m) => Ok(m)
    }

    /** readMetadata: plugin.json of `dir`, read and decoded. */
    function ReadMetadata(dir: string): (r: Result<PluginMetadata>)
      reads fs
      ensures r == MetadataIn(fs.files, dir)
      ensures ManifestPath(dir) !in fs.files ==>
                r == Err(Wrapped("read plugin.json", PathError("open", ManifestPath(dir), NoSuchFile)))
      ensures ManifestPath(dir) in fs.files && tools.parse(fs.files[ManifestPath(dir)]).Err? ==>
                r == Err(Wrapped("parse plugin.json", tools.parse(fs.files[ManifestPath(dir)]).error))
      ensures r.Ok? <==> ManifestPath(dir) in fs.files && tools.parse(fs.files[ManifestPath(dir)]).Ok?
      ensures r.Ok? ==> r == tools.parse(fs.files[ManifestPath(dir)])
    {
      match fs.ReadFile(ManifestPath(dir))
      case Err(e) => Err(Wrapped("read plugin.json", e))
      case Ok(data) =>
        match tools.parse(data)
        case Err(e) => Err(Wrapped("parse plugin.json", e))
        case Ok(m) => Ok(m)
    }

    /** compilePlugin: the build writes plugin.so into the directory. */
    method CompilePlugin(dir: string) returns (err: Option<Error>)
      modifies fs`files
      ensures tools.build(dir).BuildFails? ==>
                err == Some(Failure("compile failed: " + tools.build(dir).cause + "\n" + tools.build(dir).output)) &&
                fs.files == old(fs.files)
      ensures tools.build(dir).Built? ==> err == None && fs.files == old(fs.files)[SoPath(dir) := tools.build(dir).so]
    {
      match tools.build(dir)
      case BuildFails(cause, output) =>
        err := Some(Failure("compile failed: " + cause + "\n" + output));
      case Built(so) =>
        fs.files := fs.files[SoPath(dir) := so];
        err := None;
    }

    /** syncModels: nothing to do for an empty list. */
    method SyncModels(pluginId: string, models: seq<ModelDescriptor>) returns (err: Option<Error>)
      modifies db`synced
      ensures |models| == 0 ==> err == None && db.synced == old(db.synced)
      ensures |models| > 0 && db.syncOutcome(models).Some? ==>
                err == Some(Wrapped("sync models for plugin " + pluginId, db.syncOutcome(models).value)) &&
                db.synced == old(db.synced)
      ensures |models| > 0 && db.syncOutcome(models).None? ==>
                err == None && db.synced == old(db.synced) + [models]
    {
      if |models| == 0 {
        return None;
      }
      var e := db.Sync(models);
      if e.Some? {
        return Some(Wrapped("sync models for plugin " + pluginId, e.value));
      }
      err := None;
    }

    /** The directory a load of `pluginId` uses. */
    ghost function LoadDir(pluginId: string): string
      requires db.Valid() && db.GetPluginByID(pluginId).Ok?
      reads this`pluginsDir, db`plugins, db`nextId
    {
      PluginDir(db.GetPluginByID(pluginId).value, pluginsDir, pluginId)
    }

    /** Every step of LoadPlugin for `pluginId` succeeds when `loaded` is
        what is loaded, `table` the plugin table and `files` and `dirs` the
        filesystem. */
    ghost predicate LoadsIn(pluginId: string, loaded: map<string, Instance>, table: map<string, Plugin>,
                            files: map<string, Bytes>, dirs: set<string>)
      reads this`pluginsDir
    {
      && db.ScanPicksRow()
      && pluginId !in loaded
      && db.Lookup(table, pluginId).Ok?
      && var dir := PluginDir(db.Lookup(table, pluginId).value, pluginsDir, pluginId);
         && MetadataIn(files, dir).Ok?
         && (SoPath(dir) in files || SoPath(dir) in dirs || tools.build(dir).Built?)
         && tools.open(SoPath(dir)).Exported?
         && var inst := tools.open(SoPath(dir)).inst;
            && InitResult(inst).None?
            && (NeedsSync(MetadataIn(files, dir).value, inst) ==> db.syncOutcome(ModelsOf(inst)).None?)
    }

    /** Every step of LoadPlugin succeeds from this state. */
    ghost predicate LoadSucceeds(pluginId: string)
      reads this`plugins, this`pluginsDir, db`plugins, db`nextId, fs
    {
      db.Valid() && LoadsIn(pluginId, plugins, db.plugins, fs.files, fs.dirs)
    }

    /** Every id of `ready` not loaded yet would load. */
    ghost predicate ReadyLoadable(ready: set<string>)
      reads this`plugins, this`pluginsDir, db`plugins, db`nextId, fs
    {
      forall k :: k in ready && k !in plugins ==> LoadSucceeds(k)
    }

    /** `pluginId` is loaded in `loaded` with the instance that the
        plugin.so of its record in `table` exports. */
    ghost predicate RecordLoadedIn(pluginId: string, loaded: map<string, Instance>, table: map<string, Plugin>)
      requires db.ScanPicksRow()
      reads this`pluginsDir
    {
      && db.Lookup(table, pluginId).Ok?
      && var so := SoPath(PluginDir(db.Lookup(table, pluginId).value, pluginsDir, pluginId));
         && tools.open(so).Exported? && pluginId in loaded && loaded[pluginId] == tools.open(so).inst
    }

    /** `pluginId` is loaded with the instance its record's plugin.so
        exports. */
    ghost predicate LoadedFromRecord(pluginId: string)
      reads this`plugins, this`pluginsDir, db`plugins, db`nextId
    {
      && db.Valid()
      && db.GetPluginByID(pluginId).Ok?
      && tools.open(SoPath(LoadDir(pluginId))).Exported?
      && pluginId in plugins
      && plugins[pluginId] == tools.open(SoPath(LoadDir(pluginId))).inst
    }

    /** LoadPlugin: the map gains `pluginId` only once every step has
        succeeded; a failing step leaves the map as it was. */
    method LoadPlugin(pluginId: string) returns (err: Option<Error>)
      requires Valid()
      modifies this`plugins, fs`files, db`synced, tools.objects
      ensures Valid()
      ensures pluginId in old(plugins) ==>
                err == Some(Failure("plugin already loaded: " + pluginId)) &&
                fs.files == old(fs.files) && db.synced == old(db.synced)
      ensures pluginId !in old(plugins) && db.GetPluginByID(pluginId).Err? ==>
                err == Some(Wrapped("get plugin from database", PluginNotExist(pluginId))) &&
                fs.files == old(fs.files) && db.synced == old(db.synced)
      ensures err.None? <==> old(LoadSucceeds(pluginId))
      ensures err.Some? ==> plugins == old(plugins)
      ensures forall k :: k in old(plugins) ==> k in plugins && plugins[k] == old(plugins)[k]
      ensures forall k :: k in plugins ==> k in old(plugins) || k == pluginId
      ensures err.None? ==>
                var inst := tools.open(SoPath(LoadDir(pluginId))).inst;
                && plugins == old(plugins)[pluginId := inst]
                && (inst.LicenseManager? ==> inst.plugin.config == DefaultConfig)
      // plugin.so is built only when it is missing
      ensures fs.files == old(fs.files) ||
                (db.GetPluginByID(pluginId).Ok? && !old(fs.Exists(SoPath(LoadDir(pluginId)))) &&
                 tools.build(LoadDir(pluginId)).Built? &&
                 fs.files == old(fs.files)[SoPath(LoadDir(pluginId)) := tools.build(LoadDir(pluginId)).so])
      // models are synced only by a load that succeeds and needs it
      ensures db.synced == old(db.synced) ||
                (err.None? &&
                 var inst := tools.open(SoPath(LoadDir(pluginId))).inst;
                 NeedsSync(old(ReadMetadata(LoadDir(pluginId))).value, inst) &&
                 db.synced == old(db.synced) + [ModelsOf(inst)])
      ensures err.None? && NeedsSync(old(ReadMetadata(LoadDir(pluginId))).value, tools.open(SoPath(LoadDir(pluginId))).inst) ==>
                db.synced == old(db.synced) + [ModelsOf(tools.open(SoPath(LoadDir(pluginId))).inst)]
    {
      if pluginId in plugins {
        return Some(Failure("plugin already loaded: " + pluginId));
      }
      var rec := db.GetPluginByID(pluginId);
      if rec.Err? {
        return Some(Wrapped("get plugin from database", rec.error));
      }
      var dir := PluginDir(rec.value, pluginsDir, pluginId);
      var meta := ReadMetadata(dir);
      if meta.Err? {
        return Some(Wrapped("read metadata", meta.error));
      }
      var so := SoPath(dir);
      if !fs.Exists(so) {
        var e := CompilePlugin(dir);
        if e.Some? {
          return Some(Wrapped("compile plugin", e.value));
        }
      }
      err := Activate(pluginId, so, meta.value);
    }

    /** The last steps of LoadPlugin, from plugin.Open on: open, look up,
        type-check, Init, sync models if needed, then insert. */
    method Activate(pluginId: string, so: string, meta: PluginMetadata) returns (err: Option<Error>)
      requires tools.Valid()
      modifies this`plugins, db`synced, tools.objects
      ensures err.None? <==>
                && tools.open(so).Exported?
                && InitResult(tools.open(so).inst).None?
                && (NeedsSync(meta, tools.open(so).inst) ==> db.syncOutcome(ModelsOf(tools.open(so).inst)).None?)
      ensures err.Some? ==> plugins == old(plugins)
      ensures err.None? ==>
                var inst := tools.open(so).inst;
                && plugins == old(plugins)[pluginId := inst]
                && (inst.LicenseManager? ==> inst.plugin.config == DefaultConfig)
      ensures if err.None? && NeedsSync(meta, tools.open(so).inst)
              then db.synced == old(db.synced) + [ModelsOf(tools.open(so).inst)]
              else db.synced == old(db.synced)
    {
      var sym := tools.open(so);
      match sym {
        case OpenFails(reason) =>
          return Some(Wrapped("open plugin", Failure(reason)));
        case LookupFails(reason) =>
          return Some(Wrapped("lookup Plugin symbol", Failure(reason)));
        case NotAPlugin =>
          return Some(Failure("invalid plugin type"));
        case Exported(inst) =>
          var e := Init(inst);
          if e.Some? {
            return Some(Wrapped("init plugin", e.value));
          }
          if HookOn(meta, "models") {
            var models := ModelsOf(inst);
            if |models| > 0 {
              e := SyncModels(pluginId, models);
              if e.Some? {
                return Some(Wrapped("sync models", e.value));
              }
            }
          }
          plugins := plugins[pluginId := inst];
          return None;
      }
    }

    /** UnloadPlugin: the entry goes only when the plugin's Uninstall hook
        succeeds. */
    method UnloadPlugin(pluginId: string) returns (err: Option<Error>)
      modifies this`plugins
      ensures pluginId !in old(plugins) ==>
                err == Some(Failure("plugin not loaded: " + pluginId)) && plugins == old(plugins)
      ensures pluginId in old(plugins) && UninstallResult(old(plugins)[pluginId]).Some? ==>
                err == Some(Wrapped("uninstall plugin", UninstallResult(old(plugins)[pluginId]).value)) &&
                plugins == old(plugins)
      ensures pluginId in old(plugins) && UninstallResult(old(plugins)[pluginId]).None? ==>
                err == None && plugins == old(plugins) - {pluginId}
    {
      if pluginId !in plugins {
        return Some(Failure("plugin not loaded: " + pluginId));
      }
      var e := Uninstall(plugins[pluginId]);
      if e.Some? {
        return Some(Wrapped("uninstall plugin", e.value));
      }
      plugins := plugins - {pluginId};
      err := None;
    }

    /** GetPlugin: the loaded instance, if any. */
    function GetPlugin(pluginId: string): (r: Option<Instance>)
      reads this
      ensures r.Some? <==> pluginId in plugins
      ensures r.Some? ==> r.value == plugins[pluginId]
    {
      if pluginId in plugins then Some(plugins[pluginId]) else None
    }

    /** GetAllPlugins: a copy of the map, built entry by entry. */
    method GetAllPlugins() returns (result: map<string, Instance>)
      ensures result == plugins
    {
      result := map[];
      var todo := plugins.Keys;
      while todo != {}
        invariant todo <= plugins.Keys
        invariant result.Keys == plugins.Keys - todo
        invariant forall k :: k in result ==> result[k] == plugins[k]
        decreases |todo|
      {
        var k :| k in todo;
        result := result[k := plugins[k]];
        todo := todo - {k};
      }
    }

    /** One load of LoadAll, whose error is only logged. It succeeds
        exactly when LoadPlugin can, and a load that could have succeeded
        for any other id still can afterwards: loads only add entries and
        write plugin.so files, never a manifest. */
    method TryLoad(pluginId: string, ghost ready: set<string>) returns (err: Option<Error>)
      requires Valid()
      requires ReadyLoadable(ready)
      modifies this`plugins, fs`files, db`synced, tools.objects
      ensures Valid()
      ensures ReadyLoadable(ready)
      ensures pluginId in ready ==> pluginId in plugins
      ensures err.None? <==> old(LoadSucceeds(pluginId))
      ensures err.None? ==> LoadedFromRecord(pluginId)
      ensures forall k :: k in old(plugins) ==> k in plugins && plugins[k] == old(plugins)[k]
      ensures forall k :: k in plugins ==> k in old(plugins) || (k == pluginId && err.None?)
      ensures forall k :: old(LoadedFromRecord(k)) ==> LoadedFromRecord(k)
    {
      err := LoadPlugin(pluginId);
      LoadableKept(if db.GetPluginByID(pluginId).Ok? then LoadDir(pluginId) else "");
      LoadedKept();
    }

    /** A load that could succeed still can after other loads, which add
        entries and write at most one plugin.so file. */
    twostate lemma LoadableKept(soDir: string)
      requires old(pluginsDir) == pluginsDir && old(db.plugins) == db.plugins && old(db.nextId) == db.nextId
      requires old(fs.dirs) == fs.dirs && old(fs.files).Keys <= fs.files.Keys
      requires forall p :: p in fs.files && p != SoPath(soDir) ==> p in old(fs.files) && fs.files[p] == old(fs.files)[p]
      ensures forall k :: old(LoadSucceeds(k)) && k !in plugins ==> LoadSucceeds(k)
    {
      forall k | old(LoadSucceeds(k)) && k !in plugins
        ensures LoadSucceeds(k)
      {
        ManifestIsNotSo(LoadDir(k), soDir);
      }
    }

    /** An entry loaded from its record stays so while the entry and the
        table stay as they are. */
    twostate lemma LoadedKept()
      requires old(pluginsDir) == pluginsDir && old(db.plugins) == db.plugins && old(db.nextId) == db.nextId
      requires forall k :: k in old(plugins) ==> k in plugins && plugins[k] == old(plugins)[k]
      ensures forall k :: old(LoadedFromRecord(k)) ==> LoadedFromRecord(k)
    {
    }

    /** The entries of `before` are still loaded, with the same instances. */
    ghost predicate Keeps(before: map<string, Instance>)
      reads this`plugins
    {
      forall k :: k in before ==> k in plugins && plugins[k] == before[k]
    }

    /** Every id loaded since `before` is among `ids` and was loaded from
        its record. */
    ghost predicate NewFrom(before: map<string, Instance>, ids: seq<string>)
      reads this`plugins, this`pluginsDir, db`plugins, db`nextId
    {
      forall k :: k in plugins && k !in before ==> k in ids && LoadedFromRecord(k)
    }

    /** Every id both in `ready` and among `ids` is loaded. */
    ghost predicate LoadedAmong(ready: set<string>, ids: seq<string>)
      reads this`plugins
    {
      forall k :: k in ready && k in ids ==> k in plugins
    }

    /** One iteration of LoadAll's loop: an installed row is loaded, and
        its id joins the ones tried so far. */
    method LoadRow(p: Plugin, ghost ready: set<string>, ghost before: map<string, Instance>, ghost ids: seq<string>)
      requires Valid() && ReadyLoadable(ready)
      requires Keeps(before) && NewFrom(before, ids) && LoadedAmong(ready, ids)
      modifies this`plugins, fs`files, db`synced, tools.objects
      ensures Valid() && ReadyLoadable(ready) && Keeps(before)
      ensures NewFrom(before, ids + (if p.isInstalled then [p.pluginId] else []))
      ensures LoadedAmong(ready, ids + (if p.isInstalled then [p.pluginId] else []))
    {
      if p.isInstalled {
        var err := TryLoad(p.pluginId, ready);
        assert NewFrom(before, ids + [p.pluginId]) by {
          assert forall k :: k in plugins && k !in before && k != p.pluginId ==> old(NewFrom(before, ids)) && k in old(plugins);
        }
      }
    }

    /** The loop of LoadAll over the listed rows, in order: every installed
        row among `ready` (ids whose load would succeed) is loaded at the
        end, whatever the loads before and after it did. */
    method LoadRows(rows: seq<Plugin>, ghost ready: set<string>)
      requires Valid()
      requires ReadyLoadable(ready)
      modifies this`plugins, fs`files, db`synced, tools.objects
      ensures Valid()
      ensures forall k :: k in ready && k in InstalledIds(rows) ==> k in plugins
      ensures forall k :: k in old(plugins) ==> k in plugins && plugins[k] == old(plugins)[k]
      ensures forall k :: k in plugins && k !in old(plugins) ==> k in InstalledIds(rows) && LoadedFromRecord(k)
    {
      var i := 0;
      while i < |rows|
        invariant 0 <= i <= |rows|
        invariant Valid() && ReadyLoadable(ready)
        invariant Keeps(old(plugins))
        invariant NewFrom(old(plugins), InstalledIds(rows[..i]))
        invariant LoadedAmong(ready, InstalledIds(rows[..i]))
      {
        LoadRow(rows[i], ready, old(plugins), InstalledIds(rows[..i]));
        assert rows[..i + 1][..i] == rows[..i];
        i := i + 1;
      }
      assert rows[..|rows|] == rows;
    }

    /** LoadAll: every installed plugin that can be loaded is loaded, one
        failing load does not stop the others, nothing already loaded is
        replaced, and only installed records are loaded. */
    method LoadAll() returns (err: Option<Error>)
      requires Valid()
      modifies this`plugins, fs`files, db`synced, tools.objects
      ensures Valid()
      ensures err == None
      ensures forall k :: k in db.plugins && db.plugins[k].isInstalled && old(LoadSucceeds(k)) ==> k in plugins
      ensures forall k :: k in old(plugins) ==> k in plugins && plugins[k] == old(plugins)[k]
      ensures forall k :: k in plugins && k !in old(plugins) ==>
                k in db.plugins && db.plugins[k].isInstalled && LoadedFromRecord(k)
    {
      ghost var ready := set k | k in db.plugins && db.plugins[k].isInstalled && LoadSucceeds(k);
      assert ReadyLoadable(ready);
      var e, rows := db.ListPlugins();
      InstalledIdsOfListing(rows, db.plugins);
      LoadRows(rows, ready);
      err := None;
    }
  }
}
