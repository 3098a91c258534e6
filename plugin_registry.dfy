/** The persisted plugin registry of models/plugin/plugin.go: the `plugin`
    table, keyed by its UNIQUE `plugin_id` column, with an auto-increment
    primary key. The same database object records which model lists the
    engine's Sync2 has created tables for. */
module PluginRegistry {
  import opened Wrappers
  import opened Errors
  import opened PluginTypes

  /** One row of the `plugin` table (the created/updated timestamps are
      not modelled). */
  datatype Plugin = Plugin(
    id: int,
    pluginId: string,
    name: string,
    version: string,
    description: string,
    author: string,
    homepage: string,
    license: string,
    isEnabled: bool,
    isInstalled: bool,
    installPath: string,
    config: string)

  const UniqueViolation := Failure("UNIQUE constraint failed: plugin.plugin_id")

  class Database {
    /** The `plugin` table by `plugin_id`. */
    var plugins: map<string, Plugin>
    /** The next auto-increment value of `plugin.id`. */
    var nextId: int
    /** The model lists Sync2 has created tables for, in order. */
    var synced: seq<seq<ModelDescriptor>>
    /** How Sync2 answers for a list of models. */
    const syncOutcome: seq<ModelDescriptor> -> Option<Error>
    /** The `plugin_id` of the row a query without conditions returns
        first; which row that is, is the engine's choice. */
    const scanFirst: map<string, Plugin> -> string

    /** Rows are stored under their own `plugin_id`; `id` is a positive
        primary key below the auto-increment counter; a query without
        conditions on a non-empty table returns one of its rows. */
    ghost predicate Valid()
      reads this`plugins, this`nextId
    {
      && nextId >= 1
      && ScanPicksRow()
      && (forall k :: k in plugins ==> plugins[k].pluginId == k && 0 < plugins[k].id < nextId)
      && (forall k1, k2 :: k1 in plugins && k2 in plugins && plugins[k1].id == plugins[k2].id ==> k1 == k2)
    }

    constructor (syncOutcome0: seq<ModelDescriptor> -> Option<Error>, scanFirst0: map<string, Plugin> -> string)
      requires forall m: map<string, Plugin> :: m != map[] ==> scanFirst0(m) in m
      ensures Valid() && plugins == map[] && nextId == 1 && synced == []
      ensures syncOutcome == syncOutcome0 && scanFirst == scanFirst0
    {
      plugins, nextId, synced := map[], 1, [];
      syncOutcome, scanFirst := syncOutcome0, scanFirst0;
    }

    /** A query without conditions on a non-empty table returns one of
        its rows. */
    ghost predicate ScanPicksRow() {
      forall m: map<string, Plugin> :: m != map[] ==> scanFirst(m) in m
    }

    /** The `plugin_id` of the row `Get(&Plugin{PluginID: pluginId})`
        finds in `table`. xorm builds the conditions from the probe's
        non-zero fields, so the empty id leaves none and matches the first
        row. */
    function FindKey(table: map<string, Plugin>, pluginId: string): (k: Option<string>)
      requires ScanPicksRow()
      ensures k.Some? ==> k.value in table
    {
      if pluginId != "" then (if pluginId in table then Some(pluginId) else None)
      else if table == map[] then None
      else Some(scanFirst(table))
    }

    /** GetPluginByID over a given table: the row with that `plugin_id`;
        the empty id finds whichever row comes first. */
    function Lookup(table: map<string, Plugin>, pluginId: string): (r: Result<Plugin>)
      requires ScanPicksRow()
      ensures pluginId != "" ==> (r.Ok? <==> pluginId in table)
      ensures pluginId != "" && r.Ok? ==> r.value == table[pluginId]
      ensures pluginId == "" ==> (r.Ok? <==> table != map[])
      ensures r.Ok? ==> r.value in table.Values
      ensures r.Err? ==> r.error == PluginNotExist(pluginId) && IsErrPluginNotExist(r.error)
    {
      match FindKey(table, pluginId)
      case None => Err(PluginNotExist(pluginId))
      case Some(k) => Ok(table[k])
    }

    /** GetPluginByID: the lookup in the current table; on a valid table a
        found row carries the requested id, unless that id is empty. */
    function GetPluginByID(pluginId: string): (r: Result<Plugin>)
      requires Valid()
      reads this`plugins, this`nextId
      ensures r == Lookup(plugins, pluginId)
      ensures r.Ok? ==> r.value.pluginId in plugins && plugins[r.value.pluginId] == r.value
      ensures pluginId != "" && r.Ok? ==> r.value.pluginId == pluginId
    {
      Lookup(plugins, pluginId)
    }

    /** The `plugin_id` of the row whose primary key is `id`, if any. */
    function KeyOfId(id: int): (k: Option<string>)
      requires Valid()
      reads this`plugins, this`nextId
      ensures k.Some? <==> exists k' :: k' in plugins && plugins[k'].id == id
      ensures k.Some? ==> k.value in plugins && plugins[k.value].id == id
    {
      if exists k' :: k' in plugins && plugins[k'].id == id then
        var k' :| k' in plugins && plugins[k'].id == id; Some(k')
      else None
    }

    /** CreatePlugin: an INSERT that assigns the next primary key and fails
        on a `plugin_id` that is already present. */
    method CreatePlugin(p: Plugin) returns (err: Option<Error>, id: int)
      requires Valid()
      modifies this`plugins, this`nextId
      ensures Valid()
      ensures p.pluginId in old(plugins) ==>
                err == Some(UniqueViolation) && plugins == old(plugins) && nextId == old(nextId)
      ensures p.pluginId !in old(plugins) ==>
                err == None && id == old(nextId) && nextId == old(nextId) + 1 &&
                plugins == old(plugins)[p.pluginId := p.(id := id)]
    {
      id := 0;
      if p.pluginId in plugins {
        return Some(UniqueViolation), id;
      }
      id := nextId;
      plugins := plugins[p.pluginId := p.(id := id)];
      nextId := nextId + 1;
      err := None;
    }

    /** UpdatePlugin: every column of the row whose primary key is `p.id`
        is overwritten with `p`; no row matching is not an error. */
    method UpdatePlugin(p: Plugin) returns (err: Option<Error>)
      requires Valid()
      modifies this`plugins
      ensures Valid()
      ensures old(KeyOfId(p.id)).None? ==> err == None && plugins == old(plugins)
      ensures old(KeyOfId(p.id)).Some? && p.pluginId != old(KeyOfId(p.id)).value && p.pluginId in old(plugins) ==>
                err == Some(UniqueViolation) && plugins == old(plugins)
      ensures old(KeyOfId(p.id)).Some? && (p.pluginId == old(KeyOfId(p.id)).value || p.pluginId !in old(plugins)) ==>
                err == None && plugins == (old(plugins) - {old(KeyOfId(p.id)).value})[p.pluginId := p]
      ensures forall k :: k in old(plugins) && old(plugins)[k].id != p.id ==> k in plugins && plugins[k] == old(plugins)[k]
    {
      var key := KeyOfId(p.id);
      if key.None? {
        return None;
      }
      if p.pluginId != key.value && p.pluginId in plugins {
        return Some(UniqueViolation);
      }
      assert 0 < p.id < nextId;
      ghost var before := plugins;
      plugins := (plugins - {key.value})[p.pluginId := p];
      assert forall k :: k in plugins && k != p.pluginId ==> k in before && plugins[k] == before[k] && k != key.value;
      err := None;
    }

    /** DeletePlugin: removes the row with that `plugin_id`, if any. */
    method DeletePlugin(pluginId: string) returns (err: Option<Error>)
      requires Valid()
      modifies this`plugins
      ensures Valid()
      ensures err == None && plugins == old(plugins) - {pluginId}
    {
      plugins := plugins - {pluginId};
      err := None;
    }

    /** ListPlugins: every row, installed or not, each once, in no
        particular order. */
    method ListPlugins() returns (err: Option<Error>, rows: seq<Plugin>)
      requires Valid()
      ensures err == None
      ensures |rows| == |plugins|
      ensures forall i :: 0 <= i < |rows| ==> rows[i].pluginId in plugins && plugins[rows[i].pluginId] == rows[i]
      ensures forall k :: k in plugins ==> plugins[k] in rows
      ensures forall i, j :: 0 <= i < j < |rows| ==> rows[i].pluginId != rows[j].pluginId
    {
      rows := [];
      var todo := plugins.Keys;
      while todo != {}
        invariant todo <= plugins.Keys
        invariant |rows| + |todo| == |plugins|
        invariant forall i :: 0 <= i < |rows| ==> rows[i].pluginId in plugins - todo && plugins[rows[i].pluginId] == rows[i]
        invariant forall k :: k in plugins && k !in todo ==> plugins[k] in rows
        invariant forall i, j :: 0 <= i < j < |rows| ==> rows[i].pluginId != rows[j].pluginId
        decreases |todo|
      {
        var k :| k in todo;
        rows := rows + [plugins[k]];
        todo := todo - {k};
      }
      err := None;
    }

    /** ListEnabledPlugins: exactly the rows with `is_enabled` set, each
        once. */
    method ListEnabledPlugins() returns (err: Option<Error>, rows: seq<Plugin>)
      requires Valid()
      ensures err == None
      ensures forall i :: 0 <= i < |rows| ==> rows[i].pluginId in plugins && plugins[rows[i].pluginId] == rows[i] && rows[i].isEnabled
      ensures forall k :: k in plugins && plugins[k].isEnabled ==> plugins[k] in rows
      ensures forall i, j :: 0 <= i < j < |rows| ==> rows[i].pluginId != rows[j].pluginId
    {
      rows := [];
      var todo := plugins.Keys;
      while todo != {}
        invariant todo <= plugins.Keys
        invariant forall i :: 0 <= i < |rows| ==> rows[i].pluginId in plugins - todo && plugins[rows[i].pluginId] == rows[i] && rows[i].isEnabled
        invariant forall k :: k in plugins && k !in todo && plugins[k].isEnabled ==> plugins[k] in rows
        invariant forall i, j :: 0 <= i < j < |rows| ==> rows[i].pluginId != rows[j].pluginId
        decreases |todo|
      {
        var k :| k in todo;
        if plugins[k].isEnabled {
          rows := rows + [plugins[k]];
        }
        todo := todo - {k};
      }
      err := None;
    }

    /** The engine's Sync2 over a list of models. */
    method Sync(models: seq<ModelDescriptor>) returns (err: Option<Error>)
      modifies this`synced
      ensures err == syncOutcome(models)
      ensures err.None? ==> synced == old(synced) + [models]
      ensures err.Some? ==> synced == old(synced)
    {
      err := syncOutcome(models);
      if err.None? {
        synced := synced + [models];
      }
    }
  }

  /** GetPluginByID("") on a table with rows but none under the empty id
      still succeeds, with a row stored under some other id. */
  lemma EmptyIdFindsFirstRow(db: Database)
    requires db.Valid() && db.plugins != map[] && "" !in db.plugins
    ensures db.GetPluginByID("").Ok? && db.GetPluginByID("").value.pluginId != ""
  {
  }
}
