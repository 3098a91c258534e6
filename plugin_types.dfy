/** The value types of models/plugin/interface.go: what a plugin reports
    about itself and what its plugin.json manifest holds. */
module PluginTypes {

  /** PluginInfo (ConfigSchema is not modelled). */
  datatype PluginInfo = PluginInfo(
    id: string,
    name: string,
    version: string,
    description: string,
    author: string,
    homepage: string,
    license: string,
    giteaVersion: string,
    dependencies: seq<string>,
    permissions: seq<string>,
    hasRoutes: bool,
    hasAPI: bool,
    hasModels: bool,
    hasTemplates: bool)

  /** PluginMetadata, parsed from plugin.json (ConfigSchema is not
      modelled). */
  datatype PluginMetadata = PluginMetadata(
    id: string,
    name: string,
    version: string,
    description: string,
    author: string,
    homepage: string,
    license: string,
    giteaVersion: string,
    dependencies: seq<string>,
    entryPoint: string,
    hooks: map<string, bool>,
    permissions: seq<string>)

  /** `metadata.Hooks[name]`: a missing key reads as false. */
  predicate HookOn(m: PluginMetadata, name: string) {
    name in m.hooks && m.hooks[name]
  }

  /** The dynamically typed values of a plugin's config map. */
  datatype ConfigValue = IntValue(i: int) | BoolValue(b: bool) | StringValue(s: string)

  type Config = map<string, ConfigValue>

  /** One model struct handed to the database engine's Sync2, by table. */
  datatype ModelDescriptor = ModelDescriptor(table: string)
}
