/** What the loader gets from a compiled plugin: a value satisfying the
    `IPlugin` interface. The example plugin is the one concrete instance;
    every other plugin is described by the results its hooks return.
    The Go toolchain (the `go build` subprocess, plugin.Open and Lookup)
    and the JSON decoder are oracles. */
module Instances {
  import opened Wrappers
  import opened Errors
  import opened PluginTypes
  import opened LicenseManagerExample
  import opened Files

  /** The hook results of a plugin whose code is not part of the model. */
  datatype Hooks = Hooks(
    info: PluginInfo,
    init: Option<Error>,
    enable: Option<Error>,
    disable: Option<Error>,
    uninstall: Option<Error>,
    models: seq<ModelDescriptor>)

  datatype Instance =
    | LicenseManager(plugin: LicenseManagerPlugin)
    | External(hooks: Hooks)

  /** The objects an instance's hooks may change. */
  function Objects(inst: Instance): set<object> {
    if inst.LicenseManager? then {inst.plugin} else {}
  }

  function InfoOf(inst: Instance): (info: PluginInfo)
    ensures inst.LicenseManager? ==> info.id == PluginId
  {
    match inst
    case LicenseManager(p) => p.Info()
    case External(h) => h.info
  }

  /** RegisterModels */
  function ModelsOf(inst: Instance): (models: seq<ModelDescriptor>)
    ensures inst.LicenseManager? ==> models == []
    ensures inst.External? ==> models == inst.hooks.models
  {
    match inst
    case LicenseManager(p) => p.RegisterModels()
    case External(h) => h.models
  }

  /** What each hook returns. The example plugin's hooks never fail. */
  function InitResult(inst: Instance): (r: Option<Error>)
    ensures inst.LicenseManager? ==> r == None
  {
    if inst.External? then inst.hooks.init else None
  }

  function EnableResult(inst: Instance): (r: Option<Error>)
    ensures inst.LicenseManager? ==> r == None
  {
    if inst.External? then inst.hooks.enable else None
  }

  function DisableResult(inst: Instance): (r: Option<Error>)
    ensures inst.LicenseManager? ==> r == None
  {
    if inst.External? then inst.hooks.disable else None
  }

  function UninstallResult(inst: Instance): (r: Option<Error>)
    ensures inst.LicenseManager? ==> r == None
  {
    if inst.External? then inst.hooks.uninstall else None
  }

  /** Calls `Init` on the instance. */
  method Init(inst: Instance) returns (err: Option<Error>)
    modifies Objects(inst)
    ensures err == InitResult(inst)
    ensures inst.LicenseManager? ==> inst.plugin.config == DefaultConfig
  {
    match inst
    case LicenseManager(p) =>
      err := p.Init();
    case External(h) =>
      err := h.init;
  }

  method Enable(inst: Instance) returns (err: Option<Error>)
    ensures err == EnableResult(inst)
  {
    match inst
    case LicenseManager(p) =>
      err := p.Enable();
    case External(h) =>
      err := h.enable;
  }

  method Disable(inst: Instance) returns (err: Option<Error>)
    ensures err == DisableResult(inst)
  {
    match inst
    case LicenseManager(p) =>
      err := p.Disable();
    case External(h) =>
      err := h.disable;
  }

  method Uninstall(inst: Instance) returns (err: Option<Error>)
    ensures err == UninstallResult(inst)
  {
    match inst
    case LicenseManager(p) =>
      err := p.Uninstall();
    case External(h) =>
      err := h.uninstall;
  }

  /** `go build -buildmode=plugin -o plugin.so .` in a plugin directory. */
  datatype BuildResult = Built(so: Bytes) | BuildFails(cause: string, output: string)

  /** plugin.Open on a .so path, then Lookup("Plugin") and the assertion
      to the plugin interface. */
  datatype Symbol =
    | OpenFails(openReason: string)
    | LookupFails(lookupReason: string)
    | NotAPlugin
    | Exported(inst: Instance)

  datatype Toolchain = Toolchain(
    /** json.Unmarshal of a plugin.json */
    parse: Bytes -> Result<PluginMetadata>,
    /** the build subprocess, by plugin directory */
    build: string -> BuildResult,
    /** the dynamic loader, by .so path */
    open: string -> Symbol,
    /** every example-plugin object the loader can hand out */
    objects: set<LicenseManagerPlugin>)
  {
    ghost predicate Valid() {
      forall p :: open(p).Exported? && open(p).inst.LicenseManager? ==> open(p).inst.plugin in objects
    }
  }
}
