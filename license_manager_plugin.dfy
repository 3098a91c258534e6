/** The example plugin of plugins/examples/license-manager/main.go: a
    plugin object whose only state is its config map. */
module LicenseManagerExample {
  import opened Wrappers
  import opened Errors
  import opened PluginTypes

  /** The config `Init` installs. */
  const DefaultConfig: Config := map[
    "max_devices_per_user" := IntValue(10),
    "default_expiry_days" := IntValue(365),
    "allow_permanent_license" := BoolValue(true)]

  const PluginId := "license-manager"

  class LicenseManagerPlugin {
    var config: Config

    /** The exported zero value `var Plugin LicenseManagerPlugin`: a nil
        config map, which reads as empty. */
    constructor ()
      ensures config == map[]
    {
      config := map[];
    }

    /** Info: a fixed description of the plugin. */
    function Info(): (info: PluginInfo)
      ensures info.id == PluginId && info.version == "1.0.0"
      ensures info.hasRoutes && info.hasAPI && info.hasModels && info.hasTemplates
      ensures info.permissions == ["database.read", "database.write", "api.create", "ui.modify"]
    {
      PluginInfo(
        id := PluginId,
        name := "授权管理",
        version := "1.0.0",
        description := "设备授权管理插件",
        author := "Kiro Team",
        homepage := "https://github.com/gitea/license-manager-plugin",
        license := "MIT",
        giteaVersion := "",
        dependencies := [],
        permissions := ["database.read", "database.write", "api.create", "ui.modify"],
        hasRoutes := true,
        hasAPI := true,
        hasModels := true,
        hasTemplates := true)
    }

    /** Init replaces the whole config with the three defaults. */
    method Init() returns (err: Option<Error>)
      modifies this
      ensures err == None
      ensures config == DefaultConfig
    {
      config := DefaultConfig;
      err := None;
    }

    /** RegisterModels declares no model: the device model is commented
        out in the source. */
    function RegisterModels(): (models: seq<ModelDescriptor>)
      ensures |models| == 0
    {
      []
    }

    method Enable() returns (err: Option<Error>)
      ensures err == None
    {
      err := None;
    }

    method Disable() returns (err: Option<Error>)
      ensures err == None
    {
      err := None;
    }

    method Uninstall() returns (err: Option<Error>)
      ensures err == None
    {
      err := None;
    }

    /** GetConfig hands out the current config. */
    function GetConfig(): (c: Config)
      reads this
      ensures c == config
    {
      config
    }

    /** SetConfig replaces the config wholesale and never fails. */
    method SetConfig(c: Config) returns (err: Option<Error>)
      modifies this
      ensures err == None
      ensures config == c
    {
      config := c;
      err := None;
    }
  }

  /** A config set through SetConfig is what the next GetConfig returns,
      whatever was there before. */
  method SetThenGet(p: LicenseManagerPlugin, c: Config) returns (got: Config)
    modifies p
    ensures got == c
  {
    var err := p.SetConfig(c);
    got := p.GetConfig();
  }

  /** Init after any SetConfig restores exactly the three defaults. */
  method InitAfterSetConfig(p: LicenseManagerPlugin, c: Config) returns (got: Config)
    modifies p
    ensures got == DefaultConfig
    ensures got.Keys == {"max_devices_per_user", "default_expiry_days", "allow_permanent_license"}
  {
    var err := p.SetConfig(c);
    err := p.Init();
    got := p.GetConfig();
  }
}
