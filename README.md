# Plugin lifecycle and device licensing, modelled in Dafny

This project models two parts of a Gitea fork that has a plugin system.

**Plugin lifecycle.** `PluginLoader` keeps the loaded plugin instances in a map keyed by plugin id. `PluginManager` installs plugins from a marketplace, uninstalls them, and enables or disables them. Its state is the persisted `plugin` table, the loader's map and the filesystem. During installation, `unzip` extracts the downloaded archive behind a zip-slip guard. The example licence-manager plugin is modelled as a concrete plugin object.

**Device licensing.** This part covers:
- the `authorized_device` record, with its validity test;
- its user-scoped lookups and searches;
- the device services: create, verify, toggle and update;
- licence-key generation and formatting;
- the message chain of the `Verify` API handler;
- the error types of both packages and their messages.

The model is split into modules as follows:

| module | file | models |
|---|---|---|
| `Strings`, `Wrappers` | strings.dfy, wrappers.dfy | `strings.HasPrefix`, `strings.Contains`, the `%d` verb, `Option` |
| `Errors` | errors.dfy | Go `error` values: the typed errors, `%w` wrapping, `*os.PathError`, and the `Error()` strings |
| `Paths` | paths.dfy | `filepath.Split`/`Clean`/`Join`/`Dir`, lexically, over components; the zip-slip guard |
| `Files` | files.dfy | the filesystem as a class: a path-to-bytes map, a directory set and fault sets |
| `Archive` | archive.dfy | what `unzip` does to the filesystem, as a function of the entries |
| `PluginTypes`, `PluginRegistry` | plugin_types.dfy, plugin_registry.dfy | `PluginInfo`/`PluginMetadata`; the `plugin` table as a class |
| `LicenseManagerExample`, `Instances` | license_manager_plugin.dfy, instances.dfy | the example plugin object; plugin instances and the Go toolchain as oracles |
| `Loader` | loader.dfy | `PluginLoader` |
| `Manager` | manager.dfy | `PluginManager`, `downloadFile`, `unzip`, `InitManager` |
| `Devices` | devices.dfy | `AuthorizedDevice` and the device table |
| `LicenseKeys` | license_key.dfy | `GenerateLicenseKey` over a given digest; `FormatLicenseKey` |
| `DeviceService` | device_service.dfy | `CreateDevice`, `VerifyLicense`, `ToggleDevice`, `UpdateDevice` |
| `VerifyHandler` | verify_handler.dfy | the response built by `Verify` |

Foreign pieces become explicit inputs:
- **Toolchain.** The Go toolchain (`go build`, `plugin.Open`, `Lookup`, the interface assertion) and the JSON decoder are fields of `Instances.Toolchain`.
- **Network and archives.** HTTP, the zip reader and the marketplace list decoder are fields of `Manager.Marketplace`.
- **Database.** The engine's `Sync2` is `PluginRegistry.Database.syncOutcome`.
- **Filesystem faults.** The paths that cannot be created, made as directories or removed are the fault sets of `Files.FileSystem`.
- **Clock.** The clock is `Devices.Clock`: the present instant in nanoseconds, plus `AddDate` as a function from days to Unix seconds.
- **Hashing and randomness.** The SHA-256 digest and the random device id are parameters.

Two details of the code that the model follows:
- **`UnloadPlugin`:** when the plugin's `Uninstall` hook fails, `UnloadPlugin` returns an error and keeps the map entry (services/plugin/loader.go:178-180).
- **The temporary archive:** it is removed only once the download has succeeded. The deferred `os.Remove` is registered after `downloadFile` returns (services/plugin/manager.go:75-78), so a failed download leaves its partial file behind.

Three behaviours of the code are stated as proved properties rather than changed:
- **Requested id versus manifest id.** `Install` saves the record under the manifest's id, but loads under the requested id. When the two differ and no record with the requested id exists, the record is saved and the load fails with the wrapped `ErrPluginNotExist` of the requested id. When a record with the requested id exists but is not marked installed, `Install` goes ahead, and the load then uses that stale record and its install path (`Manager.PluginManager.Install`, through `Manager.PluginManager.Saved`).
- **The empty id.** `GetPluginByID` builds its query from a struct whose only set field is `PluginID`, and xorm leaves zero-valued fields out of the condition. So `GetPluginByID("")` matches whichever row the database scans first, and fails only on an empty table (`PluginRegistry.Database.Lookup`, `PluginRegistry.EmptyIdFindsFirstRow`). `Install`, `Enable` and `Disable` inherit this: for the empty id they act on that first row. `Uninstall("")` removes the first row's install directory (services/plugin/manager.go:133), but then deletes the record by the requested id, `""` (services/plugin/manager.go:138). So that row's record survives while its files are gone (`Manager.PluginManager.Uninstall`).
- **A destination made only of "..".** The zip-slip guard compares lexically cleaned paths. With a destination such as `..` it admits `../evil`, which resolves to `../../evil` (`Paths.ParentOnlyDestAdmitsClimb`). For any destination that is rooted, or that has a component other than `..`, an accepted entry never climbs out (`Paths.SafeEntryHasNoParentStep`).

## Model

| member | source | states |
|---|---|---|
| Errors.Error.NotExistSubject | models/license/error.go:23-34 | The not-exist message reports exactly one subject, in priority order: the id when it is positive, else a non-empty machine code, else a non-empty licence key, else nothing. |
| Errors.Error.AlreadyExistSubject | models/license/error.go:48-56 | The already-exists message reports a non-empty machine code first, else a non-empty licence key, else nothing; never an id. |
| Errors.PluginErrorMessagesCarryId | models/plugin/error.go:13-15 | The two plugin error messages are told apart by their fixed prefixes. Each carries the plugin id verbatim, between the prefix and the closing bracket. |
| Errors.PluginErrorMessageInjective | models/plugin/error.go:28-30 | Two plugin errors with the same message are the same error. |
| Errors.SuffixInjective | models/license/error.go:23-34 | The bracketed tail of a device error message determines which field it reports and that field's value. |
| Errors.DeviceNotExistMessageInjective | models/license/error.go:23-34 | Two `ErrDeviceNotExist` values with equal messages report the same subject. |
| Errors.DeviceAlreadyExistMessageInjective | models/license/error.go:48-56 | Two `ErrDeviceAlreadyExist` values with equal messages report the same subject. |
| Errors.TypeTestsExclusive | models/plugin/error.go:18-21 | The `IsErr...` tests are exact type tests and hold for no two error kinds at once. A wrapped error satisfies none of them. |
| Strings.NatToStringRoundTrip | models/license/error.go:24-26 | The `%d` rendering of an id can be read back as that id. |
| Strings.NatToStringInjective | models/license/error.go:24-26 | Distinct ids render differently. |
| Paths.CleanIdempotent | services/plugin/manager.go:271 | `Clean` is idempotent and keeps the root flag and the components. |
| Paths.JoinChild | services/plugin/manager.go:268 | Joining a plain name onto a directory appends exactly that component to the directory's cleaned components. |
| Paths.SafeEntryCharacterisation | services/plugin/manager.go:268-273 | The guard `HasPrefix(Join(dest, name), Clean(dest) + "/")` holds exactly when the cleaned destination has a component and the joined path's components strictly extend it, under the same root. |
| Paths.SafeEntryInside | services/plugin/manager.go:268-273 | An entry is accepted if and only if its joined path lies strictly inside `dest`. |
| Paths.SelfEntriesRejected | services/plugin/manager.go:268-273 | The names "" and "." are rejected for every destination. |
| Paths.SafeEntryHasNoParentStep | services/plugin/manager.go:268-273 | For a destination that is rooted or has a component other than "..", no component of an accepted path past the destination is "..". |
| Paths.ParentOnlyDestAdmitsClimb | services/plugin/manager.go:268-273 | With destination "..", the guard accepts "../evil", whose cleaned form is `../../evil`. |
| Paths.SafeEntryParentWithin | services/plugin/manager.go:280 | The parent directory that `unzip` creates for an accepted file entry lies within `dest`. |
| Paths.DirOfClean | services/plugin/manager.go:280 | `filepath.Dir` of a clean path with components drops exactly the last component. |
| Paths.JoinThree | services/plugin/manager.go:74 | `Join(base, sub, leaf)` with plain `sub` and `leaf` cleans to `base`'s components followed by those two. |
| Files.FileSystem.MkdirAll | services/plugin/manager.go:48 | An existing directory is not an error and changes nothing, whatever the host would refuse; a directory holding a recorded path, or a root, counts as existing. Otherwise a file at or above the path gives ENOTDIR, and a path the host refuses gives EPERM, each with nothing changed. On success the path is a recorded directory. |
| Files.FileSystem.Create | services/plugin/manager.go:249 | An existing directory gives EISDIR. A parent with a file at or above it gives ENOTDIR, and a missing parent gives ENOENT. Then a path the host refuses gives EPERM. Any failure changes nothing. Success leaves the file present and empty, and holds exactly when none of these applies. |
| Files.FileSystem.RemoveAll | services/plugin/manager.go:133 | "" is a silent no-op, and a path ending in "." is refused with nothing changed. A path with nothing at or below it is not an error, whatever the host would refuse. Removal succeeds exactly when none of these refusals applies, or when nothing is there. Success removes the path's whole subtree. A failure may already have removed part of the subtree, but keeps the path itself, removes nothing outside it and changes no file's contents. |
| Files.FileSystem.Remove | services/plugin/manager.go:78 | A missing path gives ENOENT. A path that cannot be removed reports a `remove` error and changes nothing. Otherwise the file is gone afterwards. |
| Archive.EntryError | services/plugin/manager.go:268-301 | An unsafe name gives "illegal file path: " + the joined path. A safe directory entry never fails. A file entry fails when a directory stands at its path, and when a file stands at or above its parent directory. An entry that does not fail was safe, and was a directory or had readable contents. |
| Archive.EntryConfined | services/plugin/manager.go:268-301 | One entry writes at most the file it names, strictly inside `dest`. It creates only that path or its parent, within `dest`, and removes nothing. |
| Archive.ExtractConfined | services/plugin/manager.go:267-302 | However many entries are extracted, and however extraction stops, every changed or new file is strictly inside `dest`, every new directory is within it, and nothing is lost. |
| Archive.ExtractSucceeds | services/plugin/manager.go:267-304 | Extraction succeeds exactly when every entry does, each in the tree the entries before it leave. A successful extraction leaves the tree of all the entries' effects. |
| Archive.ExtractStopsAt | services/plugin/manager.go:267-302 | When entry k is the first to fail in the tree the entries before it leave, its error is the result. The entries after it have no effect, while those before it keep theirs. |
| Archive.UnsafeEntryStops | services/plugin/manager.go:268-273 | An unsafe first entry stops extraction with the illegal-path error and writes nothing. |
| PluginRegistry.Database.Lookup | models/plugin/plugin.go:41-51 | A non-empty id finds exactly the row with that `plugin_id`. The empty id, which the query leaves out as a zero value, finds a row exactly when the table has one. Any row found is a row of the table, and a miss is `ErrPluginNotExist{id}`. |
| PluginRegistry.Database.GetPluginByID | models/plugin/plugin.go:41-51 | The lookup in the current table. The row found is stored under its own `plugin_id`, and for a non-empty id that is the id asked for. |
| PluginRegistry.EmptyIdFindsFirstRow | models/plugin/plugin.go:42-43 | On a table with rows, none of them under the empty id, `GetPluginByID("")` still succeeds, with another plugin's record. |
| PluginRegistry.Database.CreatePlugin | models/plugin/plugin.go:54-57 | Fails on a `plugin_id` already present (the UNIQUE column, models/plugin/plugin.go:16) and changes nothing. Otherwise it inserts the row under the next primary key. |
| PluginRegistry.Database.UpdatePlugin | models/plugin/plugin.go:60-63 | Overwrites every column of the row with the same primary key. No matching row is not an error. No other row changes. |
| PluginRegistry.Database.DeletePlugin | models/plugin/plugin.go:66-69 | Removes the row with that `plugin_id` and keeps all others. |
| PluginRegistry.Database.ListPlugins | models/plugin/plugin.go:72-76 | Every row, installed or not, each exactly once. |
| PluginRegistry.Database.ListEnabledPlugins | models/plugin/plugin.go:79-83 | Exactly the rows with `is_enabled` set, each once. |
| LicenseManagerExample.LicenseManagerPlugin.Info | plugins/examples/license-manager/main.go:22-42 | Id `license-manager`, version `1.0.0`, the four permissions, and all four `Has*` flags true. |
| LicenseManagerExample.LicenseManagerPlugin.Init | plugins/examples/license-manager/main.go:45-57 | Always succeeds, and replaces the config with exactly the three defaults. |
| LicenseManagerExample.LicenseManagerPlugin.RegisterModels | plugins/examples/license-manager/main.go:88-92 | Declares no model. |
| LicenseManagerExample.LicenseManagerPlugin.Enable | plugins/examples/license-manager/main.go:110-113 | Always succeeds and changes nothing. |
| LicenseManagerExample.LicenseManagerPlugin.Disable | plugins/examples/license-manager/main.go:116-119 | Always succeeds and changes nothing. |
| LicenseManagerExample.LicenseManagerPlugin.Uninstall | plugins/examples/license-manager/main.go:122-126 | Always succeeds and changes nothing. |
| LicenseManagerExample.LicenseManagerPlugin.SetConfig | plugins/examples/license-manager/main.go:134-137 | Always succeeds and replaces the config wholesale. |
| LicenseManagerExample.SetThenGet | plugins/examples/license-manager/main.go:129-137 | A config set through `SetConfig` is what the next `GetConfig` returns. |
| LicenseManagerExample.InitAfterSetConfig | plugins/examples/license-manager/main.go:45-57 | `Init` after any `SetConfig` leaves exactly the three default keys. |
| Instances.ModelsOf | plugins/examples/license-manager/main.go:88-92 | The example plugin registers no models; any other plugin registers its declared list. |
| Instances.Init | services/plugin/loader.go:128 | Calling `Init` gives the hook's result. On the example plugin it installs the default config. |
| Loader.InstalledIdsOfListing | services/plugin/loader.go:59-68 | Over a complete listing, the ids LoadAll attempts are exactly the installed rows' ids, each once. |
| Loader.PluginFilesInDir | services/plugin/loader.go:102 | `plugin.json` and `plugin.so` sit directly in the plugin directory and are different paths (also services/plugin/loader.go:210). |
| Loader.DefaultInstallDirLayout | services/plugin/loader.go:90-93 | For a plain id, the default directory is `<pluginsDir>/installed/<id>` and its manifest is `<pluginsDir>/installed/<id>/plugin.json`. |
| Loader.PluginLoader.constructor | services/plugin/loader.go:34-42 | A new loader has directory "./plugins" and no plugins loaded. |
| Loader.PluginLoader.SetPluginsDir | services/plugin/loader.go:45-49 | Sets the plugins directory. |
| Loader.PluginLoader.CompilePlugin | services/plugin/loader.go:225-238 | A failed build reports "compile failed" and writes nothing. A successful build writes exactly `plugin.so`. |
| Loader.PluginLoader.SyncModels | services/plugin/loader.go:150-165 | An empty list is a no-op. Otherwise the engine's answer is wrapped with the plugin id, and tables are recorded only on success. |
| Loader.PluginLoader.LoadPlugin | services/plugin/loader.go:75-147 | Covers each outcome in turn:<br>- an already-loaded id is refused, with nothing changed;<br>- a missing record gives the wrapped `ErrPluginNotExist`;<br>- success holds exactly when every step succeeds;<br>- on success the map gains exactly `id -> instance`;<br>- any failure leaves the map unchanged;<br>- `plugin.so` is built only when it is missing;<br>- models are synced only by a successful load whose "models" hook is on and whose model list is non-empty. |
| Loader.PluginLoader.Activate | services/plugin/loader.go:111-146 | Fails on an open, lookup, type or `Init` failure, or a sync failure when one is needed; the map changes only on success. |
| Loader.PluginLoader.UnloadPlugin | services/plugin/loader.go:168-186 | An absent id is an error. A failing `Uninstall` hook is an error and keeps the entry. Success removes only that id. |
| Loader.PluginLoader.GetAllPlugins | services/plugin/loader.go:197-206 | A copy equal to the map, built entry by entry. |
| Loader.PluginLoader.TryLoad | services/plugin/loader.go:64-67 | One load of the loop, whose error is only logged. It succeeds exactly when `LoadPlugin` would from the state before it, and then leaves the id loaded from its record. It adds no other id and replaces no entry. A load that could succeed for any other id still can afterwards, and entries loaded from their records stay so. |
| Loader.PluginLoader.LoadRow | services/plugin/loader.go:59-67 | One iteration: a row not marked installed is skipped. Otherwise it is tried, and if its load could succeed it is loaded afterwards; its id joins the ids tried. |
| Loader.PluginLoader.LoadRows | services/plugin/loader.go:59-68 | After the loop over the listed rows, every installed row whose load could succeed at the start is loaded, whatever the loads before and after it did. No entry is replaced, and each new entry is an installed row's id, loaded from its record. |
| Loader.PluginLoader.LoadAll | services/plugin/loader.go:52-72 | Returns no error. Every installed record whose load would succeed from the starting state is loaded at the end, so an installed record left unloaded is one whose load was refused. It never removes or replaces a loaded entry, and each new entry is an installed record's id, loaded from that record. |
| Manager.NewRecord | services/plugin/manager.go:93-104 | The saved row takes `plugin_id` and the descriptive fields from the manifest. It is installed, not enabled, has the extraction directory as install path, and has no config. |
| Manager.InstallLayout | services/plugin/manager.go:71-81 | For a plain id, the archive is `<dir>/temp/<id>.zip` and the target is `<dir>/installed/<id>`. The archive never lies within the target. |
| Manager.PluginManager.DownloadFile | services/plugin/manager.go:238-257 | Covers each outcome:<br>- no response, or a non-200 status, is an error and writes nothing;<br>- the file is created only after a 200, and creating it fails as `Create` says;<br>- a broken read keeps what was received and reports the read error;<br>- success holds exactly when every step succeeds. |
| Manager.PluginManager.UnzipOf | services/plugin/manager.go:260-305 | What `unzip` makes of a given tree. A missing archive and a non-zip archive each change nothing and give their error. Every change lies inside `dest`. Extraction succeeds exactly when the archive opens and every entry extracts in the tree the entries before it leave. |
| Manager.PluginManager.Unzip | services/plugin/manager.go:260-305 | The filesystem and the error are exactly those of `UnzipOf` from the filesystem `unzip` starts with. |
| Manager.PluginManager.Unpack | services/plugin/manager.go:81-90 | Steps 2 and 3 of `Install` on a given tree: the tree is the one `unzip` leaves, every change is inside the install directory, and the manifest is `plugin.json` read from that extracted tree. A manifest is read exactly when extraction succeeded and `plugin.json` decodes, and each failure carries its context. |
| Manager.PluginManager.ExtractEntry | services/plugin/manager.go:267-302 | One loop iteration has exactly the effect and error of `EntryEffect`/`EntryError`. |
| Manager.PluginManager.Install | services/plugin/manager.go:63-117 | Covers each step in order:<br>- an installed record gives `ErrPluginAlreadyExist` with nothing written;<br>- a failed download carries its context, and leaves only what `downloadFile` wrote;<br>- after a successful download, the outcome is `DeployedFrom` the downloaded archive, ignoring the archive's own path: the tree is exactly the extracted one, apart from a `plugin.so` the load may build, and the manifest is read from it;<br>- the archive itself is gone unless it cannot be removed;<br>- success holds exactly when no record is installed, the download succeeds and `DeploySucceeds`;<br>- loading adds only the requested id and replaces nothing. |
| Manager.PluginManager.DeployAndRemove | services/plugin/manager.go:78-113 | Steps 2-5 and the deferred removal of the archive. Every path except the archive ends as `Deploy` left it, and the archive is gone unless it cannot be removed. |
| Manager.PluginManager.IgnorePath | services/plugin/manager.go:78 | Removing the archive does not change what the deployment did to any other path. |
| Manager.PluginManager.Deploy | services/plugin/manager.go:80-113 | Steps 2-5 of `Install` from the starting filesystem, as `DeployedFrom` of what `Unpack` makes of it:<br>- the directories are those extraction leaves;<br>- an extraction or manifest failure is returned and leaves the table and the loaded plugins alone;<br>- otherwise steps 4 and 5 follow `Saved`;<br>- success holds exactly when `DeploySucceeds`: the manifest is read, its id is new, and the load of the requested id succeeds from the saved table and the extracted tree. |
| Manager.PluginManager.SaveAndLoad | services/plugin/manager.go:93-113 | Steps 4 and 5, as `Saved`:<br>- a manifest id already in the table is the wrapped unique violation, with nothing changed;<br>- otherwise the table gains exactly `NewRecord(manifest)` under the next primary key, and a load failure keeps it;<br>- the files change at most by the `plugin.so` the load builds;<br>- success holds exactly when the load by the requested id succeeds from the saved table, and leaves it loaded from its record. |
| Manager.PluginManager.Uninstall | services/plugin/manager.go:120-144 | A missing record aborts with nothing changed. An unload failure is ignored, and the map loses the id only if the hook succeeds. A failed removal keeps the record, and removes at most paths below the install path. An install path with nothing there is not a removal failure. Otherwise the record under the requested id is deleted and the install path's subtree is removed. |
| Manager.PluginManager.WriteEnabled | services/plugin/manager.go:159-168 | A missing record is `ErrPluginNotExist`. Otherwise only the `is_enabled` of the row the lookup found changes. |
| Manager.PluginManager.Enable | services/plugin/manager.go:147-172 | A plugin that is not loaded is an error, with no hook called and the table unchanged. A hook failure is wrapped and leaves the table unchanged. Success sets only `is_enabled`, of the row the lookup finds. The loader map never changes. |
| Manager.PluginManager.Disable | services/plugin/manager.go:175-200 | The same rules as Enable, with the flag cleared. |
| Manager.PluginManager.EnableThenDisable | services/plugin/manager.go:147-200 | For a non-empty id, Enable followed by Disable, with both hooks succeeding, leaves the row exactly as before except `is_enabled` false. |
| Manager.PluginManager.ListInstalled | services/plugin/manager.go:203-205 | Every row of the table, each once. |
| Manager.ExistingDirsMade | services/plugin/manager.go:47-51 | When every directory of the list already exists, no `os.MkdirAll` of them fails, whatever the host would refuse. |
| Manager.MakeDirs | services/plugin/manager.go:47-51 | Each directory is made in order, from the directories made before it. Success holds exactly when every `os.MkdirAll` succeeds. Otherwise the first failure is returned, wrapped as "create directory <dir>", and only the directories before it are made. |
| Manager.InitManager | services/plugin/manager.go:30-55 | Points the loader at the directory, then creates installed, temp and config in order, as `MakeDirs` says. When all three already exist it succeeds, whatever the host would refuse. |
| Devices.IsValidCases | plugins/license-manager-plugin/models/device.go:42-50 | Disabled is never valid. A non-zero expiry before now is never valid. Every other device is valid. |
| Devices.ExpiryIsMonotone | plugins/license-manager-plugin/models/device.go:46-48 | Once expired, always expired. A zero expiry date never expires. |
| Devices.ConditionsAreUserScoped | plugins/license-manager-plugin/models/device.go:124-141 | The filter always restricts to the user. With no keyword and no flag, it is exactly the user restriction. The enabled flag filters only when given. |
| Devices.KeywordNarrows | plugins/license-manager-plugin/models/device.go:128-136 | A keyword only narrows a search. |
| Devices.DeviceTable.GetDeviceByUserAndMachineCode | plugins/license-manager-plugin/models/device.go:60-70 | Returns some row of that user with that machine code, exactly when one exists. Otherwise `ErrDeviceNotExist{MachineCode}`. |
| Devices.DeviceTable.GetDeviceByUserAndLicenseKey | plugins/license-manager-plugin/models/device.go:73-83 | Returns some row of that user with that key, exactly when one exists. Otherwise `ErrDeviceNotExist{LicenseKey}`. |
| Devices.DeviceTable.GetDeviceByID | plugins/license-manager-plugin/models/device.go:86-96 | A non-zero id finds exactly that row. A zero id matches any row. Otherwise `ErrDeviceNotExist{ID}`. |
| Devices.DeviceTable.GetDeviceByUserAndID | plugins/license-manager-plugin/models/device.go:162-172 | The row only when both the id and the owner match; otherwise `ErrDeviceNotExist{ID}`. |
| Devices.DeviceTable.Insert | plugins/license-manager-plugin/models/device.go:99-102 | Inserts under the next primary key, which was unused. |
| Devices.DeviceTable.Update | plugins/license-manager-plugin/models/device.go:105-108 | Overwrites the whole row with that id, if any, and nothing else. |
| Devices.DeviceTable.Delete | plugins/license-manager-plugin/models/device.go:111-114 | Removes that row only. |
| Devices.DeviceTable.UpdateLastVerified | plugins/license-manager-plugin/models/device.go:53-57 | The device always carries the new time. The table changes in that one column of that row, and only if the write succeeds. |
| Devices.DeviceTable.SearchDevices | plugins/license-manager-plugin/models/device.go:144-154 | Exactly the rows matching the conditions, never another user's, with their count. |
| Devices.CountIsUnfilteredSearch | plugins/license-manager-plugin/models/device.go:144-159 | The count equals the count of a search with no keyword and no flag. |
| LicenseKeys.HexEncode | services/license/generator.go:20 | Two lower-case hex digits per byte, high nibble first. |
| LicenseKeys.GenerateLicenseKey | services/license/generator.go:17-22 | Always 32 characters, each from `0-9A-F`. |
| LicenseKeys.LicenseKeyDecodes | services/license/generator.go:19-21 | The key's digit pairs read back as the first 16 bytes of the digest. |
| LicenseKeys.LicenseKeyInjective | services/license/generator.go:19-21 | Two keys are equal exactly when the digests agree on their first 16 bytes. |
| LicenseKeys.JoinLayout | services/license/generator.go:33 | Joining groups of four puts the separator at every fifth position. |
| LicenseKeys.StripJoin | services/license/generator.go:29-33 | Removing the dashes from dash-joined, dash-free groups gives their concatenation. |
| LicenseKeys.FormatLicenseKey | services/license/generator.go:25-34 | A key shorter than 32 characters comes back unchanged. Otherwise the result is 39 characters: 8 groups of 4 of the key's first 32 characters, with dashes at every fifth position. Without its dashes, the result is exactly the first 32 characters of a dash-free key, so anything beyond them is dropped. |
| LicenseKeys.FormatGeneratedKey | services/license/generator.go:17-34 | A generated key formats to 39 characters, and removing the dashes gives the key back. |
| DeviceService.NewDeviceFields | plugins/license-manager-plugin/services/device.go:31-49 | The new device has the user, the machine code and the given fields. It is enabled and never verified, and its key has 32 upper-case hex digits. A non-positive number of days means no expiry, and a positive number gives now plus that many days. It is valid on creation unless its expiry lies in the past. |
| DeviceService.CreateDevice | plugins/license-manager-plugin/services/device.go:24-56 | A machine code this user already has is `ErrDeviceAlreadyExist{MachineCode}`, and nothing is inserted; another user's device with that code does not count. Otherwise the new record is inserted under the next id and returned. Per-user uniqueness of machine codes is preserved. |
| DeviceService.Decide | plugins/license-manager-plugin/services/device.go:60-76 | An unknown device gives `(false, nil, nil)`, and any other lookup error is passed on. A found device is returned, and is authorised exactly when the keys are equal and it is valid now. |
| DeviceService.DecideAuthorised | plugins/license-manager-plugin/services/device.go:69-76 | An authorised decision carries its device, whose key is the one given and which is enabled. |
| DeviceService.VerifyLicense | plugins/license-manager-plugin/services/device.go:59-82 | An unknown machine code gives `(false, nil, nil)` and writes nothing. The result is true exactly when the found device's key matches and it is valid. Only a true result writes the verification time, and a failed write changes neither the result nor the error. With unique machine codes, true means some row of the user has that code and key and is valid. |
| DeviceService.ToggleDevice | plugins/license-manager-plugin/services/device.go:85-93 | Flips `is_enabled` of the user's own device. Any other id is `ErrDeviceNotExist{ID}` and changes nothing. |
| DeviceService.ToggleTwice | plugins/license-manager-plugin/services/device.go:85-93 | Two toggles restore every row. |
| DeviceService.UpdateFieldRules | plugins/license-manager-plugin/services/device.go:112-130 | The field rules:<br>- an empty name or remark, and an absent flag or expiry, keep that field;<br>- an expiry of 0 days clears the date;<br>- any other number of days, negative included, gives now plus that many days;<br>- identity, owner, machine code, key and verification time never change. |
| DeviceService.UpdateIdempotent | plugins/license-manager-plugin/services/device.go:106-133 | Applying an update twice is the same as applying it once, and an all-empty update changes nothing. |
| DeviceService.UpdateDevice | plugins/license-manager-plugin/services/device.go:106-133 | Writes the user's own device back, changed by the field rules. Any other id is `ErrDeviceNotExist{ID}` and changes nothing. Per-user uniqueness of machine codes is preserved. |
| VerifyHandler.Respond | routers/api/v1/license/verify.go:56-79 | `IsAuthorized` is the verdict. When authorised it gives the success message, with the expiry date exactly when the expiry is non-zero. Otherwise the message follows the priority order:<br>- no device;<br>- a key mismatch;<br>- disabled;<br>- expired;<br>- the generic failure, exactly when the device would be valid. |
| VerifyHandler.MessagesDistinct | routers/api/v1/license/verify.go:61-74 | The six messages are pairwise distinct. |
| VerifyHandler.HandlerAgreesWithService | routers/api/v1/license/verify.go:56-79 | Fed with what the service decides, with the handler's clock reading no earlier than the service's, the handler never gives the generic failure message. It reports "not authorised" exactly for an unknown device, and success exactly for an authorised verdict. |

Five operations are plain definitions whose contracts only spell out their cases, so they have no row: `Files.FileSystem.ReadFile`, `Loader.PluginLoader.ReadMetadata`, `Loader.PluginLoader.GetPlugin`, `Manager.PluginManager.ListAvailable` and `Manager.PluginManager.GetPluginInfo`. What `ReadMetadata` reads in an install is stated by `Manager.PluginManager.Unpack`.

## Left out

- Concurrency: the loader's `sync.RWMutex` and `sync.Once`. Each loader method is one atomic step, and the `GetLoader` and `GetManager` singletons are explicit objects.
- Dynamic loading and compilation: `plugin.Open`, `Lookup`, the interface assertion and the `go build` subprocess are oracle outcomes (`Instances.Toolchain`). The build output text is carried as a string.
- Hooks of plugins other than the example: they are results fixed per instance (`Instances.Hooks`).
- HTTP: `http.Get`, status codes and body reading in `downloadFile` and `ListAvailable` are the oracle `Manager.Marketplace.get`. JSON decoding of the marketplace list and of `plugin.json` are oracles too.
- Zip decoding, file modes and byte-level copying: an archive is its sequence of entries, each a name, a directory flag and the bytes read or the failure met.
- Filesystem: all paths are Unix paths with `/` as the separator. File modes are not modelled. The host's refusals are the fault sets, and they apply only where the path's own state (existing, missing, wrong kind) does not already decide the outcome.
- Files.FileSystem.MkdirAll: only the target directory is recorded, not missing ancestors, so a directory holding a recorded path counts as existing. A refusal is modelled only for the target, not for an ancestor. When a file stands above the target, Go reports the file's path in the ENOTDIR error, while the model reports the target.
- Database engine: the xorm sessions, `Sync2` schemas and pagination of `SearchDevices` are not modelled. SQL `LIKE` wildcards are not modelled: the keyword filter is plain substring containment. Tables never fail, except for the UNIQUE violation on `plugin.plugin_id`.
- Created and updated timestamps of both tables are not modelled.
- Devices.DeviceTable.GetDeviceByUserAndMachineCode: when several rows match, which one the database returns is left open (any matching row).
- Clock and calendar: `time.Now` is an input, and `AddDate` is an input function from days to Unix seconds.
- Hashing and randomness: SHA-256, `GenerateRandomString` and `GenerateDeviceID` are inputs. The digest is taken as given, so the text it hashes (machine code, time, random string) is not modelled.
- Logging throughout.
- The `Register` handler, request binding, the login check and the `ServerTime` field of `Verify` (routers/api/v1/license/verify.go:37-55, 84-136).
- The route handlers and route registration of the example plugin (plugins/examples/license-manager/main.go:60-107, 139-192).
- The thin HTTP controllers routers/web/admin/plugins.go, routers/web/user/settings_license.go and routers/api/v1/license/device.go. models/migrations/v1_26/v326.go, models/migrations/v1_26/v327.go and modules/setting/plugin.go are schema and configuration declarations. Of their constraints, the UNIQUE `plugin_id` (v326.go:15) is modelled by `CreatePlugin`, and the UNIQUE `device_id` (v327.go:15) is not.
- Error paths the model cannot reach:
  - `DeletePlugin` cannot fail in `Uninstall`, so "delete from database: ..." is never returned.
  - `UpdatePlugin` cannot fail in `Enable`/`Disable`, because the row keeps its own `plugin_id`, so "update database: ..." is never returned.
  - A device lookup never fails for a reason other than a missing row.
  - "list plugins from database" is never returned by `LoadAll`.
- LicenseKeys.FormatLicenseKey: lengths are counted in characters, while Go's `len` and slicing count bytes. The two agree on ASCII keys, so on every generated key (32 hex digits), but not on a key with multi-byte characters passed in directly.
- Devices.DeviceTable.Insert: the schema declares `device_id` UNIQUE (models/migrations/v1_26/v327.go:15), but the model's insert never fails, so a clash of random device ids is not modelled.
- Files.FileSystem.RemoveAll: which paths a failing removal has already deleted is left open, beyond that they lie below the path. A failure is modelled only through the fault set applied to the path itself.
- Manager.PluginManager.Install: the contract does not state which model lists the load syncs to the database. `Loader.PluginLoader.LoadPlugin` states it for one load.
- Manager.PluginManager.EnableThenDisable: stated only for non-empty ids. For the empty id, each of the two lookups takes whichever row the database scans first, and the update in between may change that.
- Integer widths: ids, statuses and day counts are unbounded integers. The model does not capture `int64` overflow of the nanosecond expiry comparison.
