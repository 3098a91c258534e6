/** plugins/license-manager-plugin/services/device.go: creating, verifying,
    toggling and updating a user's authorised devices over the device
    table. The clock, the SHA-256 digest behind the licence key and the
    random device id are inputs. */
module DeviceService {
  import opened Wrappers
  import opened Errors
  import opened Files
  import opened Devices
  import opened LicenseKeys

  /** CreateDeviceOptions: a non-positive `expiryDays` means permanent. */
  datatype CreateOptions = CreateOptions(
    userId: int,
    machineCode: string,
    machineName: string,
    expiryDays: int,
    remarks: string)

  /** The expiry date of a new device: `expiryDays` days from now, or zero
      (never) when `expiryDays` is not positive. */
  function ExpiryFor(days: int, clock: Clock): (e: int)
    ensures days <= 0 ==> e == 0
    ensures days > 0 ==> e == clock.afterDays(days)
  {
    if days > 0 then clock.afterDays(days) else 0
  }

  /** The record CreateDevice inserts, before the table assigns its id. */
  function NewDevice(opts: CreateOptions, clock: Clock, digest: Bytes, deviceId: string): (d: AuthorizedDevice)
    requires |digest| == 32
  {
    AuthorizedDevice(
      id := 0,
      userId := opts.userId,
      deviceId := deviceId,
      machineCode := opts.machineCode,
      machineName := opts.machineName,
      licenseKey := GenerateLicenseKey(digest),
      isEnabled := true,
      expiryDate := ExpiryFor(opts.expiryDays, clock),
      lastVerifiedAt := 0,
      remarks := opts.remarks)
  }

  /** A new device belongs to the requesting user, is enabled, has never
      been verified, carries a 32-digit upper-case hex key, and verifies
      at the moment of its creation unless its expiry date already lies
      in the past. */
  lemma NewDeviceFields(opts: CreateOptions, clock: Clock, digest: Bytes, deviceId: string)
    requires |digest| == 32
    ensures var d := NewDevice(opts, clock, digest, deviceId);
      && d.userId == opts.userId && d.machineCode == opts.machineCode
      && d.machineName == opts.machineName && d.remarks == opts.remarks && d.deviceId == deviceId
      && d.isEnabled && d.lastVerifiedAt == 0
      && |d.licenseKey| == 32 && (forall i :: 0 <= i < 32 ==> IsUpperHex(d.licenseKey[i]))
      && (opts.expiryDays <= 0 ==> d.expiryDate == 0 && d.IsValid(clock.nanos))
      && (opts.expiryDays > 0 ==> d.expiryDate == clock.afterDays(opts.expiryDays))
      && (d.IsValid(clock.nanos) <==>
            opts.expiryDays <= 0 || clock.afterDays(opts.expiryDays) == 0 ||
            clock.afterDays(opts.expiryDays) * NanosPerSecond >= clock.nanos)
  {
    var d := NewDevice(opts, clock, digest, deviceId);
    IsValidCases(d, clock.nanos);
  }

  /** CreateDevice: a machine code the user already has is refused with
      ErrDeviceAlreadyExist and nothing is inserted (another user's device
      with that code does not count); otherwise the new record is inserted
      under the next id and returned. */
  method CreateDevice(t: DeviceTable, opts: CreateOptions, clock: Clock, digest: Bytes, deviceId: string)
      returns (device: Option<AuthorizedDevice>, err: Option<Error>)
    requires t.Valid() && |digest| == 32
    modifies t
    ensures t.Valid()
    ensures old(t.HasMachineCode(opts.userId, opts.machineCode)) ==>
              && device == None && err == Some(DeviceAlreadyExist(opts.machineCode, ""))
              && t.rows == old(t.rows) && t.nextId == old(t.nextId)
    ensures !old(t.HasMachineCode(opts.userId, opts.machineCode)) ==>
              && err == None
              && device == Some(NewDevice(opts, clock, digest, deviceId).(id := old(t.nextId)))
              && old(t.nextId) !in old(t.rows)
              && t.rows == old(t.rows)[old(t.nextId) := device.value]
              && t.nextId == old(t.nextId) + 1
    ensures old(t.UniqueMachineCodes()) ==> t.UniqueMachineCodes()
    ensures t.HasMachineCode(opts.userId, opts.machineCode)
  {
    var existing := t.GetDeviceByUserAndMachineCode(opts.userId, opts.machineCode);
    if existing.Ok? {
      return None, Some(DeviceAlreadyExist(opts.machineCode, ""));
    }
    var d := NewDevice(opts, clock, digest, deviceId);
    var id := t.Insert(d);
    device, err := Some(d.(id := id)), None;
    assert t.rows[id].userId == opts.userId && t.rows[id].machineCode == opts.machineCode;
  }

  /** What VerifyLicense decides from the lookup by machine code, before
      the verification time is written. */
  datatype Decision = Decision(ok: bool, device: Option<AuthorizedDevice>, err: Option<Error>)

  /** The decision chain of VerifyLicense: an unknown device is "not
      authorised" without an error, any other lookup failure is passed
      on, and a found device is authorised exactly when its key matches
      character for character and it is valid now. */
  function Decide(lookup: Result<AuthorizedDevice>, licenseKey: string, now: int): (r: Decision)
    ensures lookup.Err? && IsErrDeviceNotExist(lookup.error) ==> r == Decision(false, None, None)
    ensures lookup.Err? && !IsErrDeviceNotExist(lookup.error) ==> r == Decision(false, None, Some(lookup.error))
    ensures lookup.Ok? ==> r.err == None && r.device == Some(lookup.value)
    ensures r.ok <==> lookup.Ok? && lookup.value.licenseKey == licenseKey && lookup.value.IsValid(now)
  {
    match lookup
    case Err(e) => if IsErrDeviceNotExist(e) then Decision(false, None, None) else Decision(false, None, Some(e))
    case Ok(d) =>
      if d.licenseKey != licenseKey then Decision(false, Some(d), None)
      else if !d.IsValid(now) then Decision(false, Some(d), None)
      else Decision(true, Some(d), None)
  }

  /** An authorised decision always comes with its device, and the key
      given is that device's key. */
  lemma DecideAuthorised(lookup: Result<AuthorizedDevice>, licenseKey: string, now: int)
    ensures Decide(lookup, licenseKey, now).ok ==>
              && Decide(lookup, licenseKey, now).device.Some?
              && Decide(lookup, licenseKey, now).device.value.licenseKey == licenseKey
              && Decide(lookup, licenseKey, now).device.value.isEnabled
              && Decide(lookup, licenseKey, now).err.None?
  {
  }

  /** VerifyLicense: looks the device up by user and machine code and
      decides; only an authorised verification writes the verification
      time, and a failed write changes neither the verdict nor the error. */
  method VerifyLicense(t: DeviceTable, userId: int, machineCode: string, licenseKey: string,
                       clock: Clock, write: Option<Error>)
      returns (ok: bool, device: Option<AuthorizedDevice>, err: Option<Error>, ghost found: Option<AuthorizedDevice>)
    requires t.Valid()
    modifies t`rows
    ensures t.Valid()
    ensures err == None
    ensures !old(t.HasMachineCode(userId, machineCode)) ==> !ok && device == None && found == None && t.rows == old(t.rows)
    ensures old(t.HasMachineCode(userId, machineCode)) ==>
              && found.Some? && found.value.id in old(t.rows) && old(t.rows)[found.value.id] == found.value
              && found.value.userId == userId && found.value.machineCode == machineCode
    ensures ok <==> found.Some? && found.value.licenseKey == licenseKey && found.value.IsValid(clock.nanos)
    ensures !ok ==> device == found && t.rows == old(t.rows)
    ensures ok ==> device == Some(found.value.(lastVerifiedAt := clock.Seconds()))
    ensures ok && write.None? ==> t.rows == old(t.rows)[found.value.id := device.value]
    ensures ok && write.Some? ==> t.rows == old(t.rows)
    ensures old(t.UniqueMachineCodes()) ==>
              (ok <==> exists k :: k in old(t.rows) && old(t.rows)[k].userId == userId &&
                         old(t.rows)[k].machineCode == machineCode && old(t.rows)[k].licenseKey == licenseKey &&
                         old(t.rows)[k].IsValid(clock.nanos))
  {
    var lookup := t.GetDeviceByUserAndMachineCode(userId, machineCode);
    found := if lookup.Ok? then Some(lookup.value) else None;
    var decision := Decide(lookup, licenseKey, clock.nanos);
    ok, device, err := decision.ok, decision.device, decision.err;
    if ok {
      var updated, _ := t.UpdateLastVerified(lookup.value, clock, write);
      device := Some(updated);
    }
  }

  /** ToggleDevice: the user's own device has its enabled flag flipped and
      is written back; any other id is ErrDeviceNotExist and changes
      nothing. */
  method ToggleDevice(t: DeviceTable, userId: int, id: int) returns (err: Option<Error>)
    requires t.Valid()
    modifies t`rows
    ensures t.Valid()
    ensures old(t.GetDeviceByUserAndID(userId, id)).Err? ==>
              err == Some(DeviceNotExist(id, "", "")) && t.rows == old(t.rows)
    ensures old(t.GetDeviceByUserAndID(userId, id)).Ok? ==>
              && err == None
              && t.rows == old(t.rows)[id := old(t.rows)[id].(isEnabled := !old(t.rows)[id].isEnabled)]
    ensures old(t.UniqueMachineCodes()) ==> t.UniqueMachineCodes()
  {
    var r := t.GetDeviceByUserAndID(userId, id);
    if r.Err? {
      return Some(r.error);
    }
    var device := r.value;
    device := device.(isEnabled := !device.isEnabled);
    t.Update(device);
    err := None;
  }

  /** Toggling the same device twice restores every row. */
  method ToggleTwice(t: DeviceTable, userId: int, id: int) returns (err1: Option<Error>, err2: Option<Error>)
    requires t.Valid()
    modifies t`rows
    ensures t.Valid()
    ensures t.rows == old(t.rows)
    ensures err1 == err2
  {
    err1 := ToggleDevice(t, userId, id);
    err2 := ToggleDevice(t, userId, id);
  }

  /** UpdateDeviceOptions: an empty name or remark and an absent flag or
      expiry leave that field as it is. */
  datatype UpdateOptions = UpdateOptions(
    userId: int,
    id: int,
    machineName: string,
    isEnabled: Option<bool>,
    expiryDays: Option<int>,
    remarks: string)

  /** What UpdateDevice makes of a device, field by field. */
  function ApplyUpdate(d: AuthorizedDevice, opts: UpdateOptions, clock: Clock): (u: AuthorizedDevice)
  {
    d.(machineName := if opts.machineName != "" then opts.machineName else d.machineName,
       isEnabled := if opts.isEnabled.Some? then opts.isEnabled.value else d.isEnabled,
       expiryDate := if opts.expiryDays.None? then d.expiryDate
                     else if opts.expiryDays.value == 0 then 0
                     else clock.afterDays(opts.expiryDays.value),
       remarks := if opts.remarks != "" then opts.remarks else d.remarks)
  }

  /** The field rules of UpdateDevice: the identity, owner, machine code,
      key and verification time never change; each editable field keeps
      its value when its option is empty, a zero expiry clears the date,
      and any other number of days, negative ones included, is counted
      from now. */
  lemma UpdateFieldRules(d: AuthorizedDevice, opts: UpdateOptions, clock: Clock)
    ensures var u := ApplyUpdate(d, opts, clock);
      && u.id == d.id && u.userId == d.userId && u.deviceId == d.deviceId
      && u.machineCode == d.machineCode && u.licenseKey == d.licenseKey && u.lastVerifiedAt == d.lastVerifiedAt
      && u.machineName == (if opts.machineName == "" then d.machineName else opts.machineName)
      && u.remarks == (if opts.remarks == "" then d.remarks else opts.remarks)
      && (opts.isEnabled.None? ==> u.isEnabled == d.isEnabled)
      && (opts.isEnabled.Some? ==> u.isEnabled == opts.isEnabled.value)
      && (opts.expiryDays.None? ==> u.expiryDate == d.expiryDate)
      && (opts.expiryDays == Some(0) ==> u.expiryDate == 0 && !u.ExpiredAt(clock.nanos))
      && (opts.expiryDays.Some? && opts.expiryDays.value != 0 ==> u.expiryDate == clock.afterDays(opts.expiryDays.value))
  {
  }

  /** Applying the same update twice is the same as applying it once, and
      an update with every option empty changes nothing. */
  lemma UpdateIdempotent(d: AuthorizedDevice, opts: UpdateOptions, clock: Clock)
    ensures ApplyUpdate(ApplyUpdate(d, opts, clock), opts, clock) == ApplyUpdate(d, opts, clock)
    ensures opts.machineName == "" && opts.isEnabled.None? && opts.expiryDays.None? && opts.remarks == "" ==>
              ApplyUpdate(d, opts, clock) == d
  {
  }

  /** UpdateDevice: the user's own device is changed by the field rules and
      written back whole; any other id is ErrDeviceNotExist and changes
      nothing. */
  method UpdateDevice(t: DeviceTable, opts: UpdateOptions, clock: Clock) returns (err: Option<Error>)
    requires t.Valid()
    modifies t`rows
    ensures t.Valid()
    ensures old(t.GetDeviceByUserAndID(opts.userId, opts.id)).Err? ==>
              err == Some(DeviceNotExist(opts.id, "", "")) && t.rows == old(t.rows)
    ensures old(t.GetDeviceByUserAndID(opts.userId, opts.id)).Ok? ==>
              err == None && t.rows == old(t.rows)[opts.id := ApplyUpdate(old(t.rows)[opts.id], opts, clock)]
    ensures old(t.UniqueMachineCodes()) ==> t.UniqueMachineCodes()
  {
    var r := t.GetDeviceByUserAndID(opts.userId, opts.id);
    if r.Err? {
      return Some(r.error);
    }
    var device := r.value;
    if opts.machineName != "" {
      device := device.(machineName := opts.machineName);
    }
    if opts.isEnabled.Some? {
      device := device.(isEnabled := opts.isEnabled.value);
    }
    if opts.expiryDays.Some? {
      if opts.expiryDays.value == 0 {
        device := device.(expiryDate := 0);
      } else {
        device := device.(expiryDate := clock.afterDays(opts.expiryDays.value));
      }
    }
    if opts.remarks != "" {
      device := device.(remarks := opts.remarks);
    }
    t.Update(device);
    err := None;
  }
}
