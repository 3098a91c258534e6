/** plugins/license-manager-plugin/models/device.go: the authorised-device
    record, its validity test, and the `authorized_device` table with its
    user-scoped lookups, writes and searches. Instants are nanoseconds
    since the Unix epoch; stored timestamps are whole seconds. */
module Devices {
  import opened Wrappers
  import opened Strings
  import opened Errors

  const NanosPerSecond := 1_000_000_000

  /** The clock: the present instant, and the Unix time of the present
      moved by a number of calendar days (`time.Now().AddDate(0, 0, n)`). */
  datatype Clock = Clock(nanos: int, afterDays: int -> int)
  {
    /** timeutil.TimeStampNow */
    function Seconds(): int {
      nanos / NanosPerSecond
    }
  }

  /** One row of `authorized_device` (the created/updated timestamps are
      not modelled). A zero expiry date means the licence never expires. */
  datatype AuthorizedDevice = AuthorizedDevice(
    id: int,
    userId: int,
    deviceId: string,
    machineCode: string,
    machineName: string,
    licenseKey: string,
    isEnabled: bool,
    expiryDate: int,
    lastVerifiedAt: int,
    remarks: string)
  {
    /** A non-zero expiry date lies before the instant `now`. */
    predicate ExpiredAt(now: int) {
      expiryDate != 0 && expiryDate * NanosPerSecond < now
    }

    /** IsValid: enabled and not expired. */
    predicate IsValid(now: int) {
      isEnabled && !ExpiredAt(now)
    }
  }

  /** A disabled device is never valid, an expired one neither, and every
      other device is. */
  lemma IsValidCases(d: AuthorizedDevice, now: int)
    ensures !d.isEnabled ==> !d.IsValid(now)
    ensures d.expiryDate != 0 && d.expiryDate * NanosPerSecond < now ==> !d.IsValid(now)
    ensures d.isEnabled && (d.expiryDate == 0 || d.expiryDate * NanosPerSecond >= now) ==> d.IsValid(now)
  {
  }

  /** A device that has expired stays expired, and one with a zero expiry
      date never expires. */
  lemma ExpiryIsMonotone(d: AuthorizedDevice, now1: int, now2: int)
    requires now1 <= now2
    ensures d.ExpiredAt(now1) ==> d.ExpiredAt(now2)
    ensures d.IsValid(now2) ==> d.IsValid(now1)
    ensures d.expiryDate == 0 ==> !d.ExpiredAt(now2)
  {
  }

  /** SearchDevicesOptions (pagination is not modelled). */
  datatype SearchOptions = SearchOptions(userId: int, keyword: string, isEnabled: Option<bool>)

  /** The condition `toConds` builds: always the user, then the keyword
      in any of three columns, then the enabled flag when it is given. */
  predicate MatchesConds(opts: SearchOptions, d: AuthorizedDevice) {
    && d.userId == opts.userId
    && (opts.keyword != "" ==>
          Contains(d.machineCode, opts.keyword) || Contains(d.machineName, opts.keyword) ||
          Contains(d.licenseKey, opts.keyword))
    && (opts.isEnabled.Some? ==> d.isEnabled == opts.isEnabled.value)
  }

  /** A search never returns another user's device; with no keyword and no
      flag it returns all of the user's devices. */
  lemma ConditionsAreUserScoped(opts: SearchOptions, d: AuthorizedDevice)
    ensures MatchesConds(opts, d) ==> d.userId == opts.userId
    ensures opts.keyword == "" && opts.isEnabled.None? ==> (MatchesConds(opts, d) <==> d.userId == opts.userId)
    ensures opts.isEnabled.Some? && MatchesConds(opts, d) ==> d.isEnabled == opts.isEnabled.value
  {
  }

  /** Every device contains the empty string, so a keyword filter only
      narrows a search when the keyword is non-empty. */
  lemma KeywordNarrows(opts: SearchOptions, d: AuthorizedDevice)
    ensures MatchesConds(opts, d) ==> MatchesConds(opts.(keyword := ""), d)
  {
  }

  class DeviceTable {
    /** The rows by primary key. */
    var rows: map<int, AuthorizedDevice>
    /** The next auto-increment value of `id`. */
    var nextId: int

    predicate Valid()
      reads this
    {
      nextId >= 1 && forall k :: k in rows ==> rows[k].id == k && 0 < k < nextId
    }

    /** No user holds two devices with the same machine code: the
        services keep this, the table alone does not. */
    predicate UniqueMachineCodes()
      reads this
    {
      forall k1, k2 ::
        k1 in rows && k2 in rows && rows[k1].userId == rows[k2].userId && rows[k1].machineCode == rows[k2].machineCode
        ==> k1 == k2
    }

    constructor ()
      ensures Valid() && rows == map[] && nextId == 1
    {
      rows, nextId := map[], 1;
    }

    predicate HasMachineCode(userId: int, machineCode: string)
      reads this
    {
      exists k :: k in rows && rows[k].userId == userId && rows[k].machineCode == machineCode
    }

    /** GetDeviceByUserAndMachineCode: some row of that user with that
        machine code. */
    method GetDeviceByUserAndMachineCode(userId: int, machineCode: string) returns (r: Result<AuthorizedDevice>)
      requires Valid()
      ensures r.Ok? <==> HasMachineCode(userId, machineCode)
      ensures r.Ok? ==> r.value.id in rows && rows[r.value.id] == r.value
      ensures r.Ok? ==> r.value.userId == userId && r.value.machineCode == machineCode
      ensures r.Err? ==> r.error == DeviceNotExist(0, machineCode, "")
    {
      if k :| k in rows && rows[k].userId == userId && rows[k].machineCode == machineCode {
        return Ok(rows[k]);
      }
      return Err(DeviceNotExist(0, machineCode, ""));
    }

    /** GetDeviceByUserAndLicenseKey: some row of that user with that key. */
    method GetDeviceByUserAndLicenseKey(userId: int, licenseKey: string) returns (r: Result<AuthorizedDevice>)
      requires Valid()
      ensures r.Ok? <==> exists k :: k in rows && rows[k].userId == userId && rows[k].licenseKey == licenseKey
      ensures r.Ok? ==> r.value.id in rows && rows[r.value.id] == r.value
      ensures r.Ok? ==> r.value.userId == userId && r.value.licenseKey == licenseKey
      ensures r.Err? ==> r.error == DeviceNotExist(0, "", licenseKey)
    {
      if k :| k in rows && rows[k].userId == userId && rows[k].licenseKey == licenseKey {
        return Ok(rows[k]);
      }
      return Err(DeviceNotExist(0, "", licenseKey));
    }

    /** GetDeviceByID: the query conditions are the non-zero fields of the
        probe, so a zero id matches any row. */
    method GetDeviceByID(id: int) returns (r: Result<AuthorizedDevice>)
      requires Valid()
      ensures id != 0 ==> (r.Ok? <==> id in rows)
      ensures id != 0 && r.Ok? ==> r.value == rows[id]
      ensures id == 0 ==> (r.Ok? <==> exists k :: k in rows)
      ensures r.Ok? ==> r.value in rows.Values
      ensures r.Err? ==> r.error == DeviceNotExist(id, "", "")
    {
      if id != 0 {
        if id in rows {
          return Ok(rows[id]);
        }
        return Err(DeviceNotExist(id, "", ""));
      }
      if k :| k in rows {
        return Ok(rows[k]);
      }
      return Err(DeviceNotExist(id, "", ""));
    }

    /** GetDeviceByUserAndID: the row only when both the id and the owner
        match, so no user reaches another user's device. */
    function GetDeviceByUserAndID(userId: int, deviceId: int): (r: Result<AuthorizedDevice>)
      requires Valid()
      reads this
      ensures r.Ok? <==> exists k :: k in rows && rows[k].userId == userId && rows[k].id == deviceId
      ensures r.Ok? ==> r.value == rows[deviceId] && r.value.userId == userId && r.value.id == deviceId
      ensures r.Err? ==> r.error == DeviceNotExist(deviceId, "", "")
    {
      if deviceId in rows && rows[deviceId].userId == userId then Ok(rows[deviceId])
      else Err(DeviceNotExist(deviceId, "", ""))
    }

    /** CreateDevice: an INSERT under the next primary key. */
    method Insert(d: AuthorizedDevice) returns (id: int)
      requires Valid()
      modifies this
      ensures Valid()
      ensures id == old(nextId) && nextId == old(nextId) + 1
      ensures id !in old(rows) && rows == old(rows)[id := d.(id := id)]
    {
      id := nextId;
      rows := rows[id := d.(id := id)];
      nextId := nextId + 1;
    }

    /** UpdateDevice: every column of the row with that primary key; no
        such row is not an error. */
    method Update(d: AuthorizedDevice)
      requires Valid()
      modifies this`rows
      ensures Valid()
      ensures rows == if d.id in old(rows) then old(rows)[d.id := d] else old(rows)
    {
      if d.id in rows {
        rows := rows[d.id := d];
      }
    }

    /** DeleteDevice */
    method Delete(id: int)
      requires Valid()
      modifies this`rows
      ensures Valid()
      ensures rows == old(rows) - {id}
    {
      rows := rows - {id};
    }

    /** UpdateLastVerified: the in-memory device always carries the new
        time; the table is written, that one column only, unless the
        write fails. */
    method UpdateLastVerified(d: AuthorizedDevice, clock: Clock, write: Option<Error>)
        returns (updated: AuthorizedDevice, err: Option<Error>)
      requires Valid()
      modifies this`rows
      ensures Valid()
      ensures updated == d.(lastVerifiedAt := clock.Seconds())
      ensures err == write
      ensures rows ==
                if write.None? && d.id in old(rows)
                then old(rows)[d.id := old(rows)[d.id].(lastVerifiedAt := clock.Seconds())]
                else old(rows)
    {
      updated := d.(lastVerifiedAt := clock.Seconds());
      err := write;
      if write.None? && d.id in rows {
        rows := rows[d.id := rows[d.id].(lastVerifiedAt := clock.Seconds())];
      }
    }

    /** SearchDevices without pagination: the matching rows by primary
        key, and their number. */
    function SearchDevices(opts: SearchOptions): (r: (map<int, AuthorizedDevice>, int))
      reads this
      ensures forall k :: k in r.0 <==> k in rows && MatchesConds(opts, rows[k])
      ensures forall k :: k in r.0 ==> r.0[k] == rows[k] && r.0[k].userId == opts.userId
      ensures r.1 == |r.0|
    {
      var found := map k | k in rows && MatchesConds(opts, rows[k]) :: rows[k];
      (found, |found|)
    }

    /** CountDevices: the number of the user's rows. */
    function CountDevices(userId: int): (n: int)
      reads this
      ensures n == |set k | k in rows && rows[k].userId == userId|
    {
      |set k | k in rows && rows[k].userId == userId|
    }
  }

  /** CountDevices agrees with a search that has no keyword and no flag. */
  lemma CountIsUnfilteredSearch(t: DeviceTable, userId: int)
    ensures t.CountDevices(userId) == t.SearchDevices(SearchOptions(userId, "", None)).1
  {
    var r := t.SearchDevices(SearchOptions(userId, "", None)).0;
    var mine := set k | k in t.rows && t.rows[k].userId == userId;
    assert r.Keys == mine;
  }
}
