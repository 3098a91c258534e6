/** routers/api/v1/license/verify.go, lines 56-79: how the Verify handler
    turns the result of VerifyLicense into the response it sends. Request
    binding, the login check and the server time are not modelled. */
module VerifyHandler {
  import opened Wrappers
  import opened Errors
  import opened Devices
  import opened DeviceService

  const MsgAuthorised := "授权验证成功"
  const MsgUnknownDevice := "设备未授权"
  const MsgWrongKey := "授权码无效"
  const MsgDisabled := "授权已被禁用"
  const MsgExpired := "授权已过期"
  const MsgFailed := "授权验证失败"

  /** VerifyResponse without the server time; the expiry date is in Unix
      seconds. */
  datatype VerifyResponse = VerifyResponse(isAuthorized: bool, expiryDate: Option<int>, message: string)

  /** The response for the verdict `isValid` on `device`, for the key the
      client sent, with `now` the handler's own reading of the clock. */
  function Respond(isValid: bool, device: Option<AuthorizedDevice>, requestKey: string, now: int): (r: VerifyResponse)
    requires isValid ==> device.Some?
    ensures r.isAuthorized == isValid
    ensures isValid ==> r.message == MsgAuthorised
    ensures isValid ==> (r.expiryDate.Some? <==> device.value.expiryDate != 0)
    ensures isValid && r.expiryDate.Some? ==> r.expiryDate.value == device.value.expiryDate
    ensures !isValid ==> r.expiryDate.None?
    ensures !isValid && device.None? ==> r.message == MsgUnknownDevice
    ensures !isValid && device.Some? && device.value.licenseKey != requestKey ==> r.message == MsgWrongKey
    ensures !isValid && device.Some? && device.value.licenseKey == requestKey && !device.value.isEnabled ==>
              r.message == MsgDisabled
    ensures (!isValid && device.Some? && device.value.licenseKey == requestKey && device.value.isEnabled &&
             device.value.ExpiredAt(now)) ==> r.message == MsgExpired
    ensures !isValid && r.message == MsgFailed <==>
              !isValid && device.Some? && device.value.licenseKey == requestKey && device.value.IsValid(now)
  {
    if !isValid then
      var message :=
        if device.None? then MsgUnknownDevice
        else if device.value.licenseKey != requestKey then MsgWrongKey
        else if !device.value.isEnabled then MsgDisabled
        else if device.value.expiryDate != 0 && device.value.expiryDate * NanosPerSecond < now then MsgExpired
        else MsgFailed;
      VerifyResponse(false, None, message)
    else
      VerifyResponse(true, if device.value.expiryDate != 0 then Some(device.value.expiryDate) else None, MsgAuthorised)
  }

  /** The six messages are pairwise distinct, so the message alone tells a
      client which case it is in. */
  lemma MessagesDistinct()
    ensures MsgAuthorised != MsgUnknownDevice && MsgAuthorised != MsgWrongKey && MsgAuthorised != MsgDisabled
    ensures MsgAuthorised != MsgExpired && MsgAuthorised != MsgFailed
    ensures MsgUnknownDevice != MsgWrongKey && MsgUnknownDevice != MsgDisabled && MsgUnknownDevice != MsgExpired
    ensures MsgUnknownDevice != MsgFailed
    ensures MsgWrongKey != MsgDisabled && MsgWrongKey != MsgExpired && MsgWrongKey != MsgFailed
    ensures MsgDisabled != MsgExpired && MsgDisabled != MsgFailed
    ensures MsgExpired != MsgFailed
  {
    assert MsgAuthorised[2] != MsgUnknownDevice[2];
    assert MsgWrongKey[2] != MsgDisabled[2];
  }

  /** Fed with what VerifyLicense decides, the handler never falls through
      to the generic failure message: the handler reads the clock no
      earlier than the service did, and a device that was not valid then
      is not valid later. Its answer agrees with the decision, and an
      authorised answer names the device's expiry date when it has one. */
  lemma HandlerAgreesWithService(lookup: Result<AuthorizedDevice>, licenseKey: string, now1: int, now2: int)
    requires now1 <= now2
    requires Decide(lookup, licenseKey, now1).err.None?
    ensures var d := Decide(lookup, licenseKey, now1);
      var r := Respond(d.ok, d.device, licenseKey, now2);
      && r.isAuthorized == d.ok
      && r.message != MsgFailed
      && (r.message == MsgUnknownDevice <==> lookup.Err?)
      && (r.message == MsgAuthorised <==> d.ok)
  {
    var d := Decide(lookup, licenseKey, now1);
    MessagesDistinct();
    if lookup.Ok? {
      ExpiryIsMonotone(lookup.value, now1, now2);
    }
  }
}
