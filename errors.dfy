/** Go's `error` values as they flow through the plugin and licence code:
    the typed errors of models/plugin/error.go and models/license/error.go,
    errors wrapped by `fmt.Errorf("...: %w", err)`, *os.PathError values and
    every other error (carrying only its message). */
module Errors {
  import opened Strings

  datatype Error =
    | PluginNotExist(pluginId: string)
    | PluginAlreadyExist(pluginId: string)
    | DeviceNotExist(id: int, machineCode: string, licenseKey: string)
    | DeviceAlreadyExist(machineCode: string, licenseKey: string)
      /** fmt.Errorf(context + ": %w", cause) */
    | Wrapped(context: string, cause: Error)
      /** *os.PathError{Op, Path, Err} */
    | PathError(op: string, path: string, reason: string)
      /** any other error: fmt.Errorf without %w, or a foreign error */
    | Failure(message: string)
  {
    /** The `Error() string` method of each error type. */
    function Message(): string {
      match this
      case PluginNotExist(pid) => "plugin does not exist [plugin_id: " + pid + "]"
      case PluginAlreadyExist(pid) => "plugin already exists [plugin_id: " + pid + "]"
      case DeviceNotExist(_, _, _) => "device does not exist" + NotExistSubject().Suffix()
      case DeviceAlreadyExist(_, _) => "device already exists" + AlreadyExistSubject().Suffix()
      case Wrapped(c, e) => c + ": " + e.Message()
      case PathError(op, p, reason) => op + " " + p + ": " + reason
      case Failure(msg) => msg
    }

    /** The single field ErrDeviceNotExist.Error reports: the id when it is
        positive, else the machine code when non-empty, else the licence key
        when non-empty, else none. */
    function NotExistSubject(): (s: Subject)
      requires DeviceNotExist?
      ensures s.ById? <==> id > 0
      ensures s.ById? ==> s.id == id
      ensures s.ByMachineCode? <==> id <= 0 && machineCode != ""
      ensures s.ByMachineCode? ==> s.value == machineCode
      ensures s.ByLicenseKey? <==> id <= 0 && machineCode == "" && licenseKey != ""
      ensures s.ByLicenseKey? ==> s.value == licenseKey
    {
      if id > 0 then ById(id)
      else if machineCode != "" then ByMachineCode(machineCode)
      else if licenseKey != "" then ByLicenseKey(licenseKey)
      else Unspecified
    }

    /** ErrDeviceAlreadyExist.Error reports the machine code when non-empty,
        else the licence key when non-empty, else nothing; never an id. */
    function AlreadyExistSubject(): (s: Subject)
      requires DeviceAlreadyExist?
      ensures !s.ById?
      ensures s.ByMachineCode? <==> machineCode != ""
      ensures s.ByMachineCode? ==> s.value == machineCode
      ensures s.ByLicenseKey? <==> machineCode == "" && licenseKey != ""
      ensures s.ByLicenseKey? ==> s.value == licenseKey
    {
      if machineCode != "" then ByMachineCode(machineCode)
      else if licenseKey != "" then ByLicenseKey(licenseKey)
      else Unspecified
    }
  }

  /** What a device error message names. */
  datatype Subject = ById(id: nat) | ByMachineCode(value: string) | ByLicenseKey(value: string) | Unspecified
  {
    /** The bracketed tail of the message, `" [id: 7]"` and so on. */
    function Suffix(): string {
      match this
      case ById(n) => " [id: " + NatToString(n) + "]"
      case ByMachineCode(v) => " [machine_code: " + v + "]"
      case ByLicenseKey(v) => " [license_key: " + v + "]"
      case Unspecified => ""
    }
  }

  datatype Result<+T> = Ok(value: T) | Err(error: Error)

  /** IsErrPluginNotExist: a type assertion, so a wrapped ErrPluginNotExist
      is not recognised. */
  predicate IsErrPluginNotExist(e: Error) {
    e.PluginNotExist?
  }

  predicate IsErrPluginAlreadyExist(e: Error) {
    e.PluginAlreadyExist?
  }

  predicate IsErrDeviceNotExist(e: Error) {
    e.DeviceNotExist?
  }

  predicate IsErrDeviceAlreadyExist(e: Error) {
    e.DeviceAlreadyExist?
  }

  const PluginNotExistPrefix := "plugin does not exist [plugin_id: "
  const PluginAlreadyExistPrefix := "plugin already exists [plugin_id: "

  /** The two plugin error messages are told apart by their text, and each
      carries its plugin id verbatim between the fixed prefix and the
      closing bracket. */
  lemma PluginErrorMessagesCarryId(e: Error)
    requires e.PluginNotExist? || e.PluginAlreadyExist?
    ensures e.PluginNotExist? <==> HasPrefix(e.Message(), PluginNotExistPrefix)
    ensures e.PluginAlreadyExist? <==> HasPrefix(e.Message(), PluginAlreadyExistPrefix)
    ensures var m := e.Message();
            |m| == |PluginNotExistPrefix| + |e.pluginId| + 1 && m[|m| - 1] == ']' &&
            m[|PluginNotExistPrefix|..|m| - 1] == e.pluginId
  {
    var m := e.Message();
    if e.PluginNotExist? {
      assert m == PluginNotExistPrefix + e.pluginId + "]";
      assert m[7] != PluginAlreadyExistPrefix[7];
    } else {
      assert m == PluginAlreadyExistPrefix + e.pluginId + "]";
      assert m[7] != PluginNotExistPrefix[7];
    }
  }

  /** Distinct plugin errors have distinct messages. */
  lemma PluginErrorMessageInjective(e1: Error, e2: Error)
    requires e1.PluginNotExist? || e1.PluginAlreadyExist?
    requires e2.PluginNotExist? || e2.PluginAlreadyExist?
    requires e1.Message() == e2.Message()
    ensures e1 == e2
  {
    PluginErrorMessagesCarryId(e1);
    PluginErrorMessagesCarryId(e2);
  }

  /** The tail of a device error message determines its subject. */
  lemma {:induction false} SuffixInjective(s1: Subject, s2: Subject)
    requires s1.Suffix() == s2.Suffix()
    ensures s1 == s2
  {
    var t1, t2 := s1.Suffix(), s2.Suffix();
    if s1.Unspecified? || s2.Unspecified? {
      assert |t1| == 0 || |t2| == 0;
    } else {
      assert t1[2] == t2[2];
      assert t1[|t1| - 1] == ']';
      match s1
      case ById(n1) =>
        var n2 := s2.id;
        assert t1[6..|t1| - 1] == NatToString(n1);
        assert t2[6..|t2| - 1] == NatToString(n2);
        NatToStringInjective(n1, n2);
      case ByMachineCode(v1) =>
        assert t1[16..|t1| - 1] == v1;
        assert t2[16..|t2| - 1] == s2.value;
      case ByLicenseKey(v1) =>
        assert t1[15..|t1| - 1] == v1;
        assert t2[15..|t2| - 1] == s2.value;
    }
  }

  /** Two ErrDeviceNotExist values with the same message report the same
      field with the same value: the message identifies what was missing. */
  lemma DeviceNotExistMessageInjective(e1: Error, e2: Error)
    requires e1.DeviceNotExist? && e2.DeviceNotExist?
    requires e1.Message() == e2.Message()
    ensures e1.NotExistSubject() == e2.NotExistSubject()
  {
    var p := "device does not exist";
    var t1, t2 := e1.NotExistSubject().Suffix(), e2.NotExistSubject().Suffix();
    assert (p + t1)[|p|..] == t1;
    assert (p + t2)[|p|..] == t2;
    SuffixInjective(e1.NotExistSubject(), e2.NotExistSubject());
  }

  lemma DeviceAlreadyExistMessageInjective(e1: Error, e2: Error)
    requires e1.DeviceAlreadyExist? && e2.DeviceAlreadyExist?
    requires e1.Message() == e2.Message()
    ensures e1.AlreadyExistSubject() == e2.AlreadyExistSubject()
  {
    var p := "device already exists";
    var t1, t2 := e1.AlreadyExistSubject().Suffix(), e2.AlreadyExistSubject().Suffix();
    assert (p + t1)[|p|..] == t1;
    assert (p + t2)[|p|..] == t2;
    SuffixInjective(e1.AlreadyExistSubject(), e2.AlreadyExistSubject());
  }

  /** The four type tests are exact and mutually exclusive, and none of them
      sees through a wrapping `fmt.Errorf("...: %w", err)`. */
  lemma TypeTestsExclusive(e: Error)
    ensures IsErrPluginNotExist(e) ==> !IsErrPluginAlreadyExist(e) && !IsErrDeviceNotExist(e) && !IsErrDeviceAlreadyExist(e)
    ensures IsErrPluginAlreadyExist(e) ==> !IsErrDeviceNotExist(e) && !IsErrDeviceAlreadyExist(e)
    ensures IsErrDeviceNotExist(e) ==> !IsErrDeviceAlreadyExist(e)
    ensures e.Wrapped? ==> !IsErrPluginNotExist(e) && !IsErrPluginAlreadyExist(e) && !IsErrDeviceNotExist(e) && !IsErrDeviceAlreadyExist(e)
  {
  }
}
