/**
 * The Android debug launcher's launch options: a constructor that turns the
 * deserialised attribute record into a validated options object, or stops at
 * the first rule that fails with a classified error.
 *
 * The executable model is `Construct` and its helpers. Beside them stands an
 * independent, declarative statement of the same decision: the rules in the
 * order the constructor applies them (`ConstructorOrder`), what each rule
 * rejects (`Violation`), the first rejection (`FirstViolation`), and what a
 * successfully built object holds (`Describes`).
 */
module AndroidDebugLauncher {

  import opened Wrappers
  import opened Platform
  import opened MICore

  /**
   * The validated options. The C# properties have private setters and are
   * assigned only by the constructor, so the object is a value here.
   * `launchActivity` is `None` where the C# property stays null.
   */
  datatype AndroidLaunchOptions = AndroidLaunchOptions(
    package: string,
    isAttach: bool,
    launchActivity: Option<string>,
    sdkRoot: Option<string>,
    ndkRoot: Option<string>,
    targetArchitecture: TargetArchitecture,
    intermediateDirectory: string,
    additionalSOLibSearchPath: Option<string>,
    deviceId: string,
    logcatServiceId: Guid)
  {
    /** What every object the constructor hands out guarantees. */
    predicate Valid(env: Environment) {
      && package != ""
      && (launchActivity.None? <==> isAttach)
      && (launchActivity.Some? ==> launchActivity.value != "")
      && (sdkRoot.Some? ==> IsValidDirectory(env, sdkRoot.value))
      && (ndkRoot.Some? ==> IsValidDirectory(env, ndkRoot.value))
      && targetArchitecture in SupportedArchitectures
      && intermediateDirectory != ""
      && IsValidDirectory(env, intermediateDirectory)
      && deviceId != ""
    }
  }

  /** The architectures this launcher can debug. */
  const SupportedArchitectures: set<TargetArchitecture> := {X86, ARM}

  /**
   * A usable directory: no character illegal in a path, rooted, and present
   * on the host.
   */
  predicate IsValidDirectory(env: Environment, path: string) {
    && (forall i | 0 <= i < |path| :: path[i] !in env.invalidPathChars)
    && env.isPathRooted(path)
    && path in env.directories
  }

  // ---------------------------------------------------------------------------
  // The helpers of the constructor
  // ---------------------------------------------------------------------------

  /** `EnsureValidDirectory`: passes exactly the valid directories. */
  function EnsureValidDirectory(env: Environment, value: string, attributeName: string): (r: Outcome<LaunchError>)
    ensures r.Pass? <==> IsValidDirectory(env, value)
    ensures r.Fail? ==> r.error == InvalidDirectory(attributeName, value)
  {
    if IndexOfAny(value, env.invalidPathChars) >= 0 || !env.isPathRooted(value) || value !in env.directories then
      Fail(InvalidDirectory(attributeName, value))
    else
      Pass
  }

  /**
   * `GetOptionalDirectoryAttribute`: an absent attribute is no error; a
   * present one, the empty string included, must be a valid directory and is
   * returned unchanged.
   */
  function GetOptionalDirectoryAttribute(env: Environment, value: Option<string>, attributeName: string): (r: Result<Option<string>, LaunchError>)
    ensures value.None? ==> r == Ok(None)
    ensures value.Some? ==> (r.Ok? <==> IsValidDirectory(env, value.value))
    ensures r.Ok? ==> r.value == value
    ensures r.Err? ==> value.Some? && r.error == InvalidDirectory(attributeName, value.value)
  {
    if value.None? then
      Ok(None)
    else
      var check := EnsureValidDirectory(env, value.value, attributeName);
      if check.Fail? then Err(check.error) else Ok(value)
  }

  /**
   * `RequireValidDirectoryAttribute`: the attribute must be present and
   * non-empty, then a valid directory; it is returned unchanged.
   */
  function RequireValidDirectoryAttribute(env: Environment, value: Option<string>, attributeName: string): (r: Result<string, LaunchError>)
    ensures r.Ok? <==> !IsNullOrEmpty(value) && IsValidDirectory(env, value.value)
    ensures r.Ok? ==> value == Some(r.value) && r.value != ""
    ensures r.Err? && IsNullOrEmpty(value) ==> r.error == MissingAttribute(attributeName)
    ensures r.Err? && !IsNullOrEmpty(value) ==> r.error == InvalidDirectory(attributeName, value.value)
  {
    var present :- RequireAttribute(value, attributeName);
    var check := EnsureValidDirectory(env, value.value, attributeName);
    if check.Fail? then Err(check.error) else Ok(value.value)
  }

  /**
   * `GetLogcatServiceIdAttribute`: null or empty resolves to the empty GUID,
   * a value that parses resolves to exactly the parsed GUID, and any other
   * value is an invalid attribute.
   */
  function GetLogcatServiceIdAttribute(env: Environment, attributeValue: Option<string>): (r: Result<Guid, LaunchError>)
    ensures IsNullOrEmpty(attributeValue) ==> r == Ok(EmptyGuid)
    ensures !IsNullOrEmpty(attributeValue) && r.Ok? ==> env.tryParseGuid(attributeValue.value) == Some(r.value)
    ensures r.Err? <==> !IsNullOrEmpty(attributeValue) && env.tryParseGuid(attributeValue.value).None?
    ensures r.Err? ==> r.error == InvalidAttribute("LogcatServiceId")
  {
    if !IsNullOrEmpty(attributeValue) then
      match env.tryParseGuid(attributeValue.value)
      case None => Err(InvalidAttribute("LogcatServiceId"))
      case Some(value) => Ok(value)
    else
      Ok(EmptyGuid)
  }

  /** `CheckTargetArchitectureSupported`: only the supported architectures pass. */
  function CheckTargetArchitectureSupported(targetArchitecture: TargetArchitecture): (r: Outcome<LaunchError>)
    ensures r.Pass? <==> targetArchitecture in SupportedArchitectures
    ensures r.Fail? ==> r.error == UnsupportedArchitecture(targetArchitecture)
  {
    match targetArchitecture
    case X86 | ARM => Pass
    case _ => Fail(UnsupportedArchitecture(targetArchitecture))
  }

  // ---------------------------------------------------------------------------
  // The rules, declaratively
  // ---------------------------------------------------------------------------

  /** One rule of the constructor. */
  datatype Rule =
    | PackageRule
    | LaunchActivityRule
    | SDKRootRule
    | NDKRootRule
    | ArchitectureNameRule
    | IntermediateDirectoryRule
    | DeviceIdRule
    | LogcatServiceIdRule
    | ArchitectureSupportRule

  /** The order in which the constructor applies the rules. */
  const ConstructorOrder: seq<Rule> := [
    PackageRule, LaunchActivityRule, SDKRootRule, NDKRootRule, ArchitectureNameRule,
    IntermediateDirectoryRule, DeviceIdRule, LogcatServiceIdRule, ArchitectureSupportRule
  ]

  /** The name of the target architecture is one MICore recognises. */
  predicate KnownArchitecture(env: Environment, xml: XmlAndroidLaunchOptions) {
    xml.targetArchitecture.Some? && xml.targetArchitecture.value in env.architectureNames
  }

  /** The error a rule raises on its own, looking only at the attributes it reads. */
  function Violation(env: Environment, xml: XmlAndroidLaunchOptions, rule: Rule): Option<LaunchError> {
    match rule
    case PackageRule =>
      if IsNullOrEmpty(xml.package) then Some(MissingAttribute("Package")) else None
    case LaunchActivityRule =>
      if !xml.attach && IsNullOrEmpty(xml.launchActivity) then Some(MissingAttribute("LaunchActivity")) else None
    case SDKRootRule =>
      if xml.sdkRoot.Some? && !IsValidDirectory(env, xml.sdkRoot.value) then
        Some(InvalidDirectory("SDKRoot", xml.sdkRoot.value))
      else None
    case NDKRootRule =>
      if xml.ndkRoot.Some? && !IsValidDirectory(env, xml.ndkRoot.value) then
        Some(InvalidDirectory("NDKRoot", xml.ndkRoot.value))
      else None
    case ArchitectureNameRule =>
      if KnownArchitecture(env, xml) then None else Some(InvalidAttribute("TargetArchitecture"))
    case IntermediateDirectoryRule =>
      if IsNullOrEmpty(xml.intermediateDirectory) then Some(MissingAttribute("IntermediateDirectory"))
      else if !IsValidDirectory(env, xml.intermediateDirectory.value) then
        Some(InvalidDirectory("IntermediateDirectory", xml.intermediateDirectory.value))
      else None
    case DeviceIdRule =>
      if IsNullOrEmpty(xml.deviceId) then Some(MissingAttribute("DeviceId")) else None
    case LogcatServiceIdRule =>
      if !IsNullOrEmpty(xml.logcatServiceId) && env.tryParseGuid(xml.logcatServiceId.value).None? then
        Some(InvalidAttribute("LogcatServiceId"))
      else None
    case ArchitectureSupportRule =>
      if KnownArchitecture(env, xml) && env.architectureNames[xml.targetArchitecture.value] !in SupportedArchitectures then
        Some(UnsupportedArchitecture(env.architectureNames[xml.targetArchitecture.value]))
      else None
  }

  /** The first rejection among the rules from position `k` of the order on. */
  function FirstViolationFrom(env: Environment, xml: XmlAndroidLaunchOptions, k: nat): Option<LaunchError>
    requires k <= |ConstructorOrder|
    decreases |ConstructorOrder| - k
  {
    if k == |ConstructorOrder| then None
    else match Violation(env, xml, ConstructorOrder[k])
      case Some(e) => Some(e)
      case None => FirstViolationFrom(env, xml, k + 1)
  }

  /** The error the constructor reports, if any. */
  function FirstViolation(env: Environment, xml: XmlAndroidLaunchOptions): Option<LaunchError> {
    FirstViolationFrom(env, xml, 0)
  }

  /** The object built from `xml` when no rule rejects it, field by field. */
  predicate Describes(env: Environment, xml: XmlAndroidLaunchOptions, o: AndroidLaunchOptions) {
    && xml.package == Some(o.package)
    && o.isAttach == xml.attach
    && o.launchActivity == (if xml.attach then None else xml.launchActivity)
    && o.sdkRoot == xml.sdkRoot
    && o.ndkRoot == xml.ndkRoot
    && KnownArchitecture(env, xml)
    && o.targetArchitecture == env.architectureNames[xml.targetArchitecture.value]
    && xml.intermediateDirectory == Some(o.intermediateDirectory)
    && o.additionalSOLibSearchPath == xml.additionalSOLibSearchPath
    && xml.deviceId == Some(o.deviceId)
    && (IsNullOrEmpty(xml.logcatServiceId) ==> o.logcatServiceId == EmptyGuid)
    && (!IsNullOrEmpty(xml.logcatServiceId) ==> env.tryParseGuid(xml.logcatServiceId.value) == Some(o.logcatServiceId))
  }

  /**
   * `FirstViolationFrom(k)` rejects exactly when some rule at or after
   * position `k` rejects, and what it reports is the rejection of the
   * earliest such rule.
   */
  lemma {:induction false} FirstViolationFromIsEarliest(env: Environment, xml: XmlAndroidLaunchOptions, k: nat)
    requires k <= |ConstructorOrder|
    ensures FirstViolationFrom(env, xml, k).None? <==>
      forall j | k <= j < |ConstructorOrder| :: Violation(env, xml, ConstructorOrder[j]).None?
    ensures forall j | k <= j < |ConstructorOrder| ::
      Violation(env, xml, ConstructorOrder[j]).Some? &&
      (forall i | k <= i < j :: Violation(env, xml, ConstructorOrder[i]).None?) ==>
      FirstViolationFrom(env, xml, k) == Violation(env, xml, ConstructorOrder[j])
    ensures FirstViolationFrom(env, xml, k).Some? ==>
      exists j | k <= j < |ConstructorOrder| ::
        FirstViolationFrom(env, xml, k) == Violation(env, xml, ConstructorOrder[j]) &&
        forall i | k <= i < j :: Violation(env, xml, ConstructorOrder[i]).None?
    decreases |ConstructorOrder| - k
  {
    if k < |ConstructorOrder| {
      FirstViolationFromIsEarliest(env, xml, k + 1);
    }
  }

  /** Every rule has exactly one place in the constructor's order. */
  lemma RuleIsInOrder(rule: Rule) returns (k: nat)
    ensures k < |ConstructorOrder| && ConstructorOrder[k] == rule
    ensures forall j | 0 <= j < |ConstructorOrder| && ConstructorOrder[j] == rule :: j == k
  {
    match rule
    case PackageRule => k := 0;
    case LaunchActivityRule => k := 1;
    case SDKRootRule => k := 2;
    case NDKRootRule => k := 3;
    case ArchitectureNameRule => k := 4;
    case IntermediateDirectoryRule => k := 5;
    case DeviceIdRule => k := 6;
    case LogcatServiceIdRule => k := 7;
    case ArchitectureSupportRule => k := 8;
  }

  /** The constructor rejects nothing exactly when no rule rejects on its own. */
  lemma NoViolationIffAllRulesPass(env: Environment, xml: XmlAndroidLaunchOptions)
    ensures FirstViolation(env, xml).None? <==> forall rule :: Violation(env, xml, rule).None?
  {
  }

  /** An object built from a record that no rule rejects satisfies the invariant. */
  lemma SuccessIsValid(env: Environment, xml: XmlAndroidLaunchOptions, o: AndroidLaunchOptions)
    requires FirstViolation(env, xml).None?
    requires Describes(env, xml, o)
    ensures o.Valid(env)
  {
  }

  // ---------------------------------------------------------------------------
  // The constructor
  // ---------------------------------------------------------------------------

  /**
   * The constructor `AndroidLaunchOptions(xmlOptions)`: a null record is a
   * null argument; otherwise the properties are assigned one by one and the
   * first failing rule ends construction with its error. The result is
   * exactly what the rule table decides.
   */
  method Construct(env: Environment, xmlOptions: Option<XmlAndroidLaunchOptions>) returns (r: Result<AndroidLaunchOptions, LaunchError>)
    ensures xmlOptions.None? ==> r == Err(NullArgument("xmlOptions"))
    ensures xmlOptions.Some? && r.Err? ==> FirstViolation(env, xmlOptions.value) == Some(r.error)
    ensures xmlOptions.Some? && r.Ok? ==> FirstViolation(env, xmlOptions.value).None?
    ensures r.Ok? ==> xmlOptions.Some? && Describes(env, xmlOptions.value, r.value)
    ensures r.Ok? ==> r.value.Valid(env)
  {
    if xmlOptions.None? {
      return Err(NullArgument("xmlOptions"));
    }
    var xml := xmlOptions.value;

    var package :- RequireAttribute(xml.package, "Package");
    var isAttach := xml.attach;
    var launchActivity: Option<string> := None;
    if !isAttach {
      // LaunchActivity is required for a launch only
      var activity :- RequireAttribute(xml.launchActivity, "LaunchActivity");
      launchActivity := Some(activity);
    }
    var sdkRoot :- GetOptionalDirectoryAttribute(env, xml.sdkRoot, "SDKRoot");
    var ndkRoot :- GetOptionalDirectoryAttribute(env, xml.ndkRoot, "NDKRoot");
    var targetArchitecture :- ConvertTargetArchitectureAttribute(env, xml.targetArchitecture);
    var intermediateDirectory :- RequireValidDirectoryAttribute(env, xml.intermediateDirectory, "IntermediateDirectory");
    var additionalSOLibSearchPath := xml.additionalSOLibSearchPath;
    var deviceId :- RequireAttribute(xml.deviceId, "DeviceId");
    var logcatServiceId :- GetLogcatServiceIdAttribute(env, xml.logcatServiceId);

    :- CheckTargetArchitectureSupported(targetArchitecture);

    var options := AndroidLaunchOptions(
      package, isAttach, launchActivity, sdkRoot, ndkRoot, targetArchitecture,
      intermediateDirectory, additionalSOLibSearchPath, deviceId, logcatServiceId);
    SuccessIsValid(env, xml, options);
    r := Ok(options);
  }
}
