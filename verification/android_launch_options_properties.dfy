/**
 * What the constructor of the Android launch options promises, stated over
 * the rule table that `AndroidDebugLauncher.Construct` is proved to follow.
 */
module AndroidLaunchOptionsProperties {

  import opened Wrappers
  import opened Platform
  import opened MICore
  import opened AndroidDebugLauncher

  /**
   * A missing Package is always the error reported; a missing DeviceId or
   * IntermediateDirectory, or a missing LaunchActivity for a launch, always
   * makes construction fail, though an earlier rule may be the one reported.
   */
  lemma MissingRequiredAttributeFails(env: Environment, xml: XmlAndroidLaunchOptions)
    ensures IsNullOrEmpty(xml.package) ==> FirstViolation(env, xml) == Some(MissingAttribute("Package"))
    ensures IsNullOrEmpty(xml.deviceId) ==> FirstViolation(env, xml).Some?
    ensures IsNullOrEmpty(xml.intermediateDirectory) ==> FirstViolation(env, xml).Some?
    ensures !xml.attach && IsNullOrEmpty(xml.launchActivity) ==> FirstViolation(env, xml).Some?
  {
  }

  /** A launch (not an attach) with a package but no activity fails on the activity. */
  lemma LaunchRequiresLaunchActivity(env: Environment, xml: XmlAndroidLaunchOptions)
    requires !IsNullOrEmpty(xml.package)
    requires !xml.attach && IsNullOrEmpty(xml.launchActivity)
    ensures FirstViolation(env, xml) == Some(MissingAttribute("LaunchActivity"))
  {
  }

  /**
   * In attach mode the LaunchActivity attribute is never looked at: whatever
   * it holds, the decision is the same and the built object leaves it unset.
   */
  lemma AttachIgnoresLaunchActivity(env: Environment, xml: XmlAndroidLaunchOptions, activity: Option<string>)
    requires xml.attach
    ensures FirstViolation(env, xml) == FirstViolation(env, xml.(launchActivity := activity))
    ensures forall o :: Describes(env, xml, o) <==> Describes(env, xml.(launchActivity := activity), o)
    ensures forall o | Describes(env, xml, o) :: o.launchActivity.None?
  {
  }

  /** AdditionalSOLibSearchPath never causes a failure and is copied verbatim. */
  lemma SearchPathNeverFails(env: Environment, xml: XmlAndroidLaunchOptions, path: Option<string>)
    ensures FirstViolation(env, xml) == FirstViolation(env, xml.(additionalSOLibSearchPath := path))
    ensures forall o | Describes(env, xml, o) :: o.additionalSOLibSearchPath == xml.additionalSOLibSearchPath
  {
  }

  /**
   * An invalid SDKRoot is reported as soon as Package and LaunchActivity
   * pass, whatever the attributes checked after it hold (a missing DeviceId
   * among them).
   */
  lemma InvalidSDKRootReportedBeforeLaterRules(env: Environment, xml: XmlAndroidLaunchOptions)
    requires !IsNullOrEmpty(xml.package)
    requires xml.attach || !IsNullOrEmpty(xml.launchActivity)
    requires xml.sdkRoot.Some? && !IsValidDirectory(env, xml.sdkRoot.value)
    ensures FirstViolation(env, xml) == Some(InvalidDirectory("SDKRoot", xml.sdkRoot.value))
  {
  }

  /**
   * An unsupported architecture is reported exactly when every other rule
   * passes and the converted architecture is outside the supported set: the
   * support check is the last one.
   */
  lemma UnsupportedArchitectureIsReportedLast(env: Environment, xml: XmlAndroidLaunchOptions, a: TargetArchitecture)
    ensures FirstViolation(env, xml) == Some(UnsupportedArchitecture(a)) <==>
      && (forall rule | rule != ArchitectureSupportRule :: Violation(env, xml, rule).None?)
      && KnownArchitecture(env, xml)
      && env.architectureNames[xml.targetArchitecture.value] == a
      && a !in SupportedArchitectures
  {
  }

  /**
   * The constructor is deterministic: the rule table admits at most one
   * object for a record, so two constructions from the same record on the
   * same host agree field by field.
   */
  lemma DescribesIsUnique(env: Environment, xml: XmlAndroidLaunchOptions, o1: AndroidLaunchOptions, o2: AndroidLaunchOptions)
    requires Describes(env, xml, o1) && Describes(env, xml, o2)
    ensures o1 == o2
  {
  }

  // ---------------------------------------------------------------------------
  // Two concrete records on a Unix-like host
  // ---------------------------------------------------------------------------

  /** A host where only "/tmp/intermediate" exists and paths rooted at "/" are rooted. */
  const ExampleHost := Environment(
    {'\0'},
    (s: string) => |s| > 0 && s[0] == '/',
    {"/tmp/intermediate"},
    (s: string) => None,
    map["x86" := X86, "arm" := ARM, "x64" := X64, "arm64" := ARM64])

  /** A launch of an activity of "com.example.app" on an emulator. */
  const ExampleLaunch := XmlAndroidLaunchOptions(
    Some("com.example.app"), false, Some("MainActivity"), None, None, Some("arm"),
    Some("/tmp/intermediate"), None, Some("emulator-5554"), None)

  /** The example launch is accepted, as a launch for ARM with the empty logcat service id. */
  lemma ExampleLaunchSucceeds()
    ensures FirstViolation(ExampleHost, ExampleLaunch).None?
    ensures Describes(ExampleHost, ExampleLaunch, AndroidLaunchOptions(
      "com.example.app", false, Some("MainActivity"), None, None, ARM,
      "/tmp/intermediate", None, "emulator-5554", EmptyGuid))
  {
  }

  /** With a relative intermediate directory the same launch is refused on that directory. */
  lemma ExampleRelativeIntermediateDirectoryFails()
    ensures FirstViolation(ExampleHost, ExampleLaunch.(intermediateDirectory := Some("relative/path")))
      == Some(InvalidDirectory("IntermediateDirectory", "relative/path"))
  {
  }
}
