# Android launch options, modelled in Dafny

This project models the launch options of MIEngine's Android debug launcher
(`src/AndroidDebugLauncher/AndroidLaunchOptions.cs`). The constructor
`AndroidLaunchOptions(xmlOptions)` takes the attribute record that the XML
deserialiser produced for an `<AndroidLaunchOptions>` element. It either builds
a validated, read-only options object or throws at the first rule that fails.

The rules run in this order:

1. Package is required.
2. LaunchActivity is required for a launch, and not read for an attach.
3. SDKRoot, if present, must be a valid directory.
4. NDKRoot, if present, must be a valid directory.
5. TargetArchitecture must be a name MICore converts.
6. IntermediateDirectory is required and must be a valid directory.
7. DeviceId is required.
8. LogcatServiceId must be empty or parse as a GUID.
9. The architecture must be X86 or ARM.

A valid directory has no character that is illegal in a path, is rooted, and
exists on the host.

Files:

- `wrappers.dfy` (`Wrappers`): `Option` for a reference that may be null.
  `Result` and `Outcome` stand for a call that returns or throws; with `:-`
  they give the early exit of an exception.
- `platform.dfy` (`Platform`): `Guid`, `TargetArchitecture`, and
  `Environment`. `Environment` holds the host probes, `Guid.TryParse` and
  MICore's architecture-name table as data. Also `IsNullOrEmpty` and
  `IndexOfAny`.
- `micore.dfy` (`MICore`): the deserialised record `XmlAndroidLaunchOptions`,
  the classified errors `LaunchError`, and the two MICore helpers at their
  contracts.
- `android_launch_options.dfy` (`AndroidDebugLauncher`): the options value,
  the constructor's helpers, and the constructor `Construct`. It also holds
  a declarative statement of the same decision: what each rule rejects on
  its own (`Violation`), the constructor's order (`ConstructorOrder`), the
  first rejection (`FirstViolation`), and what a built object holds
  (`Describes`, `Valid`). `Construct` is proved to return exactly what this
  table decides.
- `android_launch_options_properties.dfy` (`AndroidLaunchOptionsProperties`):
  the properties of that decision, and two concrete records.

The constructor assigns the properties one by one and exits early by
throwing. `Construct` keeps that form: local variables assigned in source
order, and a `:-` early return where the source throws. After construction
the C# object is never changed (its setters are private), so the built object
is a datatype value.

## Model

| member | source | states |
|---|---|---|
| `Platform.IndexOfAny` | src/AndroidDebugLauncher/AndroidLaunchOptions.cs:63 | the result is the index of the first character in the set, or -1 exactly when no character of the string is in it |
| `MICore.RequireAttribute` | src/AndroidDebugLauncher/AndroidLaunchOptions.cs:25 | succeeds exactly on a non-null, non-empty value and returns it unchanged; otherwise the error is a missing attribute naming the field |
| `MICore.ConvertTargetArchitectureAttribute` | src/AndroidDebugLauncher/AndroidLaunchOptions.cs:34 | succeeds exactly on a name in the conversion table, with the table's architecture; otherwise an invalid TargetArchitecture attribute |
| `AndroidDebugLauncher.EnsureValidDirectory` | src/AndroidDebugLauncher/AndroidLaunchOptions.cs:61-69 | passes exactly when the path has no invalid path character, is rooted and exists; otherwise the error is InvalidDirectory(name, value) |
| `AndroidDebugLauncher.GetOptionalDirectoryAttribute` | src/AndroidDebugLauncher/AndroidLaunchOptions.cs:43-50 | a null value yields null without error; a non-null value, the empty string included, succeeds exactly when it is a valid directory and is returned unchanged; a failure is InvalidDirectory(name, value) |
| `AndroidDebugLauncher.RequireValidDirectoryAttribute` | src/AndroidDebugLauncher/AndroidLaunchOptions.cs:52-59 | succeeds exactly on a non-empty valid directory, returned unchanged; a null or empty value is a missing attribute, any other failure is InvalidDirectory(name, value) |
| `AndroidDebugLauncher.GetLogcatServiceIdAttribute` | src/AndroidDebugLauncher/AndroidLaunchOptions.cs:71-89 | null or empty resolves to Guid.Empty; a value that parses resolves to exactly the parsed GUID; it fails exactly on a non-empty value that does not parse, with InvalidAttribute("LogcatServiceId") |
| `AndroidDebugLauncher.CheckTargetArchitectureSupported` | src/AndroidDebugLauncher/AndroidLaunchOptions.cs:119-130 | passes exactly X86 and ARM; any other architecture fails with UnsupportedArchitecture of that architecture |
| `AndroidDebugLauncher.Construct` | src/AndroidDebugLauncher/AndroidLaunchOptions.cs:18-41 | a null record fails with a null-argument error before any rule; otherwise it fails exactly when some rule rejects, with the first rejection in constructor order; on success the object holds the input values as `Describes` says and satisfies `Valid` |
| `AndroidDebugLauncher.FirstViolationFromIsEarliest` | src/AndroidDebugLauncher/AndroidLaunchOptions.cs:25-40 | first failure wins: the decision is a rejection exactly when some rule rejects, and it is the rejection of the earliest rejecting rule in constructor order |
| `AndroidDebugLauncher.RuleIsInOrder` | src/AndroidDebugLauncher/AndroidLaunchOptions.cs:25-40 | every rule of the constructor has exactly one position in the constructor's order |
| `AndroidDebugLauncher.NoViolationIffAllRulesPass` | src/AndroidDebugLauncher/AndroidLaunchOptions.cs:25-40 | construction succeeds exactly when every rule, taken on its own, passes |
| `AndroidDebugLauncher.SuccessIsValid` | src/AndroidDebugLauncher/AndroidLaunchOptions.cs:25-40 | a built object has non-empty Package and DeviceId, LaunchActivity set (non-empty) exactly for a launch, valid SDKRoot/NDKRoot when present, a non-empty valid IntermediateDirectory, and X86 or ARM |
| `AndroidLaunchOptionsProperties.MissingRequiredAttributeFails` | src/AndroidDebugLauncher/AndroidLaunchOptions.cs:25-37 | a missing Package is the error reported; a missing DeviceId, IntermediateDirectory, or (for a launch) LaunchActivity always makes construction fail |
| `AndroidLaunchOptionsProperties.LaunchRequiresLaunchActivity` | src/AndroidDebugLauncher/AndroidLaunchOptions.cs:26-31 | a launch with a Package but no LaunchActivity fails with MissingAttribute("LaunchActivity") |
| `AndroidLaunchOptionsProperties.AttachIgnoresLaunchActivity` | src/AndroidDebugLauncher/AndroidLaunchOptions.cs:26-31 | in attach mode any LaunchActivity value gives the same decision and the same object, and the object leaves LaunchActivity unset |
| `AndroidLaunchOptionsProperties.SearchPathNeverFails` | src/AndroidDebugLauncher/AndroidLaunchOptions.cs:36 | AdditionalSOLibSearchPath never changes the decision and is copied verbatim |
| `AndroidLaunchOptionsProperties.InvalidSDKRootReportedBeforeLaterRules` | src/AndroidDebugLauncher/AndroidLaunchOptions.cs:25-37 | once Package and LaunchActivity pass, an invalid SDKRoot is the error reported, whatever the later attributes hold (a missing DeviceId included) |
| `AndroidLaunchOptionsProperties.UnsupportedArchitectureIsReportedLast` | src/AndroidDebugLauncher/AndroidLaunchOptions.cs:34-40 | UnsupportedArchitecture(a) is reported exactly when every other rule passes and the name converts to `a`, which is neither X86 nor ARM |
| `AndroidLaunchOptionsProperties.DescribesIsUnique` | src/AndroidDebugLauncher/AndroidLaunchOptions.cs:18-41 | a record admits at most one built object, so construction is deterministic for a fixed host state |
| `AndroidLaunchOptionsProperties.ExampleLaunchSucceeds` | src/AndroidDebugLauncher/AndroidLaunchOptions.cs:18-41 | a launch of "com.example.app" for "arm" with an existing rooted intermediate directory succeeds with IsAttach false, ARM and Guid.Empty |
| `AndroidLaunchOptionsProperties.ExampleRelativeIntermediateDirectoryFails` | src/AndroidDebugLauncher/AndroidLaunchOptions.cs:35 | the same launch with IntermediateDirectory "relative/path" fails with InvalidDirectory("IntermediateDirectory", "relative/path") |

A missing DeviceId or IntermediateDirectory is reported only when every
earlier rule passes; an invalid SDKRoot, for one, is reported ahead of a
missing DeviceId. `MissingRequiredAttributeFails` therefore names the field
only for Package, which is checked first, and for the other required
attributes promises a failure.

## Left out

- Host I/O: `Path.GetInvalidPathChars`, `Path.IsPathRooted` and
  `Directory.Exists` are fields of `Environment`. Validation sees one fixed
  host state. The gap between this check and the later use of a directory is
  not modelled.
- `Guid.TryParse` is an abstract function in `Environment`. The formats it
  accepts are not modelled.
- The bodies of MICore's `LaunchOptions.RequireAttribute` and
  `LaunchOptions.ConvertTargetArchitectureAttribute` are not part of this
  model. `RequireAttribute` is taken to reject null and the empty string.
  The conversion is a partial map held in `Environment`. Its failure is
  classified as InvalidAttribute("TargetArchitecture"), and MICore's own
  exception type is not kept.
- The set of `MICore.TargetArchitecture` values is taken as Unknown, ARM,
  ARM64, X86, X64 and Mips, because MICore's enum is not part of this model.
- Error text (`string.Format`, `CultureInfo`, `LauncherResources`) and the
  telemetry code `Telemetry.LaunchFailureCode.NoReport` are dropped. Only the
  error kind and its arguments are kept.
- XML deserialisation of `MICore.Xml.LaunchOptions.AndroidLaunchOptions` is
  not modelled. The record is a datatype of optional strings plus the Attach
  flag, and TargetArchitecture is a string.
- Object identity: the options object is a value, not a reference. Nothing
  in the source depends on identity.
- `Environment` places no constraint on `isPathRooted` or `directories`.
  .NET's `Path.IsPathRooted("")` is always false, so the source always
  rejects an empty SDKRoot or NDKRoot. The model rejects it only on a host
  whose `isPathRooted` answers false for the empty string.
