/**
 * The pieces of MICore that the Android launch options use: the record the
 * XML deserialiser produces, the classified errors that reach the caller, and
 * the two shared attribute helpers of `LaunchOptions`, kept at their contract.
 */
module MICore {

  import opened Wrappers
  import opened Platform

  /**
   * `MICore.Xml.LaunchOptions.AndroidLaunchOptions`: every attribute as the
   * deserialiser leaves it, `None` where the document did not supply it.
   */
  datatype XmlAndroidLaunchOptions = XmlAndroidLaunchOptions(
    package: Option<string>,
    attach: bool,
    launchActivity: Option<string>,
    sdkRoot: Option<string>,
    ndkRoot: Option<string>,
    targetArchitecture: Option<string>,
    intermediateDirectory: Option<string>,
    additionalSOLibSearchPath: Option<string>,
    deviceId: Option<string>,
    logcatServiceId: Option<string>)

  /**
   * The exceptions that can escape the constructor, by kind and arguments:
   * `ArgumentNullException`, the missing-attribute failure of `RequireAttribute`,
   * and the launcher's invalid-directory, invalid-attribute and
   * unsupported-architecture failures.
   */
  datatype LaunchError =
    | NullArgument(parameter: string)
    | MissingAttribute(name: string)
    | InvalidDirectory(name: string, value: string)
    | InvalidAttribute(name: string)
    | UnsupportedArchitecture(architecture: TargetArchitecture)

  /**
   * `LaunchOptions.RequireAttribute`: a null or empty attribute is missing;
   * any other value comes back unchanged.
   */
  function RequireAttribute(value: Option<string>, attributeName: string): (r: Result<string, LaunchError>)
    ensures r.Ok? <==> !IsNullOrEmpty(value)
    ensures r.Ok? ==> value == Some(r.value) && r.value != ""
    ensures r.Err? ==> r.error == MissingAttribute(attributeName)
  {
    match value
    case Some(s) => if s == "" then Err(MissingAttribute(attributeName)) else Ok(s)
    case None => Err(MissingAttribute(attributeName))
  }

  /**
   * `LaunchOptions.ConvertTargetArchitectureAttribute`: a name in the table
   * converts to its architecture; anything else is an invalid attribute.
   */
  function ConvertTargetArchitectureAttribute(env: Environment, value: Option<string>): (r: Result<TargetArchitecture, LaunchError>)
    ensures r.Ok? <==> value.Some? && value.value in env.architectureNames
    ensures r.Ok? ==> r.value == env.architectureNames[value.value]
    ensures r.Err? ==> r.error == InvalidAttribute("TargetArchitecture")
  {
    if value.Some? && value.value in env.architectureNames then Ok(env.architectureNames[value.value])
    else Err(InvalidAttribute("TargetArchitecture"))
  }
}
