/**
 * What the Android launch options consult outside their own source file,
 * taken at its interface: the host's path and directory probes, the GUID
 * parser of the .NET runtime, and MICore's table of architecture names.
 */
module Platform {

  import opened Wrappers

  /** `System.Guid`: a 128-bit identifier. */
  newtype Guid = x: int | 0 <= x < 0x1_0000_0000_0000_0000_0000_0000_0000_0000

  /** `Guid.Empty`, the all-zero identifier. */
  const EmptyGuid: Guid := 0

  /** `MICore.TargetArchitecture`. */
  datatype TargetArchitecture = Unknown | ARM | ARM64 | X86 | X64 | Mips

  /**
   * The state of the host at the moment of validation and the collaborators
   * whose bodies are not part of this model:
   *  - `invalidPathChars`: the characters of `Path.GetInvalidPathChars()`;
   *  - `isPathRooted`: `Path.IsPathRooted`;
   *  - `directories`: the paths for which `Directory.Exists` answers true;
   *  - `tryParseGuid`: `Guid.TryParse`, `None` where it answers false;
   *  - `architectureNames`: the names `LaunchOptions.ConvertTargetArchitectureAttribute`
   *    recognises, with the architecture each one converts to.
   */
  datatype Environment = Environment(
    invalidPathChars: set<char>,
    isPathRooted: string -> bool,
    directories: set<string>,
    tryParseGuid: string -> Option<Guid>,
    architectureNames: map<string, TargetArchitecture>)

  /** `string.IsNullOrEmpty`. */
  predicate IsNullOrEmpty(s: Option<string>) {
    s.None? || s.value == ""
  }

  /**
   * `String.IndexOfAny`: the index of the first character of `s` that is in
   * `anyOf`, or -1 when there is none.
   */
  function IndexOfAny(s: string, anyOf: set<char>): (r: int)
    ensures -1 <= r < |s|
    ensures 0 <= r ==> s[r] in anyOf && forall j | 0 <= j < r :: s[j] !in anyOf
    ensures r < 0 ==> forall j | 0 <= j < |s| :: s[j] !in anyOf
  {
    if s == [] then -1
    else if s[0] in anyOf then 0
    else
      var k := IndexOfAny(s[1..], anyOf);
      if k < 0 then -1 else k + 1
  }
}
