/**
 * `incrementVersion` of the version script: reads the first three dot-separated numbers
 * of a version string, bumps one of them and writes `major.minor.patch` back.
 *
 * Reading and rewriting the `package.json` files and `version.json` is outside the model.
 */
module VersionBump {
  import opened Wrappers
  import opened Text

  /** The three numbers of a semantic version. */
  datatype Version = Version(major: nat, minor: nat, patch: nat)

  /** The (major, minor, patch) order: the first component that differs decides. */
  predicate Less(v: Version, w: Version) {
    || v.major < w.major
    || (v.major == w.major && v.minor < w.minor)
    || (v.major == w.major && v.minor == w.minor && v.patch < w.patch)
  }

  /**
   * A version whose first three dot-separated parts are strings of decimal digits, the
   * only versions the model covers. `Number` also reads an empty or padded part, a hex or
   * an exponent form as a number and gives `NaN` for anything else; parts at or above
   * 2^53, where JavaScript numbers lose precision, are read exactly here.
   */
  predicate Parsable(version: string) {
    var parts := Split(version, '.');
    |parts| >= 3 && IsDecimal(parts[0]) && IsDecimal(parts[1]) && IsDecimal(parts[2])
  }

  /** `version.split('.').map(Number)`, of which only the first three numbers are kept. */
  function Parse(version: string): Version
    requires Parsable(version)
  {
    var parts := Split(version, '.');
    Version(DecimalValue(parts[0]), DecimalValue(parts[1]), DecimalValue(parts[2]))
  }

  /** A string of digits holds no character that is not a digit, the separator among them. */
  lemma DecimalExcludes(s: string, c: char)
    requires IsDecimal(s) && !IsDigit(c)
    ensures c !in s
  {
  }

  /**
   * `${major}.${minor}.${patch}`: exactly three parts, each the decimal digits of its
   * number with no leading zero, which read back as the same version.
   */
  function Format(v: Version): (r: string)
    ensures Split(r, '.') == [NatToString(v.major), NatToString(v.minor), NatToString(v.patch)]
    ensures Parsable(r) && Parse(r) == v
  {
    var parts := [NatToString(v.major), NatToString(v.minor), NatToString(v.patch)];
    DecimalExcludes(parts[0], '.');
    DecimalExcludes(parts[1], '.');
    DecimalExcludes(parts[2], '.');
    SplitJoin(parts, '.');
    DecimalRoundTrip(v.major);
    DecimalRoundTrip(v.minor);
    DecimalRoundTrip(v.patch);
    Join(parts, '.')
  }

  /**
   * The `switch` on the bump type: `"major"` resets minor and patch, `"minor"` resets
   * patch, and `"patch"`, any other string and an omitted type (`None`, which takes
   * the default `'patch'`) bump the patch number. The result is always later.
   */
  function Bump(v: Version, kind: Option<string>): (w: Version)
    ensures kind == Some("major") ==> w == Version(v.major + 1, 0, 0)
    ensures kind == Some("minor") ==> w == Version(v.major, v.minor + 1, 0)
    ensures kind != Some("major") && kind != Some("minor") ==> w == Version(v.major, v.minor, v.patch + 1)
    ensures Less(v, w)
  {
    if kind == Some("major") then Version(v.major + 1, 0, 0)
    else if kind == Some("minor") then Version(v.major, v.minor + 1, 0)
    else Version(v.major, v.minor, v.patch + 1)
  }

  /**
   * `incrementVersion(version, type)`: the bumped version printed as `major.minor.patch`,
   * which reads back as the bumped one and is later than the input.
   */
  function IncrementVersion(version: string, kind: Option<string>): (r: string)
    requires Parsable(version)
    ensures var w := Bump(Parse(version), kind);
      Split(r, '.') == [NatToString(w.major), NatToString(w.minor), NatToString(w.patch)]
    ensures Parsable(r) && Parse(r) == Bump(Parse(version), kind)
    ensures Less(Parse(version), Parse(r))
  {
    Format(Bump(Parse(version), kind))
  }

  /** Parts after the third take no part: `1.2.3.4` bumps as `1.2.3` does. */
  lemma ExtraPartsIgnored(version: string, kind: Option<string>)
    requires Parsable(version)
    ensures Parsable(Join(Split(version, '.')[..3], '.'))
    ensures IncrementVersion(version, kind) == IncrementVersion(Join(Split(version, '.')[..3], '.'), kind)
  {
    FirstThreeParts(version);
  }

  /** The first three parts, joined again, read as the same version. */
  lemma FirstThreeParts(version: string)
    requires Parsable(version)
    ensures Parsable(Join(Split(version, '.')[..3], '.'))
    ensures Parse(Join(Split(version, '.')[..3], '.')) == Parse(version)
  {
    var parts := Split(version, '.');
    var short := parts[..3];
    assert short[0] == parts[0] && short[1] == parts[1] && short[2] == parts[2];
    assert forall k :: 0 <= k < |short| ==> '.' !in short[k];
    SplitJoin(short, '.');
  }
}
