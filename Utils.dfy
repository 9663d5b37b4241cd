/**
 * The pure helpers of the deployment tool: the resource names derived from
 * the app name, the rebuild decision, the Node.js and npm versions a bundle
 * is built for, the version description, the bucket lookup by prefix and
 * the instance choice.
 */
module Utils {
  import opened Results
  import opened Strings
  import Cloud

  /** JavaScript truthiness of an optional string: present and not empty. */
  predicate Truthy(s: Option<string>)
  {
    s.Some? && s.value != ""
  }

  // ===== names =====

  /** The names of everything the tool creates for one app. */
  datatype Names = Names(
    bucket: string,
    environment: string,
    app: string,
    bundlePrefix: string,
    instanceProfile: string,
    serviceRole: string,
    trailBucketPrefix: string,
    trailName: string,
    deregisterRuleName: string,
    eventTargetRole: string,
    eventTargetPolicyName: string,
    eventTargetPassRoleName: string,
    automationDocument: string)

  /**
   * `names(config)`: the app name is lower-cased; the bucket and the
   * application share one name; the environment is `envName` when it is
   * set and not empty.
   */
  function NamesOf(appName: string, envName: Option<string>): (n: Names)
    ensures n.bucket == n.app && StartsWith(n.app, "mup-") && n.app[4..] == Lower(appName)
    ensures StartsWith(n.bundlePrefix, "mup/bundles/") && n.bundlePrefix[12..] == Lower(appName) + "/"
    ensures Truthy(envName) ==> n.environment == envName.value
    ensures !Truthy(envName) ==> StartsWith(n.environment, "mup-env-") && n.environment[8..] == Lower(appName)
    ensures StartsWith(n.eventTargetRole, "mup-envoke-run-command-") && n.eventTargetRole[23..] == Lower(appName)
  {
    var name := Lower(appName);
    Names(
      "mup-" + name,
      if Truthy(envName) then envName.value else "mup-env-" + name,
      "mup-" + name,
      "mup/bundles/" + name + "/",
      "aws-elasticbeanstalk-ec2-role",
      "aws-elasticbeanstalk-service-role",
      "mup-graceful-shutdown-trail",
      "mup-graceful-shutdown-trail",
      "mup-target-deregister",
      "mup-envoke-run-command-" + name,
      "Invoke_Run_Command",
      "Pass_Role",
      "mup-graceful-shutdown")
  }

  /** The app and bucket name hold no upper-case letter, as S3 bucket names must not. */
  lemma NamesLowerCase(appName: string, envName: Option<string>)
    ensures var n := NamesOf(appName, envName);
      forall i :: 0 <= i < |n.app| ==> !('A' <= n.app[i] <= 'Z')
  {
    LowerHasNoUpperCase(appName);
    var n := NamesOf(appName, envName);
    forall i | 4 <= i < |n.app|
      ensures !('A' <= n.app[i] <= 'Z')
    {
      assert n.app[i] == Lower(appName)[i - 4];
    }
  }

  /** Two app names that differ only in letter case name the same resources. */
  lemma NamesIgnoreCase(a: string, b: string, envName: Option<string>)
    requires |a| == |b| && forall i :: 0 <= i < |a| ==> LowerChar(a[i]) == LowerChar(b[i])
    ensures NamesOf(a, envName) == NamesOf(b, envName)
  {
    assert Lower(a) == Lower(b);
  }

  /** The names that do not depend on the app are fixed. */
  lemma NamesConstants(appName: string, envName: Option<string>)
    ensures var n := NamesOf(appName, envName);
      n.instanceProfile == "aws-elasticbeanstalk-ec2-role" && n.serviceRole == "aws-elasticbeanstalk-service-role" &&
      n.trailBucketPrefix == "mup-graceful-shutdown-trail" && n.trailName == "mup-graceful-shutdown-trail" &&
      n.deregisterRuleName == "mup-target-deregister" && n.eventTargetPolicyName == "Invoke_Run_Command" &&
      n.eventTargetPassRoleName == "Pass_Role" && n.automationDocument == "mup-graceful-shutdown"
  {
  }

  // ===== shouldRebuild =====

  /** A cached build is reused only when it was asked for and the bundle is on disk. */
  function ShouldRebuild(bundleExists: bool, useCachedBuild: bool): (rebuild: bool)
    ensures !rebuild ==> bundleExists
    ensures !useCachedBuild ==> rebuild
    ensures bundleExists && useCachedBuild ==> !rebuild
  {
    !(bundleExists && useCachedBuild)
  }

  // ===== getNodeVersion =====

  /** The fields of `bundle/star.json` the tool reads. */
  datatype Star = Star(meteorRelease: Option<string>, nodeVersion: Option<string>, npmVersion: Option<string>)

  /** What `getNodeVersion` returns; `meteorVersion` is absent from the result of two of its branches. */
  datatype NodeVersions = NodeVersions(meteorVersion: Option<string>, nodeVersion: Option<string>, npmVersion: string)

  const DefaultMeteorVersion := "2.12"

  /** `star.meteorRelease.split('@')[1] || "2.12"`. */
  function MeteorVersion(star: Star): (v: string)
    ensures v != ""
  {
    match star.meteorRelease
    case None => DefaultMeteorVersion
    case Some(release) =>
      var parts := Split(release, "@");
      if |parts| > 1 && parts[1] != "" then parts[1] else DefaultMeteorVersion
  }

  /** A release written `TRACK@VERSION` gives its version. */
  lemma {:induction false} MeteorVersionOfRelease(star: Star, track: string, version: string)
    requires star.meteorRelease == Some(track + "@" + version)
    requires '@' !in track && '@' !in version && version != ""
    ensures MeteorVersion(star) == version
  {
    SplitAtFirstSeparator(track, '@', version);
    SplitWithoutSeparator(version, '@');
    assert track + "@" + version == track + ['@'] + version;
  }

  /** A release without `@` (or none at all) falls back to the default version. */
  lemma MeteorVersionWithoutAt(star: Star)
    requires star.meteorRelease.Some? ==> '@' !in star.meteorRelease.value
    ensures MeteorVersion(star) == DefaultMeteorVersion
  {
    if star.meteorRelease.Some? {
      SplitWithoutSeparator(star.meteorRelease.value, '@');
    }
  }

  /** `substr(1)`: the string without its first character. */
  function DropFirst(s: string): (r: string)
    ensures s != [] ==> s == [s[0]] + r
    ensures s == [] ==> r == []
  {
    if s == [] then [] else s[1..]
  }

  /**
   * The versions named in `star.json` when it names an npm version;
   * otherwise the Node.js version of `.node_version.txt` (whose first
   * character, the `v`, is dropped) and npm 4.6.1 for Node.js 4, 3.10.5
   * for any other.
   */
  function GetNodeVersion(star: Star, nodeVersionTxt: string): (v: NodeVersions)
    ensures Truthy(star.npmVersion) ==>
      v.meteorVersion == Some(MeteorVersion(star)) && v.nodeVersion == star.nodeVersion && v.npmVersion == star.npmVersion.value
    ensures !Truthy(star.npmVersion) ==>
      v.meteorVersion.None? && v.nodeVersion.Some? &&
      v.nodeVersion == Some(DropFirst(nodeVersionTxt)) &&
      (v.npmVersion == "4.6.1" <==> |nodeVersionTxt| >= 2 && nodeVersionTxt[1] == '4') &&
      (v.npmVersion != "4.6.1" ==> v.npmVersion == "3.10.5")
  {
    if Truthy(star.npmVersion) then
      NodeVersions(Some(MeteorVersion(star)), star.nodeVersion, star.npmVersion.value)
    else
      var nodeVersion := DropFirst(nodeVersionTxt);
      if StartsWith(nodeVersion, "4") then NodeVersions(None, Some(nodeVersion), "4.6.1")
      else NodeVersions(None, Some(nodeVersion), "3.10.5")
  }

  // ===== createVersionDescription =====

  const MaxDescriptionLength := 195

  /** The text `createVersionDescription` starts from: the commit message, or the fallback when `git` fails. */
  function DescriptionSource(gitLog: Option<string>, utcDate: string): string
  {
    if gitLog.Some? then gitLog.value else "Deployed by Mup on " + utcDate
  }

  /**
   * The first line of the last commit message (or, when `git` fails, of
   * `Deployed by Mup on <date>`), cut to 195 characters: a prefix of that
   * text without a line break, which stops at the first line break, at 195
   * characters or at the end of the text, whichever comes first.
   */
  function CreateVersionDescription(gitLog: Option<string>, utcDate: string): (r: string)
    ensures |r| <= MaxDescriptionLength && '\n' !in r
    ensures r <= DescriptionSource(gitLog, utcDate)
    ensures var text := DescriptionSource(gitLog, utcDate);
      |r| == MaxDescriptionLength || |r| == |text| || text[|r|] == '\n'
  {
    var description := if gitLog.Some? then gitLog.value else "Deployed by Mup on " + utcDate;
    FirstPiece(description, '\n');
    var line := Split(description, "\n")[0];
    line[..if |line| < MaxDescriptionLength then |line| else MaxDescriptionLength]
  }

  /** A one-line commit message of at most 195 characters is the description as it stands. */
  lemma ShortMessageKept(message: string, utcDate: string)
    requires '\n' !in message && |message| <= MaxDescriptionLength
    ensures CreateVersionDescription(Some(message), utcDate) == message
  {
    SplitWithoutSeparator(message, '\n');
  }

  /** A first line of at most 195 characters is the description, whatever follows the line break. */
  lemma FirstLineKept(line: string, rest: string, utcDate: string)
    requires '\n' !in line && |line| <= MaxDescriptionLength
    ensures CreateVersionDescription(Some(line + "\n" + rest), utcDate) == line
  {
    SplitAtFirstSeparator(line, '\n', rest);
    assert line + "\n" + rest == line + ['\n'] + rest;
  }

  /** A longer first line keeps exactly its first 195 characters. */
  lemma LongFirstLineCut(line: string, rest: string, utcDate: string)
    requires '\n' !in line && |line| > MaxDescriptionLength
    ensures CreateVersionDescription(Some(line + "\n" + rest), utcDate) == line[..MaxDescriptionLength]
  {
    SplitAtFirstSeparator(line, '\n', rest);
    assert line + "\n" + rest == line + ['\n'] + rest;
  }

  // ===== findBucketWithPrefix =====

  /** `buckets[i]` is the first bucket whose name starts with `prefix`. */
  ghost predicate FirstWithPrefix(buckets: seq<Cloud.Bucket>, prefix: string, i: int)
  {
    0 <= i < |buckets| && StartsWith(buckets[i].name, prefix) &&
    forall j :: 0 <= j < i ==> !StartsWith(buckets[j].name, prefix)
  }

  /** `buckets.find(bucket => bucket.Name.indexOf(prefix) === 0)`: the first bucket whose name starts with `prefix`. */
  function FindBucketWithPrefix(buckets: seq<Cloud.Bucket>, prefix: string): (r: Option<Cloud.Bucket>)
    ensures r.None? <==> forall i :: 0 <= i < |buckets| ==> !StartsWith(buckets[i].name, prefix)
    ensures r.Some? ==> exists i :: FirstWithPrefix(buckets, prefix, i) && buckets[i] == r.value
    decreases |buckets|
  {
    if buckets == [] then None
    else if StartsWith(buckets[0].name, prefix) then Some(buckets[0])
    else
      var r := FindBucketWithPrefix(buckets[1..], prefix);
      if r.Some? then
        ghost var i :| FirstWithPrefix(buckets[1..], prefix, i) && buckets[1..][i] == r.value;
        assert FirstWithPrefix(buckets, prefix, i + 1);
        r
      else r
  }

  // ===== pickInstance =====

  datatype Pick = Pick(selected: Option<string>, description: string)

  function InstanceLines(instanceIds: seq<string>): (lines: seq<string>)
    ensures |lines| == |instanceIds|
    ensures forall i :: 0 <= i < |instanceIds| ==> lines[i] == "  - " + instanceIds[i]
  {
    seq(|instanceIds|, i requires 0 <= i < |instanceIds| => "  - " + instanceIds[i])
  }

  /** The instance is selected when the environment has it; the description lists every instance. */
  function PickInstance(instanceIds: seq<string>, instance: string): (p: Pick)
    ensures p.selected.Some? <==> instance in instanceIds
    ensures p.selected.Some? ==> p.selected.value == instance
    ensures StartsWith(p.description, "Available instances")
  {
    var description := Join(["Available instances"] + InstanceLines(instanceIds), "\n");
    JoinFirst(["Available instances"] + InstanceLines(instanceIds), "\n");
    Pick(if instance in instanceIds then Some(instance) else None, description)
  }

  lemma JoinFirst(parts: seq<string>, sep: string)
    requires |parts| >= 1
    ensures StartsWith(Join(parts, sep), parts[0])
  {
  }

  /** The description has a heading line and then one line per instance, in order. */
  lemma {:induction false} PickDescriptionLines(instanceIds: seq<string>, instance: string)
    requires forall i :: 0 <= i < |instanceIds| ==> '\n' !in instanceIds[i]
    ensures var lines := Split(PickInstance(instanceIds, instance).description, "\n");
      |lines| == |instanceIds| + 1 && lines[0] == "Available instances" &&
      forall i :: 0 <= i < |instanceIds| ==> lines[i + 1] == "  - " + instanceIds[i]
  {
    var parts := ["Available instances"] + InstanceLines(instanceIds);
    forall i | 0 <= i < |parts|
      ensures '\n' !in parts[i]
    {
      if i > 0 {
        assert parts[i] == "  - " + instanceIds[i - 1];
        assert '\n' !in instanceIds[i - 1];
      }
    }
    SplitJoin(parts, '\n');
  }
}
