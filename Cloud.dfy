/**
 * The cloud account the reconcilers act on, as an abstract provider store:
 * identity roles, instance profiles, managed and inline policy attachments,
 * storage buckets and their policies, event rules and their targets,
 * automation documents and environment option settings. Each read returns
 * a value or a failure; each mutating call either changes the store or fails
 * and leaves it as it was. `Account` holds the store and the log of every
 * mutating call issued against it.
 */
module Cloud {
  import opened Results
  import Json
  import Uri

  /** An event-rule target, compared field by field (lodash `isEqual` on plain records). */
  datatype Target = Target(id: string, arn: string, roleArn: Option<string>, input: Option<string>)

  datatype Rule = Rule(description: string, eventPattern: string)

  /** An automation document: `versions[i]` is the content of version `i + 1`. */
  datatype Document = Document(documentType: string, versions: seq<string>, defaultVersion: nat)
  {
    predicate Valid()
    {
      1 <= defaultVersion <= |versions|
    }
  }

  /** A document version as `getDocument` returns it: its content and its number. */
  datatype DocumentVersion = DocumentVersion(content: string, version: nat)

  /** `$DEFAULT`, `$LATEST` or a version number. */
  datatype VersionSelector = DefaultVersion | LatestVersion | Numbered(n: nat)

  datatype OptionSetting = OptionSetting(namespace: string, optionName: string, value: string)

  /** A storage bucket as `listBuckets` reports it. */
  datatype Bucket = Bucket(name: string)

  /** What a read or a mutating call is about; the store's fault sets are keyed by it. */
  datatype ResourceId =
    | RoleId(role: string)
    | InstanceProfileId(profile: string)
    | AttachedPoliciesId(attachedTo: string)
    | InlinePolicyId(inlineRole: string, policyName: string)
    | BucketId(bucket: string)
    | BucketPolicyId(policyBucket: string)
    | RuleId(rule: string)
    | TargetsId(targetRule: string)
    | DocumentId(document: string)
    | EnvironmentId(environment: string)
    | ReadinessId(readyEnvironment: string)   // waiting for the environment to become ready

  datatype ProviderError =
    | NoSuchEntity
    | EntityAlreadyExists
    | LimitExceeded
    | DuplicateDocumentContent
    | ResourceNotFound
    | ServiceFailure

  /**
   * The store. Identity documents are kept as the identity service returns
   * them (percent-encoded compact JSON); bucket policies in compact form;
   * document versions exactly as written. A resource id in `readFaults`
   * makes every read of it fail, one in `writeFaults` every mutating call.
   */
  datatype Cloud = Cloud(
    roles: map<string, string>,
    instanceProfiles: map<string, seq<string>>,
    attachedPolicies: map<string, seq<string>>,
    inlinePolicies: map<(string, string), string>,
    buckets: set<string>,
    bucketPolicies: map<string, string>,
    rules: map<string, Rule>,
    targets: map<string, seq<Target>>,
    documents: map<string, Document>,
    environments: map<string, seq<OptionSetting>>,
    readFaults: set<ResourceId>,
    writeFaults: set<ResourceId>)

  /** The mutating calls (and the opaque wait) the core issues. */
  datatype Call =
    | CreateRole(roleName: string, assumeRolePolicyDocument: string)
    | UpdateAssumeRolePolicy(roleName: string, policyDocument: string)
    | CreateInstanceProfile(instanceProfileName: string)
    | AddRoleToInstanceProfile(profileName: string, addedRole: string)
    | AttachRolePolicy(attachRole: string, policyArn: string)
    | PutRolePolicy(putRole: string, putPolicyName: string, putDocument: string)
    | CreateBucket(bucketName: string, locationConstraint: Option<string>)
    | PutBucketPolicy(policyBucketName: string, policy: string)
    | PutRule(ruleName: string, ruleDescription: string, eventPattern: string)
    | PutTargets(targetsRule: string, newTargets: seq<Target>)
    | CreateDocument(createName: string, createContent: string, documentType: string)
    | UpdateDocument(updateName: string, updateContent: string, fromVersion: VersionSelector)
    | UpdateDocumentDefaultVersion(defaultName: string, defaultVersion: nat)
    | UpdateEnvironment(environmentName: string, optionSettings: seq<OptionSetting>)
    | RequestEnvironmentInfo(infoEnvironment: string, infoType: string)
    | WaitForEnvReady(waitEnvironment: string, strict: bool)

  /** The form in which the identity service returns a document it was given. */
  function StoredIamDocument(doc: string): string
  {
    Uri.Encode(Json.Normalize(doc))
  }

  /** The form in which the storage service returns a bucket policy it was given. */
  function StoredBucketPolicy(policy: string): string
  {
    Json.Normalize(policy)
  }

  // ----- reads -----

  function GetRole(c: Cloud, name: string): Result<string, ProviderError>
  {
    if RoleId(name) in c.readFaults then Err(ServiceFailure)
    else if name !in c.roles then Err(NoSuchEntity)
    else Ok(c.roles[name])
  }

  /** The roles of an instance profile. */
  function GetInstanceProfile(c: Cloud, name: string): Result<seq<string>, ProviderError>
  {
    if InstanceProfileId(name) in c.readFaults then Err(ServiceFailure)
    else if name !in c.instanceProfiles then Err(NoSuchEntity)
    else Ok(c.instanceProfiles[name])
  }

  function AttachedOf(c: Cloud, role: string): seq<string>
  {
    if role in c.attachedPolicies then c.attachedPolicies[role] else []
  }

  function ListAttachedRolePolicies(c: Cloud, role: string): Result<seq<string>, ProviderError>
  {
    if AttachedPoliciesId(role) in c.readFaults then Err(ServiceFailure)
    else if role !in c.roles then Err(NoSuchEntity)
    else Ok(AttachedOf(c, role))
  }

  function GetRolePolicy(c: Cloud, role: string, policyName: string): Result<string, ProviderError>
  {
    if InlinePolicyId(role, policyName) in c.readFaults then Err(ServiceFailure)
    else if (role, policyName) !in c.inlinePolicies then Err(NoSuchEntity)
    else Ok(c.inlinePolicies[(role, policyName)])
  }

  function GetBucketPolicy(c: Cloud, bucket: string): Result<string, ProviderError>
  {
    if BucketPolicyId(bucket) in c.readFaults then Err(ServiceFailure)
    else if bucket !in c.bucketPolicies then Err(ResourceNotFound)
    else Ok(c.bucketPolicies[bucket])
  }

  function DescribeRule(c: Cloud, name: string): Result<Rule, ProviderError>
  {
    if RuleId(name) in c.readFaults then Err(ServiceFailure)
    else if name !in c.rules then Err(ResourceNotFound)
    else Ok(c.rules[name])
  }

  function TargetsOf(c: Cloud, rule: string): seq<Target>
  {
    if rule in c.targets then c.targets[rule] else []
  }

  function ListTargetsByRule(c: Cloud, rule: string): Result<seq<Target>, ProviderError>
  {
    if TargetsId(rule) in c.readFaults then Err(ServiceFailure)
    else if rule !in c.rules then Err(ResourceNotFound)
    else Ok(TargetsOf(c, rule))
  }

  function VersionNumber(d: Document, sel: VersionSelector): nat
  {
    match sel
    case DefaultVersion => d.defaultVersion
    case LatestVersion => |d.versions|
    case Numbered(n) => n
  }

  function GetDocument(c: Cloud, name: string, sel: VersionSelector): Result<DocumentVersion, ProviderError>
  {
    if DocumentId(name) in c.readFaults || name !in c.documents then Err(ResourceNotFound)
    else
      var d := c.documents[name];
      var n := VersionNumber(d, sel);
      if 1 <= n <= |d.versions| then Ok(DocumentVersion(d.versions[n - 1], n)) else Err(ResourceNotFound)
  }

  /** The option settings of the first configuration of an environment. */
  function DescribeConfigurationSettings(c: Cloud, environment: string): Result<seq<OptionSetting>, ProviderError>
  {
    if EnvironmentId(environment) in c.readFaults then Err(ServiceFailure)
    else if environment !in c.environments then Err(ResourceNotFound)
    else Ok(c.environments[environment])
  }

  // ----- mutating calls -----

  /** The resource a call acts on; the wait is about its environment. */
  function Subject(call: Call): ResourceId
  {
    match call
    case CreateRole(r, _) => RoleId(r)
    case UpdateAssumeRolePolicy(r, _) => RoleId(r)
    case CreateInstanceProfile(p) => InstanceProfileId(p)
    case AddRoleToInstanceProfile(p, _) => InstanceProfileId(p)
    case AttachRolePolicy(r, _) => AttachedPoliciesId(r)
    case PutRolePolicy(r, n, _) => InlinePolicyId(r, n)
    case CreateBucket(b, _) => BucketId(b)
    case PutBucketPolicy(b, _) => BucketPolicyId(b)
    case PutRule(r, _, _) => RuleId(r)
    case PutTargets(r, _) => TargetsId(r)
    case CreateDocument(n, _, _) => DocumentId(n)
    case UpdateDocument(n, _, _) => DocumentId(n)
    case UpdateDocumentDefaultVersion(n, _) => DocumentId(n)
    case UpdateEnvironment(e, _) => EnvironmentId(e)
    case RequestEnvironmentInfo(e, _) => EnvironmentId(e)
    case WaitForEnvReady(e, _) => ReadinessId(e)
  }

  /** `putTargets`: each new target replaces any target with the same id. */
  function UpsertTargets(current: seq<Target>, added: seq<Target>): (r: seq<Target>)
    ensures added != [] ==> added[|added| - 1] in r
    decreases |added|
  {
    if added == [] then current
    else
      var t := added[|added| - 1];
      Without(UpsertTargets(current, added[..|added| - 1]), t.id) + [t]
  }

  function Without(ts: seq<Target>, id: string): seq<Target>
  {
    if ts == [] then [] else (if ts[0].id == id then [] else [ts[0]]) + Without(ts[1..], id)
  }

  /** The effect of one mutating call on the store, and whether it resolved. */
  function Apply(c: Cloud, call: Call): (Cloud, Outcome<ProviderError>)
  {
    if Subject(call) in c.writeFaults then (c, Fail(ServiceFailure))
    else
      match call
      case CreateRole(r, doc) => CreateRoleIn(c, r, doc)
      case UpdateAssumeRolePolicy(r, doc) => UpdateAssumeRolePolicyIn(c, r, doc)
      case CreateInstanceProfile(p) => CreateInstanceProfileIn(c, p)
      case AddRoleToInstanceProfile(p, r) => AddRoleToInstanceProfileIn(c, p, r)
      case AttachRolePolicy(r, arn) => AttachRolePolicyIn(c, r, arn)
      case PutRolePolicy(r, n, doc) => PutRolePolicyIn(c, r, n, doc)
      case CreateBucket(b, _) => CreateBucketIn(c, b)
      case PutBucketPolicy(b, policy) => PutBucketPolicyIn(c, b, policy)
      case PutRule(r, description, pattern) => (c.(rules := c.rules[r := Rule(description, pattern)]), Pass)
      case PutTargets(r, ts) => PutTargetsIn(c, r, ts)
      case CreateDocument(n, content, kind) => CreateDocumentIn(c, n, content, kind)
      case UpdateDocument(n, content, _) => UpdateDocumentIn(c, n, content)
      case UpdateDocumentDefaultVersion(n, v) => UpdateDocumentDefaultVersionIn(c, n, v)
      case UpdateEnvironment(e, settings) => UpdateEnvironmentIn(c, e, settings)
      case RequestEnvironmentInfo(e, _) => if e !in c.environments then (c, Fail(ResourceNotFound)) else (c, Pass)
      case WaitForEnvReady(_, _) => (c, Pass)
  }

  function CreateRoleIn(c: Cloud, r: string, doc: string): (Cloud, Outcome<ProviderError>)
  {
    if r in c.roles then (c, Fail(EntityAlreadyExists))
    else (c.(roles := c.roles[r := StoredIamDocument(doc)]), Pass)
  }

  function UpdateAssumeRolePolicyIn(c: Cloud, r: string, doc: string): (Cloud, Outcome<ProviderError>)
  {
    if r !in c.roles then (c, Fail(NoSuchEntity))
    else (c.(roles := c.roles[r := StoredIamDocument(doc)]), Pass)
  }

  function CreateInstanceProfileIn(c: Cloud, p: string): (Cloud, Outcome<ProviderError>)
  {
    if p in c.instanceProfiles then (c, Fail(EntityAlreadyExists))
    else (c.(instanceProfiles := c.instanceProfiles[p := []]), Pass)
  }

  /** An instance profile holds at most one role. */
  function AddRoleToInstanceProfileIn(c: Cloud, p: string, r: string): (Cloud, Outcome<ProviderError>)
  {
    if p !in c.instanceProfiles || r !in c.roles then (c, Fail(NoSuchEntity))
    else if |c.instanceProfiles[p]| >= 1 then (c, Fail(LimitExceeded))
    else (c.(instanceProfiles := c.instanceProfiles[p := [r]]), Pass)
  }

  /** Attaching an attached policy again succeeds and changes nothing. */
  function AttachRolePolicyIn(c: Cloud, r: string, arn: string): (Cloud, Outcome<ProviderError>)
  {
    if r !in c.roles then (c, Fail(NoSuchEntity))
    else if arn in AttachedOf(c, r) then (c, Pass)
    else (c.(attachedPolicies := c.attachedPolicies[r := AttachedOf(c, r) + [arn]]), Pass)
  }

  function PutRolePolicyIn(c: Cloud, r: string, n: string, doc: string): (Cloud, Outcome<ProviderError>)
  {
    if r !in c.roles then (c, Fail(NoSuchEntity))
    else (c.(inlinePolicies := c.inlinePolicies[(r, n) := StoredIamDocument(doc)]), Pass)
  }

  function CreateBucketIn(c: Cloud, b: string): (Cloud, Outcome<ProviderError>)
  {
    if b in c.buckets then (c, Fail(EntityAlreadyExists))
    else (c.(buckets := c.buckets + {b}), Pass)
  }

  function PutBucketPolicyIn(c: Cloud, b: string, policy: string): (Cloud, Outcome<ProviderError>)
  {
    if b !in c.buckets then (c, Fail(ResourceNotFound))
    else (c.(bucketPolicies := c.bucketPolicies[b := StoredBucketPolicy(policy)]), Pass)
  }

  function PutTargetsIn(c: Cloud, r: string, ts: seq<Target>): (Cloud, Outcome<ProviderError>)
  {
    if r !in c.rules then (c, Fail(ResourceNotFound))
    else (c.(targets := c.targets[r := UpsertTargets(TargetsOf(c, r), ts)]), Pass)
  }

  function CreateDocumentIn(c: Cloud, n: string, content: string, kind: string): (Cloud, Outcome<ProviderError>)
  {
    if n in c.documents then (c, Fail(EntityAlreadyExists))
    else (c.(documents := c.documents[n := Document(kind, [content], 1)]), Pass)
  }

  /** A new latest version, refused when the latest version already has this content. */
  function UpdateDocumentIn(c: Cloud, n: string, content: string): (Cloud, Outcome<ProviderError>)
  {
    if n !in c.documents then (c, Fail(ResourceNotFound))
    else
      var d := c.documents[n];
      if |d.versions| > 0 && d.versions[|d.versions| - 1] == content then (c, Fail(DuplicateDocumentContent))
      else (c.(documents := c.documents[n := d.(versions := d.versions + [content])]), Pass)
  }

  function UpdateDocumentDefaultVersionIn(c: Cloud, n: string, v: nat): (Cloud, Outcome<ProviderError>)
  {
    if n !in c.documents || !(1 <= v <= |c.documents[n].versions|) then (c, Fail(ResourceNotFound))
    else (c.(documents := c.documents[n := c.documents[n].(defaultVersion := v)]), Pass)
  }

  /** Later settings take precedence over earlier ones with the same key. */
  function UpdateEnvironmentIn(c: Cloud, e: string, settings: seq<OptionSetting>): (Cloud, Outcome<ProviderError>)
  {
    if e !in c.environments then (c, Fail(ResourceNotFound))
    else (c.(environments := c.environments[e := c.environments[e] + settings]), Pass)
  }

  /** The store after a run of calls, the calls issued, and how the run ended. */
  datatype Effect = Effect(cloud: Cloud, calls: seq<Call>, outcome: Outcome<ProviderError>)

  /** Calls awaited one after the other: the first failure ends the run. */
  function Sequence(c: Cloud, cs: seq<Call>): (e: Effect)
    ensures e.calls <= cs
    ensures e.outcome.Pass? ==> e.calls == cs
    decreases |cs|
  {
    if cs == [] then Effect(c, [], Pass)
    else
      var (c1, o) := Apply(c, cs[0]);
      if o.Fail? then Effect(c1, [cs[0]], o)
      else
        var rest := Sequence(c1, cs[1..]);
        Effect(rest.cloud, [cs[0]] + rest.calls, rest.outcome)
  }

  lemma ApplyAttach(c: Cloud, role: string, arn: string)
    requires role in c.roles && AttachedPoliciesId(role) !in c.writeFaults
    ensures Apply(c, AttachRolePolicy(role, arn)).1 == Pass
    ensures var c1 := Apply(c, AttachRolePolicy(role, arn)).0;
      c1 == if arn in AttachedOf(c, role) then c else c.(attachedPolicies := c.attachedPolicies[role := AttachedOf(c, role) + [arn]])
  {
  }

  lemma ApplyAttachAnyway(c: Cloud, role: string, arn: string)
    ensures var c1 := Apply(c, AttachRolePolicy(role, arn)).0;
      c1 == c || c1 == c.(attachedPolicies := c.attachedPolicies[role := AttachedOf(c, role) + [arn]])
  {
  }

  lemma ApplyPutRolePolicy(c: Cloud, role: string, name: string, doc: string)
    requires role in c.roles && InlinePolicyId(role, name) !in c.writeFaults
    ensures Apply(c, PutRolePolicy(role, name, doc)) ==
      (c.(inlinePolicies := c.inlinePolicies[(role, name) := StoredIamDocument(doc)]), Pass)
  {
  }

  lemma ApplyCreateDocument(c: Cloud, name: string, content: string, kind: string)
    requires name !in c.documents && DocumentId(name) !in c.writeFaults
    ensures Apply(c, CreateDocument(name, content, kind)) ==
      (c.(documents := c.documents[name := Document(kind, [content], 1)]), Pass)
  {
  }

  lemma ApplyUpdateDocument(c: Cloud, name: string, content: string, from: VersionSelector)
    requires name in c.documents && DocumentId(name) !in c.writeFaults
    ensures var d := c.documents[name];
      Apply(c, UpdateDocument(name, content, from)) ==
        if |d.versions| > 0 && d.versions[|d.versions| - 1] == content then (c, Fail(DuplicateDocumentContent))
        else (c.(documents := c.documents[name := d.(versions := d.versions + [content])]), Pass)
  {
  }

  lemma ApplyUpdateDefaultVersion(c: Cloud, name: string, v: nat)
    requires name in c.documents && DocumentId(name) !in c.writeFaults
    requires 1 <= v <= |c.documents[name].versions|
    ensures Apply(c, UpdateDocumentDefaultVersion(name, v)) ==
      (c.(documents := c.documents[name := c.documents[name].(defaultVersion := v)]), Pass)
  {
  }

  lemma ApplyUpdateEnvironment(c: Cloud, environment: string, settings: seq<OptionSetting>)
    requires environment in c.environments && EnvironmentId(environment) !in c.writeFaults
    ensures Apply(c, UpdateEnvironment(environment, settings)) ==
      (c.(environments := c.environments[environment := c.environments[environment] + settings]), Pass)
  {
  }

  /** The wait changes nothing, and it rejects exactly when waiting on its environment is faulted. */
  lemma ApplyWait(c: Cloud, environment: string, strict: bool)
    ensures Apply(c, WaitForEnvReady(environment, strict)) ==
      (c, if ReadinessId(environment) in c.writeFaults then Fail(ServiceFailure) else Pass)
  {
  }

  /** Two awaited calls, the first of which resolves. */
  lemma SequenceTwo(c: Cloud, first: Call, second: Call)
    requires Apply(c, first).1 == Pass
    ensures var c1 := Apply(c, first).0;
      Sequence(c, [first, second]) == Effect(Apply(c1, second).0, [first, second], Apply(c1, second).1)
  {
    assert [first, second][1..] == [second];
    SequenceOne(Apply(c, first).0, second);
  }

  lemma SequenceOne(c: Cloud, call: Call)
    ensures Sequence(c, [call]) == Effect(Apply(c, call).0, [call], Apply(c, call).1)
  {
    assert [call][1..] == [];
  }

  /** Calls issued together (`Promise.all`): every call is issued; the first failure in order is reported. */
  function All(c: Cloud, cs: seq<Call>): (e: Effect)
    ensures e.calls == cs
    decreases |cs|
  {
    if cs == [] then Effect(c, [], Pass)
    else
      var first := All(c, cs[..|cs| - 1]);
      var (c2, o) := Apply(first.cloud, cs[|cs| - 1]);
      Effect(c2, cs, if first.outcome.Fail? then first.outcome else o)
  }

  /** One more call issued together with the others: applied after them, its failure reported only when none came before. */
  lemma AllSnoc(c: Cloud, cs: seq<Call>, call: Call)
    ensures var first := All(c, cs);
      All(c, cs + [call]) == Effect(Apply(first.cloud, call).0, cs + [call],
                                    if first.outcome.Fail? then first.outcome else Apply(first.cloud, call).1)
  {
    assert (cs + [call])[..|cs|] == cs;
  }

  /** The account: the store and the log of every mutating call issued against it. */
  class Account {
    var cloud: Cloud
    var calls: seq<Call>

    constructor (initial: Cloud)
      ensures cloud == initial && calls == []
    {
      cloud := initial;
      calls := [];
    }

    /** Issues one mutating call and waits for it. */
    method Invoke(call: Call) returns (r: Outcome<ProviderError>)
      modifies this
      ensures (cloud, r) == Apply(old(cloud), call)
      ensures calls == old(calls) + [call]
    {
      var applied := Apply(cloud, call);
      cloud, r := applied.0, applied.1;
      calls := calls + [call];
    }
  }
}
