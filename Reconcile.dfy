/**
 * The `ensure*` reconcilers: each reads the current state of one resource,
 * decides what to do, and issues at most the mutating calls needed to make
 * the resource match what the deployment wants. Each decision is a pure plan
 * over the store; each reconciler is a method on the `Account` proved to do
 * exactly what its plan says; and each plan is proved to converge: once the
 * reconciler has run on a healthy store, running it again issues no call.
 */
module Reconcile {
  import opened Results
  import Json
  import Uri
  import opened Cloud

  /** The reconciler left the account as the effect `e` says, starting from call log `calls0`. */
  predicate Ran(acct: Account, calls0: seq<Call>, e: Effect)
    reads acct
  {
    acct.cloud == e.cloud && acct.calls == calls0 + e.calls
  }

  /** What a reconciler that reports whether it created something resolves to. */
  function Returned(e: Effect, created: bool): Result<bool, ProviderError>
  {
    if e.outcome.Fail? then Err(e.outcome.error) else Ok(created)
  }

  // ===== roles =====

  /** The trust policy of a role as `ensureRoleExists` reads it; None when the read or the decoding fails. */
  function CurrentTrustPolicy(c: Cloud, name: string): Option<string>
  {
    match GetRole(c, name)
    case Err(_) => None
    case Ok(raw) => Uri.Decode(raw)
  }

  /** A trust policy stored percent-encoded reads back as the policy itself. */
  lemma TrustPolicyReadsBack(c: Cloud, name: string, doc: string)
    requires RoleId(name) !in c.readFaults && name in c.roles && c.roles[name] == Uri.Encode(doc)
    ensures CurrentTrustPolicy(c, name) == Some(doc)
  {
    Uri.DecodeEncode(doc);
  }

  /**
   * A role that cannot be read is created; a readable one whose trust policy
   * differs from the compact form of the wanted one is updated, and only when
   * `ensureAssumeRolePolicy` is set.
   */
  function RolePlan(c: Cloud, name: string, doc: string, ensureAssumeRolePolicy: bool): (plan: seq<Call>)
    ensures |plan| <= 1
    ensures plan == [CreateRole(name, doc)] <==> CurrentTrustPolicy(c, name).None?
    ensures plan == [UpdateAssumeRolePolicy(name, doc)] <==>
      CurrentTrustPolicy(c, name).Some? && CurrentTrustPolicy(c, name).value != Json.Normalize(doc) && ensureAssumeRolePolicy
    ensures !ensureAssumeRolePolicy ==> forall i :: 0 <= i < |plan| ==> !plan[i].UpdateAssumeRolePolicy?
    ensures plan == [] <==>
      CurrentTrustPolicy(c, name).Some? && (CurrentTrustPolicy(c, name).value == Json.Normalize(doc) || !ensureAssumeRolePolicy)
  {
    match CurrentTrustPolicy(c, name)
    case None => [CreateRole(name, doc)]
    case Some(current) =>
      if current != Json.Normalize(doc) && ensureAssumeRolePolicy then [UpdateAssumeRolePolicy(name, doc)] else []
  }

  method EnsureRoleExists(acct: Account, name: string, assumeRolePolicyDocument: string, ensureAssumeRolePolicy: bool)
    returns (outcome: Outcome<ProviderError>)
    modifies acct
    ensures var e := Sequence(old(acct.cloud), RolePlan(old(acct.cloud), name, assumeRolePolicyDocument, ensureAssumeRolePolicy));
      Ran(acct, old(acct.calls), e) && outcome == e.outcome
  {
    var found := true;
    var updateAssumeRolePolicy := false;
    match GetRole(acct.cloud, name) {
      case Err(_) =>
        found := false;
      case Ok(raw) =>
        match Uri.Decode(raw) {
          case None =>
            found := false;
          case Some(current) =>
            if current != Json.Normalize(assumeRolePolicyDocument) && ensureAssumeRolePolicy {
              updateAssumeRolePolicy := true;
            }
        }
    }
    if !found {
      SequenceOne(acct.cloud, CreateRole(name, assumeRolePolicyDocument));
      outcome := acct.Invoke(CreateRole(name, assumeRolePolicyDocument));
    } else if updateAssumeRolePolicy {
      SequenceOne(acct.cloud, UpdateAssumeRolePolicy(name, assumeRolePolicyDocument));
      outcome := acct.Invoke(UpdateAssumeRolePolicy(name, assumeRolePolicyDocument));
    } else {
      outcome := Pass;
    }
  }

  /** After `ensureRoleExists` has run on a healthy store, running it again issues no call. */
  lemma RoleConverges(c: Cloud, name: string, doc: string, ensureAssumeRolePolicy: bool)
    requires RoleId(name) !in c.readFaults && RoleId(name) !in c.writeFaults
    requires name in c.roles ==> Uri.Decode(c.roles[name]).Some?
    ensures var e := Sequence(c, RolePlan(c, name, doc, ensureAssumeRolePolicy));
      e.outcome == Pass && RolePlan(e.cloud, name, doc, ensureAssumeRolePolicy) == []
  {
    var plan := RolePlan(c, name, doc, ensureAssumeRolePolicy);
    Uri.DecodeEncode(Json.Normalize(doc));
    Json.NormalizeIdempotent(doc);
    if plan != [] {
      SequenceOne(c, plan[0]);
    }
  }

  // ===== instance profiles =====

  function InstanceProfilePlan(c: Cloud, name: string): (plan: seq<Call>)
    ensures plan == [] <==> GetInstanceProfile(c, name).Ok?
    ensures plan != [] ==> plan == [CreateInstanceProfile(name)]
  {
    if GetInstanceProfile(c, name).Err? then [CreateInstanceProfile(name)] else []
  }

  method EnsureInstanceProfileExists(acct: Account, name: string) returns (outcome: Outcome<ProviderError>)
    modifies acct
    ensures var e := Sequence(old(acct.cloud), InstanceProfilePlan(old(acct.cloud), name));
      Ran(acct, old(acct.calls), e) && outcome == e.outcome
  {
    var found := GetInstanceProfile(acct.cloud, name).Ok?;
    if !found {
      SequenceOne(acct.cloud, CreateInstanceProfile(name));
      outcome := acct.Invoke(CreateInstanceProfile(name));
    } else {
      outcome := Pass;
    }
  }

  lemma InstanceProfileConverges(c: Cloud, name: string)
    requires InstanceProfileId(name) !in c.readFaults && InstanceProfileId(name) !in c.writeFaults
    ensures var e := Sequence(c, InstanceProfilePlan(c, name));
      e.outcome == Pass && InstanceProfilePlan(e.cloud, name) == []
  {
    if name !in c.instanceProfiles {
      SequenceOne(c, CreateInstanceProfile(name));
    }
  }

  // ===== the role of an instance profile =====

  /** The role is added unless it is already the profile's first role. */
  function RoleAddedPlan(roles: seq<string>, profile: string, role: string): (plan: seq<Call>)
    ensures plan == [] <==> |roles| > 0 && roles[0] == role
    ensures plan != [] ==> plan == [AddRoleToInstanceProfile(profile, role)]
  {
    if |roles| == 0 || roles[0] != role then [AddRoleToInstanceProfile(profile, role)] else []
  }

  /** A failed read of the profile is not caught: the reconciler rejects with it. */
  function RoleAddedEffect(c: Cloud, profile: string, role: string): (e: Effect)
    ensures e.calls <= [AddRoleToInstanceProfile(profile, role)]
    ensures e.calls == [] ==> e.cloud == c
    ensures e.outcome.Pass? ==> GetInstanceProfile(c, profile).Ok?
  {
    match GetInstanceProfile(c, profile)
    case Err(e) => Effect(c, [], Fail(e))
    case Ok(roles) =>
      var plan := RoleAddedPlan(roles, profile, role);
      if plan == [] then Sequence(c, plan)
      else
        SequenceOne(c, plan[0]);
        Sequence(c, plan)
  }

  method EnsureRoleAdded(acct: Account, instanceProfile: string, role: string) returns (outcome: Outcome<ProviderError>)
    modifies acct
    ensures var e := RoleAddedEffect(old(acct.cloud), instanceProfile, role);
      Ran(acct, old(acct.calls), e) && outcome == e.outcome
  {
    match GetInstanceProfile(acct.cloud, instanceProfile) {
      case Err(e) =>
        outcome := Fail(e);
      case Ok(roles) =>
        var added := true;
        if |roles| == 0 || roles[0] != role {
          added := false;
        }
        if !added {
          SequenceOne(acct.cloud, AddRoleToInstanceProfile(instanceProfile, role));
          outcome := acct.Invoke(AddRoleToInstanceProfile(instanceProfile, role));
        } else {
          outcome := Pass;
        }
    }
  }

  /** An empty profile gets the role, after which the role is its first role and nothing more is added. */
  lemma RoleAddedConverges(c: Cloud, profile: string, role: string)
    requires InstanceProfileId(profile) !in c.readFaults && InstanceProfileId(profile) !in c.writeFaults
    requires profile in c.instanceProfiles && role in c.roles
    requires |c.instanceProfiles[profile]| == 0 || c.instanceProfiles[profile][0] == role
    ensures var e := RoleAddedEffect(c, profile, role);
      e.outcome == Pass && profile in e.cloud.instanceProfiles && |e.cloud.instanceProfiles[profile]| > 0 && e.cloud.instanceProfiles[profile][0] == role &&
      RoleAddedEffect(e.cloud, profile, role).calls == []
  {
    var roles := c.instanceProfiles[profile];
    if |roles| == 0 {
      SequenceOne(c, AddRoleToInstanceProfile(profile, role));
    }
  }

  /** A profile that already holds another role cannot take a second one: the reconciler rejects. */
  lemma RoleAddedToOccupiedProfileFails(c: Cloud, profile: string, role: string)
    requires InstanceProfileId(profile) !in c.readFaults && InstanceProfileId(profile) !in c.writeFaults
    requires profile in c.instanceProfiles && role in c.roles
    requires |c.instanceProfiles[profile]| > 0 && c.instanceProfiles[profile][0] != role
    ensures RoleAddedEffect(c, profile, role).outcome == Fail(LimitExceeded)
    ensures RoleAddedEffect(c, profile, role).cloud == c
  {
    SequenceOne(c, AddRoleToInstanceProfile(profile, role));
  }

  // ===== managed policies =====

  /** The wanted policies not yet attached, in the order they are wanted. */
  function Missing(policies: seq<string>, arns: seq<string>): (r: seq<string>)
    ensures forall p :: p in r <==> p in policies && p !in arns
    ensures |r| <= |policies|
    decreases |policies|
  {
    if policies == [] then []
    else
      var prefix := policies[..|policies| - 1];
      var p := policies[|policies| - 1];
      assert policies == prefix + [p];
      var rest := Missing(prefix, arns);
      if p in arns then rest else rest + [p]
  }

  /** The selection keeps the wanted order: the missing policies of a concatenation are concatenated. */
  lemma {:induction false} MissingConcat(a: seq<string>, b: seq<string>, arns: seq<string>)
    ensures Missing(a + b, arns) == Missing(a, arns) + Missing(b, arns)
    decreases |b|
  {
    if b != [] {
      var b0 := b[..|b| - 1];
      var p := b[|b| - 1];
      assert (a + b)[..|a + b| - 1] == a + b0;
      assert (a + b)[|a + b| - 1] == p;
      MissingConcat(a, b0, arns);
    } else {
      assert a + b == a;
    }
  }

  /** The `reduce` that collects the unattached policies. */
  method UnattachedPolicies(policies: seq<string>, arns: seq<string>) returns (result: seq<string>)
    ensures result == Missing(policies, arns)
  {
    result := [];
    var i := 0;
    while i < |policies|
      invariant 0 <= i <= |policies|
      invariant result == Missing(policies[..i], arns)
    {
      assert policies[..i + 1][..i] == policies[..i];
      if policies[i] !in arns {
        result := result + [policies[i]];
      }
      i := i + 1;
    }
    assert policies[..|policies|] == policies;
  }

  function AttachCalls(role: string, policies: seq<string>): (calls: seq<Call>)
    ensures |calls| == |policies|
    ensures forall i :: 0 <= i < |policies| ==> calls[i] == AttachRolePolicy(role, policies[i])
  {
    seq(|policies|, i requires 0 <= i < |policies| => AttachRolePolicy(role, policies[i]))
  }

  /** `attachPolicies`: one attach per policy, all issued, awaited together. */
  method AttachPolicies(acct: Account, role: string, policies: seq<string>) returns (outcome: Outcome<ProviderError>)
    modifies acct
    ensures var e := All(old(acct.cloud), AttachCalls(role, policies));
      Ran(acct, old(acct.calls), e) && outcome == e.outcome
  {
    ghost var c0 := acct.cloud;
    ghost var calls0 := acct.calls;
    outcome := Pass;
    var i := 0;
    while i < |policies|
      invariant 0 <= i <= |policies|
      invariant All(c0, AttachCalls(role, policies[..i])) == Effect(acct.cloud, AttachCalls(role, policies[..i]), outcome)
      invariant acct.calls == calls0 + AttachCalls(role, policies[..i])
    {
      assert AttachCalls(role, policies[..i + 1]) == AttachCalls(role, policies[..i]) + [AttachRolePolicy(role, policies[i])];
      AllSnoc(c0, AttachCalls(role, policies[..i]), AttachRolePolicy(role, policies[i]));
      var o := acct.Invoke(AttachRolePolicy(role, policies[i]));
      if outcome.Pass? {
        outcome := o;
      }
      i := i + 1;
    }
    assert policies[..|policies|] == policies;
  }

  /** A failed listing is not caught; otherwise every missing policy is attached. */
  function PoliciesEffect(c: Cloud, role: string, policies: seq<string>): (e: Effect)
    ensures |e.calls| <= |policies|
    ensures ListAttachedRolePolicies(c, role).Err? ==> e.calls == [] && e.outcome.Fail?
    ensures ListAttachedRolePolicies(c, role).Ok? ==>
      forall p :: p in policies && p !in ListAttachedRolePolicies(c, role).value ==> AttachRolePolicy(role, p) in e.calls
  {
    match ListAttachedRolePolicies(c, role)
    case Err(e) => Effect(c, [], Fail(e))
    case Ok(arns) => All(c, AttachCalls(role, Missing(policies, arns)))
  }

  method EnsurePoliciesAttached(acct: Account, role: string, policies: seq<string>) returns (outcome: Outcome<ProviderError>)
    modifies acct
    ensures var e := PoliciesEffect(old(acct.cloud), role, policies);
      Ran(acct, old(acct.calls), e) && outcome == e.outcome
  {
    match ListAttachedRolePolicies(acct.cloud, role) {
      case Err(e) =>
        outcome := Fail(e);
      case Ok(arns) =>
        var unattachedPolicies := UnattachedPolicies(policies, arns);
        if |unattachedPolicies| > 0 {
          outcome := AttachPolicies(acct, role, unattachedPolicies);
        } else {
          outcome := Pass;
        }
    }
  }

  /**
   * Attaching never detaches: every role's attached list before the calls is
   * a prefix of its list after them, and nothing but attachments changes.
   */
  lemma {:induction false} AttachNeverDetaches(c: Cloud, role: string, policies: seq<string>, other: string)
    ensures var e := All(c, AttachCalls(role, policies));
      AttachedOf(c, other) <= AttachedOf(e.cloud, other) &&
      e.cloud.roles == c.roles && e.cloud.readFaults == c.readFaults && e.cloud.writeFaults == c.writeFaults
    decreases |policies|
  {
    if policies != [] {
      var prefix := policies[..|policies| - 1];
      assert AttachCalls(role, policies)[..|policies| - 1] == AttachCalls(role, prefix);
      AttachNeverDetaches(c, role, prefix, other);
      ApplyAttachAnyway(All(c, AttachCalls(role, prefix)).cloud, role, policies[|policies| - 1]);
    }
  }

  /** On a healthy role every given policy ends up attached and the calls all resolve. */
  lemma {:induction false} AttachAll(c: Cloud, role: string, policies: seq<string>)
    requires role in c.roles && AttachedPoliciesId(role) !in c.writeFaults
    ensures var e := All(c, AttachCalls(role, policies));
      e.outcome == Pass && forall p :: p in policies ==> p in AttachedOf(e.cloud, role)
    decreases |policies|
  {
    if policies != [] {
      var prefix, last := policies[..|policies| - 1], policies[|policies| - 1];
      var call := AttachRolePolicy(role, last);
      assert AttachCalls(role, policies) == AttachCalls(role, prefix) + [call];
      AttachAll(c, role, prefix);
      AttachNeverDetaches(c, role, prefix, role);
      var mid := All(c, AttachCalls(role, prefix)).cloud;
      AllSnoc(c, AttachCalls(role, prefix), call);
      AttachOne(mid, role, last);
      var after := Apply(mid, call).0;
      forall p | p in policies
        ensures p in AttachedOf(after, role)
      {
        if p != last {
          assert p in prefix;
        }
      }
    }
  }

  /** One attach on a healthy role resolves, keeps the attached list as a prefix and leaves the policy attached. */
  lemma AttachOne(c: Cloud, role: string, arn: string)
    requires role in c.roles && AttachedPoliciesId(role) !in c.writeFaults
    ensures var r := Apply(c, AttachRolePolicy(role, arn));
      r.1 == Pass && AttachedOf(c, role) <= AttachedOf(r.0, role) && arn in AttachedOf(r.0, role)
  {
    ApplyAttach(c, role, arn);
  }

  /** After `ensurePoliciesAttached` has run on a healthy role, nothing is missing and no further call is made. */
  lemma PoliciesConverge(c: Cloud, role: string, policies: seq<string>)
    requires role in c.roles
    requires AttachedPoliciesId(role) !in c.readFaults && AttachedPoliciesId(role) !in c.writeFaults
    ensures var e := PoliciesEffect(c, role, policies);
      e.outcome == Pass && Missing(policies, AttachedOf(e.cloud, role)) == [] &&
      PoliciesEffect(e.cloud, role, policies).calls == []
  {
    var arns := AttachedOf(c, role);
    var missing := Missing(policies, arns);
    AttachAll(c, role, missing);
    AttachNeverDetaches(c, role, missing, role);
    var after := All(c, AttachCalls(role, missing)).cloud;
    forall p | p in policies
      ensures p in AttachedOf(after, role)
    {
      if p !in arns {
        assert p in missing;
      }
    }
    NothingMissing(policies, AttachedOf(after, role));
  }

  lemma {:induction false} NothingMissing(policies: seq<string>, arns: seq<string>)
    requires forall p :: p in policies ==> p in arns
    ensures Missing(policies, arns) == []
    decreases |policies|
  {
    if policies != [] {
      var prefix := policies[..|policies| - 1];
      assert policies[|policies| - 1] in policies;
      forall p | p in prefix
        ensures p in arns
      {
        assert p in policies;
      }
      NothingMissing(prefix, arns);
    }
  }

  // ===== inline policies =====

  function CurrentInlinePolicy(c: Cloud, role: string, policyName: string): Option<string>
  {
    match GetRolePolicy(c, role, policyName)
    case Err(_) => None
    case Ok(raw) => Uri.Decode(raw)
  }

  /** An inline policy stored percent-encoded reads back as the document itself. */
  lemma InlinePolicyReadsBack(c: Cloud, role: string, policyName: string, doc: string)
    requires InlinePolicyId(role, policyName) !in c.readFaults
    requires (role, policyName) in c.inlinePolicies && c.inlinePolicies[(role, policyName)] == Uri.Encode(doc)
    ensures CurrentInlinePolicy(c, role, policyName) == Some(doc)
  {
    Uri.DecodeEncode(doc);
  }

  /** The policy is written when it cannot be read or its decoded text is not exactly the wanted document. */
  function InlinePolicyPlan(c: Cloud, role: string, policyName: string, doc: string): (plan: seq<Call>)
    ensures plan == [] <==> CurrentInlinePolicy(c, role, policyName) == Some(doc)
    ensures plan != [] ==> plan == [PutRolePolicy(role, policyName, doc)]
  {
    match CurrentInlinePolicy(c, role, policyName)
    case None => [PutRolePolicy(role, policyName, doc)]
    case Some(current) => if current != doc then [PutRolePolicy(role, policyName, doc)] else []
  }

  method EnsureInlinePolicyAttached(acct: Account, role: string, policyName: string, policyDocument: string)
    returns (outcome: Outcome<ProviderError>)
    modifies acct
    ensures var e := Sequence(old(acct.cloud), InlinePolicyPlan(old(acct.cloud), role, policyName, policyDocument));
      Ran(acct, old(acct.calls), e) && outcome == e.outcome
  {
    var found := true;
    var needsUpdating := false;
    match GetRolePolicy(acct.cloud, role, policyName) {
      case Err(_) =>
        found := false;
      case Ok(raw) =>
        match Uri.Decode(raw) {
          case None =>
            found := false;
          case Some(current) =>
            if current != policyDocument {
              needsUpdating := true;
            }
        }
    }
    if !found || needsUpdating {
      SequenceOne(acct.cloud, PutRolePolicy(role, policyName, policyDocument));
      outcome := acct.Invoke(PutRolePolicy(role, policyName, policyDocument));
    } else {
      outcome := Pass;
    }
  }

  /** A compact inline policy converges: after one run the next run issues no call. */
  lemma InlinePolicyConverges(c: Cloud, role: string, policyName: string, doc: string)
    requires role in c.roles && Json.Normalize(doc) == doc
    requires InlinePolicyId(role, policyName) !in c.readFaults && InlinePolicyId(role, policyName) !in c.writeFaults
    ensures var e := Sequence(c, InlinePolicyPlan(c, role, policyName, doc));
      e.outcome == Pass && InlinePolicyPlan(e.cloud, role, policyName, doc) == []
  {
    var plan := InlinePolicyPlan(c, role, policyName, doc);
    Uri.DecodeEncode(doc);
    if plan != [] {
      ApplyPutRolePolicy(c, role, policyName, doc);
      SequenceOne(c, plan[0]);
    }
  }

  /**
   * The comparison is against the document as given, not its compact form:
   * a document with white space between tokens is written again on every run.
   */
  lemma InlinePolicyRewrittenWhileNotCompact(c: Cloud, role: string, policyName: string, doc: string)
    requires role in c.roles && Json.Normalize(doc) != doc
    requires InlinePolicyId(role, policyName) !in c.readFaults && InlinePolicyId(role, policyName) !in c.writeFaults
    ensures var (c1, o) := Apply(c, PutRolePolicy(role, policyName, doc));
      o == Pass && InlinePolicyPlan(c1, role, policyName, doc) == [PutRolePolicy(role, policyName, doc)]
  {
    Uri.DecodeEncode(Json.Normalize(doc));
    ApplyPutRolePolicy(c, role, policyName, doc);
  }

  // ===== buckets =====

  /** `buckets.find(bucket => bucket.Name === name)`: the first bucket with that name. */
  function FindBucket(buckets: seq<Bucket>, name: string): (r: Option<Bucket>)
    ensures r.Some? ==> r.value in buckets && r.value.name == name
    ensures r.None? <==> forall i :: 0 <= i < |buckets| ==> buckets[i].name != name
    decreases |buckets|
  {
    if buckets == [] then None
    else if buckets[0].name == name then Some(buckets[0])
    else FindBucket(buckets[1..], name)
  }

  /** `region ? { CreateBucketConfiguration: ... } : {}`: a location only for a non-empty region. */
  function LocationFor(region: Option<string>): Option<string>
  {
    if region.Some? && region.value != "" then region else None
  }

  function BucketPlan(buckets: seq<Bucket>, bucketName: string, region: Option<string>): (plan: seq<Call>)
    ensures plan == [] <==> exists i :: 0 <= i < |buckets| && buckets[i].name == bucketName
    ensures plan != [] ==> plan == [CreateBucket(bucketName, LocationFor(region))]
  {
    if FindBucket(buckets, bucketName).None? then [CreateBucket(bucketName, LocationFor(region))] else []
  }

  /** Resolves to `true` after creating the bucket, to a falsy value when it was listed. */
  method EnsureBucketExists(acct: Account, buckets: seq<Bucket>, bucketName: string, region: Option<string>)
    returns (r: Result<bool, ProviderError>)
    modifies acct
    ensures var plan := BucketPlan(buckets, bucketName, region);
      var e := Sequence(old(acct.cloud), plan);
      Ran(acct, old(acct.calls), e) && r == Returned(e, plan != [])
  {
    if FindBucket(buckets, bucketName).None? {
      var location := if region.Some? && region.value != "" then region else None;
      SequenceOne(acct.cloud, CreateBucket(bucketName, location));
      var o := acct.Invoke(CreateBucket(bucketName, location));
      r := if o.Fail? then Err(o.error) else Ok(true);
    } else {
      r := Ok(false);
    }
  }

  /** A bucket missing from the listing and from the store is created, without touching anything else. */
  lemma BucketCreated(c: Cloud, buckets: seq<Bucket>, bucketName: string, region: Option<string>)
    requires forall i :: 0 <= i < |buckets| ==> buckets[i].name != bucketName
    requires bucketName !in c.buckets && BucketId(bucketName) !in c.writeFaults
    ensures var e := Sequence(c, BucketPlan(buckets, bucketName, region));
      e.outcome == Pass && e.cloud == c.(buckets := c.buckets + {bucketName})
  {
    SequenceOne(c, CreateBucket(bucketName, LocationFor(region)));
  }

  // ===== bucket policies =====

  /** The policy is written when it cannot be read or differs from the wanted text. */
  function BucketPolicyPlan(c: Cloud, bucketName: string, policy: string): (plan: seq<Call>)
    ensures plan == [] <==> GetBucketPolicy(c, bucketName) == Ok(policy)
    ensures plan != [] ==> plan == [PutBucketPolicy(bucketName, policy)]
  {
    match GetBucketPolicy(c, bucketName)
    case Err(_) => [PutBucketPolicy(bucketName, policy)]
    case Ok(current) => if current != policy then [PutBucketPolicy(bucketName, policy)] else []
  }

  method EnsureBucketPolicyAttached(acct: Account, bucketName: string, policy: string) returns (outcome: Outcome<ProviderError>)
    modifies acct
    ensures var e := Sequence(old(acct.cloud), BucketPolicyPlan(old(acct.cloud), bucketName, policy));
      Ran(acct, old(acct.calls), e) && outcome == e.outcome
  {
    var error := false;
    var currentPolicy := "";
    match GetBucketPolicy(acct.cloud, bucketName) {
      case Err(_) =>
        error := true;
      case Ok(p) =>
        currentPolicy := p;
    }
    if error || currentPolicy != policy {
      SequenceOne(acct.cloud, PutBucketPolicy(bucketName, policy));
      outcome := acct.Invoke(PutBucketPolicy(bucketName, policy));
    } else {
      outcome := Pass;
    }
  }

  lemma BucketPolicyConverges(c: Cloud, bucketName: string, policy: string)
    requires bucketName in c.buckets && Json.Normalize(policy) == policy
    requires BucketPolicyId(bucketName) !in c.readFaults && BucketPolicyId(bucketName) !in c.writeFaults
    ensures var e := Sequence(c, BucketPolicyPlan(c, bucketName, policy));
      e.outcome == Pass && BucketPolicyPlan(e.cloud, bucketName, policy) == []
  {
    var plan := BucketPolicyPlan(c, bucketName, policy);
    if plan != [] {
      SequenceOne(c, plan[0]);
    }
  }

  // ===== event rules =====

  /** A rule is written only when it cannot be described; an existing rule is never rewritten. */
  function RulePlan(c: Cloud, name: string, description: string, eventPattern: string): (plan: seq<Call>)
    ensures plan == [] <==> DescribeRule(c, name).Ok?
    ensures plan != [] ==> plan == [PutRule(name, description, eventPattern)]
  {
    if DescribeRule(c, name).Err? then [PutRule(name, description, eventPattern)] else []
  }

  method EnsureCloudWatchRule(acct: Account, name: string, description: string, eventPattern: string)
    returns (r: Result<bool, ProviderError>)
    modifies acct
    ensures var plan := RulePlan(old(acct.cloud), name, description, eventPattern);
      var e := Sequence(old(acct.cloud), plan);
      Ran(acct, old(acct.calls), e) && r == Returned(e, plan != [])
  {
    var error := DescribeRule(acct.cloud, name).Err?;
    if error {
      SequenceOne(acct.cloud, PutRule(name, description, eventPattern));
      var o := acct.Invoke(PutRule(name, description, eventPattern));
      r := if o.Fail? then Err(o.error) else Ok(true);
    } else {
      r := Ok(false);
    }
  }

  lemma RuleConverges(c: Cloud, name: string, description: string, eventPattern: string)
    requires RuleId(name) !in c.readFaults && RuleId(name) !in c.writeFaults
    ensures var e := Sequence(c, RulePlan(c, name, description, eventPattern));
      e.outcome == Pass && name in e.cloud.rules && e.cloud.rules[name] == (if name in c.rules then c.rules[name] else Rule(description, eventPattern)) &&
      RulePlan(e.cloud, name, description, eventPattern) == []
  {
    if name !in c.rules {
      SequenceOne(c, PutRule(name, description, eventPattern));
    }
  }

  // ===== rule targets =====

  /** The target is put unless an equal target is already listed. */
  function TargetPlan(targets: seq<Target>, ruleName: string, target: Target): (plan: seq<Call>)
    ensures plan == [] <==> target in targets
    ensures plan != [] ==> plan == [PutTargets(ruleName, [target])]
  {
    if target !in targets then [PutTargets(ruleName, [target])] else []
  }

  /** A failed listing is not caught: the reconciler rejects with it. */
  function TargetEffect(c: Cloud, ruleName: string, target: Target): (e: Effect)
    ensures e.calls <= [PutTargets(ruleName, [target])]
    ensures e.calls == [] <==> ListTargetsByRule(c, ruleName).Err? || target in ListTargetsByRule(c, ruleName).value
  {
    match ListTargetsByRule(c, ruleName)
    case Err(e) => Effect(c, [], Fail(e))
    case Ok(targets) =>
      var plan := TargetPlan(targets, ruleName, target);
      if plan == [] then Sequence(c, plan)
      else
        SequenceOne(c, plan[0]);
        Sequence(c, plan)
  }

  /** Resolves to `true` after putting the target, to a falsy value when it was listed. */
  method EnsureRuleTargetExists(acct: Account, ruleName: string, target: Target) returns (r: Result<bool, ProviderError>)
    modifies acct
    ensures var e := TargetEffect(old(acct.cloud), ruleName, target);
      Ran(acct, old(acct.calls), e) && r == Returned(e, e.calls != [])
  {
    match ListTargetsByRule(acct.cloud, ruleName) {
      case Err(e) =>
        r := Err(e);
      case Ok(targets) =>
        if target !in targets {
          SequenceOne(acct.cloud, PutTargets(ruleName, [target]));
          var o := acct.Invoke(PutTargets(ruleName, [target]));
          r := if o.Fail? then Err(o.error) else Ok(true);
        } else {
          r := Ok(false);
        }
    }
  }

  lemma TargetConverges(c: Cloud, ruleName: string, target: Target)
    requires ruleName in c.rules
    requires TargetsId(ruleName) !in c.readFaults && TargetsId(ruleName) !in c.writeFaults
    ensures var e := TargetEffect(c, ruleName, target);
      e.outcome == Pass && target in TargetsOf(e.cloud, ruleName) && TargetEffect(e.cloud, ruleName, target).calls == []
  {
    if target !in TargetsOf(c, ruleName) {
      SequenceOne(c, PutTargets(ruleName, [target]));
    }
  }

  // ===== automation documents =====

  /** The default version of a document as `ensureSsmDocument` compares it; None when it cannot be read. */
  function CurrentRunbook(c: Cloud, name: string): (r: Option<string>)
    ensures r.Some? ==> Json.Normalize(r.value) == r.value
  {
    match GetDocument(c, name, DefaultVersion)
    case Err(_) => None
    case Ok(v) =>
      Json.NormalizeIdempotent(Json.StripLineBreaks(v.content));
      Some(Json.Normalize(Json.StripLineBreaks(v.content)))
  }

  /**
   * A document that cannot be read is created. One whose default version
   * differs gets a new latest version (a rejection because the latest version
   * already has this content is swallowed, any other one is not), and the
   * latest version is then made the default.
   */
  function SsmEffect(c: Cloud, name: string, content: string): (e: Effect)
    ensures e.calls == [] <==> CurrentRunbook(c, name) == Some(content)
    ensures CurrentRunbook(c, name).None? ==> e.calls == [CreateDocument(name, content, "Automation")]
    ensures e.calls == [] ==> e.cloud == c
  {
    match CurrentRunbook(c, name)
    case None =>
      SequenceOne(c, CreateDocument(name, content, "Automation"));
      Sequence(c, [CreateDocument(name, content, "Automation")])
    case Some(current) =>
      if current == content then Effect(c, [], Pass) else SsmUpdate(c, name, content)
  }

  /** The update of a document whose default version differs. */
  function SsmUpdate(c: Cloud, name: string, content: string): (e: Effect)
    ensures 1 <= |e.calls| <= 2 && e.calls[0] == UpdateDocument(name, content, LatestVersion)
    ensures e.outcome.Pass? ==>
      |e.calls| == 2 && e.calls[1].UpdateDocumentDefaultVersion? && e.calls[1].defaultName == name
  {
    var write := UpdateDocument(name, content, LatestVersion);
    var applied := Apply(c, write);
    if applied.1.Fail? && applied.1.error != DuplicateDocumentContent then Effect(applied.0, [write], applied.1)
    else SsmPromote(applied.0, name, write)
  }

  /** The latest version, whatever its number, becomes the default. */
  function SsmPromote(c: Cloud, name: string, write: Call): (e: Effect)
    ensures 1 <= |e.calls| <= 2 && e.calls[0] == write
    ensures e.outcome.Pass? ==>
      |e.calls| == 2 && e.calls[1].UpdateDocumentDefaultVersion? && e.calls[1].defaultName == name
  {
    match GetDocument(c, name, LatestVersion)
    case Err(e) => Effect(c, [write], Fail(e))
    case Ok(latest) =>
      var promote := UpdateDocumentDefaultVersion(name, latest.version);
      var applied := Apply(c, promote);
      Effect(applied.0, [write, promote], applied.1)
  }

  /** Resolves to `true` only after creating the document. */
  method EnsureSsmDocument(acct: Account, name: string, content: string) returns (r: Result<bool, ProviderError>)
    modifies acct
    ensures var e := SsmEffect(old(acct.cloud), name, content);
      Ran(acct, old(acct.calls), e) && r == Returned(e, CurrentRunbook(old(acct.cloud), name).None?)
  {
    var found := true;
    var needsUpdating := false;
    match GetDocument(acct.cloud, name, DefaultVersion) {
      case Err(_) =>
        found := false;
      case Ok(result) =>
        var currentContent := Json.Normalize(Json.StripLineBreaks(result.content));
        if currentContent != content {
          needsUpdating := true;
        }
    }
    if !found {
      SequenceOne(acct.cloud, CreateDocument(name, content, "Automation"));
      var o := acct.Invoke(CreateDocument(name, content, "Automation"));
      r := if o.Fail? then Err(o.error) else Ok(true);
    } else if needsUpdating {
      var o1 := acct.Invoke(UpdateDocument(name, content, LatestVersion));
      if o1.Fail? && o1.error != DuplicateDocumentContent {
        r := Err(o1.error);
        return;
      }
      match GetDocument(acct.cloud, name, LatestVersion) {
        case Err(e) =>
          r := Err(e);
        case Ok(latest) =>
          var o2 := acct.Invoke(UpdateDocumentDefaultVersion(name, latest.version));
          r := if o2.Fail? then Err(o2.error) else Ok(false);
      }
    } else {
      r := Ok(false);
    }
  }

  /** Any rejection of the update other than duplicate content is passed on, and nothing is promoted. */
  lemma SsmRethrowsOtherUpdateErrors(c: Cloud, name: string, content: string)
    requires CurrentRunbook(c, name).Some? && CurrentRunbook(c, name).value != content
    requires DocumentId(name) in c.writeFaults
    ensures SsmEffect(c, name, content) == Effect(c, [UpdateDocument(name, content, LatestVersion)], Fail(ServiceFailure))
  {
  }

  /**
   * When the latest version already has the wanted content but is not the
   * default, the duplicate-content rejection is swallowed and the latest
   * version becomes the default.
   */
  lemma SsmPromotesDuplicateLatest(c: Cloud, name: string, content: string)
    requires name in c.documents && c.documents[name].Valid()
    requires DocumentId(name) !in c.readFaults && DocumentId(name) !in c.writeFaults
    requires CurrentRunbook(c, name) != Some(content)
    requires c.documents[name].versions[|c.documents[name].versions| - 1] == content
    ensures var e := SsmEffect(c, name, content);
      var d := c.documents[name];
      e.outcome == Pass &&
      e.calls == [UpdateDocument(name, content, LatestVersion), UpdateDocumentDefaultVersion(name, |d.versions|)] &&
      e.cloud == c.(documents := c.documents[name := d.(defaultVersion := |d.versions|)])
  {
  }

  /**
   * A runbook whose content is compact and free of line breaks converges:
   * after one run the default version compares equal to it and the next run
   * issues no call.
   */
  lemma SsmConverges(c: Cloud, name: string, content: string)
    requires name in c.documents ==> c.documents[name].Valid()
    requires DocumentId(name) !in c.readFaults && DocumentId(name) !in c.writeFaults
    requires Json.Normalize(Json.StripLineBreaks(content)) == content
    ensures var e := SsmEffect(c, name, content);
      e.outcome == Pass && CurrentRunbook(e.cloud, name) == Some(content) && SsmEffect(e.cloud, name, content).calls == []
  {
    if name !in c.documents {
      SsmCreateConverges(c, name, content);
    } else {
      RunbookOfValid(c, name);
      if CurrentRunbook(c, name) != Some(content) {
        SsmChangedConverges(c, name, content);
      }
    }
  }

  lemma SsmCreateConverges(c: Cloud, name: string, content: string)
    requires name !in c.documents
    requires DocumentId(name) !in c.readFaults && DocumentId(name) !in c.writeFaults
    requires Json.Normalize(Json.StripLineBreaks(content)) == content
    ensures var e := SsmEffect(c, name, content);
      e.outcome == Pass && CurrentRunbook(e.cloud, name) == Some(content)
  {
    ApplyCreateDocument(c, name, content, "Automation");
    SequenceOne(c, CreateDocument(name, content, "Automation"));
    var e := SsmEffect(c, name, content);
    assert e.cloud.documents[name] == Document("Automation", [content], 1);
    RunbookOfValid(e.cloud, name);
  }

  lemma SsmChangedConverges(c: Cloud, name: string, content: string)
    requires name in c.documents && c.documents[name].Valid()
    requires DocumentId(name) !in c.readFaults && DocumentId(name) !in c.writeFaults
    requires Json.Normalize(Json.StripLineBreaks(content)) == content
    requires CurrentRunbook(c, name) != Some(content)
    ensures var e := SsmEffect(c, name, content);
      e.outcome == Pass && CurrentRunbook(e.cloud, name) == Some(content)
  {
    SsmEffectWhenChanged(c, name, content);
    SsmUpdateConverges(c, name, content);
  }

  lemma SsmEffectWhenChanged(c: Cloud, name: string, content: string)
    requires CurrentRunbook(c, name).Some? && CurrentRunbook(c, name) != Some(content)
    ensures SsmEffect(c, name, content) == SsmUpdate(c, name, content)
  {
  }

  /** A readable document compares by the compact form of its default version. */
  lemma RunbookOfValid(c: Cloud, name: string)
    requires name in c.documents && c.documents[name].Valid() && DocumentId(name) !in c.readFaults
    ensures var d := c.documents[name];
      CurrentRunbook(c, name) == Some(Json.Normalize(Json.StripLineBreaks(d.versions[d.defaultVersion - 1])))
  {
  }

  lemma SsmUpdateConverges(c: Cloud, name: string, content: string)
    requires name in c.documents && c.documents[name].Valid()
    requires DocumentId(name) !in c.readFaults && DocumentId(name) !in c.writeFaults
    ensures var e := SsmUpdate(c, name, content);
      e.outcome == Pass && name in e.cloud.documents && e.cloud.documents[name].Valid() &&
      e.cloud.readFaults == c.readFaults && e.cloud.writeFaults == c.writeFaults &&
      CurrentRunbook(e.cloud, name) == Some(Json.Normalize(Json.StripLineBreaks(content)))
  {
    var write := UpdateDocument(name, content, LatestVersion);
    SsmUpdateWritesLatest(c, name, content);
    SsmPromoteLatestOnly(Apply(c, write).0, name, write);
    RunbookOfValid(SsmUpdate(c, name, content).cloud, name);
  }

  /** The new content becomes the latest version, or already was: either way the latest version is promoted next. */
  lemma SsmUpdateWritesLatest(c: Cloud, name: string, content: string)
    requires name in c.documents && c.documents[name].Valid()
    requires DocumentId(name) !in c.writeFaults
    ensures var write := UpdateDocument(name, content, LatestVersion);
      var c1 := Apply(c, write).0;
      SsmUpdate(c, name, content) == SsmPromote(c1, name, write) &&
      name in c1.documents && |c1.documents[name].versions| > 0 &&
      c1.documents[name].versions[|c1.documents[name].versions| - 1] == content &&
      c1.readFaults == c.readFaults && c1.writeFaults == c.writeFaults
  {
    ApplyUpdateDocument(c, name, content, LatestVersion);
  }

  /** Promoting the latest version of a healthy document makes it the default and touches nothing else of note. */
  lemma SsmPromoteLatestOnly(c: Cloud, name: string, write: Call)
    requires name in c.documents && |c.documents[name].versions| > 0
    requires DocumentId(name) !in c.readFaults && DocumentId(name) !in c.writeFaults
    ensures var e := SsmPromote(c, name, write);
      var d := c.documents[name];
      e.outcome == Pass && name in e.cloud.documents &&
      e.cloud.documents[name] == d.(defaultVersion := |d.versions|) &&
      e.cloud.readFaults == c.readFaults && e.cloud.writeFaults == c.writeFaults
  {
    SsmPromoteLatest(c, name, write);
  }

  lemma SsmPromoteLatest(c: Cloud, name: string, write: Call)
    requires name in c.documents && |c.documents[name].versions| > 0
    requires DocumentId(name) !in c.readFaults && DocumentId(name) !in c.writeFaults
    ensures var e := SsmPromote(c, name, write);
      var d := c.documents[name];
      e.outcome == Pass && e.calls == [write, UpdateDocumentDefaultVersion(name, |d.versions|)] &&
      e.cloud == c.(documents := c.documents[name := d.(defaultVersion := |d.versions|)])
  {
    var d := c.documents[name];
    assert GetDocument(c, name, LatestVersion) == Ok(DocumentVersion(d.versions[|d.versions| - 1], |d.versions|));
    ApplyUpdateDefaultVersion(c, name, |d.versions|);
  }
}
