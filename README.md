# mup-aws-beanstalk core, modelled in Dafny

This project models the core of the `mup-aws-beanstalk` deployment plugin. The plugin deploys a Meteor
application to AWS Elastic Beanstalk. The model covers four parts of it:

- **The reconcilers of `lib/utils.js`.** Each `ensure*` function reads the current state of one kind of
  AWS resource and issues a mutating call only when that state differs from the wanted one. The resource
  kinds are IAM roles, instance profiles, managed and inline policies, S3 buckets and bucket policies,
  CloudWatch rules and targets, and SSM documents. The same file holds pure helpers: `names`,
  `shouldRebuild`, `getNodeVersion`, `createVersionDescription`, `findBucketWithPrefix` and `pickInstance`.
  It also holds the log retrieval of `retrieveEnvironmentInfo` and `getLogs`.
- **The bundle preparation of `lib/prepare-bundle.js`.** This covers:
  - the files `injectFiles` writes into the bundle, including the ones written only when a setting asks
    for them;
  - its folder loop, which tolerates existing folders;
  - `padScript`;
  - the recursive `copyFolderSync`;
  - the two rules of `archiveApp`: hook scripts become mode `0o777`, and a progress message is logged per
    ten per cent.
- **The HTTPS listener reconciliation of `lib/certificates.js`** (`ensureSSLConfigured`).
- **The custom checks on the `app` section** in `src/validate.ts` and in its compiled copy
  `lib/validate.js`.

The model has one module per concern:

- `Results`: the `Option`, `Result` and `Outcome` values.
- `Strings`: `split`, `join`, `toLowerCase`, `trim` and `startsWith`.
- `Json` and `Uri`: the compact form of a document and percent-encoding, which the reconcilers compare
  through.
- `Cloud`: the AWS account as a store, with the effect of every mutating call, and an `Account` class that
  holds the store and the log of calls issued.
- `Reconcile`, `Utils` and `Logs`: `lib/utils.js`.
- `Bundle` and `Archive`: `lib/prepare-bundle.js`.
- `Certificates`: `lib/certificates.js`.
- `ValidateTs` and `ValidateJs`: the two validators.

How each kind of code is modelled:

- **Reconcilers.** Each reconciler is a method on an `Account`. It is proved against a pure plan or effect
  function: the calls it issues, the store it leaves and what it resolves to. Lemmas then state
  convergence: after one run on a healthy store, a second run issues no call.
- **Bundle preparation.** The bundle folder is a `Disk` class whose `dirs` and `files` the methods update.
  - Each file-system call can fail as the file system makes it fail. A write throws `ENOENT` or `ENOTDIR`
    when its parent is not a folder, and `EISDIR` when a folder stands at the destination. `mkdirSync`
    throws `EEXIST` when something is already at the path.
  - `injectFiles` is proved to do exactly what the function `Inject` describes. The first error thrown
    ends it, except that the folder loop ignores `EEXIST` and the append of the app's `.npmrc` is caught.
  - When it resolves, the bundle holds exactly the files of a manifest function, applied in order. Lemmas
    over that manifest state which files are written and when. Other lemmas state what is thrown when
    `bundle/` is missing, or when a file stands where a hook folder belongs.

Three behaviours of the source are easy to misread:

- `getNodeVersion` returns `meteorVersion` only when `star.json` names an npm version
  (lib/utils.js:194-211).
- `retrieveEnvironmentInfo` resolves as soon as any entries are returned, even when none of them are fresh.
  Only an empty answer is retried (lib/utils.js:96-107).
- `JSON.stringify(JSON.parse(..))` keeps the keys in their order. It does not sort them.

## Model

| member | source | states |
|---|---|---|
| Utils.NamesOf | lib/utils.js:67-84 | bucket and app are `mup-` plus the lower-cased app name; the bundle prefix and event-target role embed it too; the environment is `envName` when it is a non-empty string, otherwise `mup-env-` plus the lower-cased name |
| Utils.NamesLowerCase | lib/utils.js:68-72 | the app and bucket names contain no upper-case letter |
| Utils.NamesIgnoreCase | lib/utils.js:68 | two app names that differ only in letter case give identical names |
| Utils.NamesConstants | lib/utils.js:74-82 | the eight names that do not depend on the app are the fixed strings of the source |
| Utils.ShouldRebuild | lib/utils.js:53-58 | no rebuild exactly when the bundle exists and a cached build was asked for |
| Utils.MeteorVersion | lib/utils.js:193 | the meteor version is never empty: the part after `@` or the default `2.12` |
| Utils.MeteorVersionOfRelease | lib/utils.js:193 | a release `TRACK@VERSION` gives `VERSION` |
| Utils.MeteorVersionWithoutAt | lib/utils.js:193 | a missing release, or one without `@`, gives `2.12` |
| Utils.DropFirst | lib/utils.js:201 | `substr(1)`: the text after the first character, empty for empty text |
| Utils.GetNodeVersion | lib/utils.js:188-212 | with a truthy `npmVersion`: the versions from `star.json` plus the meteor version; otherwise the node version from the text file without its first character, with npm `4.6.1` exactly when that version starts with `4`, else `3.10.5`, and no meteor version |
| Utils.CreateVersionDescription | lib/utils.js:448-461 | a prefix of the commit message or, when `git` fails, of `Deployed by Mup on <date>`, with no line break and at most 195 characters, that stops exactly at the first line break, at 195 characters or at the end of the text |
| Utils.ShortMessageKept | lib/utils.js:460 | a one-line message of at most 195 characters is kept whole |
| Utils.FirstLineKept | lib/utils.js:452-460 | a first line of at most 195 characters is the description, whatever follows its line break |
| Utils.LongFirstLineCut | lib/utils.js:460 | a longer first line is cut to its first 195 characters and the rest of the message is dropped |
| Utils.FindBucketWithPrefix | lib/utils.js:384-386 | none exactly when no bucket name starts with the prefix; otherwise the first bucket that does |
| Utils.InstanceLines | lib/utils.js:517 | one line `  - <id>` per instance, in order |
| Utils.PickInstance | lib/utils.js:509-523 | the instance is selected exactly when the environment has it; the description starts with `Available instances` |
| Utils.PickDescriptionLines | lib/utils.js:515-518 | the description splits into the heading and one line per instance, in order |
| Logs.Fresh | lib/utils.js:98-102 | exactly the entries sampled at or after the request time are kept |
| Logs.FreshConcat | lib/utils.js:98-102 | the filter works piece by piece, so the entries keep their order |
| Logs.Retrieve | lib/utils.js:89-118 | a resolved list holds only entries sampled at or after the request time |
| Logs.ReadsBounded | lib/utils.js:105-116 | from counter `count`, at most `7 - count` reads are made, and at least one |
| Logs.NoLogsAfterSevenEmptyReads | lib/utils.js:105-107 | empty answers up to counter 6 end in the `No logs` rejection, after exactly that many reads |
| Logs.RetrieveEnvironmentInfo | lib/utils.js:89-118 | the retry loop returns what the recursive definition gives and makes as many reads |
| Logs.RetrieveFirstAnswer | lib/utils.js:96-117 | after empty answers, the first non-empty answer resolves to exactly its fresh entries, and a failed read rejects with its error |
| Logs.ServerLogs | lib/utils.js:130-135 | the instances are exactly those with a string instance id |
| Logs.ServerLogsLast | lib/utils.js:130-135 | an instance maps to the message of its last entry |
| Logs.InstanceIds | lib/utils.js:130-136 | the keys of the `reduce` object: each instance with a string id once, and no other |
| Logs.InstanceIdsAreKeys | lib/utils.js:130-136 | the keys are exactly the instances of the object |
| Logs.InstanceIdsInFirstAppearanceOrder | lib/utils.js:130-136 | the keys come in the order of the instances' first entries |
| Logs.CollectServerLogs | lib/utils.js:130-135 | the `reduce` loop builds exactly `ServerLogs` |
| Logs.LogFiles | lib/utils.js:139-142 | joining the parts with the chosen separator gives back the log |
| Logs.FindPart | lib/utils.js:143 | none exactly when no trimmed part starts with the name; otherwise a part that does |
| Logs.FindPartFirst | lib/utils.js:143 | `find` returns the first matching part, not just any |
| Logs.LogParts | lib/utils.js:143 | one entry per wanted name: a log part whose trimmed text starts with it, or `''` when none does |
| Logs.LogPartsFirst | lib/utils.js:139-143 | the entry for a wanted name is the first log file whose trimmed text starts with it |
| Logs.InstanceLogs | lib/utils.js:136-149 | fails exactly when some instance's download fails; otherwise one `{data, instance}` result per key, in key order, whose data are the picked files of that instance's downloaded log |
| Logs.GetLogsResult | lib/utils.js:124-149 | a rejected log request or retrieval is passed on; otherwise the result is `InstanceLogs` over the fresh entries' instances |
| Logs.GetLogsPerInstance | lib/utils.js:130-149 | a successful result names every instance once, in the order of the object's keys |
| Logs.GetLogs | lib/utils.js:119-150 | never changes the store; a rejected wait for the app's environment is passed on before any log request; otherwise issues the wait and the `tail` log request and resolves as `GetLogsResult` |
| Logs.LogRequestLeavesStore | lib/utils.js:122-127 | the wait and the log request leave the store unchanged; the wait rejects exactly when waiting on the environment is faulted |
| Logs.DownloadLogs | lib/utils.js:136-149 | the loop over the keys gives exactly `InstanceLogs` |
| Reconcile.RolePlan | lib/utils.js:270-299 | at most one call: create exactly when the role cannot be read or its stored trust policy cannot be decoded; update exactly when the decoded trust policy differs from the compact wanted one and the update was asked for; no call exactly when the decoded policy is current or no update was asked for |
| Reconcile.TrustPolicyReadsBack | lib/utils.js:276-277 | a trust policy stored percent-encoded reads back as the policy itself |
| Reconcile.EnsureRoleExists | lib/utils.js:270-299 | issues exactly the plan's calls, leaves the store as they do, and resolves as they do |
| Reconcile.RoleConverges | lib/utils.js:270-299 | on a healthy role, a second run issues no call |
| Reconcile.InstanceProfilePlan | lib/utils.js:300-315 | a create exactly when the profile cannot be read |
| Reconcile.EnsureInstanceProfileExists | lib/utils.js:300-315 | issues exactly the plan's calls and resolves as they do |
| Reconcile.InstanceProfileConverges | lib/utils.js:300-315 | on a healthy store, a second run issues no call |
| Reconcile.RoleAddedPlan | lib/utils.js:321-329 | no call exactly when the role is already the profile's first role; otherwise one add |
| Reconcile.EnsureRoleAdded | lib/utils.js:316-330 | a failed profile read rejects without a call; otherwise the plan's calls are issued |
| Reconcile.RoleAddedEffect | lib/utils.js:316-330 | at most the one add call; with no call the store is unchanged; a failed profile read never resolves |
| Reconcile.RoleAddedConverges | lib/utils.js:316-330 | an empty profile gets the role, and a second run issues no call |
| Reconcile.RoleAddedToOccupiedProfileFails | lib/utils.js:321-328 | a profile holding another role rejects the add, with the store unchanged |
| Reconcile.Missing | lib/utils.js:335-341 | exactly the wanted policies that are not attached, at most as many as wanted |
| Reconcile.MissingConcat | lib/utils.js:336-341 | the selection keeps the wanted order over a concatenation |
| Reconcile.UnattachedPolicies | lib/utils.js:336-341 | the `reduce` loop gives exactly `Missing` |
| Reconcile.AttachCalls | lib/utils.js:255-263 | one attach call per policy, in order |
| Reconcile.AttachPolicies | lib/utils.js:255-265 | every attach call is issued, and the first failure in order is reported |
| Reconcile.EnsurePoliciesAttached | lib/utils.js:331-345 | a failed listing rejects without a call; otherwise only the missing policies are attached |
| Reconcile.PoliciesEffect | lib/utils.js:331-345 | a failed listing rejects without a call; otherwise every wanted policy not yet attached gets an attach call, and there are at most as many calls as wanted policies |
| Reconcile.AttachNeverDetaches | lib/utils.js:255-265 | every role's attached list before the calls is a prefix of its list after them; roles and faults are unchanged |
| Reconcile.AttachAll | lib/utils.js:255-265 | on a healthy role, every given policy ends up attached |
| Reconcile.AttachOne | lib/utils.js:255-263 | on a healthy role, one attach call resolves, keeps the attached policies and adds the given one |
| Reconcile.PoliciesConverge | lib/utils.js:331-345 | after one run nothing is missing, and a second run issues no call |
| Reconcile.NothingMissing | lib/utils.js:336-342 | when every wanted policy is attached, no call is made |
| Reconcile.InlinePolicyPlan | lib/utils.js:346-369 | no call exactly when the decoded stored policy equals the given document; otherwise one put |
| Reconcile.InlinePolicyReadsBack | lib/utils.js:350-353 | an inline policy stored percent-encoded reads back as the document itself |
| Reconcile.EnsureInlinePolicyAttached | lib/utils.js:346-369 | issues exactly the plan's calls and resolves as they do |
| Reconcile.InlinePolicyConverges | lib/utils.js:346-369 | a compact document converges: a second run issues no call |
| Reconcile.InlinePolicyRewrittenWhileNotCompact | lib/utils.js:354-362 | a document with white space between tokens is stored compact, so every run writes it again |
| Reconcile.FindBucket | lib/utils.js:371 | none exactly when no listed bucket has the name; otherwise one that has it |
| Reconcile.BucketPlan | lib/utils.js:370-383 | no call exactly when the bucket is listed; otherwise one create, with a location only for a non-empty region |
| Reconcile.EnsureBucketExists | lib/utils.js:370-383 | issues exactly the plan's calls; resolves to `true` after a create, to false when the bucket is listed |
| Reconcile.BucketCreated | lib/utils.js:370-383 | an unlisted bucket is created and nothing else changes |
| Reconcile.BucketPolicyPlan | lib/utils.js:387-404 | no call exactly when the stored policy reads back equal to the wanted text; otherwise one put |
| Reconcile.EnsureBucketPolicyAttached | lib/utils.js:387-404 | issues exactly the plan's calls and resolves as they do |
| Reconcile.BucketPolicyConverges | lib/utils.js:387-404 | a compact policy converges: a second run issues no call |
| Reconcile.RulePlan | lib/utils.js:405-422 | a put exactly when the rule cannot be described; an existing rule is never rewritten |
| Reconcile.EnsureCloudWatchRule | lib/utils.js:405-422 | issues exactly the plan's calls; resolves to whether it created the rule |
| Reconcile.RuleConverges | lib/utils.js:405-422 | on a healthy store, a second run issues no call |
| Reconcile.TargetPlan | lib/utils.js:427-434 | no call exactly when an equal target is listed; otherwise one put with that target alone |
| Reconcile.EnsureRuleTargetExists | lib/utils.js:423-435 | a failed listing rejects; otherwise the plan's calls are issued; resolves to `true` after a put |
| Reconcile.TargetEffect | lib/utils.js:423-435 | no call exactly when the listing fails or already holds the target; otherwise the one put |
| Reconcile.TargetConverges | lib/utils.js:423-435 | after one run the target is listed, and a second run issues no call |
| Reconcile.EnsureSsmDocument | lib/utils.js:462-508 | issues exactly the calls of `SsmEffect`: create when unreadable; when the default version differs, update and then promote the latest version |
| Reconcile.CurrentRunbook | lib/utils.js:466-469 | the form the default version is compared in is already compact |
| Reconcile.SsmEffect | lib/utils.js:462-508 | no call exactly when the compared default version equals the content; an unreadable document gets exactly one create |
| Reconcile.SsmUpdate | lib/utils.js:485-506 | the update call comes first, and a run that resolves ends with one default-version update of that document |
| Reconcile.SsmPromote | lib/utils.js:502-506 | after the update call comes at most one more call, and a run that resolves issues the default-version update of that document |
| Reconcile.SsmRethrowsOtherUpdateErrors | lib/utils.js:493-500 | an update rejection other than duplicate content is passed on, and nothing is promoted |
| Reconcile.SsmPromotesDuplicateLatest | lib/utils.js:486-506 | when the latest version already has the content, the duplicate-content rejection is swallowed and that version becomes the default |
| Reconcile.SsmConverges | lib/utils.js:462-508 | a compact runbook without line breaks converges: a second run issues no call |
| Reconcile.SsmCreateConverges | lib/utils.js:477-484 | a created document reads back equal to the content |
| Reconcile.SsmChangedConverges | lib/utils.js:485-506 | after an update and promotion, the default version reads back equal to the content |
| Reconcile.SsmEffectWhenChanged | lib/utils.js:470-485 | a readable document whose compact content differs takes the update path |
| Reconcile.RunbookOfValid | lib/utils.js:466-469 | a readable document is compared by the compact, line-break-free form of its default version |
| Reconcile.SsmUpdateConverges | lib/utils.js:485-506 | the update path resolves, and the default version then compares equal to the compact, line-break-free content |
| Reconcile.SsmUpdateWritesLatest | lib/utils.js:486-501 | after the update call, the latest version holds the content, whether the call added it or it was already there |
| Reconcile.SsmPromoteLatestOnly | lib/utils.js:502-506 | promotion makes the latest version the default and changes nothing else of the document |
| Reconcile.SsmPromoteLatest | lib/utils.js:502-506 | promotion resolves; after the update call comes one default-version update to the latest version's number, and only the document's default version changes |
| Json.NormalizeIdempotent | lib/utils.js:279 | the compact form of a compact document is itself |
| Json.WhitespaceBetweenTokensIgnored | lib/utils.js:278-279 | white space between tokens does not change the compact form |
| Json.Normalize | lib/utils.js:279 | the compact form is never longer than the document |
| Json.StripLineBreaks | lib/utils.js:469 | the result has no carriage return or line feed and is no longer than the input |
| Json.StripLineBreaksConcat | lib/utils.js:469 | the global replace works piece by piece: it distributes over concatenation |
| Json.StripLineBreaksChar | lib/utils.js:469 | a carriage return or line feed is removed; any other character is kept |
| Json.StripLineBreaksKeeps | lib/utils.js:469 | text without line breaks is kept as it is |
| Uri.DecodeEncode | lib/utils.js:277 | `decodeURIComponent` gives back a document that was stored percent-encoded |
| Uri.Decode | lib/utils.js:277 | a decoded document is never longer than its encoding |
| Uri.DecodeEncodedChar | lib/utils.js:277 | decoding one encoded character followed by text gives the character followed by the decoded text |
| Strings.Split | lib/prepare-bundle.js:41 | `split` on a non-empty separator gives at least one piece |
| Strings.JoinSplit | lib/prepare-bundle.js:41 | joining the pieces of a split with the same separator gives back the string |
| Strings.SplitJoin | lib/prepare-bundle.js:41 | splitting on a one-character separator that no piece contains undoes a join |
| Strings.Lower | lib/utils.js:68 | `toLowerCase` keeps the length and maps each character in place: an ASCII capital to its lower-case letter, anything else to itself |
| Strings.LowerHasNoUpperCase | lib/utils.js:68 | the result has no ASCII capital |
| Strings.LowerIdempotent | lib/utils.js:68 | lower-casing twice is lower-casing once |
| Strings.Trim | lib/utils.js:143 | `trim`: the result neither starts nor ends with white space and is no longer than the input |
| Strings.TrimExactly | lib/utils.js:143 | the result is the slice of the input between its leading and trailing white space, all of which is cut off |
| Strings.TrimStartDrops | lib/utils.js:143 | what is cut from the front is white space |
| Strings.TrimEndDrops | lib/utils.js:143 | what is cut from the end is white space |
| Cloud.Sequence | lib/certificates.js:53-58 | awaited calls stop at the first failure: the calls issued are a prefix of the plan, and all of it when the run resolves |
| Cloud.All | lib/utils.js:255-265 | calls awaited together are all issued |
| Cloud.ApplyWait | lib/certificates.js:58 | the wait changes nothing in the store and rejects exactly when waiting on its environment is faulted |
| Cloud.UpsertTargets | lib/utils.js:428-432 | a put target is among the rule's targets afterwards |
| Bundle.Written | lib/prepare-bundle.js:46 | a write leaves a file at its destination |
| Bundle.AppliedConcat | lib/prepare-bundle.js:46 | writes applied in two runs are the writes applied in one |
| Bundle.AppliedUnwritten | lib/prepare-bundle.js:46 | a path no write goes to keeps what it held, or stays absent |
| Bundle.AppliedWritten | lib/prepare-bundle.js:46 | a path some write goes to is a file afterwards |
| Bundle.Disk.Mkdir | lib/prepare-bundle.js:94 | one `mkdirSync`: `EEXIST` for an existing path, `ENOENT` or `ENOTDIR` for a parent that is not a folder, the injected fault, or the folder is created |
| Bundle.Disk.MkdirRecursive | lib/prepare-bundle.js:17-18 | `existsSync` then `mkdirSync(dest, {recursive: true})`: the folders after it are those of `EnterFolder`, and so is the error it throws |
| Bundle.Disk.Put | lib/prepare-bundle.js:46 | one write succeeds exactly when the parent is a folder and the destination is not one, and then sets the file; otherwise it throws `ENOENT`, `ENOTDIR` or `EISDIR` and the files are unchanged |
| Bundle.Disk.constructor | lib/prepare-bundle.js:48 | a disk with the given folders, files and faults |
| Bundle.PathError | lib/prepare-bundle.js:46 | a call on a path whose parent is not a folder throws `ENOTDIR` or `ENOENT` |
| Bundle.BlockedAtFile | lib/prepare-bundle.js:46 | the first ancestor that is not a folder decides: `ENOTDIR` when it is a file |
| Bundle.WriteError | lib/prepare-bundle.js:46 | a write that cannot be made throws the parent's error, or `EISDIR` for a folder in the way |
| Bundle.EnterFolder | lib/prepare-bundle.js:17-18 | anything at the destination is left as it is; otherwise the folder is added, and it was not a file; a parent that is not a folder throws `ENOENT` or `ENOTDIR` with the folders unchanged |
| Bundle.MkdirStep | lib/prepare-bundle.js:94 | creates exactly when nothing is at the path and its parent is a folder; `EEXIST` exactly when the path is taken; the folders are unchanged on an error |
| Bundle.MkdirAll | lib/prepare-bundle.js:82-102 | never rejects with `EEXIST`; only listed folders are added, none where a file stands; on success every folder exists or was blocked by a file or a fault |
| Bundle.MakeFolders | lib/prepare-bundle.js:82-102 | the folder loop gives exactly `MkdirAll` over the nine folders |
| Bundle.MkdirEach | lib/prepare-bundle.js:92-102 | `mkdirSync` on each folder in turn, EEXIST ignored and any other error thrown, gives exactly `MkdirAll` |
| Bundle.MkdirAllParentsFirst | lib/prepare-bundle.js:82-102 | folders listed after their parents are all created, and the loop resolves |
| Bundle.FoldersCreated | lib/prepare-bundle.js:82-92 | on a bundle folder with nothing in the way, all nine folders are created |
| Bundle.MkdirAllIdempotent | lib/prepare-bundle.js:92-101 | running the loop when every folder exists succeeds and changes nothing |
| Bundle.RunWrites | lib/prepare-bundle.js:46-81 | a run of writes throws only `ENOENT`, `ENOTDIR` or `EISDIR` |
| Bundle.RunWritesOutcome | lib/prepare-bundle.js:46-81 | a run resolves exactly when every write other than the caught append can be made |
| Bundle.RunWritesAllWritable | lib/prepare-bundle.js:46-81 | when every destination can be written, the run resolves with every write applied in order |
| Bundle.RunWritesApplied | lib/prepare-bundle.js:58-72 | a run that resolves has applied every write, when each append goes to a file the run itself writes |
| Bundle.RunWritesStops | lib/prepare-bundle.js:46 | the first write that cannot be made throws its error: the writes before it are applied, none after it |
| Bundle.RunWritesConcat | lib/prepare-bundle.js:52-148 | two runs in a row are one run, and the second does not start when the first throws |
| Bundle.CustomWrites | lib/prepare-bundle.js:139-148 | one copy per file of the app's `.ebextensions` folder, into the bundle's `.ebextensions` |
| Bundle.CopyEntries | lib/prepare-bundle.js:19-33 | the copy never removes a folder and throws only `ENOENT`, `ENOTDIR` or `EISDIR` |
| Bundle.CopyFolder | lib/prepare-bundle.js:14-34 | entering the destination and copying the entries never removes a folder and throws only `ENOENT`, `ENOTDIR` or `EISDIR` |
| Bundle.CopyEntriesApplied | lib/prepare-bundle.js:19-33 | a copy that resolves has made every copy of `TreeWrites`, in order |
| Bundle.CopyFolderApplied | lib/prepare-bundle.js:14-34 | a `copyFolderSync` that resolves leaves exactly the files of `TreeWrites` applied in order |
| Bundle.CopyEntriesDirs | lib/prepare-bundle.js:19-33 | the copy creates no folder outside `TreeDirs` |
| Bundle.CopyFolderDirs | lib/prepare-bundle.js:14-34 | `copyFolderSync` creates no folder but the destination and those of `TreeDirs` |
| Bundle.CopyEntriesFailStays | lib/prepare-bundle.js:19-33 | once the copy of an entry throws, no later entry is copied |
| Bundle.TreeWritesBelow | lib/prepare-bundle.js:19-33 | every copy of a folder's tree lands strictly below the destination |
| Bundle.TreeDirsBelow | lib/prepare-bundle.js:17-28 | every folder the copy of a tree creates lies strictly below the destination |
| Bundle.CopyFolderSync | lib/prepare-bundle.js:14-34 | a missing source changes nothing and returns; otherwise the folders, files and outcome are those of `CopyFolder` |
| Bundle.CopyTree | lib/prepare-bundle.js:17-33 | entering the destination and the loop over the entries give exactly `CopyFolder` |
| Bundle.InjectFiles | lib/prepare-bundle.js:48-155 | the folders, files and outcome afterwards are exactly those of `Inject` |
| Bundle.Inject | lib/prepare-bundle.js:48-155 | `injectFiles` never throws `EEXIST` and never removes a folder |
| Bundle.InjectApplied | lib/prepare-bundle.js:48-155 | when it resolves, the bundle holds exactly the manifest's files applied in order, and its folders are those of the folder loop plus at most the copied `.platform` ones |
| Bundle.ManifestApplied | lib/prepare-bundle.js:52-154 | the manifest applied at once is the head, then the body with the `.ebextensions` copies, then the `.platform` copies |
| Bundle.InjectWithoutBundle | lib/prepare-bundle.js:52-57 | without a `bundle` folder, writing `package.json` throws `ENOENT`, or `ENOTDIR` when `bundle` is a file, and nothing changes |
| Bundle.HookFolderBlocked | lib/prepare-bundle.js:92-111 | a file where `hooks/prebuild` belongs: the loop ignores its `EEXIST`, and `45node.sh` below it throws `ENOTDIR` with nothing after the head written |
| Bundle.HeadWritable | lib/prepare-bundle.js:52-81 | with `bundle` a folder and no folder at the three head files, every head write can be made |
| Bundle.BodyBlocked | lib/prepare-bundle.js:106-109 | the first body write throws `ENOTDIR` below a `hooks/prebuild` that is a file, and nothing of the body is written |
| Bundle.NodeHookBlocked | lib/prepare-bundle.js:108-109 | `45node.sh` cannot be written below a `hooks/prebuild` that is a file, and the error is `ENOTDIR` |
| Bundle.WriteHead | lib/prepare-bundle.js:52-81 | the files and outcome are those of `RunWrites` over the head writes: a throwing write stops it, and a throwing append of the app's `.npmrc` is caught |
| Bundle.WriteBody | lib/prepare-bundle.js:106-138 | the files and outcome are those of `RunWrites` over the body writes |
| Bundle.WriteOptional | lib/prepare-bundle.js:119-135 | the files and outcome are those of `RunWrites` over the three flag-conditional writes |
| Bundle.WriteCustom | lib/prepare-bundle.js:139-148 | the files and outcome are those of `RunWrites` over the copies of the app's `.ebextensions` files, the first that throws ending the loop |
| Bundle.HeadAppends | lib/prepare-bundle.js:58-68 | the only append goes to the `.npmrc` the head renders |
| Bundle.BodyRenders | lib/prepare-bundle.js:106-148 | the body and the `.ebextensions` copies are all rendered with `copy`, none appended |
| Bundle.HeadDests | lib/prepare-bundle.js:52-81 | the head writes exactly `package.json`, `.npmrc` and `start.sh` |
| Bundle.OptionalDests | lib/prepare-bundle.js:119-135 | `packages.config` exactly with yum packages, the graceful-shutdown hook exactly with `gracefulShutdown`, the env hook exactly with `longEnvVars` |
| Bundle.BodyDests | lib/prepare-bundle.js:106-138 | the files the body writes, each exactly under its condition |
| Bundle.ProjectDests | lib/prepare-bundle.js:139-154 | the app's files land in `.ebextensions` or below `.platform` |
| Bundle.PlatformOnlyBelow | lib/prepare-bundle.js:149-154 | the `.platform` copy writes only below the bundle's `.platform` |
| Bundle.ConditionalFiles | lib/prepare-bundle.js:119-154 | `packages.config` is written exactly when yum packages are set or the app brings one; each optional hook exactly when its flag is set or the app's `.platform` brings it |
| Bundle.ConditionalFile | lib/prepare-bundle.js:119-154 | an optional file is written exactly when its setting or the app's own files write it |
| Bundle.PackagesConfigWritten | lib/prepare-bundle.js:119-123 | `packages.config` is written exactly when yum packages are set or the app's `.ebextensions` lists one |
| Bundle.HookWritten | lib/prepare-bundle.js:124-135 | each optional hook is written exactly when its flag is on or the app's `.platform` tree writes it |
| Bundle.LastRenderWins | lib/prepare-bundle.js:46 | a file's content is that of its last write |
| Bundle.BodyNodeScripts | lib/prepare-bundle.js:106-111 | both `45node.sh` hooks are rendered from `node.sh` with the versions of `getNodeVersion` |
| Bundle.NodeScriptsInjected | lib/prepare-bundle.js:106-154 | unless the app's `.platform` overrides them, both node hooks in the final bundle carry those versions |
| Bundle.StartScriptInjected | lib/prepare-bundle.js:73-81 | the final bundle's `start.sh` comes from `role-start.sh` exactly when `requireInstanceRole` is set, otherwise from `start.sh` |
| Bundle.AppliedSnoc | lib/prepare-bundle.js:46 | writing one more file applies it on top of the earlier writes |
| Bundle.Padding | lib/prepare-bundle.js:40 | `''.padStart(spaces, ' ')`: exactly `spaces` spaces |
| Bundle.PadScriptLines | lib/prepare-bundle.js:39-42 | the padded script has the same number of lines, each the padding followed by the original line |
| Bundle.UnpadPadScript | lib/prepare-bundle.js:39-42 | removing the padding from every line gives back the script |
| Bundle.PadScriptNoSpaces | lib/prepare-bundle.js:39-42 | with no padding the script comes back unchanged |
| Bundle.Parent | lib/prepare-bundle.js:94 | a path is its parent plus its last component |
| Archive.ArchivedMode | lib/prepare-bundle.js:193-200 | entries under `.platform/hooks/` or `.platform/confighooks/` get exactly mode `0o777`; others keep their mode |
| Archive.ArchiveEntry.Filter | lib/prepare-bundle.js:193-200 | the entry's mode afterwards is `ArchivedMode` of its name and old mode |
| Archive.ArchiveEntry.constructor | lib/prepare-bundle.js:193 | an entry with the given name and mode |
| Archive.HookFolderEntries | lib/prepare-bundle.js:193-198 | every bundle file in a hook folder is archived under a hook prefix |
| Archive.InjectedHooksExecutable | lib/prepare-bundle.js:193-200 | the four injected hook scripts are archived executable; the nginx configuration keeps its mode |
| Archive.Progress.constructor | lib/prepare-bundle.js:180 | no messages yet, next threshold 10% |
| Archive.Progress.OnProgress | lib/prepare-bundle.js:181-192 | one message of the current threshold, and the next threshold, exactly when the ratio passes it; otherwise nothing changes |
| Archive.ProgressRun | lib/prepare-bundle.js:180-192 | the messages are 10, 20, 30 and so on, at most one per event |
| Archive.ReportProgress | lib/prepare-bundle.js:180-192 | feeding the events to the listener gives exactly `ProgressRun` |
| Archive.ProgressBelowHundred | lib/prepare-bundle.js:183-186 | with exact thresholds and never more processed than total, no message passes 90% |
| Archive.OneMessagePerEvent | lib/prepare-bundle.js:184-187 | an event that passes several thresholds still logs one message |
| Certificates.DesiredOptions | lib/certificates.js:10-33 | the five listener options, in namespace `aws:elbv2:listener:443`, with distinct names, the certificate first |
| Certificates.OptionMap | lib/certificates.js:46-47 | every option's key is in the object |
| Certificates.OptionMapKeyOrigin | lib/certificates.js:46-47 | every key of the object comes from an option of the list |
| Certificates.OptionMapConcat | lib/certificates.js:46-47 | a concatenated list reduces to the first object overridden by the second |
| Certificates.OptionMapLast | lib/certificates.js:46-47 | an option whose key does not recur later keeps its value |
| Certificates.DesiredMap | lib/certificates.js:47 | the wanted options reduce to the five entries under their own keys |
| Certificates.NeedToUpdateExactly | lib/certificates.js:48 | an update is needed exactly when one of the five wanted options is missing from the current ones or holds another value |
| Certificates.SupersetTolerance | lib/certificates.js:48 | current options under other keys do not change the decision |
| Certificates.SslPlan | lib/certificates.js:48-58 | no call exactly when nothing needs updating; otherwise one update with the full wanted list, then a strict wait |
| Certificates.SslEffect | lib/certificates.js:34-58 | no domains: no call; a failed read rejects before any call; otherwise the plan runs |
| Certificates.EnsureSSLConfigured | lib/certificates.js:8-59 | for the app's environment, issues exactly the calls of `SslEffect` and resolves as it does |
| Certificates.UpdatedHoldsDesired | lib/certificates.js:53-57 | after the update, the environment holds every wanted option |
| Certificates.UpdateThenWait | lib/certificates.js:53-58 | after an update that resolves, both calls are issued: the update appends the options to the environment's, the wait changes nothing, and the run resolves exactly when the wait does |
| Certificates.SslConverges | lib/certificates.js:8-59 | on a healthy environment with domains, whose wait also resolves, the run resolves and a second run issues no call |
| Certificates.NewCertificateUpdatesOnce | lib/certificates.js:44-58 | a new certificate, with everything else current, gives exactly one update carrying the full wanted list, then the strict wait |
| ValidateTs.CustomErrorsExactly | src/validate.ts:63-93 | the name error exactly for a non-empty name under 4 characters; the missing-credentials error exactly when `auth` has neither a non-empty profile nor a non-empty id with a secret; the pair error exactly when one of id and secret is given; nothing else, and at most three |
| ValidateTs.CustomErrors | src/validate.ts:63-93 | at most three errors are pushed |
| ValidateTs.Validate | src/validate.ts:55-96 | the schema details, then the custom errors in push order, reported under `app` |
| ValidateTs.PushAuthErrors | src/validate.ts:70-93 | the two `auth` checks push exactly the `auth` errors, missing credentials first |
| ValidateTs.SchemaDetailsFirst | src/validate.ts:58-61 | the schema details come first, unchanged, and at most three errors follow |
| ValidateTs.IdOnlyBothErrors | src/validate.ts:72-92 | an id without a secret or profile yields both `auth` errors, the missing-credentials one first |
| ValidateTs.ProfileOnlyAccepted | src/validate.ts:72-83 | a non-empty profile alone yields no `auth` error |
| ValidateTs.CredentialsAccepted | src/validate.ts:73-92 | a non-empty id with a non-empty secret yields no `auth` error |
| ValidateTs.NoAuthNoAuthErrors | src/validate.ts:71 | without `app` or `auth`, the only possible error is the name error |
| ValidateTs.ShortNameError | src/validate.ts:63-68 | the name error appears exactly for a name of 1 to 3 characters |
| ValidateJs.Default1 | lib/validate.js:55-87 | the compiled checks report exactly what the TypeScript checks specify: the schema details, then `CustomErrors`, under `app` |

## Left out

- I/O is replaced by parameters:
  - file reads, the `git` call, clocks and the recheck timer;
  - the HTTP downloads of logs, which become the `download` function;
  - the AWS reads of the reconcilers, which become reads of the `Cloud` store, failing for a resource in
    `readFaults`;
  - the answers of `retrieveEnvironmentInfo`, which become the `read` parameter: `read(k)` is the answer
    of the read made with counter `k`.
- Utils.PickInstance: it takes the environment's instance ids as a parameter. The
  `describeEnvironmentResources` call that lists them, and a rejection of that call (lib/utils.js:511-513),
  are not modelled.
- Concurrency is not modelled. `Promise.all` in `attachPolicies` and in the log downloads is modelled as
  issuing every call in order and reporting the first failure in that order.
- `tmpBuildPath`, `createUniqueName`, `selectPlatformArn`, `getAccountId`, `downloadFullServerLogs`,
  `coloredStatusText`, `connectToInstance`, `executeSSHCommand` and `logStep` are not part of this model.
  They are randomness, console colouring, SSH plumbing or a second log path with file output.
- `waitForEnvReady` (`lib/env-ready.js`) is not part of this model beyond its outcome. It is one call that
  leaves the store as it is and rejects exactly when `ReadinessId` of its environment is in `writeFaults`.
  Its polling and the reasons it may reject, such as a timeout or an environment that ends in a bad state,
  are not distinguished.
- `convertToObject` (`lib/eb-config.js`) is not part of this model. `Certificates.OptionMap` keys an
  option by its namespace and name, and a later option replaces an earlier one.
- The joi schema, `combineErrorDetails` and `addLocation` belong to other libraries:
  - `ValidateTs.Validate` takes the schema's details as a parameter;
  - it returns the list handed to `addLocation` together with the location `app`.
- ValidateTs.Validate: values of `name`, `id`, `secret` and `profile` that are not strings are not
  modelled. Truthiness is "present and non-empty".
- ValidateTs.Validate: the name check counts characters (code points). `name.length` counts UTF-16 code
  units, so a name with characters outside the Basic Multilingual Plane can be reported as too short by the
  model and not by the source. `ValidateTs.NameTooShort`, `ValidateTs.CustomErrors`,
  `ValidateTs.CustomErrorsExactly` and `ValidateTs.ShortNameError` inherit this.
- Archive.ProgressBelowHundred: this holds for exact thresholds (`processed*10 > k*total`). The source
  adds `0.1` in floating point. Its eighth to tenth thresholds lie just below 0.8, 0.9 and 1.0. So the
  source also logs at exactly 80% and 90%, and logs `100% Archived` once every entry is processed.
- Archive.ProgressRun: the float ratio of the source is modelled by integer deciles. A total of zero is
  read as `NaN` (never greater) for none processed, and as `Infinity` otherwise.
- `archiveApp`'s streams, gzip level, `unlinkSync` of an old archive (every error is swallowed), and the
  promise settling on `close` or `error` are not modelled. Only the entry filter and the progress counter
  are.
- Bundle.Disk.MkdirRecursive: it creates only the destination folder, and only when its parent is a
  folder. A missing ancestor makes it throw, where `recursive: true` would create the ancestor. In
  `injectFiles` the parent of each copied folder is always entered first, so this case does not arise
  there. Faults of the recursive `mkdirSync` other than a blocked path, such as `EACCES`, are not modelled.
- Bundle.Disk.Put: a write fails only for the reasons of its path: a parent that is not a folder, or a
  folder at the destination. Faults of the file system itself, such as a full disk or a denied permission,
  are not modelled for writes.
- Bundle.InjectFiles: template rendering is abstract.
  - A rendered file is recorded as the asset and the variables it was rendered with; `ejs` itself is not
    modelled.
  - A missing asset file, which would make `copy` throw, is not modelled.
  - An `.ebextensions` listing is treated as file names only. A sub-folder there would make `copy` throw.
  - `bundle/star.json` and `bundle/.node_version.txt` are always present (`Project.star` and
    `nodeVersionTxt` are not options): their reads in `getNodeVersion` (lib/utils.js:190-191) are assumed
    to succeed. A missing one would make `injectFiles` throw after the folder loop, before `45node.sh` is
    written.
- Strings.Lower: it lower-cases the ASCII capitals only. JavaScript's `toLowerCase` maps every Unicode
  capital, and a few characters change length. `Utils.NamesOf`, `Utils.NamesLowerCase` and
  `Utils.NamesIgnoreCase` inherit this: for an app name with non-ASCII capitals they do not promise the
  source's names.
- Utils.CreateVersionDescription: the cut at 195 counts characters (code points). `slice(0, 195)` counts
  UTF-16 code units, so for a first line with characters outside the Basic Multilingual Plane the source
  keeps fewer characters, and can split a surrogate pair. `Utils.ShortMessageKept`, `Utils.LongFirstLineCut`
  and `Utils.FirstLineKept` inherit this.
- Logs.InstanceIds: the keys are listed in the order their instances first appear. `Object.keys` lists
  integer-like keys first, in numeric order. Instance ids such as `i-0abc…` are never integer-like, so this
  is assumed and not modelled.
- Utils.GetNodeVersion: `star.json` is taken as already parsed, so a parse failure is not modelled. Its
  fields are optional strings.
- Reconcile.RolePlan: a wanted trust policy that is not valid JSON would make `JSON.parse` throw inside
  the `try`. That takes the create path. `Json.Normalize` is total, so this path is not modelled.
- `JSON.stringify(JSON.parse(..))` is modelled only as dropping white space outside string literals
  (`Json.Normalize`). Re-formatted numbers and escapes, and parse failures, are not modelled.
- `decodeURIComponent` is modelled for ASCII escapes. An escape above ASCII, which would start a UTF-8
  sequence, is treated as a failure.
- Reconcile.RoleConverges: the store returns every IAM document compact and percent-encoded
  (`Cloud.StoredIamDocument`), and every bucket policy compact (`Cloud.StoredBucketPolicy`). This is an
  assumption about AWS, not something the source does. A trust policy sent with white space converges only
  under it: if IAM returned the document as sent, the comparison at lib/utils.js:277-280 would differ on
  every run and the policy would be updated each time.
- Reconcile.InlinePolicyRewrittenWhileNotCompact: it rests on the same assumption. If IAM returned an inline
  policy as sent, a document with white space would compare equal (lib/utils.js:354-356) and would not be
  written again.
- AWS error codes are reduced to a few kinds, the ones the source distinguishes. A mutating call or a wait
  fails for a resource in `writeFaults`, or by a platform rule: a duplicate SSM document content, or an instance
  profile that already holds a role.
