/**
 * Preparing the bundle directory before it is archived: the files the tool
 * renders from its templates, the platform folders it creates, the
 * project's own `.ebextensions` and `.platform` files it copies in, and the
 * `padScript` helper its templates call.
 *
 * A path is a sequence of segments relative to the build location, so
 * `path.join(dest, name)` is `dest + [name]` and a folder's parent is the
 * path without its last segment.
 */
module Bundle {
  import opened Results
  import opened Strings
  import Utils

  type Path = seq<string>

  // ===== templates, contents and writes =====

  /** The templates shipped with the tool, and a file of the project. */
  datatype Asset =
    | PackageJson
    | NpmrcTemplate
    | StartScript
    | RoleStartScript
    | NodeScript
    | NginxServerConf
    | PackagesYaml
    | GracefulShutdownScript
    | EnvScript
    | HealthCheck
    | ProjectFile(path: Path)

  /** A value handed to a template; `Undefined` is a variable passed as `undefined`. */
  datatype Value = Text(text: string) | Flag(flag: bool) | Packages(packages: map<string, string>) | Undefined

  type Vars = map<string, Value>

  /** What a file holds: a rendered template, earlier content with text appended, or a copied file. */
  datatype Content =
    | Rendered(asset: Asset, vars: Vars)
    | Appended(base: Option<Content>, text: string)
    | Copied(text: string)

  /** One write to the bundle. */
  datatype Write =
    | Render(asset: Asset, dest: Path, vars: Vars)   // `copy(source, dest, vars)`
    | Append(dest: Path, text: string)               // `fs.appendFileSync`
    | CopyFile(dest: Path, text: string)             // `fs.copyFileSync`

  /** The files after one write: the destination is replaced, or appended to. */
  function Written(files: map<Path, Content>, w: Write): (r: map<Path, Content>)
    ensures w.dest in r
  {
    match w
    case Render(asset, dest, vars) => files[dest := Rendered(asset, vars)]
    case Append(dest, text) => files[dest := Appended(if dest in files then Some(files[dest]) else None, text)]
    case CopyFile(dest, text) => files[dest := Copied(text)]
  }

  /** The files after a sequence of writes, in order. */
  function Applied(files: map<Path, Content>, writes: seq<Write>): map<Path, Content>
    decreases |writes|
  {
    if writes == [] then files
    else Written(Applied(files, writes[..|writes| - 1]), writes[|writes| - 1])
  }

  /** Some write of `writes` goes to `p`. */
  predicate WritesTo(writes: seq<Write>, p: Path)
  {
    exists i :: 0 <= i < |writes| && writes[i].dest == p
  }

  lemma {:induction false} AppliedConcat(files: map<Path, Content>, a: seq<Write>, b: seq<Write>)
    ensures Applied(files, a + b) == Applied(Applied(files, a), b)
    decreases |b|
  {
    if b == [] {
      assert a + b == a;
    } else {
      AppliedConcat(files, a, b[..|b| - 1]);
      assert (a + b)[..|a + b| - 1] == a + b[..|b| - 1];
    }
  }

  /** A path no write goes to keeps what it held (or stays absent). */
  lemma {:induction false} AppliedUnwritten(files: map<Path, Content>, writes: seq<Write>, p: Path)
    requires !WritesTo(writes, p)
    ensures p in Applied(files, writes) <==> p in files
    ensures p in files ==> Applied(files, writes)[p] == files[p]
    decreases |writes|
  {
    if writes != [] {
      AppliedUnwritten(files, writes[..|writes| - 1], p);
    }
  }

  /** A path written somewhere in `writes` is a file afterwards. */
  lemma {:induction false} AppliedWritten(files: map<Path, Content>, writes: seq<Write>, p: Path)
    requires WritesTo(writes, p)
    ensures p in Applied(files, writes)
    decreases |writes|
  {
    var last := writes[|writes| - 1];
    if last.dest != p {
      var i :| 0 <= i < |writes| && writes[i].dest == p;
      assert writes[..|writes| - 1][i].dest == p;
      AppliedWritten(files, writes[..|writes| - 1], p);
    }
  }

  lemma WritesToConcat(a: seq<Write>, b: seq<Write>, p: Path)
    ensures WritesTo(a + b, p) <==> WritesTo(a, p) || WritesTo(b, p)
  {
    if WritesTo(a + b, p) {
      var i :| 0 <= i < |a + b| && (a + b)[i].dest == p;
      if i >= |a| {
        assert b[i - |a|].dest == p;
      }
    }
    if WritesTo(b, p) {
      var j :| 0 <= j < |b| && b[j].dest == p;
      assert (a + b)[|a| + j].dest == p;
    }
    if WritesTo(a, p) {
      var j :| 0 <= j < |a| && a[j].dest == p;
      assert (a + b)[j].dest == p;
    }
  }

  // ===== the disk =====

  /** The errors the file-system calls report. */
  datatype FsError = EEXIST | ENOENT | ENOTDIR | EISDIR | EACCES | ENOSPC

  /**
   * The build location on disk: its folders and files. `mkdirFaults` gives
   * the error a `mkdirSync` of a path fails with for a reason other than the
   * path existing or its parent not being a folder (permissions, a full
   * disk).
   */
  class Disk {
    var dirs: set<Path>
    var files: map<Path, Content>
    const mkdirFaults: map<Path, FsError>

    constructor (dirs: set<Path>, files: map<Path, Content>, mkdirFaults: map<Path, FsError>)
      ensures this.dirs == dirs && this.files == files && this.mkdirFaults == mkdirFaults
    {
      this.dirs := dirs;
      this.files := files;
      this.mkdirFaults := mkdirFaults;
    }

    /** `fs.mkdirSync(path)`, without `recursive`. */
    method Mkdir(path: Path) returns (o: Outcome<FsError>)
      modifies this`dirs
      ensures (dirs, o) == MkdirStep(old(dirs), files, mkdirFaults, path)
    {
      var step := MkdirStep(dirs, files, mkdirFaults, path);
      dirs, o := step.0, step.1;
    }

    /** `if (!fs.existsSync(dest)) fs.mkdirSync(dest, { recursive: true })`. */
    method MkdirRecursive(path: Path) returns (o: Outcome<FsError>)
      modifies this`dirs
      ensures (dirs, o) == EnterFolder(old(dirs), files, path)
    {
      if path !in dirs && path !in files {
        if Parent(path) in dirs {
          dirs := dirs + {path};
          o := Pass;
        } else {
          o := Fail(PathError(dirs, files, path));
        }
      } else {
        o := Pass;
      }
    }

    /** One write: `writeFileSync` (in `copy`), `appendFileSync` or `copyFileSync`. */
    method Put(w: Write) returns (o: Outcome<FsError>)
      modifies this`files
      ensures (files, o) == WriteStep(dirs, old(files), w)
    {
      if Writable(dirs, w.dest) {
        files := Written(files, w);
        o := Pass;
      } else {
        o := Fail(WriteError(dirs, files, w.dest));
      }
    }
  }

  /** The path without its last segment. */
  function Parent(p: Path): (r: Path)
    ensures p != [] ==> p == r + [p[|p| - 1]]
  {
    if p == [] then [] else p[..|p| - 1]
  }

  /**
   * Why the folder holding `p` cannot be reached: the first ancestor of `p`
   * (from `p[..k]` on) that is not a folder is a file (ENOTDIR) or is
   * missing (ENOENT).
   */
  function BlockedAt(dirs: set<Path>, files: map<Path, Content>, p: Path, k: nat): (e: FsError)
    ensures e == ENOTDIR || e == ENOENT
    decreases |p| - k
  {
    if k >= |p| then ENOENT
    else if p[..k] in dirs then BlockedAt(dirs, files, p, k + 1)
    else if p[..k] in files then ENOTDIR
    else ENOENT
  }

  /** The error of a call on `p` whose parent is not a folder. */
  function PathError(dirs: set<Path>, files: map<Path, Content>, p: Path): (e: FsError)
    ensures e == ENOTDIR || e == ENOENT
  {
    BlockedAt(dirs, files, p, 1)
  }

  /** The first ancestor that is not a folder decides the error: ENOTDIR when it is a file. */
  lemma {:induction false} BlockedAtFile(dirs: set<Path>, files: map<Path, Content>, p: Path, k: nat, j: nat)
    requires k <= j < |p|
    requires forall m :: k <= m < j ==> p[..m] in dirs
    requires p[..j] !in dirs && p[..j] in files
    ensures BlockedAt(dirs, files, p, k) == ENOTDIR
    decreases j - k
  {
    if k < j {
      BlockedAtFile(dirs, files, p, k + 1, j);
    }
  }

  /** `writeFileSync`, `appendFileSync` and `copyFileSync` succeed exactly when the parent is a folder and the destination is not one. */
  predicate Writable(dirs: set<Path>, dest: Path)
  {
    Parent(dest) in dirs && dest !in dirs
  }

  /** The error of a write that cannot be made: the parent's, or EISDIR for a folder in the way. */
  function WriteError(dirs: set<Path>, files: map<Path, Content>, dest: Path): (e: FsError)
    ensures e == ENOTDIR || e == ENOENT || e == EISDIR
  {
    if Parent(dest) !in dirs then PathError(dirs, files, dest) else EISDIR
  }

  /** One write on disk: the file map after it, and whether it threw. */
  function WriteStep(dirs: set<Path>, files: map<Path, Content>, w: Write): (r: (map<Path, Content>, Outcome<FsError>))
  {
    if Writable(dirs, w.dest) then (Written(files, w), Pass) else (files, Fail(WriteError(dirs, files, w.dest)))
  }

  /**
   * `fs.existsSync(dest)` and, when nothing is there, `fs.mkdirSync(dest,
   * { recursive: true })`: something already at `dest`, file or folder, is
   * left as it is; otherwise the folder is created when its parent is one,
   * and the parent's error is thrown when it is not.
   */
  function EnterFolder(dirs: set<Path>, files: map<Path, Content>, dest: Path): (r: (set<Path>, Outcome<FsError>))
    ensures r.1.Pass? ==> r.0 == dirs || (r.0 == dirs + {dest} && dest !in files)
    ensures r.1.Fail? ==> r.0 == dirs && Parent(dest) !in dirs && r.1.error in {ENOENT, ENOTDIR}
    ensures dest in dirs ==> r == (dirs, Pass)
  {
    if dest in dirs || dest in files then (dirs, Pass)
    else if Parent(dest) in dirs then (dirs + {dest}, Pass)
    else (dirs, Fail(PathError(dirs, files, dest)))
  }

  /**
   * `mkdirSync(path)`: EEXIST when something is already there, ENOENT or
   * ENOTDIR when the parent is not a folder, otherwise the fault for the
   * path or a new folder.
   */
  function MkdirStep(dirs: set<Path>, files: map<Path, Content>, faults: map<Path, FsError>, path: Path)
    : (r: (set<Path>, Outcome<FsError>))
    ensures r.1.Pass? <==> r.0 == dirs + {path} && path !in dirs && path !in files
    ensures r.1.Fail? ==> r.0 == dirs
    ensures r.1 == Fail(EEXIST) <==> path in dirs || path in files || (Parent(path) in dirs && path in faults && faults[path] == EEXIST)
  {
    if path in dirs || path in files then (dirs, Fail(EEXIST))
    else if Parent(path) !in dirs then (dirs, Fail(PathError(dirs, files, path)))
    else if path in faults then (dirs, Fail(faults[path]))
    else (dirs + {path}, Pass)
  }

  /** The folders `injectFiles` creates, parents first (`path.resolve` drops the slash of `confighooks/`). */
  const Folders: seq<Path> := [
    ["bundle", ".ebextensions"],
    ["bundle", ".platform"],
    ["bundle", ".platform", "hooks"],
    ["bundle", ".platform", "hooks", "prebuild"],
    ["bundle", ".platform", "confighooks"],
    ["bundle", ".platform", "confighooks", "prebuild"],
    ["bundle", ".platform", "nginx"],
    ["bundle", ".platform", "nginx", "conf.d"],
    ["bundle", ".platform", "nginx", "conf.d", "elasticbeanstalk"]
  ]

  /**
   * The folder loop: each `mkdirSync` in turn; EEXIST is ignored, any other
   * error ends the loop and is thrown.
   */
  function MkdirAll(dirs: set<Path>, files: map<Path, Content>, faults: map<Path, FsError>, folders: seq<Path>)
    : (r: (set<Path>, Outcome<FsError>))
    ensures r.1 != Fail(EEXIST)
    ensures dirs <= r.0
    ensures forall d :: d in r.0 && d !in dirs ==> d in folders && d !in files
    ensures r.1.Pass? ==> forall i :: 0 <= i < |folders| ==> folders[i] in r.0 || folders[i] in files || folders[i] in faults
    decreases |folders|
  {
    if folders == [] then (dirs, Pass)
    else
      var step := MkdirStep(dirs, files, faults, folders[0]);
      if step.1.Fail? && step.1.error != EEXIST then step
      else MkdirAll(step.0, files, faults, folders[1..])
  }

  /** The folder loop of `injectFiles`. */
  method MakeFolders(disk: Disk) returns (o: Outcome<FsError>)
    modifies disk`dirs
    ensures (disk.dirs, o) == MkdirAll(old(disk.dirs), disk.files, disk.mkdirFaults, Folders)
  {
    o := MkdirEach(disk, Folders);
  }

  /** `mkdirSync` on each folder in turn, ignoring EEXIST and stopping at any other error. */
  method MkdirEach(disk: Disk, folders: seq<Path>) returns (o: Outcome<FsError>)
    modifies disk`dirs
    ensures (disk.dirs, o) == MkdirAll(old(disk.dirs), disk.files, disk.mkdirFaults, folders)
  {
    var i := 0;
    while i < |folders|
      invariant 0 <= i <= |folders|
      invariant MkdirAll(old(disk.dirs), disk.files, disk.mkdirFaults, folders)
             == MkdirAll(disk.dirs, disk.files, disk.mkdirFaults, folders[i..])
    {
      assert folders[i..][0] == folders[i] && folders[i..][1..] == folders[i + 1..];
      var r := disk.Mkdir(folders[i]);
      if r.Fail? && r.error != EEXIST {
        return r;
      }
      i := i + 1;
    }
    o := Pass;
  }

  /**
   * A folder list whose every folder's parent exists or comes earlier in
   * the list is created in full when nothing is in the way and no fault
   * strikes.
   */
  lemma {:induction false} MkdirAllParentsFirst(dirs: set<Path>, files: map<Path, Content>, faults: map<Path, FsError>, folders: seq<Path>)
    requires forall i :: 0 <= i < |folders| ==> folders[i] !in files && folders[i] !in faults
    requires forall i :: 0 <= i < |folders| ==> Parent(folders[i]) in dirs || Parent(folders[i]) in folders[..i]
    ensures MkdirAll(dirs, files, faults, folders).1 == Pass
    ensures forall i :: 0 <= i < |folders| ==> folders[i] in MkdirAll(dirs, files, faults, folders).0
    decreases |folders|
  {
    if folders != [] {
      assert folders[..0] == [];
      var step := MkdirStep(dirs, files, faults, folders[0]);
      assert folders[0] in step.0;
      var rest := folders[1..];
      forall i | 0 <= i < |rest|
        ensures Parent(rest[i]) in step.0 || Parent(rest[i]) in rest[..i]
      {
        assert rest[i] == folders[i + 1];
        assert folders[..i + 1] == [folders[0]] + rest[..i];
      }
      MkdirAllParentsFirst(step.0, files, faults, rest);
      forall i | 1 <= i < |folders|
        ensures folders[i] in MkdirAll(dirs, files, faults, folders).0
      {
        assert folders[i] == rest[i - 1];
      }
    }
  }

  /**
   * When `bundle` is a folder and nothing is in the way, the loop creates
   * every platform folder: each one's parent comes before it.
   */
  lemma FoldersCreated(dirs: set<Path>, files: map<Path, Content>, faults: map<Path, FsError>)
    requires ["bundle"] in dirs
    requires forall i :: 0 <= i < |Folders| ==> Folders[i] !in files && Folders[i] !in faults
    ensures MkdirAll(dirs, files, faults, Folders).1 == Pass
    ensures forall i :: 0 <= i < |Folders| ==> Folders[i] in MkdirAll(dirs, files, faults, Folders).0
  {
    forall i | 0 <= i < |Folders|
      ensures Parent(Folders[i]) in dirs || Parent(Folders[i]) in Folders[..i]
    {
      FolderParent(i);
    }
    MkdirAllParentsFirst(dirs, files, faults, Folders);
  }

  /** Each of the nine folders has `bundle` or an earlier folder as its parent. */
  lemma FolderParent(i: nat)
    requires i < |Folders|
    ensures Parent(Folders[i]) == ["bundle"] || Parent(Folders[i]) in Folders[..i]
  {
    var f := Folders;
    if i <= 1 {
      assert Parent(f[i]) == ["bundle"];
    } else {
      var j := if i == 2 || i == 4 || i == 6 then 1 else i - 1;
      assert Parent(f[i]) == f[j];
      assert f[..i][j] == f[j];
    }
  }

  /** Preparing the bundle a second time: every folder is there, every `mkdirSync` reports EEXIST. */
  lemma {:induction false} MkdirAllIdempotent(dirs: set<Path>, files: map<Path, Content>, faults: map<Path, FsError>, folders: seq<Path>)
    requires forall i :: 0 <= i < |folders| ==> folders[i] in dirs
    ensures MkdirAll(dirs, files, faults, folders) == (dirs, Pass)
    decreases |folders|
  {
    if folders != [] {
      MkdirAllIdempotent(dirs, files, faults, folders[1..]);
    }
  }

  // ===== the files injectFiles writes =====

  /** The deployment settings `injectFiles` reads. */
  datatype BundleConfig = BundleConfig(
    appName: string,
    envName: Option<string>,
    yumPackages: Option<map<string, string>>,
    forceSSL: Option<bool>,
    gracefulShutdown: bool,
    longEnvVars: bool,
    requireInstanceRole: bool)

  /** A project folder tree: files, folders, and anything else (links, sockets), which is skipped. */
  datatype Node = File(name: string, text: string) | Dir(name: string, children: seq<Node>) | Other(name: string)

  /**
   * What `injectFiles` reads besides the settings: the bundle's `star.json`
   * and `.node_version.txt`, the app's `.npmrc` (absent when it cannot be
   * read), and the names in the app's `.ebextensions` folder and the tree of
   * its `.platform` folder (absent when the folder does not exist).
   */
  datatype Project = Project(
    star: Utils.Star,
    nodeVersionTxt: string,
    npmrc: Option<string>,
    ebextensions: Option<seq<string>>,
    platform: Option<seq<Node>>)

  const PackageJsonPath: Path := ["bundle", "package.json"]
  const NpmrcPath: Path := ["bundle", ".npmrc"]
  const StartPath: Path := ["bundle", "start.sh"]
  const HooksPrebuild: Path := ["bundle", ".platform", "hooks", "prebuild"]
  const ConfigHooksPrebuild: Path := ["bundle", ".platform", "confighooks", "prebuild"]
  const NodeHookPath: Path := HooksPrebuild + ["45node.sh"]
  const NodeConfigHookPath: Path := ConfigHooksPrebuild + ["45node.sh"]
  const NginxConfPath: Path := ["bundle", ".platform", "nginx", "conf.d", "elasticbeanstalk", "00_application.conf"]
  const PackagesConfigPath: Path := ["bundle", ".ebextensions", "packages.config"]
  const GracefulShutdownPath: Path := HooksPrebuild + ["48graceful_shutdown.sh"]
  const EnvPath: Path := HooksPrebuild + ["47env.sh"]
  const HealthCheckPath: Path := ["bundle", "health-check.js"]
  const PlatformPath: Path := ["bundle", ".platform"]

  /** `role-start.sh` for apps that take their role from the instance, `start.sh` otherwise. */
  function StartTemplate(requireInstanceRole: bool): Asset
  {
    if requireInstanceRole then RoleStartScript else StartScript
  }

  function OptText(s: Option<string>): Value
  {
    if s.Some? then Text(s.value) else Undefined
  }

  /** The variables of `node.sh`: the versions `getNodeVersion` reports. */
  function NodeVars(project: Project): Vars
  {
    var v := Utils.GetNodeVersion(project.star, project.nodeVersionTxt);
    map["nodeVersion" := OptText(v.nodeVersion), "npmVersion" := Text(v.npmVersion), "meteorVersion" := OptText(v.meteorVersion)]
  }

  /** `package.json` and `.npmrc` from the templates, then the app's `.npmrc` appended when it can be read. */
  function PreambleWrites(name: string, version: string, project: Project): seq<Write>
  {
    [Render(PackageJson, PackageJsonPath, map["name" := Text(name), "version" := Text(version)]),
     Render(NpmrcTemplate, NpmrcPath, map[])]
    + (if project.npmrc.Some? then [Append(NpmrcPath, "\n" + project.npmrc.value)] else [])
  }

  function StartWrite(cfg: BundleConfig): Write
  {
    Render(StartTemplate(cfg.requireInstanceRole), StartPath, map[])
  }

  /** The writes before the folder loop. */
  function HeadWrites(cfg: BundleConfig, name: string, version: string, project: Project): seq<Write>
  {
    PreambleWrites(name, version, project) + [StartWrite(cfg)]
  }

  /** `node.sh` rendered into both prebuild hook folders. */
  function NodeWrites(project: Project): seq<Write>
  {
    [Render(NodeScript, NodeHookPath, NodeVars(project)), Render(NodeScript, NodeConfigHookPath, NodeVars(project))]
  }

  function NginxWrite(cfg: BundleConfig): Write
  {
    Render(NginxServerConf, NginxConfPath, map["forceSSL" := if cfg.forceSSL.Some? then Flag(cfg.forceSSL.value) else Undefined])
  }

  function PackagesWrites(cfg: BundleConfig): seq<Write>
  {
    if cfg.yumPackages.Some? then [Render(PackagesYaml, PackagesConfigPath, map["packages" := Packages(cfg.yumPackages.value)])] else []
  }

  function GracefulWrites(cfg: BundleConfig): seq<Write>
  {
    if cfg.gracefulShutdown then [Render(GracefulShutdownScript, GracefulShutdownPath, map[])] else []
  }

  /** `env.sh` learns the bucket that holds the long environment variables. */
  function EnvWrites(cfg: BundleConfig): seq<Write>
  {
    if cfg.longEnvVars then [Render(EnvScript, EnvPath, map["bucketName" := Text(Utils.NamesOf(cfg.appName, cfg.envName).bucket)])] else []
  }

  /** The three writes that depend on settings. */
  function OptionalWrites(cfg: BundleConfig): seq<Write>
  {
    PackagesWrites(cfg) + GracefulWrites(cfg) + EnvWrites(cfg)
  }

  /** The writes after the folder loop, up to `health-check.js`. */
  function BodyWrites(cfg: BundleConfig, project: Project): seq<Write>
  {
    NodeWrites(project) + [NginxWrite(cfg)] + OptionalWrites(cfg) + [Render(HealthCheck, HealthCheckPath, map[])]
  }

  /** Each file of the app's `.ebextensions` folder rendered into the bundle's. */
  function CustomWrites(names: seq<string>): (ws: seq<Write>)
    ensures |ws| == |names|
    ensures forall i :: 0 <= i < |names| ==> ws[i].dest == ["bundle", ".ebextensions", names[i]]
  {
    seq(|names|, i requires 0 <= i < |names| => Render(ProjectFile([".ebextensions", names[i]]), ["bundle", ".ebextensions", names[i]], map[]))
  }

  /** The copies of the app's `.ebextensions` files, when it has that folder. */
  function EbextensionsWrites(project: Project): seq<Write>
  {
    if project.ebextensions.Some? then CustomWrites(project.ebextensions.value) else []
  }

  lemma CustomWritesConcat(a: seq<string>, b: seq<string>)
    ensures CustomWrites(a + b) == CustomWrites(a) + CustomWrites(b)
  {
  }

  function ProjectWrites(project: Project): seq<Write>
  {
    EbextensionsWrites(project)
    + (if project.platform.Some? then TreeWrites(project.platform.value, PlatformPath) else [])
  }

  /**
   * The copies `copyFolderSync` makes of a folder's entries, in order,
   * descending into each sub-folder where it stands.
   */
  function TreeWrites(nodes: seq<Node>, dest: Path): seq<Write>
    decreases nodes
  {
    if nodes == [] then []
    else
      var before := TreeWrites(nodes[..|nodes| - 1], dest);
      match nodes[|nodes| - 1]
      case File(n, text) => before + [CopyFile(dest + [n], text)]
      case Dir(n, children) => before + TreeWrites(children, dest + [n])
      case Other(_) => before
  }

  /** The folders `copyFolderSync` creates below `dest`. */
  function TreeDirs(nodes: seq<Node>, dest: Path): set<Path>
    decreases nodes
  {
    if nodes == [] then {}
    else
      var before := TreeDirs(nodes[..|nodes| - 1], dest);
      match nodes[|nodes| - 1]
      case Dir(n, children) => before + {dest + [n]} + TreeDirs(children, dest + [n])
      case _ => before
  }

  /** Every copy of a folder's tree lands below the destination. */
  lemma {:induction false} TreeWritesBelow(nodes: seq<Node>, dest: Path)
    ensures forall w :: w in TreeWrites(nodes, dest) ==> |w.dest| > |dest| && w.dest[..|dest|] == dest
    decreases nodes
  {
    if nodes != [] {
      var init := nodes[..|nodes| - 1];
      TreeWritesBelow(init, dest);
      match nodes[|nodes| - 1] {
        case File(n, text) =>
          assert (dest + [n])[..|dest|] == dest;
        case Dir(n, children) =>
          TreeWritesBelow(children, dest + [n]);
          forall w | w in TreeWrites(children, dest + [n])
            ensures |w.dest| > |dest| && w.dest[..|dest|] == dest
          {
            assert w.dest[..|dest|] == w.dest[..|dest| + 1][..|dest|];
          }
        case Other(_) =>
      }
    }
  }

  /** Every folder the copy of a tree creates lies below the destination. */
  lemma {:induction false} TreeDirsBelow(nodes: seq<Node>, dest: Path)
    ensures forall d :: d in TreeDirs(nodes, dest) ==> |d| > |dest| && d[..|dest|] == dest
    decreases nodes
  {
    if nodes != [] {
      var init := nodes[..|nodes| - 1];
      TreeDirsBelow(init, dest);
      match nodes[|nodes| - 1] {
        case Dir(n, children) =>
          TreeDirsBelow(children, dest + [n]);
          assert (dest + [n])[..|dest|] == dest;
          forall d | d in TreeDirs(children, dest + [n])
            ensures d[..|dest|] == dest
          {
            assert d[..|dest|] == d[..|dest| + 1][..|dest|];
          }
        case File(_, _) =>
        case Other(_) =>
      }
    }
  }

  /** Every write `injectFiles` makes when the folder loop succeeds, in order. */
  function Manifest(cfg: BundleConfig, name: string, version: string, project: Project): seq<Write>
  {
    HeadWrites(cfg, name, version, project) + BodyWrites(cfg, project) + ProjectWrites(project)
  }

  /** The folders the `.platform` copy adds. */
  function PlatformDirs(project: Project): set<Path>
  {
    if project.platform.Some? then {PlatformPath} + TreeDirs(project.platform.value, PlatformPath) else {}
  }

  // ===== runs of writes =====

  /**
   * Writes made one after another while the folders stay as they are: the
   * first write that throws ends the run with its error, except that an
   * append that throws is skipped, as `injectFiles` catches it.
   */
  function RunWrites(dirs: set<Path>, files: map<Path, Content>, writes: seq<Write>): (r: (map<Path, Content>, Outcome<FsError>))
    ensures r.1.Fail? ==> r.1.error in {ENOENT, ENOTDIR, EISDIR}
    decreases |writes|
  {
    if writes == [] then (files, Pass)
    else
      var before := RunWrites(dirs, files, writes[..|writes| - 1]);
      var w := writes[|writes| - 1];
      if before.1.Fail? || (w.Append? && !Writable(dirs, w.dest)) then before
      else WriteStep(dirs, before.0, w)
  }

  lemma RunWritesSnoc(dirs: set<Path>, files: map<Path, Content>, writes: seq<Write>, w: Write)
    ensures RunWrites(dirs, files, writes + [w])
         == (var before := RunWrites(dirs, files, writes);
             if before.1.Fail? || (w.Append? && !Writable(dirs, w.dest)) then before
             else WriteStep(dirs, before.0, w))
  {
    assert (writes + [w])[..|writes|] == writes;
  }

  /** Two runs one after the other are one run; the second does not start when the first throws. */
  lemma {:induction false} RunWritesConcat(dirs: set<Path>, files: map<Path, Content>, a: seq<Write>, b: seq<Write>)
    ensures RunWrites(dirs, files, a + b)
         == (var ra := RunWrites(dirs, files, a); if ra.1.Fail? then ra else RunWrites(dirs, ra.0, b))
    decreases |b|
  {
    if b == [] {
      assert a + b == a;
    } else {
      var init := b[..|b| - 1];
      RunWritesConcat(dirs, files, a, init);
      assert (a + b)[..|a + b| - 1] == a + init;
      assert init + [b[|b| - 1]] == b;
      RunWritesSnoc(dirs, RunWrites(dirs, files, a).0, init, b[|b| - 1]);
    }
  }

  /** A run throws exactly when a write other than an append cannot be made. */
  lemma {:induction false} RunWritesOutcome(dirs: set<Path>, files: map<Path, Content>, writes: seq<Write>)
    ensures RunWrites(dirs, files, writes).1.Pass?
        <==> forall i :: 0 <= i < |writes| && !writes[i].Append? ==> Writable(dirs, writes[i].dest)
    decreases |writes|
  {
    if writes != [] {
      var init := writes[..|writes| - 1];
      RunWritesOutcome(dirs, files, init);
      assert forall i :: 0 <= i < |init| ==> init[i] == writes[i];
    }
  }

  /** When every destination can be written, the run succeeds with every write applied in order. */
  lemma {:induction false} RunWritesAllWritable(dirs: set<Path>, files: map<Path, Content>, writes: seq<Write>)
    requires forall i :: 0 <= i < |writes| ==> Writable(dirs, writes[i].dest)
    ensures RunWrites(dirs, files, writes) == (Applied(files, writes), Pass)
    decreases |writes|
  {
    if writes != [] {
      var init := writes[..|writes| - 1];
      assert forall i :: 0 <= i < |init| ==> init[i] == writes[i];
      RunWritesAllWritable(dirs, files, init);
    }
  }

  /**
   * A run that succeeds has applied every write, provided each append goes
   * to a file some other write of the run makes.
   */
  lemma RunWritesApplied(dirs: set<Path>, files: map<Path, Content>, writes: seq<Write>)
    requires forall w :: w in writes && w.Append? ==> exists v :: v in writes && !v.Append? && v.dest == w.dest
    ensures RunWrites(dirs, files, writes).1.Pass? ==> RunWrites(dirs, files, writes).0 == Applied(files, writes)
  {
    RunWritesOutcome(dirs, files, writes);
    if RunWrites(dirs, files, writes).1.Pass? {
      forall i | 0 <= i < |writes|
        ensures Writable(dirs, writes[i].dest)
      {
        if writes[i].Append? {
          assert writes[i] in writes;
          var v :| v in writes && !v.Append? && v.dest == writes[i].dest;
          var j :| 0 <= j < |writes| && writes[j] == v;
        }
      }
      RunWritesAllWritable(dirs, files, writes);
    }
  }

  /** The first write that cannot be made ends the run: the writes before it are applied and nothing after it. */
  lemma RunWritesStops(dirs: set<Path>, files: map<Path, Content>, a: seq<Write>, w: Write, b: seq<Write>)
    requires forall i :: 0 <= i < |a| ==> Writable(dirs, a[i].dest)
    requires !w.Append? && !Writable(dirs, w.dest)
    ensures RunWrites(dirs, files, a + [w] + b) == (Applied(files, a), Fail(WriteError(dirs, Applied(files, a), w.dest)))
  {
    RunWritesAllWritable(dirs, files, a);
    RunWritesSnoc(dirs, files, a, w);
    RunWritesConcat(dirs, files, a + [w], b);
  }

  // ===== copyFolderSync =====

  /**
   * The entries of a folder copied one after another into `dest`: a file
   * with `copyFileSync`, a folder by `copyFolderSync` on it, anything else
   * skipped; the first error ends the copy.
   */
  function CopyEntries(dirs: set<Path>, files: map<Path, Content>, nodes: seq<Node>, dest: Path)
    : (r: (set<Path>, map<Path, Content>, Outcome<FsError>))
    ensures dirs <= r.0
    ensures r.2.Fail? ==> r.2.error in {ENOENT, ENOTDIR, EISDIR}
    decreases nodes, 0
  {
    if nodes == [] then (dirs, files, Pass)
    else
      var before := CopyEntries(dirs, files, nodes[..|nodes| - 1], dest);
      if before.2.Fail? then before
      else match nodes[|nodes| - 1]
        case File(n, text) =>
          var step := WriteStep(before.0, before.1, CopyFile(dest + [n], text));
          (before.0, step.0, step.1)
        case Dir(n, children) => CopyFolder(before.0, before.1, children, dest + [n])
        case Other(_) => before
  }

  /** `copyFolderSync` of a source folder that exists: `dest` is entered, then the entries are copied. */
  function CopyFolder(dirs: set<Path>, files: map<Path, Content>, nodes: seq<Node>, dest: Path)
    : (r: (set<Path>, map<Path, Content>, Outcome<FsError>))
    ensures dirs <= r.0
    ensures r.2.Fail? ==> r.2.error in {ENOENT, ENOTDIR, EISDIR}
    decreases nodes, 1
  {
    var entered := EnterFolder(dirs, files, dest);
    if entered.1.Fail? then (dirs, files, entered.1)
    else CopyEntries(entered.0, files, nodes, dest)
  }

  /** A copy that succeeds has made every copy of `TreeWrites`, in order. */
  lemma {:induction false} CopyEntriesApplied(dirs: set<Path>, files: map<Path, Content>, nodes: seq<Node>, dest: Path)
    ensures var r := CopyEntries(dirs, files, nodes, dest);
      r.2.Pass? ==> r.1 == Applied(files, TreeWrites(nodes, dest))
    decreases nodes, 0
  {
    if nodes != [] {
      var i := |nodes| - 1;
      var init := nodes[..i];
      CopyEntriesApplied(dirs, files, init, dest);
      var before := CopyEntries(dirs, files, init, dest);
      if before.2.Pass? {
        if nodes[i].Dir? {
          CopyFolderApplied(before.0, before.1, nodes[i].children, dest + [nodes[i].name]);
        }
        CopyLastApplied(dirs, files, nodes, dest);
      }
    }
  }

  /** One more entry, copied after the earlier ones succeeded, extends the copies by that entry's. */
  lemma CopyLastApplied(dirs: set<Path>, files: map<Path, Content>, nodes: seq<Node>, dest: Path)
    requires nodes != []
    requires var before := CopyEntries(dirs, files, nodes[..|nodes| - 1], dest);
      before.2.Pass? && before.1 == Applied(files, TreeWrites(nodes[..|nodes| - 1], dest))
    requires var before := CopyEntries(dirs, files, nodes[..|nodes| - 1], dest);
      var last := nodes[|nodes| - 1];
      last.Dir? ==>
        var r := CopyFolder(before.0, before.1, last.children, dest + [last.name]);
        r.2.Pass? ==> r.1 == Applied(before.1, TreeWrites(last.children, dest + [last.name]))
    ensures var r := CopyEntries(dirs, files, nodes, dest);
      r.2.Pass? ==> r.1 == Applied(files, TreeWrites(nodes, dest))
  {
    var i := |nodes| - 1;
    var init := nodes[..i];
    TreeSnoc(nodes, i, dest);
    assert nodes[..i + 1] == nodes;
    match nodes[i] {
      case File(n, text) =>
        AppliedSnoc(files, TreeWrites(init, dest), CopyFile(dest + [n], text));
      case Dir(n, children) =>
        AppliedConcat(files, TreeWrites(init, dest), TreeWrites(children, dest + [n]));
      case Other(_) =>
    }
  }

  lemma {:induction false} CopyFolderApplied(dirs: set<Path>, files: map<Path, Content>, nodes: seq<Node>, dest: Path)
    ensures var r := CopyFolder(dirs, files, nodes, dest);
      r.2.Pass? ==> r.1 == Applied(files, TreeWrites(nodes, dest))
    decreases nodes, 1
  {
    var entered := EnterFolder(dirs, files, dest);
    if entered.1.Pass? {
      CopyEntriesApplied(entered.0, files, nodes, dest);
    }
  }

  /** A copy creates no folder but the destination and those of `TreeDirs`. */
  lemma {:induction false} CopyEntriesDirs(dirs: set<Path>, files: map<Path, Content>, nodes: seq<Node>, dest: Path)
    ensures CopyEntries(dirs, files, nodes, dest).0 <= dirs + TreeDirs(nodes, dest)
    decreases nodes, 0
  {
    if nodes != [] {
      var i := |nodes| - 1;
      var init := nodes[..i];
      CopyEntriesDirs(dirs, files, init, dest);
      var before := CopyEntries(dirs, files, init, dest);
      if before.2.Pass? {
        TreeSnoc(nodes, i, dest);
        assert nodes[..i + 1] == nodes;
        if nodes[i].Dir? {
          CopyFolderDirs(before.0, before.1, nodes[i].children, dest + [nodes[i].name]);
        }
      }
    }
  }

  lemma {:induction false} CopyFolderDirs(dirs: set<Path>, files: map<Path, Content>, nodes: seq<Node>, dest: Path)
    ensures CopyFolder(dirs, files, nodes, dest).0 <= dirs + {dest} + TreeDirs(nodes, dest)
    decreases nodes, 1
  {
    var entered := EnterFolder(dirs, files, dest);
    if entered.1.Pass? {
      CopyEntriesDirs(entered.0, files, nodes, dest);
    }
  }

  /** Once a copy of the first entries throws, the rest of the folder is not copied. */
  lemma {:induction false} CopyEntriesFailStays(dirs: set<Path>, files: map<Path, Content>, nodes: seq<Node>, i: nat, dest: Path)
    requires i <= |nodes| && CopyEntries(dirs, files, nodes[..i], dest).2.Fail?
    ensures CopyEntries(dirs, files, nodes, dest) == CopyEntries(dirs, files, nodes[..i], dest)
    decreases |nodes| - i
  {
    if i < |nodes| {
      assert nodes[..i + 1][..i] == nodes[..i];
      CopyEntriesFailStays(dirs, files, nodes, i + 1, dest);
    } else {
      assert nodes[..i] == nodes;
    }
  }

  /** `copyFolderSync(src, dest)`: nothing when `src` does not exist. */
  method CopyFolderSync(disk: Disk, src: Option<seq<Node>>, dest: Path) returns (o: Outcome<FsError>)
    modifies disk`dirs, disk`files
    ensures src.None? ==> disk.dirs == old(disk.dirs) && disk.files == old(disk.files) && o == Pass
    ensures src.Some? ==> (disk.dirs, disk.files, o) == CopyFolder(old(disk.dirs), old(disk.files), src.value, dest)
  {
    o := Pass;
    if src.Some? {
      o := CopyTree(disk, src.value, dest);
    }
  }

  /** What one more entry of a folder adds to its copies and its created folders. */
  lemma TreeSnoc(nodes: seq<Node>, i: nat, dest: Path)
    requires i < |nodes|
    ensures nodes[i].File? ==>
      && TreeWrites(nodes[..i + 1], dest) == TreeWrites(nodes[..i], dest) + [CopyFile(dest + [nodes[i].name], nodes[i].text)]
      && TreeDirs(nodes[..i + 1], dest) == TreeDirs(nodes[..i], dest)
    ensures nodes[i].Dir? ==>
      && TreeWrites(nodes[..i + 1], dest) == TreeWrites(nodes[..i], dest) + TreeWrites(nodes[i].children, dest + [nodes[i].name])
      && TreeDirs(nodes[..i + 1], dest) == TreeDirs(nodes[..i], dest) + {dest + [nodes[i].name]} + TreeDirs(nodes[i].children, dest + [nodes[i].name])
    ensures nodes[i].Other? ==>
      TreeWrites(nodes[..i + 1], dest) == TreeWrites(nodes[..i], dest) && TreeDirs(nodes[..i + 1], dest) == TreeDirs(nodes[..i], dest)
  {
    assert nodes[..i + 1][..i] == nodes[..i];
  }

  /** The body of `copyFolderSync` for a source folder that exists. */
  method CopyTree(disk: Disk, nodes: seq<Node>, dest: Path) returns (o: Outcome<FsError>)
    modifies disk`dirs, disk`files
    ensures (disk.dirs, disk.files, o) == CopyFolder(old(disk.dirs), old(disk.files), nodes, dest)
    decreases nodes
  {
    o := disk.MkdirRecursive(dest);
    if o.Fail? {
      return;
    }
    ghost var dirs1, files0 := disk.dirs, disk.files;
    var i := 0;
    while i < |nodes|
      invariant 0 <= i <= |nodes|
      invariant (disk.dirs, disk.files, o) == CopyEntries(dirs1, files0, nodes[..i], dest)
      invariant o == Pass
    {
      assert nodes[..i + 1][..i] == nodes[..i];
      match nodes[i] {
        case File(n, text) =>
          o := disk.Put(CopyFile(dest + [n], text));
        case Dir(n, children) =>
          o := CopyTree(disk, children, dest + [n]);
        case Other(_) =>
      }
      if o.Fail? {
        CopyEntriesFailStays(dirs1, files0, nodes, i + 1, dest);
        return;
      }
      i := i + 1;
    }
    assert nodes[..i] == nodes;
  }

  // ===== injectFiles =====

  lemma AppliedSnoc(files: map<Path, Content>, writes: seq<Write>, w: Write)
    ensures Applied(files, writes + [w]) == Written(Applied(files, writes), w)
  {
    assert (writes + [w])[..|writes|] == writes;
  }

  /**
   * What `injectFiles` does to the build location: the head writes, the
   * folder loop, the body writes and the app's `.ebextensions` files, then
   * the copy of the app's `.platform` folder; the first error thrown ends
   * it.
   */
  function Inject(dirs: set<Path>, files: map<Path, Content>, faults: map<Path, FsError>,
                  cfg: BundleConfig, name: string, version: string, project: Project)
    : (r: (set<Path>, map<Path, Content>, Outcome<FsError>))
    ensures r.2 != Fail(EEXIST)
    ensures dirs <= r.0
  {
    var head := RunWrites(dirs, files, HeadWrites(cfg, name, version, project));
    if head.1.Fail? then (dirs, head.0, head.1)
    else
      var mk := MkdirAll(dirs, head.0, faults, Folders);
      if mk.1.Fail? then (mk.0, head.0, mk.1)
      else
        var body := RunWrites(mk.0, head.0, BodyWrites(cfg, project) + EbextensionsWrites(project));
        if body.1.Fail? then (mk.0, body.0, body.1)
        else if project.platform.None? then (mk.0, body.0, Pass)
        else CopyFolder(mk.0, body.0, project.platform.value, PlatformPath)
  }

  /**
   * `injectFiles`: the head writes, the folder loop (whose errors other
   * than EEXIST are thrown), the body writes, the app's `.ebextensions`
   * files and its `.platform` folder; an error thrown by any of them ends
   * it.
   */
  method InjectFiles(disk: Disk, cfg: BundleConfig, name: string, version: string, project: Project)
    returns (o: Outcome<FsError>)
    modifies disk`dirs, disk`files
    ensures (disk.dirs, disk.files, o) == Inject(old(disk.dirs), old(disk.files), disk.mkdirFaults, cfg, name, version, project)
  {
    o := WriteHead(disk, cfg, name, version, project);
    if o.Fail? {
      return;
    }
    o := MakeFolders(disk);
    if o.Fail? {
      return;
    }
    ghost var dirs1, files1 := disk.dirs, disk.files;
    RunWritesConcat(dirs1, files1, BodyWrites(cfg, project), EbextensionsWrites(project));
    o := WriteBody(disk, cfg, project);
    if o.Fail? {
      return;
    }
    if project.ebextensions.Some? {
      o := WriteCustom(disk, project.ebextensions.value);
      if o.Fail? {
        return;
      }
    } else {
      assert RunWrites(dirs1, disk.files, []) == (disk.files, Pass);
    }
    o := CopyFolderSync(disk, project.platform, PlatformPath);
  }

  /** The writes of `injectFiles` before its folder loop; a failed append of the app's `.npmrc` is caught. */
  method WriteHead(disk: Disk, cfg: BundleConfig, name: string, version: string, project: Project)
    returns (o: Outcome<FsError>)
    modifies disk`files
    ensures (disk.files, o) == RunWrites(disk.dirs, old(disk.files), HeadWrites(cfg, name, version, project))
  {
    ghost var files0 := disk.files;
    var w := Render(PackageJson, PackageJsonPath, map["name" := Text(name), "version" := Text(version)]);
    o := disk.Put(w);
    RunWritesSnoc(disk.dirs, files0, [], w);
    ghost var done: seq<Write> := [w];
    w := Render(NpmrcTemplate, NpmrcPath, map[]);
    if o.Pass? {
      o := disk.Put(w);
    }
    RunWritesSnoc(disk.dirs, files0, done, w);
    done := done + [w];
    if project.npmrc.Some? {
      w := Append(NpmrcPath, "\n" + project.npmrc.value);
      if o.Pass? {
        var appended := disk.Put(w);
      }
      RunWritesSnoc(disk.dirs, files0, done, w);
      done := done + [w];
    }
    assert done == PreambleWrites(name, version, project);
    w := Render(StartTemplate(cfg.requireInstanceRole), StartPath, map[]);
    if o.Pass? {
      o := disk.Put(w);
    }
    RunWritesSnoc(disk.dirs, files0, done, w);
  }

  /** The writes of `injectFiles` after its folder loop, up to `health-check.js`. */
  method WriteBody(disk: Disk, cfg: BundleConfig, project: Project) returns (o: Outcome<FsError>)
    modifies disk`files
    ensures (disk.files, o) == RunWrites(disk.dirs, old(disk.files), BodyWrites(cfg, project))
  {
    ghost var files0 := disk.files;
    var v := Utils.GetNodeVersion(project.star, project.nodeVersionTxt);
    var vars := map["nodeVersion" := OptText(v.nodeVersion), "npmVersion" := Text(v.npmVersion), "meteorVersion" := OptText(v.meteorVersion)];
    assert vars == NodeVars(project);
    var w := Render(NodeScript, NodeHookPath, vars);
    o := disk.Put(w);
    RunWritesSnoc(disk.dirs, files0, [], w);
    w := Render(NodeScript, NodeConfigHookPath, vars);
    if o.Pass? {
      o := disk.Put(w);
    }
    RunWritesSnoc(disk.dirs, files0, [NodeWrites(project)[0]], w);
    assert [NodeWrites(project)[0]] + [w] == NodeWrites(project);
    w := NginxWrite(cfg);
    if o.Pass? {
      o := disk.Put(w);
    }
    RunWritesSnoc(disk.dirs, files0, NodeWrites(project), w);
    ghost var done := NodeWrites(project) + [w];
    if o.Pass? {
      o := WriteOptional(disk, cfg);
    }
    RunWritesConcat(disk.dirs, files0, done, OptionalWrites(cfg));
    w := Render(HealthCheck, HealthCheckPath, map[]);
    if o.Pass? {
      o := disk.Put(w);
    }
    RunWritesSnoc(disk.dirs, files0, done + OptionalWrites(cfg), w);
  }

  /** The three writes of `injectFiles` that depend on settings. */
  method WriteOptional(disk: Disk, cfg: BundleConfig) returns (o: Outcome<FsError>)
    modifies disk`files
    ensures (disk.files, o) == RunWrites(disk.dirs, old(disk.files), OptionalWrites(cfg))
  {
    ghost var files0 := disk.files;
    o := Pass;
    if cfg.yumPackages.Some? {
      o := disk.Put(Render(PackagesYaml, PackagesConfigPath, map["packages" := Packages(cfg.yumPackages.value)]));
    }
    RunWritesAtMostOne(disk.dirs, files0, PackagesWrites(cfg));
    ghost var files1, o1 := disk.files, o;
    if cfg.gracefulShutdown && o.Pass? {
      o := disk.Put(Render(GracefulShutdownScript, GracefulShutdownPath, map[]));
    }
    RunWritesAtMostOne(disk.dirs, files1, GracefulWrites(cfg));
    RunWritesConcat(disk.dirs, files0, PackagesWrites(cfg), GracefulWrites(cfg));
    ghost var files2, o2 := disk.files, o;
    if cfg.longEnvVars && o.Pass? {
      var bucket := Utils.NamesOf(cfg.appName, cfg.envName).bucket;
      o := disk.Put(Render(EnvScript, EnvPath, map["bucketName" := Text(bucket)]));
    }
    RunWritesAtMostOne(disk.dirs, files2, EnvWrites(cfg));
    RunWritesConcat(disk.dirs, files0, PackagesWrites(cfg) + GracefulWrites(cfg), EnvWrites(cfg));
  }

  /** A run of no write changes nothing; a run of one write is that write. */
  lemma RunWritesAtMostOne(dirs: set<Path>, files: map<Path, Content>, writes: seq<Write>)
    requires |writes| <= 1 && forall i :: 0 <= i < |writes| ==> !writes[i].Append?
    ensures RunWrites(dirs, files, writes) == if writes == [] then (files, Pass) else WriteStep(dirs, files, writes[0])
  {
    if writes != [] {
      RunWritesSnoc(dirs, files, [], writes[0]);
      assert [] + [writes[0]] == writes;
    }
  }

  /** The copy loop over the app's `.ebextensions` folder; an error thrown ends it. */
  method WriteCustom(disk: Disk, names: seq<string>) returns (o: Outcome<FsError>)
    modifies disk`files
    ensures (disk.files, o) == RunWrites(disk.dirs, old(disk.files), CustomWrites(names))
  {
    ghost var files0 := disk.files;
    o := Pass;
    var i := 0;
    while i < |names|
      invariant 0 <= i <= |names|
      invariant (disk.files, o) == RunWrites(disk.dirs, files0, CustomWrites(names[..i]))
      invariant o == Pass
    {
      var w := Render(ProjectFile([".ebextensions", names[i]]), ["bundle", ".ebextensions", names[i]], map[]);
      o := disk.Put(w);
      CustomWritesSnoc(names, i);
      RunWritesSnoc(disk.dirs, files0, CustomWrites(names[..i]), w);
      if o.Fail? {
        CustomRunStops(disk.dirs, files0, names, i + 1);
        return;
      }
      i := i + 1;
    }
    assert names[..i] == names;
  }

  lemma CustomWritesSnoc(names: seq<string>, i: nat)
    requires i < |names|
    ensures CustomWrites(names[..i + 1])
         == CustomWrites(names[..i]) + [Render(ProjectFile([".ebextensions", names[i]]), ["bundle", ".ebextensions", names[i]], map[])]
  {
    CustomWritesConcat(names[..i], [names[i]]);
    assert names[..i] + [names[i]] == names[..i + 1];
  }

  /** Once a copy of the first `.ebextensions` files throws, the rest are not copied. */
  lemma CustomRunStops(dirs: set<Path>, files: map<Path, Content>, names: seq<string>, i: nat)
    requires i <= |names| && RunWrites(dirs, files, CustomWrites(names[..i])).1.Fail?
    ensures RunWrites(dirs, files, CustomWrites(names)) == RunWrites(dirs, files, CustomWrites(names[..i]))
  {
    RunWritesConcat(dirs, files, CustomWrites(names[..i]), CustomWrites(names[i..]));
    CustomWritesConcat(names[..i], names[i..]);
    assert names[..i] + names[i..] == names;
  }

  // ===== what injectFiles leaves behind =====

  /** The head and the body write no append but the app's `.npmrc`, which goes to the `.npmrc` the head renders. */
  lemma HeadAppends(cfg: BundleConfig, name: string, version: string, project: Project)
    ensures var ws := HeadWrites(cfg, name, version, project);
      forall w :: w in ws && w.Append? ==> exists v :: v in ws && !v.Append? && v.dest == w.dest
  {
    var ws := HeadWrites(cfg, name, version, project);
    var npmrc := Render(NpmrcTemplate, NpmrcPath, map[]);
    assert ws[1] == npmrc && npmrc in ws;
  }

  lemma BodyRenders(cfg: BundleConfig, project: Project)
    ensures forall w :: w in BodyWrites(cfg, project) + EbextensionsWrites(project) ==> w.Render?
  {
    OptionalRenders(cfg);
    forall w | w in EbextensionsWrites(project)
      ensures w.Render?
    {
      var names := project.ebextensions.value;
      var i :| 0 <= i < |CustomWrites(names)| && CustomWrites(names)[i] == w;
    }
  }

  lemma OptionalRenders(cfg: BundleConfig)
    ensures forall w :: w in OptionalWrites(cfg) ==> w.Render?
  {
    assert forall w :: w in PackagesWrites(cfg) ==> w.Render?;
    assert forall w :: w in GracefulWrites(cfg) ==> w.Render?;
    assert forall w :: w in EnvWrites(cfg) ==> w.Render?;
  }

  /**
   * When `injectFiles` succeeds, the bundle holds exactly the manifest's
   * files applied in order; its folders are those after the folder loop,
   * plus at most the folders the `.platform` copy adds.
   */
  lemma InjectApplied(dirs: set<Path>, files: map<Path, Content>, faults: map<Path, FsError>,
                      cfg: BundleConfig, name: string, version: string, project: Project)
    ensures var r := Inject(dirs, files, faults, cfg, name, version, project);
      var mk := MkdirAll(dirs, Applied(files, HeadWrites(cfg, name, version, project)), faults, Folders);
      r.2.Pass? ==> r.1 == Applied(files, Manifest(cfg, name, version, project)) && mk.0 <= r.0 <= mk.0 + PlatformDirs(project)
  {
    var r := Inject(dirs, files, faults, cfg, name, version, project);
    if r.2.Pass? {
      var headWrites := HeadWrites(cfg, name, version, project);
      var bodyWrites := BodyWrites(cfg, project) + EbextensionsWrites(project);
      HeadAppends(cfg, name, version, project);
      RunWritesApplied(dirs, files, headWrites);
      var head := Applied(files, headWrites);
      var mk := MkdirAll(dirs, head, faults, Folders);
      BodyRenders(cfg, project);
      RunWritesApplied(mk.0, head, bodyWrites);
      var body := Applied(head, bodyWrites);
      if project.platform.Some? {
        CopyFolderApplied(mk.0, body, project.platform.value, PlatformPath);
        CopyFolderDirs(mk.0, body, project.platform.value, PlatformPath);
      }
      ManifestApplied(files, cfg, name, version, project);
    }
  }

  /** The manifest applied at once is the head, then the body with the `.ebextensions` copies, then the `.platform` copies. */
  lemma ManifestApplied(files: map<Path, Content>, cfg: BundleConfig, name: string, version: string, project: Project)
    ensures var head := Applied(files, HeadWrites(cfg, name, version, project));
      var body := Applied(head, BodyWrites(cfg, project) + EbextensionsWrites(project));
      Applied(files, Manifest(cfg, name, version, project))
        == Applied(body, if project.platform.Some? then TreeWrites(project.platform.value, PlatformPath) else [])
  {
    var headWrites := HeadWrites(cfg, name, version, project);
    var platform := if project.platform.Some? then TreeWrites(project.platform.value, PlatformPath) else [];
    assert ProjectWrites(project) == EbextensionsWrites(project) + platform;
    AppliedConcat(files, headWrites + BodyWrites(cfg, project), ProjectWrites(project));
    AppliedConcat(files, headWrites, BodyWrites(cfg, project));
    AppliedConcat(Applied(files, headWrites + BodyWrites(cfg, project)), EbextensionsWrites(project), platform);
    AppliedConcat(Applied(files, headWrites), BodyWrites(cfg, project), EbextensionsWrites(project));
  }

  /** Without a `bundle` folder the first write, `package.json`, throws and nothing is written. */
  lemma InjectWithoutBundle(dirs: set<Path>, files: map<Path, Content>, faults: map<Path, FsError>,
                            cfg: BundleConfig, name: string, version: string, project: Project)
    requires ["bundle"] !in dirs
    ensures Inject(dirs, files, faults, cfg, name, version, project)
         == (dirs, files, Fail(if ["bundle"] in files then ENOTDIR else ENOENT))
  {
    var ws := HeadWrites(cfg, name, version, project);
    assert ws == [ws[0]] + ws[1..];
    assert ws[0].dest == PackageJsonPath && PackageJsonPath[..1] == ["bundle"];
    RunWritesStops(dirs, files, [], ws[0], ws[1..]);
    assert [] + [ws[0]] + ws[1..] == ws;
  }

  /**
   * A file standing where the `hooks/prebuild` folder belongs: the folder
   * loop ignores its EEXIST, and the first body write, `45node.sh` below
   * it, throws ENOTDIR with nothing of the body written.
   */
  lemma HookFolderBlocked(dirs: set<Path>, files: map<Path, Content>, faults: map<Path, FsError>,
                          cfg: BundleConfig, name: string, version: string, project: Project)
    requires ["bundle"] in dirs && PlatformPath in dirs && ["bundle", ".platform", "hooks"] in dirs
    requires HooksPrebuild in files && HooksPrebuild !in dirs
    requires PackageJsonPath !in dirs && NpmrcPath !in dirs && StartPath !in dirs
    ensures var r := Inject(dirs, files, faults, cfg, name, version, project);
      var head := Applied(files, HeadWrites(cfg, name, version, project));
      var mk := MkdirAll(dirs, head, faults, Folders);
      r.2.Fail? && r.1 == head && (mk.1.Pass? ==> r.2 == Fail(ENOTDIR))
  {
    var headWrites := HeadWrites(cfg, name, version, project);
    HeadWritable(dirs, cfg, name, version, project);
    RunWritesAllWritable(dirs, files, headWrites);
    var head := Applied(files, headWrites);
    HeadDests(cfg, name, version, project, HooksPrebuild);
    AppliedUnwritten(files, headWrites, HooksPrebuild);
    var mk := MkdirAll(dirs, head, faults, Folders);
    if mk.1.Pass? {
      BodyBlocked(mk.0, head, cfg, project);
    }
  }

  /** The body's first write, `45node.sh`, throws ENOTDIR below a `hooks/prebuild` that is a file, and nothing of the body is written. */
  lemma BodyBlocked(dirs: set<Path>, files: map<Path, Content>, cfg: BundleConfig, project: Project)
    requires ["bundle"] in dirs && PlatformPath in dirs && ["bundle", ".platform", "hooks"] in dirs
    requires HooksPrebuild in files && HooksPrebuild !in dirs
    ensures RunWrites(dirs, files, BodyWrites(cfg, project) + EbextensionsWrites(project)) == (files, Fail(ENOTDIR))
  {
    var ws := BodyWrites(cfg, project) + EbextensionsWrites(project);
    assert ws[0] == Render(NodeScript, NodeHookPath, NodeVars(project));
    NodeHookBlocked(dirs, files);
    RunWritesStops(dirs, files, [], ws[0], ws[1..]);
    assert [] + [ws[0]] + ws[1..] == ws;
  }

  /** With `bundle` a folder and none of the three head files a folder, every head write can be made. */
  lemma HeadWritable(dirs: set<Path>, cfg: BundleConfig, name: string, version: string, project: Project)
    requires ["bundle"] in dirs
    requires PackageJsonPath !in dirs && NpmrcPath !in dirs && StartPath !in dirs
    ensures var ws := HeadWrites(cfg, name, version, project);
      forall i :: 0 <= i < |ws| ==> Writable(dirs, ws[i].dest)
  {
    var ws := HeadWrites(cfg, name, version, project);
    assert Parent(PackageJsonPath) == Parent(NpmrcPath) == Parent(StartPath) == ["bundle"];
    forall i | 0 <= i < |ws|
      ensures Writable(dirs, ws[i].dest)
    {
      assert WritesTo(ws, ws[i].dest);
      HeadDests(cfg, name, version, project, ws[i].dest);
    }
  }

  /** `45node.sh` cannot be written below a `hooks/prebuild` that is a file, and the error is ENOTDIR. */
  lemma NodeHookBlocked(dirs: set<Path>, files: map<Path, Content>)
    requires ["bundle"] in dirs && PlatformPath in dirs && ["bundle", ".platform", "hooks"] in dirs
    requires HooksPrebuild in files && HooksPrebuild !in dirs
    ensures !Writable(dirs, NodeHookPath) && WriteError(dirs, files, NodeHookPath) == ENOTDIR
  {
    assert Parent(NodeHookPath) == HooksPrebuild;
    assert NodeHookPath[..1] == ["bundle"] && NodeHookPath[..2] == PlatformPath;
    assert NodeHookPath[..3] == ["bundle", ".platform", "hooks"] && NodeHookPath[..4] == HooksPrebuild;
    BlockedAtFile(dirs, files, NodeHookPath, 1, 4);
  }

  // ===== what the bundle holds =====

  /** The bundle files the tool writes are told apart by their depth or their last segment. */
  lemma PathsDistinct()
    ensures |PackageJsonPath| == |NpmrcPath| == |StartPath| == |HealthCheckPath| == |PlatformPath| == 2
    ensures |PackagesConfigPath| == 3 && |NginxConfPath| == 6
    ensures |NodeHookPath| == |NodeConfigHookPath| == |GracefulShutdownPath| == |EnvPath| == 5
    ensures PackageJsonPath != NpmrcPath && PackageJsonPath != StartPath && NpmrcPath != StartPath
    ensures HealthCheckPath != PackageJsonPath && HealthCheckPath != NpmrcPath && HealthCheckPath != StartPath
    ensures NodeHookPath != NodeConfigHookPath && NodeHookPath != GracefulShutdownPath && NodeHookPath != EnvPath
    ensures NodeConfigHookPath != GracefulShutdownPath && NodeConfigHookPath != EnvPath && GracefulShutdownPath != EnvPath
    ensures PackagesConfigPath[..2] != PlatformPath
  {
    assert |PackageJsonPath[1]| == 12 && |NpmrcPath[1]| == 6 && |StartPath[1]| == 8 && |HealthCheckPath[1]| == 15;
    assert |NodeHookPath[2]| == 5 && |NodeConfigHookPath[2]| == 11;
    assert |NodeHookPath[4]| == 9 && |GracefulShutdownPath[4]| == 22 && |EnvPath[4]| == 8;
    assert |PackagesConfigPath[1]| == 13 && |PlatformPath[1]| == 9;
  }

  lemma WritesToOne(w: Write, p: Path)
    ensures WritesTo([w], p) <==> w.dest == p
  {
    if w.dest == p {
      assert [w][0].dest == p;
    }
  }

  /** The head writes exactly `package.json`, `.npmrc` and `start.sh`. */
  lemma HeadDests(cfg: BundleConfig, name: string, version: string, project: Project, p: Path)
    ensures WritesTo(HeadWrites(cfg, name, version, project), p) <==> p == PackageJsonPath || p == NpmrcPath || p == StartPath
  {
    var a := [Render(PackageJson, PackageJsonPath, map["name" := Text(name), "version" := Text(version)])];
    var b := [Render(NpmrcTemplate, NpmrcPath, map[])];
    var c: seq<Write> := if project.npmrc.Some? then [Append(NpmrcPath, "\n" + project.npmrc.value)] else [];
    assert HeadWrites(cfg, name, version, project) == a + b + c + [StartWrite(cfg)];
    WritesToConcat(a + b + c, [StartWrite(cfg)], p);
    WritesToConcat(a + b, c, p);
    WritesToConcat(a, b, p);
    WritesToOne(a[0], p);
    WritesToOne(b[0], p);
    WritesToOne(StartWrite(cfg), p);
    if project.npmrc.Some? {
      WritesToOne(c[0], p);
    }
  }

  /** The settings-dependent writes go to `packages.config`, `48graceful_shutdown.sh` and `47env.sh`, each exactly when its setting is on. */
  lemma OptionalDests(cfg: BundleConfig, p: Path)
    ensures WritesTo(OptionalWrites(cfg), p) <==>
      (cfg.yumPackages.Some? && p == PackagesConfigPath)
      || (cfg.gracefulShutdown && p == GracefulShutdownPath)
      || (cfg.longEnvVars && p == EnvPath)
  {
    var a: seq<Write> := if cfg.yumPackages.Some? then [Render(PackagesYaml, PackagesConfigPath, map["packages" := Packages(cfg.yumPackages.value)])] else [];
    var b: seq<Write> := if cfg.gracefulShutdown then [Render(GracefulShutdownScript, GracefulShutdownPath, map[])] else [];
    var c: seq<Write> := if cfg.longEnvVars then [Render(EnvScript, EnvPath, map["bucketName" := Text(Utils.NamesOf(cfg.appName, cfg.envName).bucket)])] else [];
    assert OptionalWrites(cfg) == a + b + c;
    WritesToConcat(a + b, c, p);
    WritesToConcat(a, b, p);
    if cfg.yumPackages.Some? { WritesToOne(a[0], p); }
    if cfg.gracefulShutdown { WritesToOne(b[0], p); }
    if cfg.longEnvVars { WritesToOne(c[0], p); }
  }

  /** The body writes both `45node.sh` hooks, the nginx configuration, the optional files and `health-check.js`. */
  lemma BodyDests(cfg: BundleConfig, project: Project, p: Path)
    ensures WritesTo(BodyWrites(cfg, project), p) <==>
      p == NodeHookPath || p == NodeConfigHookPath || p == NginxConfPath || p == HealthCheckPath
      || WritesTo(OptionalWrites(cfg), p)
  {
    var n := NodeWrites(project);
    var h := [Render(HealthCheck, HealthCheckPath, map[])];
    WritesToConcat(n + [NginxWrite(cfg)] + OptionalWrites(cfg), h, p);
    WritesToConcat(n + [NginxWrite(cfg)], OptionalWrites(cfg), p);
    WritesToConcat(n, [NginxWrite(cfg)], p);
    WritesToConcat([n[0]], [n[1]], p);
    assert n == [n[0]] + [n[1]];
    WritesToOne(n[0], p);
    WritesToOne(n[1], p);
    WritesToOne(NginxWrite(cfg), p);
    WritesToOne(h[0], p);
    assert BodyWrites(cfg, project) == n + [NginxWrite(cfg)] + OptionalWrites(cfg) + h;
  }

  /**
   * The app's own files go to `bundle/.ebextensions/<name>` for each name in
   * its `.ebextensions` folder, and wherever its `.platform` tree puts them.
   */
  lemma ProjectDests(project: Project, p: Path)
    ensures WritesTo(ProjectWrites(project), p) <==>
      (project.ebextensions.Some? && |p| == 3 && p[..2] == ["bundle", ".ebextensions"] && p[2] in project.ebextensions.value)
      || (project.platform.Some? && WritesTo(TreeWrites(project.platform.value, PlatformPath), p))
  {
    var custom := if project.ebextensions.Some? then CustomWrites(project.ebextensions.value) else [];
    var platform := if project.platform.Some? then TreeWrites(project.platform.value, PlatformPath) else [];
    WritesToConcat(custom, platform, p);
    if WritesTo(custom, p) {
      var i :| 0 <= i < |custom| && custom[i].dest == p;
      assert p[2] == project.ebextensions.value[i];
    }
    if project.ebextensions.Some? && |p| == 3 && p[..2] == ["bundle", ".ebextensions"] && p[2] in project.ebextensions.value {
      var i :| 0 <= i < |project.ebextensions.value| && project.ebextensions.value[i] == p[2];
      assert custom[i].dest == p;
    }
  }

  /** Nothing the `.platform` copy writes lands outside `bundle/.platform`. */
  lemma PlatformOnlyBelow(nodes: seq<Node>, p: Path)
    requires WritesTo(TreeWrites(nodes, PlatformPath), p)
    ensures |p| > 2 && p[..2] == PlatformPath
  {
    TreeWritesBelow(nodes, PlatformPath);
    var i :| 0 <= i < |TreeWrites(nodes, PlatformPath)| && TreeWrites(nodes, PlatformPath)[i].dest == p;
    assert TreeWrites(nodes, PlatformPath)[i] in TreeWrites(nodes, PlatformPath);
  }

  /**
   * `packages.config` is written exactly when yum packages are configured
   * or the app's `.ebextensions` folder has its own; the graceful-shutdown
   * and environment hooks exactly when their settings are on or the app's
   * `.platform` tree has its own.
   */
  lemma ConditionalFiles(cfg: BundleConfig, name: string, version: string, project: Project)
    ensures var m := Manifest(cfg, name, version, project);
      && (WritesTo(m, PackagesConfigPath)
          <==> cfg.yumPackages.Some? || (project.ebextensions.Some? && "packages.config" in project.ebextensions.value))
      && (WritesTo(m, GracefulShutdownPath)
          <==> cfg.gracefulShutdown || (project.platform.Some? && WritesTo(TreeWrites(project.platform.value, PlatformPath), GracefulShutdownPath)))
      && (WritesTo(m, EnvPath)
          <==> cfg.longEnvVars || (project.platform.Some? && WritesTo(TreeWrites(project.platform.value, PlatformPath), EnvPath)))
  {
    PackagesConfigWritten(cfg, name, version, project);
    HookWritten(cfg, name, version, project, GracefulShutdownPath, cfg.gracefulShutdown);
    HookWritten(cfg, name, version, project, EnvPath, cfg.longEnvVars);
  }

  /** `packages.config` is written exactly when yum packages are configured or the app's `.ebextensions` has its own. */
  lemma PackagesConfigWritten(cfg: BundleConfig, name: string, version: string, project: Project)
    ensures WritesTo(Manifest(cfg, name, version, project), PackagesConfigPath)
      <==> cfg.yumPackages.Some? || (project.ebextensions.Some? && "packages.config" in project.ebextensions.value)
  {
    PathsDistinct();
    ConditionalFile(cfg, name, version, project, PackagesConfigPath);
    OptionalDests(cfg, PackagesConfigPath);
    ProjectDests(project, PackagesConfigPath);
    assert PackagesConfigPath[..2] == ["bundle", ".ebextensions"] && PackagesConfigPath[2] == "packages.config";
    if project.platform.Some? && WritesTo(TreeWrites(project.platform.value, PlatformPath), PackagesConfigPath) {
      PlatformOnlyBelow(project.platform.value, PackagesConfigPath);
    }
  }

  /** An optional hook is written exactly when its setting is on or the app's `.platform` tree has its own. */
  lemma HookWritten(cfg: BundleConfig, name: string, version: string, project: Project, p: Path, setting: bool)
    requires (p == GracefulShutdownPath && setting == cfg.gracefulShutdown) || (p == EnvPath && setting == cfg.longEnvVars)
    ensures WritesTo(Manifest(cfg, name, version, project), p)
      <==> setting || (project.platform.Some? && WritesTo(TreeWrites(project.platform.value, PlatformPath), p))
  {
    PathsDistinct();
    ConditionalFile(cfg, name, version, project, p);
    OptionalDests(cfg, p);
    ProjectDests(project, p);
  }

  /** One of the optional files is written by the manifest exactly when its setting is on or the app brings it. */
  lemma ConditionalFile(cfg: BundleConfig, name: string, version: string, project: Project, p: Path)
    requires p == PackagesConfigPath || p == GracefulShutdownPath || p == EnvPath
    ensures WritesTo(Manifest(cfg, name, version, project), p) <==> WritesTo(OptionalWrites(cfg), p) || WritesTo(ProjectWrites(project), p)
  {
    var head := HeadWrites(cfg, name, version, project);
    var body := BodyWrites(cfg, project);
    WritesToConcat(head + body, ProjectWrites(project), p);
    WritesToConcat(head, body, p);
    HeadDests(cfg, name, version, project, p);
    BodyDests(cfg, project, p);
    PathsDistinct();
  }

  /** The last write to a path decides what the path holds, whatever came before. */
  lemma LastRenderWins(files: map<Path, Content>, before: seq<Write>, w: Write, after: seq<Write>)
    requires w.Render? && !WritesTo(after, w.dest)
    ensures var r := Applied(files, before + [w] + after);
      w.dest in r && r[w.dest] == Rendered(w.asset, w.vars)
  {
    AppliedConcat(files, before + [w], after);
    AppliedSnoc(files, before, w);
    AppliedUnwritten(Applied(files, before + [w]), after, w.dest);
  }

  /** Both `45node.sh` hooks hold `node.sh` rendered with the reported versions. */
  predicate NodeScriptsIn(r: map<Path, Content>, project: Project)
  {
    && NodeHookPath in r && r[NodeHookPath] == Rendered(NodeScript, NodeVars(project))
    && NodeConfigHookPath in r && r[NodeConfigHookPath] == Rendered(NodeScript, NodeVars(project))
  }

  /** A write to neither hook leaves them as they were. */
  lemma WrittenKeepsNodeScripts(files: map<Path, Content>, project: Project, w: Write)
    requires NodeScriptsIn(files, project)
    requires w.dest != NodeHookPath && w.dest != NodeConfigHookPath
    ensures NodeScriptsIn(Written(files, w), project)
  {
  }

  /** After the body writes, both `45node.sh` hooks hold `node.sh` rendered with the reported versions. */
  lemma BodyNodeScripts(files: map<Path, Content>, cfg: BundleConfig, project: Project)
    ensures NodeScriptsIn(Applied(files, BodyWrites(cfg, project)), project)
  {
    PathsDistinct();
    var n := NodeWrites(project);
    assert [] + [n[0]] == [n[0]] && [n[0]] + [n[1]] == n;
    AppliedSnoc(files, [], n[0]);
    AppliedSnoc(files, [n[0]], n[1]);
    assert NodeScriptsIn(Applied(files, n), project);
    var a := n + [NginxWrite(cfg)];
    AppliedSnoc(files, n, NginxWrite(cfg));
    WrittenKeepsNodeScripts(Applied(files, n), project, NginxWrite(cfg));
    var o := a + OptionalWrites(cfg);
    AppliedConcat(files, a, OptionalWrites(cfg));
    OptionalDests(cfg, NodeHookPath);
    OptionalDests(cfg, NodeConfigHookPath);
    AppliedUnwritten(Applied(files, a), OptionalWrites(cfg), NodeHookPath);
    AppliedUnwritten(Applied(files, a), OptionalWrites(cfg), NodeConfigHookPath);
    assert NodeScriptsIn(Applied(files, o), project);
    var h := Render(HealthCheck, HealthCheckPath, map[]);
    AppliedSnoc(files, o, h);
    WrittenKeepsNodeScripts(Applied(files, o), project, h);
    assert BodyWrites(cfg, project) == o + [h];
  }

  /**
   * Unless the app's own files bring their own, both `45node.sh` hooks hold
   * `node.sh` rendered with the versions `getNodeVersion` reports.
   */
  lemma NodeScriptsInjected(files: map<Path, Content>, cfg: BundleConfig, name: string, version: string, project: Project)
    requires !WritesTo(ProjectWrites(project), NodeHookPath) && !WritesTo(ProjectWrites(project), NodeConfigHookPath)
    ensures var bundle := Applied(files, Manifest(cfg, name, version, project));
      && NodeHookPath in bundle && bundle[NodeHookPath] == Rendered(NodeScript, NodeVars(project))
      && NodeConfigHookPath in bundle && bundle[NodeConfigHookPath] == Rendered(NodeScript, NodeVars(project))
  {
    var head := HeadWrites(cfg, name, version, project);
    var body := BodyWrites(cfg, project);
    AppliedConcat(files, head + body, ProjectWrites(project));
    AppliedConcat(files, head, body);
    BodyNodeScripts(Applied(files, head), cfg, project);
    AppliedUnwritten(Applied(files, head + body), ProjectWrites(project), NodeHookPath);
    AppliedUnwritten(Applied(files, head + body), ProjectWrites(project), NodeConfigHookPath);
  }

  /** `start.sh` is the template the role setting picks: nothing after it in the manifest goes there. */
  lemma StartScriptInjected(files: map<Path, Content>, cfg: BundleConfig, name: string, version: string, project: Project)
    ensures var bundle := Applied(files, Manifest(cfg, name, version, project));
      StartPath in bundle && bundle[StartPath] == Rendered(StartTemplate(cfg.requireInstanceRole), map[])
  {
    var pre := PreambleWrites(name, version, project);
    var rest := BodyWrites(cfg, project) + ProjectWrites(project);
    assert Manifest(cfg, name, version, project) == pre + [StartWrite(cfg)] + rest;
    WritesToConcat(BodyWrites(cfg, project), ProjectWrites(project), StartPath);
    BodyDests(cfg, project, StartPath);
    OptionalDests(cfg, StartPath);
    ProjectDests(project, StartPath);
    PathsDistinct();
    if project.platform.Some? && WritesTo(TreeWrites(project.platform.value, PlatformPath), StartPath) {
      PlatformOnlyBelow(project.platform.value, StartPath);
    }
    LastRenderWins(files, pre, StartWrite(cfg), rest);
  }

  // ===== padScript =====

  /** `''.padStart(spaces, ' ')`. */
  function Padding(spaces: nat): (p: string)
    ensures |p| == spaces && forall i :: 0 <= i < spaces ==> p[i] == ' '
  {
    seq(spaces, _ => ' ')
  }

  /** `padScript(content, spaces)`: every line of `content` indented by `spaces` spaces. */
  function PadScript(content: string, spaces: nat): string
  {
    var lines := Split(content, "\n");
    Join(seq(|lines|, i requires 0 <= i < |lines| => Padding(spaces) + lines[i]), "\n")
  }

  /** The lines of a padded script are the script's lines, each behind the padding. */
  lemma PadScriptLines(content: string, spaces: nat)
    ensures var lines := Split(content, "\n");
      var padded := Split(PadScript(content, spaces), "\n");
      |padded| == |lines| && forall i :: 0 <= i < |lines| ==> padded[i] == Padding(spaces) + lines[i]
  {
    var lines := Split(content, "\n");
    var padded := seq(|lines|, i requires 0 <= i < |lines| => Padding(spaces) + lines[i]);
    SplitPiecesFree(content, '\n');
    assert "\n" == ['\n'];
    forall i | 0 <= i < |padded|
      ensures '\n' !in padded[i]
    {
      assert padded[i] == Padding(spaces) + lines[i];
    }
    SplitJoin(padded, '\n');
  }

  /** With no padding, `padScript` gives back the script unchanged. */
  lemma PadScriptNoSpaces(content: string)
    ensures PadScript(content, 0) == content
  {
    var lines := Split(content, "\n");
    var padded := seq(|lines|, i requires 0 <= i < |lines| => Padding(0) + lines[i]);
    forall i | 0 <= i < |lines|
      ensures padded[i] == lines[i]
    {
      assert Padding(0) == [];
    }
    assert padded == lines;
    JoinSplit(content, "\n");
  }

  /** Removes `spaces` characters from the front of every line. */
  function Unpad(script: string, spaces: nat): string
  {
    var lines := Split(script, "\n");
    Join(seq(|lines|, i requires 0 <= i < |lines| => if |lines[i]| >= spaces then lines[i][spaces..] else lines[i]), "\n")
  }

  /** Padding is undone by removing the padding from every line. */
  lemma UnpadPadScript(content: string, spaces: nat)
    ensures Unpad(PadScript(content, spaces), spaces) == content
  {
    PadScriptLines(content, spaces);
    var lines := Split(content, "\n");
    var padded := Split(PadScript(content, spaces), "\n");
    var stripped := seq(|padded|, i requires 0 <= i < |padded| => if |padded[i]| >= spaces then padded[i][spaces..] else padded[i]);
    assert stripped == lines by {
      forall i | 0 <= i < |lines|
        ensures stripped[i] == lines[i]
      {
        assert padded[i] == Padding(spaces) + lines[i];
        assert padded[i][spaces..] == lines[i];
      }
    }
    JoinSplit(content, "\n");
  }
}
