/**
 The SciDB cluster installer (scidbplugin.py) as the trace of what its
 orchestrating thread issues: actions on nodes (shell commands, package
 installs, remote-file blocks, user and key management), job submissions to
 the StarCluster thread pool, and barrier waits. Each builder returns what its
 Python counterpart issues, in order, with the exact command strings.
 */
module Provisioning {
  import opened Strings
  import opened Decimal

  datatype Option<T> = None | Some(value: T)

  /** A cluster node as the installer sees it. */
  datatype Node = Node(alias: string, dnsName: string)

  /** The installer's configuration (`SciDBInstaller.__init__`). */
  datatype Settings = Settings(
    username: string,
    password: string,
    repository: string,
    branch: Option<string>,
    shimUri: string,
    directory: string,
    clients: string,
    buildType: string,
    buildThreads: int)

  /** `SCIDB_VERSION`, a float in the source, as `'{}'.format` renders it. */
  const ScidbVersion := "14.8"
  const ScidbRevision: nat := 8628

  const DefaultUsername := "scidb"
  const DefaultRepository := "https://github.com/BrandonHaynes/scidb.git"
  const DefaultShimUri := "https://paradigm4.github.io/shim/shim_14.8_amd64.deb"
  const DefaultDirectory := "/mnt/scidb"
  const DefaultClients := "0.0.0.0/0"
  const DefaultBuildType := "RelWithDebInfo"
  const DefaultBuildThreads := 4

  /** The defaults of `__init__`; the random default password is a parameter. */
  function DefaultSettings(password: string): Settings {
    Settings(DefaultUsername, password, DefaultRepository, None, DefaultShimUri,
             DefaultDirectory, DefaultClients, DefaultBuildType, DefaultBuildThreads)
  }

  const RequiredPackages: seq<string> := [
    "build-essential", "cmake", "libboost1.48-all-dev",
    "postgresql-8.4", "libpqxx-3.1", "libpqxx3-dev",
    "libprotobuf7", "libprotobuf-dev", "protobuf-compiler",
    "doxygen", "flex", "bison", "libxerces-c-dev",
    "libxerces-c3.1", "liblog4cxx10", "liblog4cxx10-dev",
    "libcppunit-1.12-1", "libcppunit-dev", "libbz2-dev",
    "postgresql-contrib-8.4", "libconfig++8",
    "libconfig++8-dev", "libconfig8-dev", "subversion",
    "libreadline6-dev", "libreadline6", "python-paramiko",
    "python-crypto", "xsltproc", "liblog4cxx10-dev",
    "subversion", "expect", "openssh-server", "openssh-client",
    "git-svn", "gdebi"]

  datatype FileMode = Append | Overwrite

  /** A command run on a node, or a file written there; touches no account or key. */
  datatype Command =
    | Shell(command: string)                                         // node.ssh.execute
    | AptInstall(packages: seq<string>)                              // node.apt_install, names space-joined
    | RemoteFile(path: string, mode: FileMode, writes: seq<string>)  // a node.ssh.remote_file block

  /** What the installer asks of one node. */
  datatype Action =
    | Run(cmd: Command)
    | AddUser(name: string, uid: int, gid: int, shell: string)       // node.add_user
    | GenerateKey(name: string, authNewKey: bool, authConnKey: bool) // master.generate_key_for_user
    | AddKnownHosts(name: string, hosts: seq<Node>)                  // master.add_to_known_hosts

  /** The work a pool job runs on one node. */
  datatype Task =
    | SetUpNode(node: Node)
    | AddUserToNode(uid: int, gid: int, node: Node)

  /** What the orchestrating thread issues: actions on nodes, pool submissions, barrier waits. */
  datatype Event =
    | Do(node: Node, action: Action)
    | Submit(jobId: string, task: Task)
    | Wait(count: nat)

  /** The actions, in order, all on one node. */
  function OnNode(node: Node, actions: seq<Action>): (r: seq<Event>)
    ensures |r| == |actions|
    ensures forall i :: 0 <= i < |actions| ==> r[i] == Do(node, actions[i])
  {
    seq(|actions|, i requires 0 <= i < |actions| => Do(node, actions[i]))
  }

  /** The commands, in order, as actions. */
  function Runs(cmds: seq<Command>): (r: seq<Action>)
    ensures |r| == |cmds|
    ensures forall i :: 0 <= i < |cmds| ==> r[i] == Run(cmds[i])
  {
    seq(|cmds|, i requires 0 <= i < |cmds| => Run(cmds[i]))
  }

  /** The file a `remote_file(path, mode)` block leaves behind, given what was there. */
  function ApplyRemoteFile(prior: string, mode: FileMode, writes: seq<string>): (r: string)
    ensures mode == Append ==> StartsWith(r, prior) && r[|prior|..] == Concat(writes)
    ensures mode == Overwrite ==> r == Concat(writes)
  {
    match mode
    case Append =>
      var r := prior + Concat(writes);
      assert r[..|prior|] == prior;
      r
    case Overwrite => Concat(writes)
  }

  /** `os.path.join(a, b)` on POSIX. */
  function PathJoin(a: string, b: string): (r: string)
    ensures EndsWith(r, b)
    ensures !StartsWith(b, "/") ==> StartsWith(r, a)
    ensures StartsWith(b, "/") ==> r == b
    ensures !StartsWith(b, "/") && (|a| == 0 || a[|a| - 1] == '/') ==> r == a + b
    ensures !StartsWith(b, "/") && |a| > 0 && a[|a| - 1] != '/' ==> r == a + "/" + b
  {
    if StartsWith(b, "/") then b
    else
      var r := if |a| == 0 || a[|a| - 1] == '/' then a + b else a + "/" + b;
      assert r[|r| - |b|..] == b;
      assert r[..|a|] == a;
      r
  }

  /** Position of the last `/` in a path, or -1 when there is none. */
  function LastSlash(p: string): (i: int)
    ensures -1 <= i < |p|
    ensures 0 <= i ==> p[i] == '/'
    ensures forall j :: i < j < |p| ==> p[j] != '/'
    decreases |p|
  {
    if |p| == 0 then -1
    else if p[|p| - 1] == '/' then |p| - 1
    else LastSlash(p[..|p| - 1])
  }

  predicate AllSlashes(p: string) {
    forall i :: 0 <= i < |p| ==> p[i] == '/'
  }

  /** `p.rstrip('/')`. */
  function RStripSlashes(p: string): (r: string)
    ensures StartsWith(p, r)
    ensures |r| == 0 || r[|r| - 1] != '/'
    decreases |p|
  {
    if |p| > 0 && p[|p| - 1] == '/' then
      var r := RStripSlashes(p[..|p| - 1]);
      assert p[..|p| - 1][..|r|] == p[..|r|];
      r
    else p
  }

  /**
   `os.path.split(p)` on POSIX: the text after the last `/`, and the text up
   to it with trailing slashes removed unless it is nothing but slashes.
   */
  function SplitPath(p: string): (string, string) {
    var i := LastSlash(p) + 1;
    var head := p[..i];
    (if |head| > 0 && !AllSlashes(head) then RStripSlashes(head) else head, p[i..])
  }

  /**
   Splitting a joined path gives back its two parts, for a last part
   without `/` and a first part not ending in `/`.
   */
  lemma PathSplitJoin(a: string, b: string)
    requires '/' !in b
    requires |a| == 0 || a[|a| - 1] != '/'
    ensures SplitPath(PathJoin(a, b)) == (a, b)
  {
    var r := PathJoin(a, b);
    assert !StartsWith(b, "/") by {
      if |b| > 0 { assert b[0] in b; }
    }
    if |a| == 0 {
      assert r == b;
      assert LastSlash(r) == -1;
      assert r[..0] == a;
    } else {
      assert r == a + "/" + b;
      assert r[|a|] == '/';
      assert LastSlash(r) == |a|;
      var head := r[..|a| + 1];
      assert head == a + "/";
      assert !AllSlashes(head) by { assert head[|a| - 1] == a[|a| - 1]; }
      assert head[..|head| - 1] == a;
      assert RStripSlashes(a) == a;
      assert RStripSlashes(head) == RStripSlashes(a);
      assert r[|a| + 1..] == b;
    }
  }

  /** Python truthiness of the optional branch name: present and non-empty. */
  predicate Truthy(branch: Option<string>) {
    branch.Some? && |branch.value| > 0
  }

  /** The command line `_execute` sends: the command, run from the SciDB directory. */
  function InDirectory(s: Settings, command: string): (r: string)
    ensures StartsWith(r, "cd " + s.directory + " && ")
    ensures r[|"cd " + s.directory + " && "|..] == command
  {
    var prefix := "cd " + s.directory + " && ";
    assert (prefix + command)[..|prefix|] == prefix;
    prefix + command
  }

  /** `_execute(node, command)`: one shell command, run from the SciDB directory. */
  function ExecuteIn(s: Settings, command: string): (r: Command)
    ensures r.Shell?
    ensures StartsWith(r.command, "cd " + s.directory + " && ")
    ensures r.command[|"cd " + s.directory + " && "|..] == command
  {
    Shell(InDirectory(s, command))
  }

  /** The `--branch` slot of the clone command: filled only for a truthy branch. */
  function BranchArgument(branch: Option<string>): string {
    if Truthy(branch) then "--branch " + branch.value else ""
  }

  /** The clone itself, as the scidb account, into the SciDB directory. */
  function CloneInvocation(s: Settings): string {
    "su scidb -c \"git clone " + s.repository + " " + s.directory + " " + BranchArgument(s.branch) + "\""
  }

  /**
   Step 3: the clone, run from the SciDB directory. The source writes the
   `cd <directory> && ` prefix out itself rather than calling `_execute`;
   the command line is the same.
   */
  function CloneCommand(s: Settings): string {
    InDirectory(s, CloneInvocation(s))
  }

  /** Step 6.2: the build, as the scidb account, with the configured number of make jobs. */
  function BuildCommand(s: Settings): string {
    "su scidb -c \"./run.py make -j" + IntToString(s.buildThreads) + "\""
  }

  /** `' '.join(node.dns_name for node in nodes)`. */
  function DnsNames(nodes: seq<Node>): string {
    Join(seq(|nodes|, i requires 0 <= i < |nodes| => nodes[i].dnsName), " ")
  }

  const DisableCondorSource :=
    "sed -i \"s/deb http:\\/\\/www.cs.wisc.edu\\/condor\\/debian\\/development lenny contrib/"
    + "#deb http:\\/\\/www.cs.wisc.edu\\/condor\\/debian\\/development lenny contrib/g\" /etc/apt/sources.list"

  /** Step 3 fix-up: the third-party repository script fetches over HTTPS. */
  function FixRepositoryScript(s: Settings): string {
    "sed -i \"s/http:\\/\\/downloads.paradigm4.com/https:\\/\\/downloads.paradigm4.com/g\" "
      + s.directory + "/deployment/common/register_3rdparty_scidb_repository.sh"
  }

  /** Step 4.1: passwordless SSH from the scidb account to every node. */
  function DeployAccess(s: Settings, nodes: seq<Node>): string {
    "echo " + s.password + " | su scidb deployment/deploy.sh access scidb \"\" \"\" " + DnsNames(nodes)
  }

  /** `_add_directory(node, path)`: create the directory and hand it to the user. */
  function AddDirectory(s: Settings, path: string): seq<Command> {
    [ Shell("mkdir " + path),
      Shell("chown " + s.username + " " + path),
      Shell("chgrp " + s.username + " " + path) ]
  }

  /** `_add_swapfile(node)`. */
  function AddSwapfile(): seq<Command> {
    [ Shell("sudo dd if=/dev/zero of=/var/swapfile bs=1024 count=2048k"),
      Shell("sudo mkswap /var/swapfile"),
      Shell("sudo swapon /var/swapfile") ]
  }

  /** A shell `export NAME=VALUE` assignment. */
  datatype Export = Export(name: string, value: string)

  /** The assignment as a newline-terminated line of a shell start-up file. */
  function ExportLine(e: Export): string {
    "export " + e.name + "=" + e.value + "\n"
  }

  /** One line per assignment, in order. */
  function ExportLines(es: seq<Export>): (w: seq<string>)
    ensures |w| == |es|
    ensures forall i :: 0 <= i < |es| ==> w[i] == ExportLine(es[i])
  {
    seq(|es|, i requires 0 <= i < |es| => ExportLine(es[i]))
  }

  /** The variables `_add_environment` sets, in order. */
  function Environment(s: Settings): seq<Export> {
    [ Export("SCIDB_VER", ScidbVersion),
      Export("PATH", s.directory + "/stage/install/bin:$PATH"),
      Export("LD_LIBRARY_PATH", s.directory + "/stage/install/lib:$LD_LIBRARY_PATH"),
      Export("SCIDB_BUILD_TYPE", s.buildType) ]
  }

  /** The writes of the `_add_environment` block: one export line per variable. */
  function EnvironmentWrites(s: Settings): seq<string> {
    ExportLines(Environment(s))
  }

  /** `_add_environment(node, path)`: one append-mode block holding the export lines. */
  function AddEnvironment(s: Settings, path: string): Command {
    RemoteFile(path, Append, EnvironmentWrites(s))
  }

  /** `_ensure_revision(node)`: overwrite `<directory>/revision` with the revision number. */
  function EnsureRevision(s: Settings): Command {
    RemoteFile(PathJoin(s.directory, "revision"), Overwrite, [NatToString(ScidbRevision)])
  }

  /** `_set_up_node(node)`: what one set-up job does on its node; the same for every node. */
  function SetUpNodeActions(s: Settings): seq<Command> {
    [Shell(DisableCondorSource)]
      + AddDirectory(s, s.directory)
      + [ AptInstall(RequiredPackages),
          Shell("sudo service ssh restart") ]
  }

  /** `__add_user_to_node(uid, gid, node)`: create the user with the given ids and set its password. */
  function AddUserToNodeActions(s: Settings, uid: int, gid: int): seq<Action> {
    [ AddUser(s.username, uid, gid, "/bin/bash"),
      Run(Shell("echo -e \"" + s.username + ":" + s.password + "\" | chpasswd")) ]
  }

  /** What a pool job does when a worker thread runs it: actions on the job's node only. */
  function TaskTrace(s: Settings, task: Task): (r: seq<Event>)
    ensures forall e | e in r :: e.Do? && e.node == task.node
  {
    match task
    case SetUpNode(node) => OnNode(node, Runs(SetUpNodeActions(s)))
    case AddUserToNode(uid, gid, node) => OnNode(node, AddUserToNodeActions(s, uid, gid))
  }

  /**
   A set-up job only runs commands; a user job creates the configured user
   with the job's ids on its node, and no other user.
   */
  lemma TaskEffects(s: Settings, task: Task)
    ensures task.SetUpNode? ==> forall e | e in TaskTrace(s, task) :: e.action.Run?
    ensures task.AddUserToNode? ==>
      Do(task.node, AddUser(s.username, task.uid, task.gid, "/bin/bash")) in TaskTrace(s, task)
    ensures task.AddUserToNode? ==> forall e | e in TaskTrace(s, task) && e.action.AddUser? ::
      e.action == AddUser(s.username, task.uid, task.gid, "/bin/bash")
  {
    if task.AddUserToNode? {
      assert TaskTrace(s, task)[0] == Do(task.node, AddUser(s.username, task.uid, task.gid, "/bin/bash"));
    }
  }

  /** One set-up job per node, in node order, each with the node's alias as job id. */
  function SetUpJobs(nodes: seq<Node>): (r: seq<Event>)
    ensures |r| == |nodes|
    ensures forall i :: 0 <= i < |nodes| ==> r[i] == Submit(nodes[i].alias, SetUpNode(nodes[i]))
    decreases |nodes|
  {
    if |nodes| == 0 then []
    else [Submit(nodes[0].alias, SetUpNode(nodes[0]))] + SetUpJobs(nodes[1..])
  }

  /** One user-creation job per node, in node order, all carrying the same ids. */
  function AddUserJobs(uid: int, gid: int, nodes: seq<Node>): (r: seq<Event>)
    ensures |r| == |nodes|
    ensures forall i :: 0 <= i < |nodes| ==> r[i] == Submit(nodes[i].alias, AddUserToNode(uid, gid, nodes[i]))
    decreases |nodes|
  {
    if |nodes| == 0 then []
    else [Submit(nodes[0].alias, AddUserToNode(uid, gid, nodes[0]))] + AddUserJobs(uid, gid, nodes[1..])
  }

  /**
   `_add_user(master, nodes)`: the ids come once from the identity source,
   every node gets a job with that pair, the pool is drained, and only then
   does the master get the user's key and learn the nodes' host keys.
   */
  function AddUserTrace(s: Settings, master: Node, nodes: seq<Node>, uid: int, gid: int): seq<Event> {
    AddUserJobs(uid, gid, nodes)
      + [ Wait(|nodes|),
          Do(master, GenerateKey(s.username, true, true)),
          Do(master, AddKnownHosts(s.username, nodes)) ]
  }

  /** Everything `run` asks of the master after the user exists, steps 3 to A. */
  function MasterCommands(s: Settings, master: Node, nodes: seq<Node>): seq<Command> {
    [ Shell(CloneCommand(s)),
      Shell(FixRepositoryScript(s)),
      ExecuteIn(s, DeployAccess(s, nodes)),
      ExecuteIn(s, "deployment/deploy.sh prepare_toolchain " + master.dnsName) ]
    + AddSwapfile()
    + [ ExecuteIn(s, "deployment/deploy.sh prepare_coordinator " + master.dnsName),
        ExecuteIn(s, "deployment/deploy.sh prepare_postgresql postgres postgres "
                     + s.clients + " " + master.dnsName),
        Shell("sudo usermod -G scidb -a postgres"),
        Shell("chmod -R g+rx " + s.directory),
        AddEnvironment(s, "/root/.bashrc"),
        AddEnvironment(s, "/home/scidb/.bashrc"),
        EnsureRevision(s),
        ExecuteIn(s, "su scidb -c \"./run.py setup -f\""),
        ExecuteIn(s, BuildCommand(s)),
        ExecuteIn(s, "./run.py install -f"),
        ExecuteIn(s, "stage/install/bin/scidb.py startall mydb"),
        ExecuteIn(s, "wget " + s.shimUri),
        ExecuteIn(s, "ldconfig " + s.directory + "/stage/install/lib"),
        ExecuteIn(s, "gdebi --n shim*.deb") ]
  }

  /**
   The trace of `run` with the master-only steps given as `script`: one
   set-up job per node and a barrier over all of them, then the user, then
   the script on the master. `uid` and `gid` are what the identity source
   hands out for the user.
   */
  function RunWith(s: Settings, master: Node, nodes: seq<Node>, uid: int, gid: int, script: seq<Command>): seq<Event> {
    SetUpJobs(nodes) + [Wait(|nodes|)] + AddUserTrace(s, master, nodes, uid, gid)
      + OnNode(master, Runs(script))
  }

  /** `SciDBInstaller.run`. */
  function RunTrace(s: Settings, master: Node, nodes: seq<Node>, uid: int, gid: int): seq<Event> {
    RunWith(s, master, nodes, uid, gid, MasterCommands(s, master, nodes))
  }
}
