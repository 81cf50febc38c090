/**
 What the installer's trace guarantees: every pool barrier waits for exactly
 the jobs submitted since the previous one, every node gets one job per
 phase, the user's ids are the same on every node, the master's key is made
 only after the user exists everywhere, and the command strings and files
 have the shapes the deployment scripts read back.
 */
module ProvisioningFacts {
  import opened Strings
  import opened Decimal
  import opened Provisioning

  // ---------------------------------------------------------------------------
  // The thread pool's counting barrier
  // ---------------------------------------------------------------------------

  /**
   The pool discipline of the orchestrating thread: with `pending` jobs
   submitted since the last `wait`, each `Wait(n)` asks for exactly those
   jobs (`n == pending`), and no job is left without a `Wait` at the end.
   */
  predicate Synchronised(t: seq<Event>, pending: nat)
    decreases |t|
  {
    if |t| == 0 then pending == 0
    else match t[0]
      case Submit(_, _) => Synchronised(t[1..], pending + 1)
      case Wait(n) => n == pending && Synchronised(t[1..], 0)
      case _ => Synchronised(t[1..], pending)
  }

  /** A run of submissions adds its length to the pending count. */
  lemma {:induction false} SynchronisedSubmits(a: seq<Event>, b: seq<Event>, pending: nat)
    requires forall e | e in a :: e.Submit?
    ensures Synchronised(a + b, pending) <==> Synchronised(b, pending + |a|)
    decreases |a|
  {
    if |a| > 0 {
      assert a[0] in a;
      assert (a + b)[0] == a[0];
      assert (a + b)[1..] == a[1..] + b;
      assert forall e | e in a[1..] :: e in a;
      SynchronisedSubmits(a[1..], b, pending + 1);
    } else {
      assert a + b == b;
    }
  }

  /** Direct node actions leave the pending count alone. */
  lemma {:induction false} SynchronisedActions(a: seq<Event>, b: seq<Event>, pending: nat)
    requires forall e | e in a :: e.Do?
    ensures Synchronised(a + b, pending) <==> Synchronised(b, pending)
    decreases |a|
  {
    if |a| > 0 {
      assert a[0] in a;
      assert (a + b)[0] == a[0];
      assert (a + b)[1..] == a[1..] + b;
      assert forall e | e in a[1..] :: e in a;
      SynchronisedActions(a[1..], b, pending);
    } else {
      assert a + b == b;
    }
  }

  /** A barrier closes the pending jobs exactly when it counts them. */
  lemma SynchronisedWait(n: nat, b: seq<Event>, pending: nat)
    ensures Synchronised([Wait(n)] + b, pending) <==> n == pending && Synchronised(b, 0)
  {
    assert ([Wait(n)] + b)[1..] == b;
  }

  /** The master's key and known-hosts calls at the end of `_add_user`. */
  function KeyEvents(s: Settings, master: Node, nodes: seq<Node>): seq<Event> {
    [Do(master, GenerateKey(s.username, true, true)), Do(master, AddKnownHosts(s.username, nodes))]
  }

  /** The steps of `run`, grouped as the barriers split them. */
  lemma RunShape(s: Settings, master: Node, nodes: seq<Node>, uid: int, gid: int, script: seq<Command>)
    ensures RunWith(s, master, nodes, uid, gid, script)
         == SetUpJobs(nodes)
            + ([Wait(|nodes|)]
            + (AddUserJobs(uid, gid, nodes)
            + ([Wait(|nodes|)]
            + (KeyEvents(s, master, nodes)
            + OnNode(master, Runs(script))))))
  {
    var w := Wait(|nodes|);
    var keys := KeyEvents(s, master, nodes);
    assert [w, keys[0], keys[1]] == [w] + keys;
  }

  /**
   `run` uses the pool correctly, whatever the master-only script: each of
   its two barriers waits for exactly the `len(nodes)` jobs submitted before
   it, and no job is left unjoined.
   */
  lemma RunSynchronised(s: Settings, master: Node, nodes: seq<Node>, uid: int, gid: int, script: seq<Command>)
    ensures Synchronised(RunWith(s, master, nodes, uid, gid, script), 0)
  {
    var n := |nodes|;
    var jobs1 := SetUpJobs(nodes);
    var jobs2 := AddUserJobs(uid, gid, nodes);
    var tail := KeyEvents(s, master, nodes) + OnNode(master, Runs(script));
    assert forall e | e in tail :: e.Do?;
    SynchronisedActions(tail, [], 0);
    assert tail + [] == tail;
    SynchronisedWait(n, tail, n);
    SynchronisedSubmits(jobs2, [Wait(n)] + tail, 0);
    SynchronisedWait(n, jobs2 + ([Wait(n)] + tail), n);
    SynchronisedSubmits(jobs1, [Wait(n)] + (jobs2 + ([Wait(n)] + tail)), 0);
    RunShape(s, master, nodes, uid, gid, script);
  }

  /** The installer as written, with its own master-only steps, keeps the pool discipline. */
  lemma RunTraceSynchronised(s: Settings, master: Node, nodes: seq<Node>, uid: int, gid: int)
    ensures Synchronised(RunTrace(s, master, nodes, uid, gid), 0)
  {
    RunSynchronised(s, master, nodes, uid, gid, MasterCommands(s, master, nodes));
  }

  // ---------------------------------------------------------------------------
  // Order of the pool phases
  // ---------------------------------------------------------------------------

  /**
   Layout of `run`'s trace: the set-up jobs (one per node, in node order),
   a barrier over `len(nodes)` jobs, the user jobs, a second barrier over
   `len(nodes)`, key generation, known hosts, and then the master-only
   script as commands on the master.
   */
  lemma RunLayout(s: Settings, master: Node, nodes: seq<Node>, uid: int, gid: int, script: seq<Command>)
    ensures var t := RunWith(s, master, nodes, uid, gid, script); var n := |nodes|;
      && |t| == 2 * n + 4 + |script|
      && (forall i :: 0 <= i < n ==> t[i] == Submit(nodes[i].alias, SetUpNode(nodes[i])))
      && t[n] == Wait(n)
      && (forall i :: 0 <= i < n ==> t[n + 1 + i] == Submit(nodes[i].alias, AddUserToNode(uid, gid, nodes[i])))
      && t[2 * n + 1] == Wait(n)
      && t[2 * n + 2] == Do(master, GenerateKey(s.username, true, true))
      && t[2 * n + 3] == Do(master, AddKnownHosts(s.username, nodes))
      && (forall j :: 0 <= j < |script| ==> t[2 * n + 4 + j] == Do(master, Run(script[j])))
  {
    var n := |nodes|;
    var jobs1, jobs2 := SetUpJobs(nodes), AddUserJobs(uid, gid, nodes);
    var rest := KeyEvents(s, master, nodes) + OnNode(master, Runs(script));
    var t := RunWith(s, master, nodes, uid, gid, script);
    RunShape(s, master, nodes, uid, gid, script);
    forall i | 0 <= i < n
      ensures t[i] == jobs1[i] && t[n + 1 + i] == jobs2[i]
    {
      PhaseAt(jobs1, jobs2, Wait(n), rest, i);
      PhaseAt(jobs1, jobs2, Wait(n), rest, n + 1 + i);
    }
    PhaseAt(jobs1, jobs2, Wait(n), rest, n);
    PhaseAt(jobs1, jobs2, Wait(n), rest, 2 * n + 1);
    PhaseAt(jobs1, jobs2, Wait(n), rest, 2 * n + 2);
    PhaseAt(jobs1, jobs2, Wait(n), rest, 2 * n + 3);
    forall j | 0 <= j < |script|
      ensures t[2 * n + 4 + j] == Do(master, Run(script[j]))
    {
      PhaseAt(jobs1, jobs2, Wait(n), rest, 2 * n + 4 + j);
      assert rest[2 + j] == OnNode(master, Runs(script))[j];
    }
  }

  /**
   What sits at position `k` of a two-barrier trace: a job of the first
   list, the first barrier, a job of the second list, the second barrier,
   or an event of what follows, whatever the parts hold.
   */
  lemma PhaseAt(jobs1: seq<Event>, jobs2: seq<Event>, w: Event, rest: seq<Event>, k: int)
    requires |jobs1| == |jobs2|
    requires 0 <= k < 2 * |jobs1| + 2 + |rest|
    ensures var t := jobs1 + ([w] + (jobs2 + ([w] + rest))); var n := |jobs1|;
      && |t| == 2 * n + 2 + |rest|
      && (k < n ==> t[k] == jobs1[k])
      && (k == n ==> t[k] == w)
      && (n < k < 2 * n + 1 ==> t[k] == jobs2[k - n - 1])
      && (k == 2 * n + 1 ==> t[k] == w)
      && (2 * n + 1 < k ==> t[k] == rest[k - 2 * n - 2])
  {
    var n := |jobs1|;
    var r1 := jobs2 + ([w] + rest);
    var t := jobs1 + ([w] + r1);
    if n < k {
      assert t[k] == ([w] + r1)[k - n] == r1[k - n - 1];
      if n + 1 + n < k {
        assert r1[k - n - 1] == ([w] + rest)[k - 2 * n - 1] == rest[k - 2 * n - 2];
      }
    }
  }

  /**
   Every job of `run` is submitted before the second barrier, and the
   master's key is generated exactly once, right after that barrier over
   `len(nodes)` jobs; the known-hosts update follows it.
   */
  lemma KeyAfterUserBarrier(s: Settings, master: Node, nodes: seq<Node>, uid: int, gid: int, script: seq<Command>)
    ensures var t := RunWith(s, master, nodes, uid, gid, script); var g := 2 * |nodes| + 2;
      && g + 1 < |t|
      && t[g] == Do(master, GenerateKey(s.username, true, true))
      && t[g - 1] == Wait(|nodes|)
      && t[g + 1] == Do(master, AddKnownHosts(s.username, nodes))
      && (forall j :: 0 <= j < |t| && t[j].Do? && t[j].action.GenerateKey? ==> j == g)
      && (forall i :: 0 <= i < |t| && t[i].Submit? ==> i < g - 1)
  {
    var n := |nodes|;
    var t := RunWith(s, master, nodes, uid, gid, script);
    RunLayout(s, master, nodes, uid, gid, script);
    forall j | 0 <= j < |t|
      ensures t[j].Submit? ==> j < 2 * n + 1
      ensures t[j].Do? && t[j].action.GenerateKey? ==> j == 2 * n + 2
    {
      if n < j < 2 * n + 1 {
        assert t[n + 1 + (j - (n + 1))].Submit?;
      } else if 2 * n + 4 <= j {
        assert t[2 * n + 4 + (j - (2 * n + 4))].action.Run?;
      }
    }
  }

  // ---------------------------------------------------------------------------
  // What the nodes see: jobs expanded into the actions they run
  // ---------------------------------------------------------------------------

  /**
   All actions of a trace, with each job replaced by what its worker runs.
   Jobs of one phase run concurrently, so this is one serialisation; only
   which actions occur is relied on, not their order across nodes.
   */
  function Expand(s: Settings, t: seq<Event>): seq<Event>
    decreases |t|
  {
    if |t| == 0 then [] else Happening(s, t[0]) + Expand(s, t[1..])
  }

  /** What one event of the trace amounts to: a submitted job is what the job does. */
  function Happening(s: Settings, e: Event): seq<Event> {
    if e.Submit? then TaskTrace(s, e.task) else [e]
  }

  lemma ExpandCons(s: Settings, e: Event, rest: seq<Event>)
    ensures Expand(s, [e] + rest) == Happening(s, e) + Expand(s, rest)
  {
    assert ([e] + rest)[1..] == rest;
  }

  lemma {:induction false} ExpandAppend(s: Settings, a: seq<Event>, b: seq<Event>)
    ensures Expand(s, a + b) == Expand(s, a) + Expand(s, b)
    decreases |a|
  {
    if |a| > 0 {
      var x, rest := a[0], a[1..];
      assert a == [x] + rest;
      assert a + b == [x] + (rest + b);
      var h := Happening(s, x);
      ExpandCons(s, x, rest + b);
      ExpandCons(s, x, rest);
      ExpandAppend(s, rest, b);
      SeqAssoc(h, Expand(s, rest), Expand(s, b));
    } else {
      assert a + b == b;
    }
  }

  lemma SeqAssoc<T>(x: seq<T>, y: seq<T>, z: seq<T>)
    ensures x + (y + z) == (x + y) + z
  {
  }

  lemma {:induction false} ExpandActions(s: Settings, t: seq<Event>)
    requires forall e | e in t :: !e.Submit?
    ensures Expand(s, t) == t
    decreases |t|
  {
    if |t| > 0 {
      assert t[0] in t;
      assert forall e | e in t[1..] :: e in t;
      ExpandActions(s, t[1..]);
    }
  }

  /** Set-up jobs only run commands: they create no users and make no keys. */
  lemma {:induction false} ExpandSetUpJobs(s: Settings, nodes: seq<Node>)
    ensures forall e | e in Expand(s, SetUpJobs(nodes)) :: e.Do? && e.action.Run?
    decreases |nodes|
  {
    if |nodes| > 0 {
      var jobs := SetUpJobs(nodes);
      assert jobs == [jobs[0]] + SetUpJobs(nodes[1..]);
      ExpandSetUpJobs(s, nodes[1..]);
      ExpandCons(s, jobs[0], SetUpJobs(nodes[1..]));
      TaskEffects(s, SetUpNode(nodes[0]));
    }
  }

  /** User jobs create the user on each of their nodes, always with the one pair of ids. */
  lemma {:induction false} ExpandAddUserJobs(s: Settings, uid: int, gid: int, nodes: seq<Node>)
    ensures forall e | e in Expand(s, AddUserJobs(uid, gid, nodes)) && e.Do? && e.action.AddUser? ::
      e.action == AddUser(s.username, uid, gid, "/bin/bash")
    ensures forall node | node in nodes ::
      Do(node, AddUser(s.username, uid, gid, "/bin/bash")) in Expand(s, AddUserJobs(uid, gid, nodes))
    decreases |nodes|
  {
    if |nodes| > 0 {
      var jobs := AddUserJobs(uid, gid, nodes);
      var rest := AddUserJobs(uid, gid, nodes[1..]);
      assert jobs == [jobs[0]] + rest;
      ExpandAddUserJobs(s, uid, gid, nodes[1..]);
      ExpandCons(s, jobs[0], rest);
      TaskEffects(s, AddUserToNode(uid, gid, nodes[0]));
      assert forall node | node in nodes :: node == nodes[0] || node in nodes[1..];
    }
  }

  /** The expanded run: what the set-up jobs do, a barrier, what the user jobs do, a barrier, the master part. */
  lemma ExpandRun(s: Settings, master: Node, nodes: seq<Node>, uid: int, gid: int, script: seq<Command>)
    ensures var n := |nodes|; var tail := KeyEvents(s, master, nodes) + OnNode(master, Runs(script));
      Expand(s, RunWith(s, master, nodes, uid, gid, script))
        == Expand(s, SetUpJobs(nodes)) + ([Wait(n)] + (Expand(s, AddUserJobs(uid, gid, nodes)) + ([Wait(n)] + tail)))
  {
    var n := |nodes|;
    var jobs1 := SetUpJobs(nodes);
    var jobs2 := AddUserJobs(uid, gid, nodes);
    var tail := KeyEvents(s, master, nodes) + OnNode(master, Runs(script));
    assert forall e | e in [Wait(n)] + tail :: !e.Submit?;
    ExpandActions(s, [Wait(n)] + tail);
    ExpandActions(s, [Wait(n)]);
    RunShape(s, master, nodes, uid, gid, script);
    ExpandAppend(s, jobs2, [Wait(n)] + tail);
    ExpandAppend(s, [Wait(n)], jobs2 + ([Wait(n)] + tail));
    ExpandAppend(s, jobs1, [Wait(n)] + (jobs2 + ([Wait(n)] + tail)));
  }

  /**
   One cluster-wide identity: every user the run creates, on any node, is
   the configured user with the single (uid, gid) pair, and every node gets
   that user.
   */
  lemma RunUserIdentity(s: Settings, master: Node, nodes: seq<Node>, uid: int, gid: int, script: seq<Command>)
    ensures var actions := Expand(s, RunWith(s, master, nodes, uid, gid, script));
      && (forall e | e in actions && e.Do? && e.action.AddUser? ::
            e.action == AddUser(s.username, uid, gid, "/bin/bash"))
      && (forall node | node in nodes :: Do(node, AddUser(s.username, uid, gid, "/bin/bash")) in actions)
  {
    var part1 := Expand(s, SetUpJobs(nodes));
    var part2 := Expand(s, AddUserJobs(uid, gid, nodes));
    var tail := KeyEvents(s, master, nodes) + OnNode(master, Runs(script));
    ExpandRun(s, master, nodes, uid, gid, script);
    ExpandSetUpJobs(s, nodes);
    ExpandAddUserJobs(s, uid, gid, nodes);
    TailCreatesNoUser(s, master, nodes, script);
    InParts(part1, Wait(|nodes|), part2, tail);
  }

  /** After the user jobs, the run creates no user. */
  lemma TailCreatesNoUser(s: Settings, master: Node, nodes: seq<Node>, script: seq<Command>)
    ensures forall e | e in KeyEvents(s, master, nodes) + OnNode(master, Runs(script)) ::
      e.Do? && !e.action.AddUser?
  {
  }

  /** Membership in a two-barrier trace, part by part. */
  lemma InParts(a: seq<Event>, w: Event, b: seq<Event>, tail: seq<Event>)
    ensures forall e :: e in a + ([w] + (b + ([w] + tail))) <==> e in a || e == w || e in b || e in tail
  {
  }

  // ---------------------------------------------------------------------------
  // Command strings
  // ---------------------------------------------------------------------------

  /**
   The clone command carries `--branch <b>` only for a truthy branch: it
   differs from the branch-less command exactly when the branch is set and
   non-empty, and then ends with the flag. It always runs from the directory.
   */
  lemma CloneBranch(s: Settings)
    ensures CloneCommand(s) == CloneCommand(s.(branch := None)) <==> !Truthy(s.branch)
    ensures Truthy(s.branch) ==> EndsWith(CloneCommand(s), "--branch " + s.branch.value + "\"")
    ensures StartsWith(CloneCommand(s), "cd " + s.directory + " && ")
  {
    var head := "su scidb -c \"git clone " + s.repository + " " + s.directory + " ";
    var prefix := "cd " + s.directory + " && ";
    var bare := s.(branch := None);
    assert CloneInvocation(s) == head + (BranchArgument(s.branch) + "\"");
    assert CloneInvocation(bare) == head + "\"";
    if Truthy(s.branch) {
      var flag := "--branch " + s.branch.value + "\"";
      var cmd := CloneCommand(s);
      assert cmd == (prefix + head) + flag;
      assert cmd[|cmd| - |flag|..] == flag;
      assert |CloneInvocation(bare)| < |CloneInvocation(s)|;
    }
  }

  /**
   `_add_directory` creates the directory, then gives it to the user, then
   to the user's group: split at spaces, its three commands are
   `mkdir <path>`, `chown <user> <path>` and `chgrp <user> <path>` (for a
   path and user name without spaces).
   */
  lemma AddDirectoryWords(s: Settings, path: string)
    requires ' ' !in path && ' ' !in s.username
    ensures var c := AddDirectory(s, path);
      && |c| == 3 && c[0].Shell? && c[1].Shell? && c[2].Shell?
      && Split(c[0].command, " ") == ["mkdir", path]
      && Split(c[1].command, " ") == ["chown", s.username, path]
      && Split(c[2].command, " ") == ["chgrp", s.username, path]
  {
    var c := AddDirectory(s, path);
    assert c[0].command == "mkdir" + " " + path;
    assert c[1].command == "chown" + " " + s.username + " " + path;
    assert c[2].command == "chgrp" + " " + s.username + " " + path;
    TwoWords("mkdir", path);
    ThreeWords("chown", s.username, path);
    ThreeWords("chgrp", s.username, path);
  }

  /** Two words without spaces, joined by a space, split back into those words. */
  lemma TwoWords(a: string, b: string)
    requires ' ' !in a && ' ' !in b
    ensures Split(a + " " + b, " ") == [a, b]
  {
    SplitPiece(a, b, ' ');
    SplitPiece(b, [], ' ');
  }

  /** Three words without spaces, joined by spaces, split back into those words. */
  lemma ThreeWords(a: string, b: string, c: string)
    requires ' ' !in a && ' ' !in b && ' ' !in c
    ensures Split(a + " " + b + " " + c, " ") == [a, b, c]
  {
    assert a + " " + b + " " + c == a + [' '] + (b + " " + c);
    SplitPiece(a, b + " " + c, ' ');
    TwoWords(b, c);
  }

  /** The DNS names of the nodes in node order. */
  function DnsNameList(nodes: seq<Node>): (names: seq<string>)
    ensures |names| == |nodes|
    ensures forall i :: 0 <= i < |nodes| ==> names[i] == nodes[i].dnsName
  {
    seq(|nodes|, i requires 0 <= i < |nodes| => nodes[i].dnsName)
  }

  /**
   The host list handed to the deployment script: splitting it at spaces
   gives back the nodes' DNS names, one per node and in node order (names
   hold no spaces; an empty cluster gives the empty string).
   */
  lemma DnsNamesRoundTrip(nodes: seq<Node>)
    requires forall i :: 0 <= i < |nodes| ==> ' ' !in nodes[i].dnsName
    ensures |nodes| > 0 ==> Split(DnsNames(nodes), " ") == DnsNameList(nodes)
    ensures |nodes| == 0 ==> DnsNames(nodes) == ""
  {
    if |nodes| > 0 {
      assert DnsNames(nodes) == Join(DnsNameList(nodes), [' ']);
      SplitJoinSingle(DnsNameList(nodes), ' ');
    }
  }

  // ---------------------------------------------------------------------------
  // Files written on the master
  // ---------------------------------------------------------------------------

  /** Reads an `export NAME=VALUE` line; the name ends at the first `=`. */
  function ParseExport(line: string): Option<Export> {
    if StartsWith(line, "export ") then
      var body := line[7..];
      var i := IndexOf(body, '=');
      if i < |body| then Some(Export(body[..i], body[i + 1..])) else None
    else None
  }

  function ParseExports(lines: seq<string>): (r: seq<Option<Export>>)
    ensures |r| == |lines|
    ensures forall i :: 0 <= i < |lines| ==> r[i] == ParseExport(lines[i])
  {
    seq(|lines|, i requires 0 <= i < |lines| => ParseExport(lines[i]))
  }

  /** An assignment that survives the round trip: no `=` in the name, no newline anywhere. */
  predicate Readable(e: Export) {
    '=' !in e.name && '\n' !in e.name && '\n' !in e.value
  }

  /** An export line reads back as its name and value. */
  lemma ParseExportLine(e: Export)
    requires '=' !in e.name
    ensures ParseExport("export " + e.name + "=" + e.value) == Some(e)
  {
    var line := "export " + e.name + "=" + e.value;
    var body := e.name + "=" + e.value;
    assert line[..7] == "export ";
    assert line[7..] == body;
    IndexOfAfter(e.name, '=', e.value);
    assert body[..|e.name|] == e.name;
    assert body[|e.name| + 1..] == e.value;
  }

  /** An export line in front of a text is read back as the first line, and the rest as the rest. */
  lemma ExportLineFirst(e: Export, rest: string)
    requires Readable(e)
    ensures var ls := Lines(ExportLine(e) + rest);
      |ls| > 0 && ParseExport(ls[0]) == Some(e) && ls[1..] == Lines(rest)
  {
    var line := "export " + e.name + "=" + e.value;
    assert '\n' !in line;
    assert ExportLine(e) + rest == line + "\n" + rest;
    LinesCons(line, rest);
    ParseExportLine(e);
  }

  /** Export lines written one after another read back, line by line, as the assignments. */
  lemma {:induction false} ExportsRoundTrip(es: seq<Export>)
    requires forall i :: 0 <= i < |es| ==> Readable(es[i])
    ensures var r := ParseExports(Lines(Concat(ExportLines(es))));
      |r| == |es| && forall i :: 0 <= i < |es| ==> r[i] == Some(es[i])
    decreases |es|
  {
    if |es| > 0 {
      var w := ExportLines(es);
      assert w[1..] == ExportLines(es[1..]);
      ExportsRoundTrip(es[1..]);
      assert Concat(w) == ExportLine(es[0]) + Concat(w[1..]);
      ExportLineFirst(es[0], Concat(w[1..]));
      ParseExportsCons(Lines(Concat(w)));
    } else {
      assert Concat(ExportLines(es)) == [];
    }
  }

  /** Reading lines reads the first line, then the others. */
  lemma ParseExportsCons(ls: seq<string>)
    requires |ls| > 0
    ensures ParseExports(ls) == [ParseExport(ls[0])] + ParseExports(ls[1..])
  {
    var r, r' := ParseExports(ls), ParseExports(ls[1..]);
    forall i | 1 <= i < |r|
      ensures r[i] == r'[i - 1]
    {
      assert ls[i] == ls[1..][i - 1];
    }
  }

  /** No `=` in the name and no newline in the name or the fixed part of the value. */
  lemma LiteralReadable(name: string, value: string)
    requires forall i :: 0 <= i < |name| ==> name[i] != '=' && name[i] != '\n'
    requires forall i :: 0 <= i < |value| ==> value[i] != '\n'
    ensures Readable(Export(name, value))
  {
  }

  /** Every variable of the environment block survives the round trip. */
  lemma EnvironmentReadable(s: Settings)
    requires '\n' !in s.directory && '\n' !in s.buildType
    ensures forall i :: 0 <= i < |Environment(s)| ==> Readable(Environment(s)[i])
  {
    var env := Environment(s);
    assert Readable(env[0]) by { LiteralReadable("SCIDB_VER", ScidbVersion); }
    assert Readable(env[1]) by { LiteralReadable("PATH", "/stage/install/bin:$PATH"); }
    assert Readable(env[2]) by { LiteralReadable("LD_LIBRARY_PATH", "/stage/install/lib:$LD_LIBRARY_PATH"); }
    assert Readable(env[3]) by { LiteralReadable("SCIDB_BUILD_TYPE", ""); }
  }

  /**
   The block `_add_environment` writes reads back as exactly four exports,
   in this order: `SCIDB_VER`, `PATH`, `LD_LIBRARY_PATH`, `SCIDB_BUILD_TYPE`
   (for a directory and build type without newlines).
   */
  lemma EnvironmentExports(s: Settings)
    requires '\n' !in s.directory && '\n' !in s.buildType
    ensures ParseExports(Lines(Concat(EnvironmentWrites(s)))) == [
      Some(Export("SCIDB_VER", ScidbVersion)),
      Some(Export("PATH", s.directory + "/stage/install/bin:$PATH")),
      Some(Export("LD_LIBRARY_PATH", s.directory + "/stage/install/lib:$LD_LIBRARY_PATH")),
      Some(Export("SCIDB_BUILD_TYPE", s.buildType)) ]
  {
    EnvironmentReadable(s);
    ExportsRoundTrip(Environment(s));
  }

  /**
   `_add_environment` appends: whatever the file held stays as its prefix
   and the export block follows. Running it again appends a second copy,
   so unlike the include registration it is not re-run safe.
   */
  lemma AddEnvironmentAppends(s: Settings, path: string, prior: string)
    ensures var e := AddEnvironment(s, path);
      var once := ApplyRemoteFile(prior, e.mode, e.writes);
      && e.path == path
      && StartsWith(once, prior)
      && once[|prior|..] == Concat(EnvironmentWrites(s))
      && ApplyRemoteFile(once, e.mode, e.writes) != once
  {
    var w := EnvironmentWrites(s);
    assert |Concat(w)| >= |w[0]| > 0 by {
      assert Concat(w) == w[0] + Concat(w[1..]);
    }
  }

  /**
   `_ensure_revision` overwrites `<directory>/revision` with `8628`: the
   result does not depend on what the file held, and it reads back as the
   revision number.
   */
  lemma RevisionFile(s: Settings, prior: string)
    ensures var e := EnsureRevision(s);
      && e.path == PathJoin(s.directory, "revision")
      && ((|s.directory| == 0 || s.directory[|s.directory| - 1] != '/') ==>
            SplitPath(e.path) == (s.directory, "revision"))
      && ApplyRemoteFile(prior, e.mode, e.writes) == "8628"
      && ParseNat(ApplyRemoteFile(prior, e.mode, e.writes)) == ScidbRevision
  {
    assert NatToString(8) == "8";
    assert NatToString(86) == "86";
    assert NatToString(862) == "862";
    assert NatToString(8628) == "8628";
    ParseNatToString(ScidbRevision);
    if |s.directory| == 0 || s.directory[|s.directory| - 1] != '/' {
      PathSplitJoin(s.directory, "revision");
    }
    var w := [NatToString(ScidbRevision)];
    assert Concat(w) == w[0] + Concat(w[1..]);
  }

  /**
   The build step runs from the SciDB directory and asks for exactly the
   configured number of make jobs, whatever its sign, as `'{}'.format`
   writes an integer.
   */
  lemma BuildThreadsRoundTrip(s: Settings)
    ensures var c := ExecuteIn(s, BuildCommand(s));
      var head := "cd " + s.directory + " && su scidb -c \"./run.py make -j";
      && c.Shell?
      && |head| < |c.command|
      && StartsWith(c.command, head)
      && EndsWith(c.command, "\"")
      && IntText(c.command[|head|..|c.command| - 1])
      && ParseInt(c.command[|head|..|c.command| - 1]) == s.buildThreads
  {
    var cd := "cd " + s.directory + " && ";
    var make := "su scidb -c \"./run.py make -j";
    var digits := IntToString(s.buildThreads);
    var cmd := ExecuteIn(s, BuildCommand(s)).command;
    assert cmd == cd + (make + digits + "\"");
    assert cd + make == "cd " + s.directory + " && su scidb -c \"./run.py make -j";
    assert cmd == (cd + make) + digits + "\"";
    Bracketed(cmd, cd + make, digits, "\"");
    ParseIntToString(s.buildThreads);
  }


}
