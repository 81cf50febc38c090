# SciDB-StarCluster installer: a Dafny model

This project models the two pieces of logic in the SciDB StarCluster plugin
that go beyond plain remote-command plumbing.

**Registering the plugin at install time** (`setup.py`). After the package
files are in place, `RegisterPluginDecorator.run` reads the user's StarCluster
configuration. If the text lacks `INCLUDE=~/.starcluster/scidbcluster.config`,
it adds that line:
- after every `[global]` marker (`add_include`), or
- in front of the whole text, together with a marker, when there is no marker.

It then rewrites `KEYNAME = AWSKey` in the plugin's own configuration to the
installing user's key name (`set_keyname`). File reads and writes are
functions from old text to new text. The user name is a parameter.

**The cluster provisioning sequence** (`scidbplugin.py`).
`SciDBInstaller.run` is modelled as the trace its orchestrating thread
issues. A trace holds three kinds of event:
- actions on nodes: shell commands, package installs, remote-file blocks, user creation, key generation, known-hosts updates;
- job submissions to StarCluster's thread pool;
- barrier waits.

Each helper (`_execute`, `_add_directory`, `_add_environment`,
`_ensure_revision`, `__add_user_to_node`, `_add_user`) is a builder that
returns exactly the commands or events it issues, with the exact command
strings. `Expand` replaces each submitted job by what the job does on its
node. Facts about "what happens on the nodes" are stated over that expanded
trace.

Modules:

- `Strings` (`strings.dfy`): the Python string operations the code relies on.
  - `in` is `Contains`.
  - `str.replace` is `Replace`, a leftmost, non-overlapping recursive scan.
  - `Split` and `Join` are its reference partners.
  - `Lines` reads a text line by line, and `Concat` gives what consecutive writes leave in a file.
- `Decimal` (`decimal.dfy`): `str(n)` and `'{}'.format(n)` for integers, with a digit reader as their inverse.
- `Register` (`register.dfy`): `setup.py`.
- `Provisioning` (`provisioning.dfy`): the settings, the events and the builders of `scidbplugin.py`.
- `ProvisioningFacts` (`provisioning_facts.dfy`): the properties of the trace, the command strings and the files written on the master.

The model follows the code as written:
- **No include merge.** The registration never merges a new include into an existing `INCLUDE=` line with a comma, and its presence test is exact and case-sensitive (setup.py:16). `add_include` replaces every `[global]` marker (setup.py:30-31).
- **`set_keyname` target.** `set_keyname` rewrites `~/.starcluster/scidbcluster.config`, the plugin's configuration, not the user's StarCluster configuration (setup.py:20).
- **Hard-coded scidb account.** Several commands name the `scidb` account directly rather than the configured user name: the clone, the access deployment, the build and `/home/scidb/.bashrc`. The `.format(self.directory)` on that path has no placeholder and changes nothing (scidbplugin.py:122). The model keeps these strings as they are written.
- **Clone command.** The clone command writes its `cd <directory> && ` prefix itself instead of calling `_execute`. The resulting command line is the same, and the model builds it with the same helper (scidbplugin.py:86-88).

## Model

| member | source | states |
|---|---|---|
| Register.RegisterInclude | setup.py:14-18 | The registered text always holds the include directive. A text that already contains it, by exact substring test, is returned unchanged. Any other text gets `add_include`. |
| Register.RegisterIncludeIdempotent | setup.py:16-18 | Registering twice gives the same text as registering once, so re-running the installer is safe for the StarCluster configuration. |
| Register.AddInclude | setup.py:27-33 | The result always contains the include directive. A text without `[global]` becomes exactly the insertion followed by the whole original text, which survives as a verbatim suffix. The result is always longer than the input. |
| Register.AddIncludeAtMarkers | setup.py:30-31 | With a marker present, the text is cut at every `[global]` occurrence into marker-free pieces. The result is those pieces, in order and unchanged, with the insertion in every gap. Every character outside the markers is kept in place. |
| Register.AddIncludeLength | setup.py:29-33 | Without a marker the text grows by exactly the insertion's length. Otherwise each marker adds exactly the directive line plus its two newlines. |
| Register.AddIncludeAfterMarker | setup.py:29-31 | For any configuration with a single `[global]` marker, whatever comes before and after it, the result is the text before the marker, then the insertion, then the rest verbatim. So an `INCLUDE=` line already in the section stays as it was, after the new line; there is no comma-joined merge. |
| Register.AddIncludeNotIdempotent | setup.py:27-33 | Without the guard, `add_include` is not re-run safe: applying it again always changes the text. |
| Register.InsertionHoldsDirective | setup.py:29 | The insertion starts with `[global]`, holds the directive on the line after it, and so contains the directive. |
| Register.SetKeyname | setup.py:38-42 | Each `KEYNAME = AWSKey` is replaced by the user's key line and every other character is kept, as the split-and-join reading shows. A text without the pattern is unchanged; one with it gains the user's key line. |
| Register.Install | setup.py:11-20 | After installation the StarCluster configuration holds the directive. It is untouched if it already had it, and is exactly `add_include` of the old text otherwise. The plugin configuration is exactly the old text cut at every `KEYNAME = AWSKey` and joined with the user's key line; it names the user's key wherever it named `AWSKey` and is untouched otherwise. |
| Register.InstallRerunKeepsStarclusterConfig | setup.py:11-20 | A second installation, by any user, leaves the StarCluster configuration exactly as the first one left it. |
| Strings.Replace | setup.py:31 | `str.replace` with a non-empty pattern. A text without the pattern is returned unchanged, and a text with it yields one containing the replacement. The length never shrinks when the replacement is at least as long, and strictly grows when it is longer and an occurrence exists. |
| Strings.ReplaceIsJoinOfSplit | setup.py:31 | `str.replace` equals the reference reading: cut the text at the occurrences the left-to-right scan finds, then join the pieces with the replacement. |
| Strings.SplitJoinRoundTrip | setup.py:31 | Joining the pieces back with the pattern gives the original text, so nothing outside the occurrences is lost. |
| Strings.SplitPiecesAvoid | setup.py:31 | No piece of the cut holds the pattern: the scan finds every occurrence. |
| Strings.SplitFirstOccurrence | setup.py:31 | The first piece of the cut is the text up to the leftmost occurrence: no occurrence starts inside it. If there is a second piece, the pattern occurs right after the first piece and the remaining pieces are the cut of the text after that occurrence. With one piece, that piece is the whole text. |
| Strings.ReplaceAfterPrefix | setup.py:31 | For a pattern whose first character does not recur inside it, text `pre + pat + rest` with no occurrence in `pre` or `rest` becomes exactly `pre + rep + rest`. |
| Strings.SplitFindsOccurrence | setup.py:30 | A text contains the pattern if and only if cutting it at the pattern gives more than one piece. |
| Strings.ReplaceLength | setup.py:31 | With `k` occurrences replaced, the length changes by exactly `k` times the difference between the replacement and pattern lengths. |
| Strings.ReplaceBySelf | setup.py:31 | Replacing a pattern by itself leaves every text unchanged. |
| Strings.ContainsIffOccurs | setup.py:16 | The recursive `in` test holds exactly when the pattern occurs at some position of the text. |
| Provisioning.ExecuteIn | scidbplugin.py:184-185 | `_execute` issues one shell command on the node. The command is `cd <directory> && ` followed by the given command, unchanged. |
| Provisioning.SetUpJobs | scidbplugin.py:79 | `run` submits one set-up job per node, in node order, with the node's alias as job id and that node as the job's target. |
| Provisioning.AddUserJobs | scidbplugin.py:150 | `_add_user` submits one user job per node, in node order, each carrying the same single uid/gid pair. |
| Provisioning.TaskTrace | scidbplugin.py:156-159 | A pool job acts only on its own node. |
| Provisioning.TaskEffects | scidbplugin.py:156-159 | A set-up job only runs commands. A user job creates the configured user on its node with `/bin/bash` and the job's uid and gid, and creates no other user. |
| Provisioning.ApplyRemoteFile | scidbplugin.py:171-182 | An append-mode block keeps the prior file as a prefix and adds the writes after it. A write-mode block leaves exactly the writes, whatever the file held. |
| Provisioning.PathJoin | scidbplugin.py:181 | `os.path.join` with two parts. An absolute second part is the result. Otherwise the first part and the second are joined with one `/`, which is left out when the first part is empty or already ends in `/`. |
| Provisioning.PathSplitJoin | scidbplugin.py:181 | `os.path.split` undoes the join of a directory that does not end in `/` and a file name without `/`, giving back both parts. |
| ProvisioningFacts.RunSynchronised | scidbplugin.py:79-83 | For any master-only script, each of `run`'s two barriers waits for exactly the jobs submitted since the previous barrier (`len(nodes)` of them), and no job is left unjoined. |
| ProvisioningFacts.RunTraceSynchronised | scidbplugin.py:72-146 | `run` as written keeps this pool discipline. |
| ProvisioningFacts.RunLayout | scidbplugin.py:79-83 | `run`'s trace, in order: the set-up jobs, one per node; a wait for `len(nodes)` tasks; the user jobs; a second wait for `len(nodes)`; key generation; the known-hosts update; the master-only commands. |
| ProvisioningFacts.KeyAfterUserBarrier | scidbplugin.py:150-154 | The master's key is generated exactly once, for the configured user with both `auth_new_key` and `auth_conn_key` set. It comes immediately after the wait for `len(nodes)` user jobs, and the known-hosts update follows it. Every job submission comes before that wait. |
| ProvisioningFacts.RunUserIdentity | scidbplugin.py:148-157 | Every user the run creates, on any node, is the configured user with the single uid/gid pair, and every node gets that user. |
| ProvisioningFacts.ExpandAddUserJobs | scidbplugin.py:149-150 | The user jobs together create the user on every node, and only ever with the one uid/gid pair. |
| ProvisioningFacts.ExpandSetUpJobs | scidbplugin.py:57-70 | The set-up jobs only run commands: they create no user and generate no key. |
| ProvisioningFacts.CloneBranch | scidbplugin.py:86-88 | The clone command carries `--branch <b>` exactly when the branch is truthy, that is present and non-empty. Otherwise it equals the clone without a branch. It runs from the SciDB directory. |
| ProvisioningFacts.DnsNamesRoundTrip | scidbplugin.py:75 | Cutting the space-joined host list at spaces gives the nodes' DNS names back, one per node and in node order. An empty cluster gives the empty string. |
| ProvisioningFacts.AddDirectoryWords | scidbplugin.py:161-164 | `_add_directory` issues exactly three shell commands, in this order: `mkdir <path>`, then `chown <user> <path>`, then `chgrp <user> <path>`. Each reads back word by word. |
| ProvisioningFacts.ExportsRoundTrip | scidbplugin.py:172-178 | Export lines written one after another read back, line by line, as the same assignments in the same order. |
| ProvisioningFacts.EnvironmentExports | scidbplugin.py:171-178 | The `_add_environment` block reads back as exactly four exports, in order: `SCIDB_VER`, `PATH` and `LD_LIBRARY_PATH` (both under the SciDB directory's `stage/install`), then `SCIDB_BUILD_TYPE`. |
| ProvisioningFacts.AddEnvironmentAppends | scidbplugin.py:171-172 | `_add_environment` writes to the given path in append mode. The prior file stays as a prefix with the export block after it. Running it again adds a second copy, so it is not re-run safe. |
| ProvisioningFacts.RevisionFile | scidbplugin.py:180-182 | `_ensure_revision` overwrites `<directory>/revision`. When the directory does not end in `/`, `os.path.split` of that path gives back the directory and `revision`. Whatever the file held, it ends up as exactly `8628`, which reads back as the revision number. |
| ProvisioningFacts.BuildThreadsRoundTrip | scidbplugin.py:128 | The build step that `run` issues runs `./run.py make -j<n>` as the scidb account from the SciDB directory. The text between `-j` and the closing quote reads back as exactly the configured thread count, negative counts included. |
| Decimal.IntToString | scidbplugin.py:128 | `'{}'.format(n)` of an integer is non-empty and starts with `-` exactly when `n` is negative. |
| Decimal.ParseIntToString | scidbplugin.py:128 | `'{}'.format(n)` reads back as `n` for every integer. |
| Decimal.ParseNatToString | scidbplugin.py:182 | `str(n)` reads back as `n`. |
| Decimal.NatToString | scidbplugin.py:182 | `str(n)` of a natural number is a non-empty digit string, with a leading zero only for zero. |

## Left out

- SSH execution, `apt_install`, StarCluster's thread pool and `DefaultClusterSetup.run` (scidbplugin.py:73) are library code outside this model. The pool appears only as submissions and counted waits; the concurrency of the jobs is not modelled, and `Expand` fixes one order of the jobs' actions.
- Real file reading and writing (`get_config`, `open`, `remote_file` handles) become functions from old text to new text.
- `install.run` and the `setup(...)` packaging metadata are build plumbing.
- `_get_new_user_id` belongs to the StarCluster base class. The uid and gid it returns are parameters of the run.
- The random default password (scidbplugin.py:37) and `getpass.getuser()` (setup.py:40) are nondeterministic or depend on the environment, so they are parameters.
- `SCIDB_VERSION` is a float formatted by `'{}'.format`. It is carried as the string `14.8`; float-to-string conversion is not modelled.
- `build_threads` (scidbplugin.py:44) is modelled as an integer. A float or string passed there would be formatted differently, and that is not modelled.
- `log.info` and `print` calls carry no behaviour.
- `REQUIRED_PACKAGES` is carried as a constant list. The package manager's handling of it is not modelled.
- Exceptions from remote commands or file operations are not modelled; every step is taken to succeed. The code has no failure handling or rollback to model.
- Strings.Replace: only non-empty patterns are modelled. Every call site uses a non-empty literal, and Python's empty-pattern behaviour is never reached.
- Register.SetKeyname: no re-run property is claimed. A user key line can itself contain the pattern, so the source promises none.
- ProvisioningFacts.RunSynchronised: stated for any master-only script, so it does not depend on the particular command strings. RunTraceSynchronised instantiates it with the source's own steps.
- ProvisioningFacts.RunLayout: the master-only steps after the user phase are placed by `MasterCommands` in the source's order. No lemma restates that straight-line order.
- ProvisioningFacts.AddDirectoryWords: the word-by-word reading needs a path and user name without spaces. The exact command strings hold for any path.
- ProvisioningFacts.DnsNamesRoundTrip: the round trip needs DNS names without spaces. The joined string itself is defined for any names.
- ProvisioningFacts.EnvironmentExports: the read-back needs a directory and build type without newlines. The written lines are exact for any settings.
