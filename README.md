# fuel-ostf-tests: ssh executor, fixture helpers and VLAN script, modelled in Dafny

This project models the decision logic of the OpenStack health-check suite:

- **`Ssh`**: the remote command executor (`fuel_health/common/ssh.py`, class `Client`).
  - Connection acquisition: a retry loop with a strict deadline and multiplicative backoff.
  - The channel read loop of `_exec_command`.
  - The mapping of the exit status to a result or to `SSHExecCommandFailed`.
  - The jump-host authentication choice of `exec_command_on_vm`.
  - `test_connection_auth` and `connect_until_closed`.
- **`NManager`**: the fixture helpers of `fuel_health/nmanager.py`.
  - Credential defaulting and checking.
  - The nano-flavor search.
  - The last-in first-out teardown with error collection.
  - Volume cleaning.
  - The bounded server re-fetch.
  - Error classification.
  - The image lookup by trimmed, lower-cased name.
  - The ssh timeout floor.
- **`HeatManager`**: the Heat test base of `fuel_health/heatmanager.py`.
  - The orchestration availability check.
  - `find_stack`.
  - `create_stack`, including the in-place defaulting of the caller's parameter dict.
  - `_prepare_stack_resources`.
  - The `clean_stacks` filter and loop.
  - The `check_status` classifier and the status wait.
  - The bounded retry of `is_haproxy_active_on_vm`.
- **`NetworkConfiguration`**: the VLAN script `fuel_health/netork_configuration.py`.
  - Collecting cluster ids and fetching the first cluster's network configuration.
  - Deriving the interface files of the `/24` networks of a kind.
  - Recording the names of the files written.
  - Building the delete commands.
- **`Text`** and **`Common`**: the Python `str` operations these files use (`join`, `split`, `strip`, `lower`, `in`, `str(int)`), `Option`/`Result`, and first-match and filter searches.

Every SDK call, every socket and `select` call, and every clock reading is an input to the model. The inputs are these:

- the outcome and clock reading of each connection attempt;
- what each pass of the read loop sees on the channel;
- the lists the SDK returns;
- the probe results of a deletion wait;
- the servers a re-fetch returns;
- the statuses read while waiting;
- the outcome of each command run.

A trace that drives a loop must reach an entry that ends the loop. For the connection and hold loops this is a condition on the environment: time passes. For the read loop of `_exec_command` it also excludes a command that never stops producing output: that loop has no overall deadline and would run forever on such a command, a run the model does not describe.

Where the code and its documentation disagree, the model follows the code, with two exceptions. The two defects listed under "## Findings" are modelled as written in a member of their own, and the operations use the corrected behaviour, as "## Left out" records. Otherwise:

- `_exec_command` reads the exit status before draining the channel (`fuel_health/common/ssh.py:131`). The status is therefore an input fixed before the read loop.
- `test_connection_auth` can never return `False` (`fuel_health/common/ssh.py:160-168`). `_get_ssh_connection` already catches `AuthenticationException` and retries until the deadline, so the `except` branch is dead. `Ssh.TestConnectionAuth` proves the result is never `Ok(false)`.
- `exec_command` does not close the connection it opens (`fuel_health/common/ssh.py:115-117`). The model has no close step.
- `get_cluster_data` returns inside its loop, so only the first cluster's configuration is fetched (`fuel_health/netork_configuration.py:24-28`).
- `HeatBaseTest.tearDownClass` runs `clean_stacks` before the base `tearDownClass` (`fuel_health/heatmanager.py:121-124`). The base method starts by resetting `error_msg` (`fuel_health/nmanager.py:181`), so stack-deletion errors never reach `_verification_of_exceptions`. See `NManager.Fixture.TearDownClass`.
- `create_stack` has a mutable default `parameters={}` (`fuel_health/heatmanager.py:153`). The first call fills that shared dict, and later calls that omit `parameters` reuse the first flavor and image. `HeatManager.DefaultsStick` proves the first fill sticks.

## Model

| member | source | states |
|---|---|---|
| Common.FirstMatch | fuel_health/nmanager.py:168-173 | the index found satisfies the predicate and every earlier element does not; none is found exactly when no element satisfies it |
| Common.Filter | fuel_health/nmanager.py:692-693 | the result holds exactly the elements of the input that satisfy the predicate, and is no longer than the input |
| Common.FilterSnoc | fuel_health/nmanager.py:692-693 | filtering one more element appends it exactly when it satisfies the predicate |
| Text.ConcatAppend | fuel_health/common/ssh.py:158 | `''.join` of two runs of chunks is the join of the first followed by the join of the second |
| Text.ConcatEmpty | fuel_health/common/ssh.py:158 | `''.join(xs)` is empty exactly when every chunk is empty |
| Text.JoinEmptySeparator | fuel_health/common/ssh.py:158 | joining with the empty separator is concatenation |
| Text.JoinLength | fuel_health/common/ssh.py:157 | a join keeps every element and inserts the separator once between each neighbouring pair |
| Text.IndexOf | fuel_health/netork_configuration.py:40 | the index found holds the separator and nothing before it does; none is found exactly when the separator is absent |
| Text.Split | fuel_health/netork_configuration.py:40 | `split` gives at least one field and no field holds the separator |
| Text.SplitJoin | fuel_health/netork_configuration.py:40 | joining the fields of a split with the separator gives the string back |
| Text.JoinSplit | fuel_health/netork_configuration.py:42 | splitting a join of separator-free fields gives the fields back |
| Text.SplitNone | fuel_health/netork_configuration.py:40 | a string without the separator is one field |
| Text.SplitCons | fuel_health/netork_configuration.py:40 | a separator-free field followed by the separator is the first field, and the rest is split on |
| Text.LastFieldSkip | fuel_health/netork_configuration.py:41 | `split(c)[-1]` of a string equals that of the text after its first `c` |
| Text.LastFieldIsTail | fuel_health/netork_configuration.py:41 | `split(c)[-1]` is a suffix free of `c`, preceded by `c` whenever it is not the whole string |
| Text.SuffixOfSuffix | fuel_health/netork_configuration.py:41 | a suffix of a suffix is a suffix, with the character before it located |
| Text.Contains | fuel_health/nmanager.py:171 | `sub in s` holds exactly when `sub` occurs at some index of `s` |
| Text.StripLeft | fuel_health/nmanager.py:499 | the result is a suffix, only whitespace was removed, and it does not start with whitespace |
| Text.StripRight | fuel_health/nmanager.py:499 | the result is a prefix, only whitespace was removed, and it does not end with whitespace |
| Text.StripShape | fuel_health/nmanager.py:499 | `strip()` is the infix left after removing whitespace at both ends and has none at either end |
| Text.StripIdempotent | fuel_health/nmanager.py:499 | stripping twice is stripping once |
| Text.LowerSameUpToCase | fuel_health/nmanager.py:499 | `a.lower() == b.lower()` holds exactly when the two differ only in the case of ASCII letters |
| Text.LowerNormal | fuel_health/nmanager.py:499 | `lower()` leaves no upper-case ASCII letter and is idempotent |
| Text.NatToString | fuel_health/netork_configuration.py:44 | `str(n)` of a natural number is one or more decimal digits, with no leading zero |
| Text.NatToStringRoundTrip | fuel_health/netork_configuration.py:44 | reading back the digits of `str(n)` gives `n` |
| Text.IntToString | fuel_health/netork_configuration.py:44 | `str(n)` starts with `-` exactly for negative `n`, and every later character is a digit |
| Text.IntToStringInjective | fuel_health/netork_configuration.py:44 | distinct integers print differently |
| Text.NatEqual | fuel_health/netork_configuration.py:44 | two naturals with the same decimal text are equal |
| Ssh.TruncateToInt | fuel_health/common/ssh.py:48 | `int(timeout)` truncates toward zero, for both signs |
| Ssh.NewClient | fuel_health/common/ssh.py:34-50 | fields are stored as given; an empty string `pkey` becomes no key, a non-empty one is loaded from that file, and a key object is kept; `timeout` is truncated toward zero for both signs; the read size is 1024 |
| Ssh.IsTimedOut | fuel_health/common/ssh.py:87-88 | timed out exactly when the elapsed time is strictly greater than the timeout |
| Ssh.TimedOutBoundary | fuel_health/common/ssh.py:87-88 | an elapsed time equal to the timeout is not yet timed out, and once timed out a later reading stays timed out |
| Ssh.NthSleepClosedForm | fuel_health/common/ssh.py:77-78 | the `i`-th sleep is `sleep * backoff^i` |
| Ssh.NthSleepAtLeastFirst | fuel_health/common/ssh.py:77-78 | with a factor of at least 1, no sleep is shorter than the first |
| Ssh.BackoffSchedule | fuel_health/common/ssh.py:77-78 | the first `n` sleeps of the schedule, in order |
| Ssh.AcquireStop | fuel_health/common/ssh.py:66-79 | acquisition stops at the first pass that is past the deadline or does not fail retryably |
| Ssh.AcquireStopsAt | fuel_health/common/ssh.py:57-85 | when pass `i` is the first that ends the loop, the result and the sleeps are those of stopping at `i` |
| Ssh.AcquireFirstSuccess | fuel_health/common/ssh.py:66-74 | acquisition yields pass `i` exactly when that `connect` succeeds before the deadline and every earlier pass was a retried failure before the deadline |
| Ssh.AcquireTimeout | fuel_health/common/ssh.py:75-84 | `SSHTimeout` carries exactly the client's host, user, password and key file, is raised only past the deadline, and follows one backoff sleep per retried failure |
| Ssh.AcquireNeverRaisesRetried | fuel_health/common/ssh.py:75-79 | a socket or authentication failure never escapes the retry loop |
| Ssh.GetSshConnection | fuel_health/common/ssh.py:57-85 | the retry loop computes the acquisition result and the sleeps of `Acquire` |
| Ssh.Take | fuel_health/common/ssh.py:147 | `recv(n)` returns at most `n` characters from the front of what the channel holds, and at least one when any is available |
| Ssh.OutChunksAppend | fuel_health/common/ssh.py:145-151 | chunks of consecutive stretches of passes are collected one after the other, in arrival order |
| Ssh.ChunksBounded | fuel_health/common/ssh.py:147-150 | no stdout or stderr chunk is longer than the read size |
| Ssh.ChunksStep | fuel_health/common/ssh.py:145-151 | one more pass appends exactly that pass's stdout and stderr chunks |
| Ssh.DrainStop | fuel_health/common/ssh.py:137-153 | the read loop stops at the first pass that is idle, or that finds the channel closed with nothing read |
| Ssh.TimeoutMessage | fuel_health/common/ssh.py:139-142 | the timeout message names the command and the host at their fixed places |
| Ssh.StrError | fuel_health/common/ssh.py:154-157 | the failure diagnostic is all of stderr followed by all of stdout |
| Ssh.StrErrorAsWrittenLosesStderr | fuel_health/common/ssh.py:157 | as written, `''.join(err).join(out)` is the stdout text alone whenever at most one stdout chunk was read, so stderr `"denied"` with no stdout gives the empty string |
| Ssh.StrErrorAsWrittenWithoutStderr | fuel_health/common/ssh.py:157 | with no stderr text, the source's join and the corrected diagnostic agree |
| Ssh.CommandOutcome | fuel_health/common/ssh.py:127-158 | an idle pass raises the timeout; otherwise exit status 0 returns the joined stdout, and any other status raises `SSHExecCommandFailed` with the command, the status and the diagnostic |
| Ssh.CommandOutcomeAt | fuel_health/common/ssh.py:137-158 | the outcome when the read loop stops at pass `i` |
| Ssh.ExecCommandOn | fuel_health/common/ssh.py:119-158 | the read loop computes `CommandOutcome` |
| Ssh.ExecCommandOutcome | fuel_health/common/ssh.py:104-117 | an acquisition error propagates; otherwise the result is the command's outcome |
| Ssh.ExecCommand | fuel_health/common/ssh.py:115-117 | acquiring and then running computes `ExecCommandOutcome` |
| Ssh.TestConnectionAuth | fuel_health/common/ssh.py:160-168 | true exactly when a connection is acquired, and never false; otherwise the acquisition error is raised |
| Ssh.Hold | fuel_health/common/ssh.py:90-102 | after connecting, the wait lasts while the transport is active and not timed out; a successful acquisition ends in a closed session, an end-of-file connect is swallowed, and only a timeout or an unexpected connect failure escapes, as itself |
| Ssh.ConnectUntilClosed | fuel_health/common/ssh.py:90-102 | the polling loop computes `Hold` |
| Ssh.ExecOnVm | fuel_health/common/ssh.py:188-207 | the tunnel targets port 22 of the guest from the jump host; a password wins; a key path is read with `cat` on the jump host; with no credential no authentication call is made; a failed acquisition raises its error, a failed `cat` raises that command's error, and rejected credentials raise the authentication error |
| NManager.ResolveCredentials | fuel_health/nmanager.py:66-79 | each falsy argument is replaced by its configured value, and `InvalidConfiguration` is raised exactly when one of the three values is then missing |
| NManager.GivenCredentialsWin | fuel_health/nmanager.py:119-132 | non-empty arguments are used whatever the configuration says |
| NManager.ResolveIdempotent | fuel_health/nmanager.py:119-132 | resolving resolved credentials again changes nothing |
| NManager.NetworkClient | fuel_health/nmanager.py:143-157 | the configured values are checked like the other clients, and no client is ever returned |
| NManager.NanoFlavor | fuel_health/nmanager.py:164-177 | an empty list gives nothing; otherwise the first flavor whose id contains "42", or a new flavor (64 MB, 1 GB disk, 1 vcpu, id 42) exactly when none does |
| NManager.ProbeErrors | fuel_health/nmanager.py:204-221 | the deletion wait records no `NotFound` and at most one error per probe |
| NManager.ResourceErrors | fuel_health/nmanager.py:193-221 | the errors recorded for one resource never include a `NotFound` |
| NManager.TeardownLog | fuel_health/nmanager.py:188-221 | the teardown log never includes a `NotFound` |
| NManager.TeardownLogReverses | fuel_health/nmanager.py:188-189 | teardown is last-in first-out: resources added later are handled first |
| NManager.TeardownStep | fuel_health/nmanager.py:188-189 | popping one more resource appends exactly its errors |
| NManager.DeleteErrors | fuel_health/nmanager.py:694-698 | at most one error per deleted volume |
| NManager.DeleteResource | fuel_health/nmanager.py:193-221 | one pass: the `delete`, then the wait unless the delete raised `NotFound`; a plain dict records its `AttributeError` and is complete at once |
| NManager.Fixture.constructor | fuel_health/nmanager.py:179-187 | a fixture starts with the given resources and volumes and no errors |
| NManager.Fixture.TearDownClass | fuel_health/nmanager.py:179-221 | the error list is reset, then holds the flavor-delete error followed by the errors of popping every resource; the resource list ends empty |
| NManager.Fixture.PopAndDelete | fuel_health/nmanager.py:188-221 | one pass removes the last resource and appends its errors |
| NManager.Fixture.CleanVolumes | fuel_health/nmanager.py:689-701 | exactly the volumes in status `available` or `error` are deleted, in order, and their errors are appended |
| NManager.DeletedIsFilter | fuel_health/nmanager.py:692-693 | the volumes deleted are exactly the deletable ones, in order |
| NManager.DeletedStep | fuel_health/nmanager.py:692-695 | one more volume is deleted exactly when its status is `available` or `error` |
| NManager.DeleteErrorsStep | fuel_health/nmanager.py:694-698 | deleting one more volume appends its error, if it raised one |
| NManager.DeleteVolumes | fuel_health/nmanager.py:691-701 | the loop deletes exactly the deletable volumes, in order, and collects their errors |
| NManager.WaitResult | fuel_health/nmanager.py:719-729 | the server returned is the first ready candidate within `tries` re-fetches, or the last one fetched |
| NManager.WaitReadyAtOnce | fuel_health/nmanager.py:721-725 | a server that is ready at the start is returned without any re-fetch |
| NManager.WaitServerParam | fuel_health/nmanager.py:719-729 | the re-fetch loop computes `WaitResult` |
| NManager.WaitStopsAt | fuel_health/nmanager.py:719-729 | when the first `k` candidates are not ready and the next is (or the tries are spent), the result is that candidate |
| NManager.VerificationOfExceptions | fuel_health/nmanager.py:469-480 | the check fails, with the fixed message, exactly when some recorded error is an `InternalServerError` or a `ClientException` |
| NManager.TeardownVerdict | fuel_health/nmanager.py:179-221 | teardown errors make the check fail only if a delete or probe of an SDK object itself raised one of those classes; dict resources never do |
| NManager.TeardownErrorNotApiDown | fuel_health/nmanager.py:188-221 | under the same conditions, no single teardown error is one of the two API failures |
| NManager.TeardownLogFrom | fuel_health/nmanager.py:188-221 | every logged teardown error is the `AttributeError` of a dict, a delete error, or a probe error of one of the resources |
| NManager.ProbeErrorFrom | fuel_health/nmanager.py:209-217 | every recorded probe error was raised by a probe |
| NManager.GetImageFromName | fuel_health/nmanager.py:490-502 | `ImageFault` is raised exactly for an empty list; otherwise the id of the first image whose trimmed lower-cased name matches, or `None` exactly when none matches |
| NManager.ImageLookupIgnoresPadding | fuel_health/nmanager.py:499 | padding around the configured name does not change the lookup |
| NManager.ImageLookupIgnoresCase | fuel_health/nmanager.py:499 | configured names that differ only in letter case, once trimmed, find the same image |
| NManager.SshTimeoutFloor | fuel_health/nmanager.py:427 | the timeout used is at least 30 and at least the configured one, and is one of the two |
| HeatManager.HeatClient | fuel_health/heatmanager.py:45-63 | the identity check runs first; there is no client exactly when no service has type `orchestration`; falsy arguments default to the configured admin values |
| HeatManager.FindStack | fuel_health/heatmanager.py:147-151 | the first listed stack whose attribute `key` equals `value`, and none exactly when there is no such stack |
| HeatManager.Params.constructor | fuel_health/heatmanager.py:153 | the dict holds the given entries |
| HeatManager.WithDefaults | fuel_health/heatmanager.py:160-163 | `InstanceType` and `ImageId` are added only where absent, and the caller's entries are unchanged |
| HeatManager.DefaultsStick | fuel_health/heatmanager.py:153-163 | a dict filled once keeps its values on every later fill |
| HeatManager.CleanTargetsExact | fuel_health/heatmanager.py:131-133 | exactly the listed stacks that were recorded and are `CREATE_COMPLETE` or `ERROR` |
| HeatManager.Ids | fuel_health/heatmanager.py:135 | the ids of the stacks, in order |
| HeatManager.DeleteFailures | fuel_health/heatmanager.py:134-138 | at most one error per stack deleted |
| HeatManager.CleanStep | fuel_health/heatmanager.py:131-138 | one more listed stack extends the targets, the ids and the errors by that stack alone |
| HeatManager.HeatTest.constructor | fuel_health/heatmanager.py:106-110 | no stack recorded and no flavor yet |
| HeatManager.HeatTest.PrepareStackResources | fuel_health/heatmanager.py:143-145 | the nano flavor is obtained only when none is held, so it is created at most once |
| HeatManager.HeatTest.CreateStack | fuel_health/heatmanager.py:153-173 | the default template when none is given; the caller's dict gains the defaults in place; the name is recorded only when the follow-up lookup finds the stack; `AttributeError` when the flavor name is needed and there is no flavor |
| HeatManager.HeatTest.CleanStacks | fuel_health/heatmanager.py:126-138 | deletes exactly the targets, in listing order, and appends their delete errors |
| HeatManager.DeleteStacks | fuel_health/heatmanager.py:131-138 | the loop computes the targets' ids and their delete errors |
| HeatManager.CheckStatus | fuel_health/heatmanager.py:194-203 | `ERROR` fails even when it is the expected status; the expected status succeeds; anything else keeps waiting |
| HeatManager.WaitForStackStatus | fuel_health/heatmanager.py:187-209 | the first decisive reading decides; no decisive reading before the deadline times out |
| HeatManager.WaitForErrorFails | fuel_health/heatmanager.py:197-200 | waiting for the status `ERROR` never succeeds |
| HeatManager.Haproxy | fuel_health/heatmanager.py:218-261 | no controller fails at once; the client gets a timeout of at least 30 and the fixed key; at most 11 runs |
| HeatManager.HaproxyToleratesFailures | fuel_health/heatmanager.py:239-255 | up to ten command failures are tolerated, and the next successful run decides whether "active (running)" appears |
| HeatManager.HaproxyFailsOnEleventh | fuel_health/heatmanager.py:250-257 | the eleventh command failure in a row fails the check after 11 runs |
| HeatManager.HaproxyOtherErrorFails | fuel_health/heatmanager.py:259-261 | any other exception fails at once with "Connection failed." |
| HeatManager.HaproxyFirstDecisive | fuel_health/heatmanager.py:240-261 | the deciding run is the first that is not a command failure |
| HeatManager.IsHaproxyActiveOnVm | fuel_health/heatmanager.py:218-261 | the `while True` loop with its attempt counter computes `Haproxy` |
| NetworkConfiguration.Step | fuel_health/netork_configuration.py:35-48 | a network of another name is skipped; a non-/24 one is skipped; fewer than three address fields raise `IndexError`; otherwise the file is named after the VLAN and holds the seven lines with the `.253` address |
| NetworkConfiguration.Slash24EndsIn24 | fuel_health/netork_configuration.py:41 | an accepted CIDR ends in "24" |
| NetworkConfiguration.AddressFields | fuel_health/netork_configuration.py:42 | the address keeps the first three CIDR fields and ends in 253 |
| NetworkConfiguration.ContentLines | fuel_health/netork_configuration.py:46 | the file is exactly the seven lines, each ended by a newline |
| NetworkConfiguration.PrefixedHasNo | fuel_health/netork_configuration.py:46 | a fixed prefix and a newline-free value make a newline-free line |
| NetworkConfiguration.FileNamesDistinct | fuel_health/netork_configuration.py:44 | distinct VLAN ids give distinct file names |
| NetworkConfiguration.NetworksOfAppend | fuel_health/netork_configuration.py:32-34 | the networks visited for two stretches of entries are visited one after the other |
| NetworkConfiguration.PlanFilesFromSteps | fuel_health/netork_configuration.py:32-48 | every file written comes from a visited network, at most one per network |
| NetworkConfiguration.PlanStopsAtFailure | fuel_health/netork_configuration.py:42 | after an `IndexError` nothing more is visited or written |
| NetworkConfiguration.PlanOnlyMatching | fuel_health/netork_configuration.py:35-41 | networks of other names and non-/24 networks write nothing |
| NetworkConfiguration.Names | fuel_health/netork_configuration.py:48 | the recorded names are the written files' names, in order |
| NetworkConfiguration.WrittenKeys | fuel_health/netork_configuration.py:44-47 | the files afterwards are the old ones plus every name written |
| NetworkConfiguration.WrittenUntouched | fuel_health/netork_configuration.py:44-47 | a file that no write names keeps its content |
| NetworkConfiguration.WrittenLast | fuel_health/netork_configuration.py:44-47 | a name written several times holds the content of its last write |
| NetworkConfiguration.FailureIsFinal | fuel_health/netork_configuration.py:32-42 | a traversal that fails within an entry ends there |
| NetworkConfiguration.Visit | fuel_health/netork_configuration.py:34-48 | visiting one more network takes exactly that network's step |
| NetworkConfiguration.PlanNetworks | fuel_health/netork_configuration.py:34-48 | the inner loop continues the traversal over one entry's networks |
| NetworkConfiguration.PlanVlans | fuel_health/netork_configuration.py:31-48 | the nested loops compute the traversal of every non-empty entry's networks |
| NetworkConfiguration.DeleteCommandAsWrittenHasNoOperand | fuel_health/netork_configuration.py:107 | as written the command has no file operand: `rm` and one option cluster that swallows the name |
| NetworkConfiguration.DeleteCommandText | fuel_health/netork_configuration.py:107 | the corrected command is the one the script builds with the space restored: `rm -rf ` then the name |
| NetworkConfiguration.DeleteCommandWords | fuel_health/netork_configuration.py:107 | the corrected command is `rm`, `-rf` and the name |
| NetworkConfiguration.FileNameHasNoSpace | fuel_health/netork_configuration.py:44 | file names hold no space, so each is a single shell word |
| NetworkConfiguration.VlanScript.constructor | fuel_health/netork_configuration.py:9-11 | the script starts with no ids, one empty settings entry and no recorded names |
| NetworkConfiguration.VlanScript.GetClusters | fuel_health/netork_configuration.py:14-19 | every cluster id is appended in response order and the list is returned |
| NetworkConfiguration.VlanScript.GetClusterData | fuel_health/netork_configuration.py:22-28 | only the first recorded cluster's configuration is requested, from its URL, and appended; with no cluster nothing is fetched |
| NetworkConfiguration.VlanScript.CreateVlans | fuel_health/netork_configuration.py:31-88 | the files written and the names recorded are exactly the traversal's, in order; an `IndexError` keeps what was written before it |
| NetworkConfiguration.VlanScript.WriteFile | fuel_health/netork_configuration.py:45-48 | one file written and its name recorded |
| NetworkConfiguration.VlanScript.DeleteCreatedVlans | fuel_health/netork_configuration.py:104-109 | one delete command per recorded name, in order |

## Left out

- Sockets, paramiko transports and channels, `select` and the clock are not modelled. They are replaced by the traces described above.
- Real sleeping is not modelled. The sleeps are recorded as values only.
- Key parsing (`RSAKey.from_private_key`) is an uninterpreted constructor of the key datatype.
- `_get_key_from_file` shells out with `os.popen` and reads a file, so it is not modelled.
- The backoff values 1.5 and 1.01 are exact reals. Floating-point rounding is not modelled.
- Ssh.CommandOutcome: a nonzero exit status raises `SSHExecCommandFailed` with the corrected diagnostic `Ssh.StrError` (stderr, then stdout), not the `''.join(err_data).join(out_data)` that `fuel_health/common/ssh.py:157` builds. The as-written text is `Ssh.StrErrorAsWritten`; it differs only when stderr is non-empty (`Ssh.StrErrorAsWrittenWithoutStderr`). `Ssh.CommandOutcomeAt`, `Ssh.ExecCommandOn`, `Ssh.ExecCommandOutcome`, `Ssh.ExecCommand` and `Ssh.ExecOnVm` carry the same corrected payload.
- Ssh.CommandOutcomeAt: states the corrected payload, as `Ssh.CommandOutcome` does.
- Ssh.ExecCommandOn: the loop builds the corrected payload, as `Ssh.CommandOutcome` does.
- SDK client construction (`novaclient`, `glanceclient`, `keystoneclient`, `cinderclient`, `heatclient`) is not modelled. Only the credential checks before it are.
- The volume client in `_get_volume_client` is not modelled, because it has no check.
- `rand_name` is not modelled. Names are parameters.
- `fuel_health.test.call_until_true` is not part of this model. Its timing is not modelled.
- `NManager.Fixture.TearDownClass`: the deletion wait is the probe results read within its ten-second window, without the timing.
- `HeatManager.WaitForStackStatus`: the status wait is the statuses read before the deadline, without the timing.
- Logging is not modelled. It has no effect on results.
- `HeatBaseTest.tearDownClass` is not a member of its own. It is the composition of `HeatManager.HeatTest.CleanStacks` with `NManager.Fixture.TearDownClass`, whose error list starts empty, so the stack errors are discarded.
- `setUp`, `update_stack`, `wait_for_stack_deleted`, `list_stacks` and `load_template` are test-framework glue or file I/O, not the modelled rules.
- In the VLAN script, HTTP requests, `os.chdir` and the `open`/`write` of files are not modelled. The files written are a map from name to content.
- `Popen` (the network restart, reading `/proc/net/vlan/config`, running `rm`) and `print` are not modelled. The delete commands are returned, not run.
- The module-level statements that run at import are not modelled.
- A configuration entry that is a non-empty dict without `networks` would raise `KeyError`. The model's entries always carry their networks.
- NetworkConfiguration.VlanScript.DeleteCreatedVlans: returns the corrected command `rm -rf <name>` (`NetworkConfiguration.DeleteCommand`), not the `'rm -rf' + vlan` of `fuel_health/netork_configuration.py:107`, which names no file. The as-written text is `NetworkConfiguration.DeleteCommandAsWritten`.
- NManager.WaitServerParam: `tries` is a natural number. With a negative `tries`, `while tries:` in `fuel_health/nmanager.py:721` never reaches zero and keeps polling until the server is ready; that run is not modelled.
- `strip` and `lower` are modelled on ASCII only: ASCII whitespace and ASCII letters. Image names come from the image service's JSON as `unicode`, whose `strip()` and `lower()` also handle Unicode whitespace and letters. That wider behaviour is not modelled.
- `HeatManager.HeatTest` follows the state seen through one test instance. The flavor is an instance attribute, so instances do not share it.

## Findings

| source | as written | input that shows it | evidently intended | confidence | as-written member | corrected member |
|---|---|---|---|---|---|---|
| fuel_health/common/ssh.py:157 | `strerror=''.join(err_data).join(out_data)` joins the stdout chunks using the stderr text as separator | stderr chunk `"denied"` with no stdout chunk gives `""`; with stdout chunk `"partial"` it gives `"partial"` | the stderr content, followed by the stdout content | medium, not executed | Ssh.StrErrorAsWrittenLosesStderr | Ssh.StrError |
| fuel_health/netork_configuration.py:107 | `'rm -rf' + vlan` puts no space before the file name | name `ifcfg-eth0.100` gives `rm -rfifcfg-eth0.100`, one option cluster and no file operand | `rm -rf <name>`, removing the file | high, not executed | NetworkConfiguration.DeleteCommandAsWrittenHasNoOperand | NetworkConfiguration.DeleteCommandWords |
