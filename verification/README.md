# OpsWorks rolling deploy, modelled in Dafny

This project models the orchestration core of `OpsworksInteractor`
(`lib/opsworks_interactor.rb`), which performs a rolling deploy of an
OpsWorks application. A rolling deploy takes the layer's instances one at a
time and does four things to each:

1. It detaches the instance from every Elastic Load Balancer (ELB) it can
   safely leave.
2. It deploys the application to that instance alone.
3. It reattaches the instance to exactly those balancers, in a cleanup that
   runs whether the deploy succeeded or raised.
4. It stops after the first instance that fails.

The whole run optionally sits inside a Redis-backed deploy semaphore.

The AWS clients are replaced by state and by an oracle:

- The ELB service is an abstract *membership table*: a map from balancer
  name to the EC2 ids registered with it. The constant `lbNames` gives the
  order in which the service lists the balancers. Deregistering an instance
  removes it from a balancer's list. Registering it adds it if absent,
  because ELB lists an instance once.
- The calls to the outside world that return are appended to a *trace* of
  events: each balancer listing, deregister, register, wait confirmation
  and deployment creation, each lock step, and the start and end markers of
  each instance's iteration. Two kinds of call leave no event. The wait for
  a deployment to finish is recorded only through the deploy's result. A
  call that raises is not recorded, and it has no effect.
- What the external services do for one instance is supplied as an
  `InstanceScenario`. Its first part, a `DetachFault`, says which call of
  the detach raises, if any: the balancer listing, the deregister call for
  the balancer at a given position of the instance's drain set, or the wait
  for that deregistration. Its second part says whether the deployment job
  succeeds, reports failure, or times out. Whether the semaphore was
  obtained is supplied as a boolean.

Modules:

- `DeployTypes` holds the descriptors, the errors and the constants:
  - `DEPLOY_WAIT_TIMEOUT` = 600 seconds;
  - the default deploy timeout of 30 minutes, 1800 seconds.
- `Selection` holds the argument guard (`check_arguments`) and the
  safe-detach filter (`detach_from`) as pure functions. Ruby's `is_a?` checks
  become descriptor datatypes: `InstanceArg`, `DescriptionArg`,
  `CollectionArg`.
- `Membership` holds the membership table and the pure specification of
  draining and restoring.
- `Rollout` holds the event vocabulary and the reference events of one
  instance's iteration (`InstanceEvents`). An iteration is summed up as a
  `Step`: its events, whether it fails and with which error, and the
  attachments it leaves removed. A whole run is defined over its steps
  (`RunEvents`, `RunOutcome`, `Stranded`, `EndTable`). The module also holds
  the run-level safety lemmas:
  - every drain is restored, except those a detach made before it raised;
  - no sole member is drained;
  - instances are handled in order, one at a time;
  - deployments are per instance;
  - the run stops at the first failure.
- `Interactor` holds the class `OpsworksInteractor`, whose fields are the
  membership table and the trace. Its methods are the source's loops and
  branches (`detach_from_elbs`, `attach_to_elbs`, `deploy`,
  `rolling_deploy_without_lock`, `rolling_deploy`/`with_deploy_lock`). Each
  method is proved against the `Membership` and `Rollout` specifications.

Modelling choices:

- Without locking, `with_deploy_lock` returns whatever the body returns.
  Here that is the `nil` of the final `log` call, modelled as
  `Success(false)`, while a locked run returns `true`.
- A detach that raises partway leaves the instance drained. In the source,
  `load_balancers` is assigned only when `detach_from_elbs` returns
  (lib/opsworks_interactor.rb:104). After a raise it is still `nil`, so the
  cleanup's `if load_balancers` (line 112) skips the reattach. The
  deregistrations made before the raise are therefore never undone. The run
  invariant states this exactly: the attachments removed are those added
  back, followed by those the raising detach had removed.
- The set of balancers is fixed for a whole run: the model neither creates
  nor deletes a balancer (`lbNames` is a constant, and draining and
  restoring keep the table's keys). The only failure of `attach_to_elbs`
  that is modelled is the service's error for an unknown balancer name.
  With the set fixed, the balancers the cleanup is given still exist, so in
  the model the reattach inside the rolling loop never fails.

## Model

| member | source | states |
|---|---|---|
| Selection.CheckArguments | lib/opsworks_interactor.rb:330-344 | The guard passes exactly when the instance is an instance struct and the collection is enumerable with every element a load-balancer description. The instance is checked first: its fault is reported whenever it is malformed. |
| Selection.ShouldDetach | lib/opsworks_interactor.rb:259-278 | A balancer is kept only if the instance is a member. A balancer whose only member is the instance is never kept. Every balancer with the instance and at least one other member is kept. |
| Selection.DetachFrom | lib/opsworks_interactor.rb:255-280 | A malformed instance or collection raises `ArgumentError` with the matching fault, before any selection. Otherwise the result holds exactly the given descriptions that pass the per-balancer decision. |
| Selection.SelectExact | lib/opsworks_interactor.rb:258-279 | A description is in the selection if and only if it is in the input and passes the decision: nothing is invented and nothing eligible is dropped. |
| Selection.SelectIsSubsequence | lib/opsworks_interactor.rb:258 | The `select` keeps input order: its result is a subsequence of the input. |
| Selection.SelectCounts | lib/opsworks_interactor.rb:258 | Each eligible description occurs in the selection as often as in the input. Each ineligible description does not occur at all. |
| Selection.SelectedKeepsAnotherMember | lib/opsworks_interactor.rb:263-266 | Every selected balancer whose members are listed once has a member other than the instance to carry its traffic. |
| Membership.Describe | lib/opsworks_interactor.rb:205-206 | Listing the balancers gives one description per balancer, in listing order, carrying its current members. |
| Membership.DrainSetIsSelection | lib/opsworks_interactor.rb:205-208 | The names drained from are the names of the descriptions that `detach_from` selects from the listing. |
| Membership.Without | lib/opsworks_interactor.rb:218-219 | A deregistration removes exactly the instance from the balancer's members. It keeps every other member and keeps the list duplicate-free. |
| Membership.Join | lib/opsworks_interactor.rb:311 | A registration adds the instance to the balancer's member set and nothing else, and keeps the list duplicate-free. |
| Membership.Drained | lib/opsworks_interactor.rb:212-229 | Draining from a set of balancers keeps the set of balancers. |
| Membership.Restored | lib/opsworks_interactor.rb:305-315 | Restoring to a set of balancers keeps the set of balancers. |
| Membership.KnownPrefix | lib/opsworks_interactor.rb:305-315 | The registrations that go through are exactly those before the first name the service does not know. |
| Membership.KnownPrefixOfKnownNames | lib/opsworks_interactor.rb:305-315 | When every name is a known balancer, every registration goes through. |
| Membership.DrainRestoreRoundTrip | lib/opsworks_interactor.rb:104-112 | Restoring the instance to every balancer it was drained from gives each balancer its original member set back. |
| Membership.DrainRestoreWellFormed | lib/opsworks_interactor.rb:212-229 | Draining and restoring keep the table well formed: the same balancers, each listing an instance at most once. |
| Membership.DrainSetDependsOnlyOnMembers | lib/opsworks_interactor.rb:258-279 | The drain decision depends only on each balancer's member set, not on the order of its members. |
| Membership.SameMembersSameDrainSet | lib/opsworks_interactor.rb:100-116 | After earlier instances were drained and restored, a later instance is drained from the same balancers as on the untouched starting table. |
| Membership.DrainSetMembers | lib/opsworks_interactor.rb:263-266 | Every balancer the instance is drained from exists, lists the instance, and has at least two members. |
| Membership.DrainKeepsCapacity | lib/opsworks_interactor.rb:263-266 | Draining the instance from any part of its drain set never empties a balancer that had members. |
| Membership.RecordedStep | lib/opsworks_interactor.rb:311-312 | One more registration records one more entry in the returned hash: the balancer's members, which now include the instance. |
| Rollout.DeploymentRequestFor | lib/opsworks_interactor.rb:50-61 | A deployment job names exactly one instance and carries the `deploy` command. |
| Rollout.Touched | lib/opsworks_interactor.rb:100-116 | A run touches the steps up to and including the first failing one: all before it pass, and every step is touched when none fails. |
| Rollout.SegmentDrains | lib/opsworks_interactor.rb:104-113 | An iteration deregisters the instance from its drain set in listing order, stopping before the call that raises. It deregisters from nothing when the listing raised, and from the whole drain set when the detach returned. |
| Rollout.SegmentRestores | lib/opsworks_interactor.rb:104-113 | An iteration registers the instance again with exactly its drain set when the detach returned, whatever the deploy did. It registers with nothing when the detach raised. |
| Rollout.SegmentBalance | lib/opsworks_interactor.rb:104-113 | An iteration removes the attachments it adds back, followed by those it leaves removed: none when the detach returned, and those made before the raise when it raised. |
| Rollout.SegmentMarkers | lib/opsworks_interactor.rb:101-115 | The only markers of an iteration are its own start marker and its own done marker, in that order. |
| Rollout.SegmentClosesAfterCleanup | lib/opsworks_interactor.rb:110-114 | An iteration begins with its start marker and ends with its done marker. Every registration of its cleanup comes before the done marker. |
| Rollout.SegmentDeployments | lib/opsworks_interactor.rb:104-109 | An iteration whose detach went through creates exactly one deployment job, for its own instance. One whose detach raised creates none. |
| Rollout.RunRestoresEveryDrain | lib/opsworks_interactor.rb:100-116 | Over a whole run, whatever each deploy does, the attachments removed are the attachments added back, in the same order. They are followed by those that the first failing instance's raising detach had removed, and by nothing when no detach raised. |
| Rollout.DrainSetIsSafe | lib/opsworks_interactor.rb:263-266 | Every attachment in a drain set is safe: the balancer lists the instance and another member. |
| Rollout.SegmentDrainsSafely | lib/opsworks_interactor.rb:104 | Every deregistration of an iteration is safe. |
| Rollout.RunNeverDrainsSoleMember | lib/opsworks_interactor.rb:100-116 | Every deregistration in a run removes an instance that was not its balancer's only member at the start of the run. |
| Rollout.RunHandlesInstancesInOrder | lib/opsworks_interactor.rb:100-116 | The start and done markers of a run are the touched instances in listing order, each opened and closed before the next is opened. |
| Rollout.RunDeploysOnlyLayerInstances | lib/opsworks_interactor.rb:104-109 | Every deployment job a run creates is scoped to one of the layer's instances. |
| Rollout.RunStopsAtFirstFailure | lib/opsworks_interactor.rb:100-116 | If step k is the first to fail, the run's events are those of steps 0..k alone. |
| Rollout.RunReportsFirstFailure | lib/opsworks_interactor.rb:100-116 | If step k is the first to fail, the run fails with step k's error. |
| Rollout.RunStrandsOnlyTheFailingDrain | lib/opsworks_interactor.rb:100-116 | If step k is the first to fail, the run leaves removed exactly what step k leaves removed, and ends with the membership that step k leaves. |
| Rollout.RunSucceedsWhenNothingFails | lib/opsworks_interactor.rb:100-118 | A run succeeds if and only if no step fails. A successful run leaves nothing removed and ends with its starting membership. |
| Rollout.StepsOfRun | lib/opsworks_interactor.rb:100-116 | Step k of a run is instance k's iteration on the run's starting membership. It fails exactly when its detach raises or its deploy does not succeed, with that failure's error. A raising detach leaves removed the attachments it made, and the run then ends with the starting membership less those. A detach that returned leaves nothing removed. |
| Rollout.RunStep | lib/opsworks_interactor.rb:100-116 | What remains of a run at step i is that step's events, followed, if the step passed, by the rest of the run. The same holds for the run's result and for the membership it ends with. |
| Interactor.LockModeOf | lib/opsworks_interactor.rb:145-167 | The three branches of the lock wrapper: no semaphore library, no Redis configuration, or a lock attempt, which happens exactly when both are present. |
| Interactor.OpsworksInteractor.constructor | lib/opsworks_interactor.rb:16-34 | The interactor starts with the given lock configuration and membership table and an empty trace. |
| Interactor.OpsworksInteractor.DetachFromElbs | lib/opsworks_interactor.rb:200-243 | A malformed instance raises before any call. Otherwise the result is the selection, or `LoadBalancerServiceError` when one of the listing, deregister or wait calls raises. The calls that return are recorded in order, all deregistrations before any wait. A raising call stops the detach and has no effect, but the deregistrations made before it stay. No wait follows a raising deregistration. An empty selection makes no deregister or wait calls. No balancer with members is emptied. |
| Interactor.OpsworksInteractor.DeregisterEach | lib/opsworks_interactor.rb:212-229 | One deregister call per selected balancer, in order, each removing the instance, up to the call that raises. The loop fails exactly when a call raises. |
| Interactor.OpsworksInteractor.AwaitDeregistered | lib/opsworks_interactor.rb:231-240 | One deregistration confirmation per balancer, in order, up to the wait that raises, with membership unchanged. The loop fails exactly when a wait raises. |
| Interactor.OpsworksInteractor.AttachToElbs | lib/opsworks_interactor.rb:294-327 | Malformed arguments raise before any call, and an empty list returns `{}` without calls. Otherwise the instance is registered once per balancer. The result's keys are exactly the balancer names, each mapped to members that include the instance. All registrations come before the in-service waits. An unknown name raises `LoadBalancerNotFound` after the registrations before it. |
| Interactor.OpsworksInteractor.RegisterAndAwait | lib/opsworks_interactor.rb:302-326 | Once the arguments pass: one registration per balancer, then one in-service wait per balancer. The result maps exactly the balancer names to members that include the instance. An unknown name raises `LoadBalancerNotFound` after the registrations before it, with no wait. |
| Interactor.OpsworksInteractor.RegisterEach | lib/opsworks_interactor.rb:305-315 | The registration loop: each call restores one balancer and records its result. The loop stops at the first unknown name. |
| Interactor.OpsworksInteractor.Register | lib/opsworks_interactor.rb:311 | One register call: an unknown balancer raises with nothing changed. Otherwise the instance is added to that balancer alone. |
| Interactor.OpsworksInteractor.AwaitInService | lib/opsworks_interactor.rb:319-324 | One in-service confirmation per balancer, in order, with membership unchanged. |
| Interactor.OpsworksInteractor.Deploy | lib/opsworks_interactor.rb:50-70 | Creates one deployment job for this instance alone, with the deploy-and-migrate command. It succeeds exactly when the job succeeds. A reported failure and a timeout are distinct errors, and the timeout carries its budget. |
| Interactor.OpsworksInteractor.Reattach | lib/opsworks_interactor.rb:112 | The cleanup registers the instance with every balancer it was drained from, then waits for each. |
| Interactor.OpsworksInteractor.DeployOneInstance | lib/opsworks_interactor.rb:100-116 | One iteration leaves each balancer with its member set from before the iteration, less the attachments a raising detach had made. Its trace is exactly the instance's reference events: detach, deploy, then reattach to exactly the drained balancers whatever the deploy did. A raising detach gets no deploy and no reattach. The iteration fails exactly when its detach raises or its deploy does not succeed, with that failure's error. |
| Interactor.OpsworksInteractor.RollingDeployWithoutLock | lib/opsworks_interactor.rb:95-119 | The loop's trace is the listing followed by the reference run's events, and its result is the reference run's result. Every balancer ends with the member set of the run's `EndTable`: the starting one, less what the first failing instance's raising detach had removed. |
| Interactor.OpsworksInteractor.RollingDeploy | lib/opsworks_interactor.rb:145-186 | Without the semaphore library or a Redis configuration, the body runs once, unlocked, and returns false. With both, a refused lock raises `DeployLockError(600)` and the body never runs. A granted lock runs the body once, then releases the lock and returns true, or the body's error. |

## Left out

- Construction of the AWS clients, credentials and region selection
  (lib/opsworks_interactor.rb:16-34). They are configuration of foreign SDK
  clients. The constructor takes the lock configuration and the membership
  table instead.
- `wait_until_deploy_completion`, the `Timeout::timeout` wrapper and the
  waiter's polling (lib/opsworks_interactor.rb:75-86). They depend on the
  wall clock and on remote polling. A deployment's end is an oracle outcome
  (`Succeeded`, `ReportedFailure`, `TimedOut`).
- The mutual exclusion that Redis::Semaphore provides across processes
  (lib/opsworks_interactor.rb:168-177). It is concurrency between processes;
  only whether the lock was granted within 600 seconds is modelled, as a
  boolean.
- The `defined?(Redis::Semaphore)` probe and the rescued `require`
  (lib/opsworks_interactor.rb:4-8, 146). They are a runtime library check,
  modelled as a boolean capability flag.
- Log text and `log`/`puts`. This is output formatting; only phase markers
  appear in the trace.
- The remote deployment job's own state machine and the real ELB health
  checks. They are external services: an ELB wait that returns records one
  confirmation event, and the deployment wait records none.
- `describe_instances`. The layer's instances, in listing order, are a
  parameter of the run.
- Transport failures during the reattach: a register call or an in-service
  wait of `attach_to_elbs` that raises for any reason other than an unknown
  balancer name (lib/opsworks_interactor.rb:311, 321). They are not modelled.
  In the source such a raise would leave the instance unregistered from the
  remaining balancers. Because it is raised inside the `ensure` block, it
  would also replace the deploy's own error. The same holds for a balancer
  deleted between the listing (lib/opsworks_interactor.rb:205) and the
  cleanup, for instance while the deploy waits up to 30 minutes. Its
  registration in the cleanup (line 112) would raise `LoadBalancerNotFound`,
  skip the remaining registrations and waits, and replace the deploy's
  error. The model keeps the set of balancers fixed, so this path is not
  modelled. The detach's calls (listing, deregister, wait) are all
  modelled as able to raise.
- A raising `create_deployment` (lib/opsworks_interactor.rb:51). A deploy
  ends only as `Succeeded`, `ReportedFailure` or `TimedOut`, and a deployment
  job is always recorded. In the source a raise here would skip the job but
  still run the reattach, like a failed deploy.
- The deployment id and the full response objects: `deploy` returns the
  request it sent, and `register_instances_with_load_balancer` returns the
  balancer's member list.
- Interactor.OpsworksInteractor.DeployOneInstance: states each balancer's
  member *set*, not its member order. After a restore, ELB may list the
  instance at a different position. The same holds for
  `RollingDeployWithoutLock` and `RollingDeploy`.
- Interactor.OpsworksInteractor.RollingDeploy: the `nil` that the unlocked
  branches return is modelled as `Success(false)`.
