/** The orchestrator object: it holds the load-balancing service's
    membership table and the trace of every call it makes, and runs the
    drain, deploy and restore steps of a rolling deploy against them. */
module Interactor {
  import opened DeployTypes
  import opened Selection
  import opened Membership
  import opened Rollout

  /** Whether the deploy semaphore guards a run. */
  datatype LockMode = Unlocked(reason: LockSkip) | Semaphore

  /** The branches of the lock wrapper: no semaphore library, no Redis
      configuration, or an attempt to take the lock. */
  function LockModeOf(semaphoreLoaded: bool, redis: Option<RedisConfig>): (mode: LockMode)
    ensures mode.Semaphore? <==> semaphoreLoaded && redis.Some?
    ensures !semaphoreLoaded ==> mode == Unlocked(NoSemaphoreLibrary)
    ensures semaphoreLoaded && redis.None? ==> mode == Unlocked(NoRedisConfig)
  {
    if !semaphoreLoaded then Unlocked(NoSemaphoreLibrary)
    else if redis.None? then Unlocked(NoRedisConfig)
    else Semaphore
  }

  class OpsworksInteractor {
    /** The semaphore library could be loaded. */
    const semaphoreLoaded: bool
    /** Where the semaphore's Redis server is, if locking is configured. */
    const redis: Option<RedisConfig>
    /** The load balancers in the order the service lists them. */
    const lbNames: seq<Id>
    /** Which instances each load balancer sends traffic to. */
    var membership: Table
    /** Every call made to the outside world, oldest first. */
    var trace: seq<Event>

    ghost predicate Valid()
      reads this
    {
      WellFormedTable(lbNames, membership)
    }

    constructor (semaphoreLoaded: bool, redis: Option<RedisConfig>, lbNames: seq<Id>, membership: Table)
      requires WellFormedTable(lbNames, membership)
      ensures Valid()
      ensures this.semaphoreLoaded == semaphoreLoaded && this.redis == redis
      ensures this.lbNames == lbNames && this.membership == membership && trace == []
    {
      this.semaphoreLoaded := semaphoreLoaded;
      this.redis := redis;
      this.lbNames := lbNames;
      this.membership := membership;
      trace := [];
    }

    /** detach_from_elbs: check the instance, list the balancers, deregister
        the instance from each safe balancer, then wait for every
        deregistration. Returns the balancers it was drained from. The call
        that raises, if any, is `fault`; the drains made before it stay. */
    method DetachFromElbs(instance: InstanceArg, fault: Option<DetachFault>) returns (r: Result<seq<LoadBalancer>>)
      requires Valid()
      modifies this
      ensures Valid()
      ensures !WellFormedInstance(instance) ==>
                r == Failure(ArgumentError(InstanceNotStruct))
                && membership == old(membership) && trace == old(trace)
      ensures WellFormedInstance(instance) ==>
                var e := instance.instance.ec2InstanceId;
                var ns := DrainSet(lbNames, old(membership), e);
                && r == (if DetachRaises(fault, |ns|) then Failure(LoadBalancerServiceError)
                         else Success(Select(Describe(lbNames, old(membership)), e)))
                && membership == Drained(old(membership), DrainedNames(fault, ns), e)
                && trace == old(trace) + DetachTrace(fault, ns, e)
      ensures forall n :: n in old(membership) && old(membership)[n] != [] ==> membership[n] != []
    {
      if !instance.InstanceStruct? {
        return Failure(ArgumentError(InstanceNotStruct));
      }
      var e := instance.instance.ec2InstanceId;
      if fault == Some(ListingRaises) {
        DrainedNothing(membership, e);
        return Failure(LoadBalancerServiceError);
      }
      var all := Describe(lbNames, membership);
      trace := trace + [LoadBalancersListed];
      AsArgumentRoundTrip(all);
      var selected := DetachFrom(AsArgument(all), instance);
      var lbs := selected.value;
      var waitParams := Names(lbs);
      ghost var made := DeregistrationsMade(fault, |waitParams|);
      DrainSetIsSelection(lbNames, old(membership), e);
      DrainSetMembers(lbNames, old(membership), e);
      DrainRestoreWellFormed(lbNames, old(membership), waitParams[..made], e);
      DrainKeepsCapacity(lbNames, old(membership), e, waitParams[..made]);
      var deregistered := DeregisterEach(waitParams, e, fault);
      AppendAssociative(old(trace), [LoadBalancersListed], Deregistrations(waitParams[..made], e));
      if deregistered.Failure? {
        return Failure(LoadBalancerServiceError);
      }
      assert waitParams[..made] == waitParams;
      var confirmed := AwaitDeregistered(waitParams, e, fault);
      ghost var returned := WaitsReturned(fault, |waitParams|);
      AppendAssociative(old(trace), [LoadBalancersListed] + Deregistrations(waitParams, e),
                        DeregistrationConfirmations(waitParams[..returned], e));
      if confirmed.Failure? {
        return Failure(LoadBalancerServiceError);
      }
      assert waitParams[..returned] == waitParams;
      return Success(lbs);
    }

    /** The deregistration loop of detach_from_elbs: one call per balancer,
        in order, until a call raises. */
    method DeregisterEach(ns: seq<Id>, e: Id, fault: Option<DetachFault>) returns (r: Result<()>)
      requires forall n :: n in ns ==> n in membership
      modifies this
      ensures var made := DeregistrationsMade(fault, |ns|);
              && membership == Drained(old(membership), ns[..made], e)
              && trace == old(trace) + Deregistrations(ns[..made], e)
              && (r.Success? <==> made == |ns|)
              && (r.Failure? ==> r.error == LoadBalancerServiceError)
    {
      ghost var made := DeregistrationsMade(fault, |ns|);
      var i := 0;
      while i < |ns|
        invariant 0 <= i <= made
        invariant membership == Drained(old(membership), ns[..i], e)
        invariant trace == old(trace) + Deregistrations(ns[..i], e)
      {
        if fault == Some(DeregisterRaises(i)) {
          return Failure(LoadBalancerServiceError);
        }
        assert i < made;
        assert ns[i] in ns;
        DrainedStep(old(membership), ns[..i], ns[i], e);
        DeregistrationsStep(ns, i, e);
        AppendAssociative(old(trace), Deregistrations(ns[..i], e), [Deregistered(ns[i], e)]);
        PrefixSnoc(ns, i);
        membership := membership[ns[i] := Without(membership[ns[i]], e)];
        trace := trace + [Deregistered(ns[i], e)];
        i := i + 1;
      }
      return Success(());
    }

    /** The waiting loop of detach_from_elbs: one confirmed deregistration
        per balancer, in order, until a wait raises. */
    method AwaitDeregistered(ns: seq<Id>, e: Id, fault: Option<DetachFault>) returns (r: Result<()>)
      modifies this
      ensures var returned := WaitsReturned(fault, |ns|);
              && membership == old(membership)
              && trace == old(trace) + DeregistrationConfirmations(ns[..returned], e)
              && (r.Success? <==> returned == |ns|)
              && (r.Failure? ==> r.error == LoadBalancerServiceError)
    {
      ghost var returned := WaitsReturned(fault, |ns|);
      var j := 0;
      while j < |ns|
        invariant 0 <= j <= returned
        invariant membership == old(membership)
        invariant trace == old(trace) + DeregistrationConfirmations(ns[..j], e)
      {
        if fault == Some(WaitRaises(j)) {
          return Failure(LoadBalancerServiceError);
        }
        assert j < returned;
        DeregistrationConfirmationsStep(ns, j, e);
        AppendAssociative(old(trace), DeregistrationConfirmations(ns[..j], e), [DeregistrationConfirmed(ns[j], e)]);
        trace := trace + [DeregistrationConfirmed(ns[j], e)];
        j := j + 1;
      }
      return Success(());
    }

    /** attach_to_elbs: check the arguments, then register the instance with
        every given balancer and wait until it is in service with each.
        Returns, per balancer name, the members after registration. */
    method AttachToElbs(instance: InstanceArg, lbs: CollectionArg) returns (r: Result<map<Id, seq<Id>>>)
      requires Valid()
      modifies this
      ensures Valid()
      ensures CheckArguments(instance, lbs).Some? ==>
                r == Failure(ArgumentError(CheckArguments(instance, lbs).value))
                && membership == old(membership) && trace == old(trace)
      ensures CheckArguments(instance, lbs).None? && lbs.items == [] ==>
                r == Success(map[]) && membership == old(membership) && trace == old(trace)
      ensures CheckArguments(instance, lbs).None? ==>
                var ns := Names(Descriptions(lbs.items));
                var e := instance.instance.ec2InstanceId;
                var k := KnownPrefix(ns, old(membership));
                && membership == Restored(old(membership), ns[..k], e)
                && (k == |ns| ==>
                      && r.Success?
                      && r.value.Keys == Elements(ns)
                      && (forall n :: n in r.value ==> r.value[n] == membership[n] && e in membership[n])
                      && trace == old(trace) + AttachEvents(ns, e))
                && (k < |ns| ==>
                      && r == Failure(LoadBalancerNotFound(ns[k]))
                      && trace == old(trace) + Registrations(ns[..k], e))
    {
      var fault := CheckArguments(instance, lbs);
      if fault.Some? {
        return Failure(ArgumentError(fault.value));
      }
      if |lbs.items| == 0 {
        return Success(map[]);
      }
      r := RegisterAndAwait(Names(Descriptions(lbs.items)), instance.instance.ec2InstanceId);
    }

    /** attach_to_elbs once its arguments are checked: register with every
        balancer, then wait until each lists the instance in service. */
    method RegisterAndAwait(ns: seq<Id>, e: Id) returns (r: Result<map<Id, seq<Id>>>)
      requires Valid()
      modifies this
      ensures Valid()
      ensures var k := KnownPrefix(ns, old(membership));
              && membership == Restored(old(membership), ns[..k], e)
              && (k == |ns| ==>
                    && r.Success?
                    && r.value.Keys == Elements(ns)
                    && (forall n :: n in r.value ==> r.value[n] == membership[n] && e in membership[n])
                    && trace == old(trace) + AttachEvents(ns, e))
              && (k < |ns| ==>
                    && r == Failure(LoadBalancerNotFound(ns[k]))
                    && trace == old(trace) + Registrations(ns[..k], e))
    {
      r := RegisterEach(ns, e);
      DrainRestoreWellFormed(lbNames, old(membership), ns[..KnownPrefix(ns, old(membership))], e);
      if r.Failure? {
        return r;
      }
      assert ns[..|ns|] == ns;
      AwaitInService(ns, e);
      AppendAssociative(old(trace), Registrations(ns, e), InServiceConfirmations(ns, e));
    }

    /** The registration loop of attach_to_elbs: one call per balancer, in
        order; a name the service does not know raises, leaving the earlier
        registrations in place. */
    method RegisterEach(ns: seq<Id>, e: Id) returns (r: Result<map<Id, seq<Id>>>)
      modifies this
      ensures var k := KnownPrefix(ns, old(membership));
              && membership == Restored(old(membership), ns[..k], e)
              && trace == old(trace) + Registrations(ns[..k], e)
              && (k == |ns| ==>
                    && r.Success?
                    && r.value.Keys == Elements(ns)
                    && (forall n :: n in r.value ==> r.value[n] == membership[n] && e in membership[n]))
              && (k < |ns| ==> r == Failure(LoadBalancerNotFound(ns[k])))
    {
      var registered: map<Id, seq<Id>> := map[];
      var i := 0;
      while i < |ns|
        invariant 0 <= i <= |ns|
        invariant forall j :: 0 <= j < i ==> ns[j] in old(membership)
        invariant membership == Restored(old(membership), ns[..i], e)
        invariant trace == old(trace) + Registrations(ns[..i], e)
        invariant Recorded(registered, membership, ns[..i], e)
      {
        ghost var current := membership;
        var joined := Register(ns[i], e);
        if joined.Failure? {
          assert KnownPrefix(ns, old(membership)) == i;
          return Failure(joined.error);
        }
        RestoredStep(old(membership), ns[..i], ns[i], e);
        RegistrationsStep(ns, i, e);
        AppendAssociative(old(trace), Registrations(ns[..i], e), [Registered(ns[i], e)]);
        PrefixSnoc(ns, i);
        RecordedStep(registered, membership, current, ns[..i], ns[i], e);
        registered := registered[ns[i] := joined.value];
        i := i + 1;
      }
      assert ns[..i] == ns;
      assert KnownPrefix(ns, old(membership)) == |ns|;
      return Success(registered);
    }

    /** register_instances_with_load_balancer for one balancer: the service
        raises for a name it does not know and otherwise lists the instance
        (once) among the balancer's members, which it returns. */
    method Register(n: Id, e: Id) returns (r: Result<seq<Id>>)
      modifies this
      ensures n !in old(membership) ==>
                r == Failure(LoadBalancerNotFound(n)) && membership == old(membership) && trace == old(trace)
      ensures n in old(membership) ==>
                && r == Success(Join(old(membership)[n], e))
                && membership == old(membership)[n := r.value]
                && trace == old(trace) + [Registered(n, e)]
    {
      if n !in membership {
        return Failure(LoadBalancerNotFound(n));
      }
      var joined := Join(membership[n], e);
      membership := membership[n := joined];
      trace := trace + [Registered(n, e)];
      return Success(joined);
    }

    /** The waiting loop of attach_to_elbs: the instance is confirmed in
        service with each balancer, in order. */
    method AwaitInService(ns: seq<Id>, e: Id)
      modifies this
      ensures membership == old(membership)
      ensures trace == old(trace) + InServiceConfirmations(ns, e)
    {
      var j := 0;
      while j < |ns|
        invariant 0 <= j <= |ns|
        invariant membership == old(membership)
        invariant trace == old(trace) + InServiceConfirmations(ns[..j], e)
      {
        InServiceConfirmationsStep(ns, j, e);
        AppendAssociative(old(trace), InServiceConfirmations(ns[..j], e), [InServiceConfirmed(ns[j], e)]);
        trace := trace + [InServiceConfirmed(ns[j], e)];
        j := j + 1;
      }
      assert ns[..j] == ns;
    }

    /** deploy: create a deployment job for this one instance and wait for
        it; the remote job's end is supplied as `outcome`. */
    method Deploy(stackId: Id, appId: Id, instanceId: Id, deployTimeout: nat, outcome: DeployOutcome)
      returns (r: Result<DeploymentRequest>)
      modifies this
      ensures membership == old(membership)
      ensures trace == old(trace) + [DeploymentCreated(DeploymentRequestFor(stackId, appId, instanceId))]
      ensures r.Success? <==> outcome == Succeeded
      ensures r.Success? ==> r.value.instanceIds == [instanceId] && r.value.command == DEPLOY_COMMAND
      ensures outcome == ReportedFailure ==> r == Failure(DeployFailed(instanceId))
      ensures outcome == TimedOut ==> r == Failure(DeployTimedOut(instanceId, deployTimeout))
    {
      var request := DeploymentRequest(stackId, appId, [instanceId], DEPLOY_COMMAND);
      trace := trace + [DeploymentCreated(request)];
      match outcome
      case Succeeded => r := Success(request);
      case ReportedFailure => r := Failure(DeployFailed(instanceId));
      case TimedOut => r := Failure(DeployTimedOut(instanceId, deployTimeout));
    }

    /** The cleanup of one iteration: attach_to_elbs with the balancers the
        instance was drained from, all of which still exist. */
    method Reattach(inst: Instance, lbs: seq<LoadBalancer>)
      requires Valid()
      requires forall n :: n in Names(lbs) ==> n in membership
      modifies this
      ensures Valid()
      ensures membership == Restored(old(membership), Names(lbs), inst.ec2InstanceId)
      ensures trace == old(trace) + AttachEvents(Names(lbs), inst.ec2InstanceId)
    {
      var ns := Names(lbs);
      AsArgumentRoundTrip(lbs);
      KnownPrefixOfKnownNames(ns, membership);
      var attached := AttachToElbs(InstanceStruct(inst), AsArgument(lbs));
      assert ns[..|ns|] == ns;
    }

    /** One iteration of the rolling loop: drain, deploy, and, in the cleanup
        that runs whether or not the deploy raised, restore the instance to
        exactly the balancers it was drained from. When the drain itself
        raised there is no deploy and no cleanup, so whatever the drain had
        already removed stays removed. */
    method DeployOneInstance(stackId: Id, appId: Id, inst: Instance, sc: InstanceScenario) returns (r: Result<()>)
      requires Valid()
      modifies this
      ensures Valid()
      ensures var ns := DrainSet(lbNames, old(membership), inst.ec2InstanceId);
              && SameMembers(membership, Drained(old(membership), LeftDrained(sc.detachFault, ns), inst.ec2InstanceId))
              && trace == old(trace) + InstanceEvents(inst, sc, ns, stackId, appId)
              && (r.Failure? <==> Fails(sc, |ns|))
              && (r.Failure? ==> r.error == ErrorOf(inst, sc, |ns|))
    {
      var e := inst.ec2InstanceId;
      ghost var ns := DrainSet(lbNames, old(membership), e);
      trace := trace + [InstanceStarted(inst.instanceId)];
      var lbs := DetachFromElbs(InstanceStruct(inst), sc.detachFault);
      if lbs.Failure? {
        r := Failure(lbs.error);
      } else {
        assert ns[..|ns|] == ns;
        var deployed := Deploy(stackId, appId, inst.instanceId, DEFAULT_DEPLOY_TIMEOUT, sc.deploy);
        // the cleanup, run whether or not the deploy raised
        DrainSetMembers(lbNames, old(membership), e);
        DrainSetIsSelection(lbNames, old(membership), e);
        Reattach(inst, lbs.value);
        DrainRestoreRoundTrip(old(membership), ns, e);
        DrainedNothing(old(membership), e);
        r := if deployed.Failure? then Failure(deployed.error) else Success(());
      }
      trace := trace + [InstanceDone(inst.instanceId)];
      InstanceEventsPieces(inst, sc, ns, stackId, appId);
      if lbs.Failure? {
        AppendThree(old(trace), [InstanceStarted(inst.instanceId)], DetachTrace(sc.detachFault, ns, e),
                    [InstanceDone(inst.instanceId)]);
      } else {
        AppendFive(old(trace), [InstanceStarted(inst.instanceId)], DetachEvents(ns, e),
                   [DeploymentCreated(DeploymentRequestFor(stackId, appId, inst.instanceId))],
                   AttachEvents(ns, e), [InstanceDone(inst.instanceId)]);
      }
    }

    /** rolling_deploy_without_lock: take the layer's instances in listing
        order, one at a time, and stop after the first failing instance's
        cleanup. */
    method RollingDeployWithoutLock(stackId: Id, layerId: Id, appId: Id,
                                    instances: seq<Instance>, scenarios: seq<InstanceScenario>)
      returns (r: Result<()>)
      requires Valid() && |scenarios| == |instances|
      modifies this
      ensures Valid()
      ensures var steps := Steps(RunContext(lbNames, old(membership), stackId, appId), instances, scenarios);
              && SameMembers(membership, EndTable(steps, old(membership)))
              && trace == old(trace) + [InstancesListed(layerId)] + RunEvents(steps, appId)
              && r == RunOutcome(steps)
    {
      ghost var ctx := RunContext(lbNames, old(membership), stackId, appId);
      ghost var steps := Steps(ctx, instances, scenarios);
      trace := trace + [InstancesListed(layerId)];
      ghost var start := trace;
      assert steps[0..] == steps;
      var i := 0;
      // what is still to be emitted, the result still to come and the
      // membership the run ends with are those of the reference run of the
      // steps not yet taken
      while i < |instances|
        invariant 0 <= i <= |instances|
        invariant Valid()
        invariant SameMembers(membership, old(membership))
        invariant trace + RunEvents(steps[i..], appId) == start + RunEvents(steps, appId)
        invariant RunOutcome(steps[i..]) == RunOutcome(steps)
        invariant EndTable(steps[i..], old(membership)) == EndTable(steps, old(membership))
      {
        var inst := instances[i];
        ghost var before, emitted := membership, trace;
        SameMembersSameDrainSet(lbNames, before, old(membership), inst.ec2InstanceId);
        var step := DeployOneInstance(stackId, appId, inst, scenarios[i]);
        ghost var left := LeftDrained(scenarios[i].detachFault, DrainSetOf(ctx, inst));
        DrainedKeepsSameMembers(before, old(membership), left, inst.ec2InstanceId);
        SameMembersTransitive(membership, Drained(before, left, inst.ec2InstanceId),
                              Drained(old(membership), left, inst.ec2InstanceId));
        assert steps[i] == StepOf(ctx, inst, scenarios[i]);
        RunStep(steps, appId, old(membership), i);
        if step.Failure? {
          return Failure(step.error);
        }
        DrainedNothing(old(membership), inst.ec2InstanceId);
        AppendAssociative(emitted, steps[i].events, RunEvents(steps[i + 1..], appId));
        i := i + 1;
      }
      assert steps[i..] == [];
      trace := trace + [RunSucceeded(appId)];
      return Success(());
    }

    /** rolling_deploy: the rolling loop inside with_deploy_lock. Without the
        semaphore library or without a Redis configuration the loop runs
        unguarded (the source returns nil, modelled as false); otherwise the
        lock is requested with a 600-second wait, and the loop runs only once
        it is held, releasing it on every exit, the result then being true. */
    method RollingDeploy(stackId: Id, layerId: Id, appId: Id,
                         instances: seq<Instance>, scenarios: seq<InstanceScenario>, lockAcquired: bool)
      returns (r: Result<bool>)
      requires Valid() && |scenarios| == |instances|
      modifies this
      ensures Valid()
      ensures var steps := Steps(RunContext(lbNames, old(membership), stackId, appId), instances, scenarios);
              var body := [InstancesListed(layerId)] + RunEvents(steps, appId);
              var outcome := RunOutcome(steps);
              match LockModeOf(semaphoreLoaded, redis)
              case Unlocked(reason) =>
                && trace == old(trace) + [LockSkipped(reason)] + body
                && SameMembers(membership, EndTable(steps, old(membership)))
                && r == (if outcome.Success? then Success(false) else Failure(outcome.error))
              case Semaphore =>
                if lockAcquired then
                  && trace == old(trace) + [LockRequested(DEPLOY_WAIT_TIMEOUT), LockAcquired] + body + [LockReleased]
                  && SameMembers(membership, EndTable(steps, old(membership)))
                  && r == (if outcome.Success? then Success(true) else Failure(outcome.error))
                else
                  && trace == old(trace) + [LockRequested(DEPLOY_WAIT_TIMEOUT)]
                  && membership == old(membership)
                  && r == Failure(DeployLockError(DEPLOY_WAIT_TIMEOUT))
    {
      var mode := LockModeOf(semaphoreLoaded, redis);
      ghost var run := RunEvents(Steps(RunContext(lbNames, old(membership), stackId, appId), instances, scenarios), appId);
      match mode
      case Unlocked(reason) =>
        trace := trace + [LockSkipped(reason)];
        ghost var skipped := trace;
        var outcome := RollingDeployWithoutLock(stackId, layerId, appId, instances, scenarios);
        AppendAssociative(skipped, [InstancesListed(layerId)], run);
        r := if outcome.Success? then Success(false) else Failure(outcome.error);
      case Semaphore =>
        trace := trace + [LockRequested(DEPLOY_WAIT_TIMEOUT)];
        if !lockAcquired {
          return Failure(DeployLockError(DEPLOY_WAIT_TIMEOUT));
        }
        trace := trace + [LockAcquired];
        ghost var acquired := trace;
        AppendAssociative(old(trace), [LockRequested(DEPLOY_WAIT_TIMEOUT)], [LockAcquired]);
        assert acquired == old(trace) + [LockRequested(DEPLOY_WAIT_TIMEOUT), LockAcquired];
        var outcome := RollingDeployWithoutLock(stackId, layerId, appId, instances, scenarios);
        AppendAssociative(acquired, [InstancesListed(layerId)], run);
        // the semaphore is released on every exit from the locked block
        trace := trace + [LockReleased];
        r := if outcome.Success? then Success(true) else Failure(outcome.error);
    }
  }
}
