/** The observable trace of a rolling deploy and the reference definition
    of the events a whole run produces, with the run's safety properties:
    every drain is restored unless a detach raises partway, sole members are
    never drained, instances are handled one at a time in listing order,
    and a failure stops the run right after that instance's cleanup. */
module Rollout {
  import opened DeployTypes
  import opened Selection
  import opened Membership

  /** One step the orchestrator takes against the outside world. */
  datatype Event =
    | LockSkipped(reason: LockSkip)
    | LockRequested(waitTimeout: nat)
    | LockAcquired
    | LockReleased
    | InstancesListed(layerId: Id)
    | InstanceStarted(instanceId: Id)
    | LoadBalancersListed
    | Deregistered(lbName: Id, ec2InstanceId: Id)
    | DeregistrationConfirmed(lbName: Id, ec2InstanceId: Id)
    | DeploymentCreated(request: DeploymentRequest)
    | Registered(lbName: Id, ec2InstanceId: Id)
    | InServiceConfirmed(lbName: Id, ec2InstanceId: Id)
    | InstanceDone(instanceId: Id)
    | RunSucceeded(appId: Id)

  /** An instance's membership of one load balancer. */
  datatype Attachment = Attachment(lbName: Id, ec2InstanceId: Id)

  /** The deployment job for one instance: deploy with migrations, scoped to
      that instance alone. */
  function DeploymentRequestFor(stackId: Id, appId: Id, instanceId: Id): (req: DeploymentRequest)
    ensures req.instanceIds == [instanceId] && req.command.name == "deploy"
  {
    DeploymentRequest(stackId, appId, [instanceId], DEPLOY_COMMAND)
  }

  function Deregistrations(ns: seq<Id>, e: Id): seq<Event>
  {
    seq(|ns|, k requires 0 <= k < |ns| => Deregistered(ns[k], e))
  }

  function DeregistrationConfirmations(ns: seq<Id>, e: Id): seq<Event>
  {
    seq(|ns|, k requires 0 <= k < |ns| => DeregistrationConfirmed(ns[k], e))
  }

  function Registrations(ns: seq<Id>, e: Id): seq<Event>
  {
    seq(|ns|, k requires 0 <= k < |ns| => Registered(ns[k], e))
  }

  function InServiceConfirmations(ns: seq<Id>, e: Id): seq<Event>
  {
    seq(|ns|, k requires 0 <= k < |ns| => InServiceConfirmed(ns[k], e))
  }

  /** detach_from_elbs after its argument check: list the balancers, issue
      every deregistration, then wait for each. */
  function DetachEvents(ns: seq<Id>, e: Id): seq<Event>
  {
    [LoadBalancersListed] + Deregistrations(ns, e) + DeregistrationConfirmations(ns, e)
  }

  /** attach_to_elbs: issue every registration, then wait for each. */
  function AttachEvents(ns: seq<Id>, e: Id): seq<Event>
  {
    Registrations(ns, e) + InServiceConfirmations(ns, e)
  }

  /** How many of a detach's `n` deregistration calls take effect: all of
      them, or those before the one that raises. */
  function DeregistrationsMade(f: Option<DetachFault>, n: nat): (k: nat)
    ensures k <= n
  {
    if f.Some? && f.value.DeregisterRaises? && f.value.at < n then f.value.at else n
  }

  /** How many of a detach's `n` deregistration waits return: all of them,
      or those before the one that raises. */
  function WaitsReturned(f: Option<DetachFault>, n: nat): (k: nat)
    ensures k <= n
  {
    if f.Some? && f.value.WaitRaises? && f.value.at < n then f.value.at else n
  }

  /** The detach of an instance whose drain set has `n` balancers raises. */
  predicate DetachRaises(f: Option<DetachFault>, n: nat)
  {
    f == Some(ListingRaises) || DeregistrationsMade(f, n) < n || WaitsReturned(f, n) < n
  }

  /** The balancers the detach has deregistered the instance from by the
      time it returns or raises. */
  function DrainedNames(f: Option<DetachFault>, ns: seq<Id>): seq<Id>
  {
    if f == Some(ListingRaises) then [] else ns[..DeregistrationsMade(f, |ns|)]
  }

  /** The balancers an iteration leaves the instance drained from: those a
      raising detach had already deregistered it from, since the cleanup
      only reattaches when the detach returned. */
  function LeftDrained(f: Option<DetachFault>, ns: seq<Id>): seq<Id>
  {
    if DetachRaises(f, |ns|) then DrainedNames(f, ns) else []
  }

  /** detach_from_elbs after its argument check: the listing, the
      deregistrations that took effect and, once they all did, the waits
      that returned. */
  function DetachTrace(f: Option<DetachFault>, ns: seq<Id>, e: Id): seq<Event>
  {
    if f == Some(ListingRaises) then []
    else if DeregistrationsMade(f, |ns|) < |ns| then
      [LoadBalancersListed] + Deregistrations(ns[..DeregistrationsMade(f, |ns|)], e)
    else if WaitsReturned(f, |ns|) < |ns| then
      [LoadBalancersListed] + Deregistrations(ns, e) + DeregistrationConfirmations(ns[..WaitsReturned(f, |ns|)], e)
    else DetachEvents(ns, e)
  }

  /** The instance's step ends the run: its detach raised, or its deploy
      did not succeed. */
  predicate Fails(sc: InstanceScenario, n: nat)
  {
    DetachRaises(sc.detachFault, n) || sc.deploy != Succeeded
  }

  /** The exception a failing step raises. */
  function ErrorOf(inst: Instance, sc: InstanceScenario, n: nat): DeployError
  {
    if DetachRaises(sc.detachFault, n) then LoadBalancerServiceError
    else if sc.deploy == ReportedFailure then DeployFailed(inst.instanceId)
    else DeployTimedOut(inst.instanceId, DEFAULT_DEPLOY_TIMEOUT)
  }

  /** The events between an iteration's start and done markers when the
      instance is drained from the balancers `ns`: when the detach raised,
      what it did before raising, and no deploy and no reattach; otherwise
      the reattach covers exactly `ns`, whatever the deploy did. */
  function IterationBody(inst: Instance, sc: InstanceScenario, ns: seq<Id>, stackId: Id, appId: Id): seq<Event>
  {
    var e := inst.ec2InstanceId;
    if DetachRaises(sc.detachFault, |ns|) then DetachTrace(sc.detachFault, ns, e)
    else DetachEvents(ns, e)
         + [DeploymentCreated(DeploymentRequestFor(stackId, appId, inst.instanceId))]
         + AttachEvents(ns, e)
  }

  /** The events of one instance's iteration. */
  function InstanceEvents(inst: Instance, sc: InstanceScenario, ns: seq<Id>, stackId: Id, appId: Id): seq<Event>
  {
    [InstanceStarted(inst.instanceId)] + IterationBody(inst, sc, ns, stackId, appId) + [InstanceDone(inst.instanceId)]
  }

  /** What a run is given: the balancer listing order and membership at its
      start, and the stack and app being deployed. */
  datatype RunContext = RunContext(names: seq<Id>, table: Table, stackId: Id, appId: Id)

  predicate ValidContext(ctx: RunContext)
  {
    forall n :: n in ctx.names ==> n in ctx.table
  }

  /** An instance's drain set, computed on the run's starting membership. */
  function DrainSetOf(ctx: RunContext, inst: Instance): seq<Id>
    requires ValidContext(ctx)
  {
    DrainSet(ctx.names, ctx.table, inst.ec2InstanceId)
  }

  /** One instance's iteration as the run sees it: the events it emits,
      whether it ends the run and with which error, the attachments it
      leaves removed, and the membership the run then ends with. */
  datatype Step = Step(events: seq<Event>, fails: bool, error: DeployError,
                       stranded: seq<Attachment>, endTable: Table)

  function StepOf(ctx: RunContext, inst: Instance, sc: InstanceScenario): Step
    requires ValidContext(ctx)
  {
    var ns := DrainSetOf(ctx, inst);
    var left := LeftDrained(sc.detachFault, ns);
    Step(InstanceEvents(inst, sc, ns, ctx.stackId, ctx.appId), Fails(sc, |ns|), ErrorOf(inst, sc, |ns|),
         Attachments(left, inst.ec2InstanceId), Drained(ctx.table, left, inst.ec2InstanceId))
  }

  /** The steps of a run's instances, in listing order. */
  function Steps(ctx: RunContext, insts: seq<Instance>, scs: seq<InstanceScenario>): seq<Step>
    requires ValidContext(ctx) && |scs| == |insts|
  {
    seq(|insts|, k requires 0 <= k < |insts| => StepOf(ctx, insts[k], scs[k]))
  }

  /** Reference definition of a run: each step's events in turn, stopping
      after the first failing step; success is reported at the end. */
  function RunEvents(steps: seq<Step>, appId: Id): seq<Event>
  {
    if steps == [] then [RunSucceeded(appId)]
    else steps[0].events + (if steps[0].fails then [] else RunEvents(steps[1..], appId))
  }

  /** Reference definition of a run's result: the error of the first failing
      step, or success. */
  function RunOutcome(steps: seq<Step>): Result<()>
  {
    if steps == [] then Success(())
    else if steps[0].fails then Failure(steps[0].error)
    else RunOutcome(steps[1..])
  }

  /** The attachments a run removes and never adds back: those the first
      failing step leaves removed. */
  function Stranded(steps: seq<Step>): seq<Attachment>
  {
    if steps == [] then []
    else if steps[0].fails then steps[0].stranded
    else Stranded(steps[1..])
  }

  /** The membership a run ends with, up to the order of each balancer's
      members: the one the first failing step leaves, or the starting one. */
  function EndTable(steps: seq<Step>, start: Table): Table
  {
    if steps == [] then start
    else if steps[0].fails then steps[0].endTable
    else EndTable(steps[1..], start)
  }

  /** How many instances a run touches: up to and including the first
      failing one. */
  function Touched(steps: seq<Step>): (t: nat)
    ensures t <= |steps|
    ensures steps != [] ==> 0 < t
    ensures forall k :: 0 <= k < t - 1 ==> !steps[k].fails
    ensures t < |steps| ==> steps[t - 1].fails
    ensures (forall k :: 0 <= k < |steps| ==> !steps[k].fails) ==> t == |steps|
  {
    if steps == [] then 0
    else if steps[0].fails then 1
    else 1 + Touched(steps[1..])
  }

  /** Keep from each event the part a projection selects. */
  function Project<U>(evs: seq<Event>, f: Event -> seq<U>): seq<U>
  {
    if evs == [] then [] else f(evs[0]) + Project(evs[1..], f)
  }

  function DrainOf(ev: Event): seq<Attachment>
  {
    if ev.Deregistered? then [Attachment(ev.lbName, ev.ec2InstanceId)] else []
  }

  function RestoreOf(ev: Event): seq<Attachment>
  {
    if ev.Registered? then [Attachment(ev.lbName, ev.ec2InstanceId)] else []
  }

  function MarkerOf(ev: Event): seq<Event>
  {
    if ev.InstanceStarted? || ev.InstanceDone? then [ev] else []
  }

  /** The attachments a trace removes, in order. */
  function Drains(evs: seq<Event>): seq<Attachment>
  {
    Project(evs, DrainOf)
  }

  /** The attachments a trace adds, in order. */
  function Restores(evs: seq<Event>): seq<Attachment>
  {
    Project(evs, RestoreOf)
  }

  /** The start and done markers of a trace. */
  function Markers(evs: seq<Event>): seq<Event>
  {
    Project(evs, MarkerOf)
  }

  function CreatedOf(ev: Event): seq<DeploymentRequest>
  {
    if ev.DeploymentCreated? then [ev.request] else []
  }

  /** The deployment jobs a trace creates, in order. */
  function Deployments(evs: seq<Event>): seq<DeploymentRequest>
  {
    Project(evs, CreatedOf)
  }

  function Attachments(ns: seq<Id>, e: Id): seq<Attachment>
  {
    seq(|ns|, k requires 0 <= k < |ns| => Attachment(ns[k], e))
  }

  /** Each instance opened and closed before the next is opened. */
  function Brackets(insts: seq<Instance>): seq<Event>
  {
    if insts == [] then []
    else [InstanceStarted(insts[0].instanceId), InstanceDone(insts[0].instanceId)] + Brackets(insts[1..])
  }

  lemma {:induction false} ProjectAppend<U>(a: seq<Event>, b: seq<Event>, f: Event -> seq<U>)
    ensures Project(a + b, f) == Project(a, f) + Project(b, f)
  {
    if a != [] {
      ProjectAppend(a[1..], b, f);
      assert (a + b)[0] == a[0];
      assert (a + b)[1..] == a[1..] + b;
    } else {
      assert a + b == b;
    }
  }

  lemma {:induction false} ProjectNone<U>(evs: seq<Event>, f: Event -> seq<U>)
    requires forall k :: 0 <= k < |evs| ==> f(evs[k]) == []
    ensures Project(evs, f) == []
  {
    if evs != [] {
      ProjectNone(evs[1..], f);
    }
  }

  lemma {:induction false} ProjectSingles<U>(evs: seq<Event>, f: Event -> seq<U>, out: seq<U>)
    requires |out| == |evs|
    requires forall k :: 0 <= k < |evs| ==> f(evs[k]) == [out[k]]
    ensures Project(evs, f) == out
  {
    if evs != [] {
      ProjectSingles(evs[1..], f, out[1..]);
      assert out == [out[0]] + out[1..];
    }
  }

  lemma ProjectSingleton<U>(ev: Event, f: Event -> seq<U>)
    ensures Project([ev], f) == f(ev)
  {
    assert [ev][1..] == [];
  }

  /** The events of an iteration whose detach went through, split into the
      parts before, during and after the balancer calls. */
  lemma {:induction false} ProjectIteration<U>(inst: Instance, ns: seq<Id>, stackId: Id, appId: Id, f: Event -> seq<U>,
                                               deregs: seq<U>, created: seq<U>, regs: seq<U>)
    requires f(LoadBalancersListed) == []
    requires f(DeploymentCreated(DeploymentRequestFor(stackId, appId, inst.instanceId))) == created
    requires Project(Deregistrations(ns, inst.ec2InstanceId), f) == deregs
    requires Project(DeregistrationConfirmations(ns, inst.ec2InstanceId), f) == []
    requires Project(Registrations(ns, inst.ec2InstanceId), f) == regs
    requires Project(InServiceConfirmations(ns, inst.ec2InstanceId), f) == []
    ensures Project(DetachEvents(ns, inst.ec2InstanceId)
                    + [DeploymentCreated(DeploymentRequestFor(stackId, appId, inst.instanceId))]
                    + AttachEvents(ns, inst.ec2InstanceId), f) == deregs + created + regs
  {
    var e := inst.ec2InstanceId;
    var listed := [LoadBalancersListed];
    var created := [DeploymentCreated(DeploymentRequestFor(stackId, appId, inst.instanceId))];
    var d1, d2 := Deregistrations(ns, e), DeregistrationConfirmations(ns, e);
    var a1, a2 := Registrations(ns, e), InServiceConfirmations(ns, e);
    ProjectSingleton(LoadBalancersListed, f);
    ProjectSingleton(created[0], f);
    ProjectAppend(listed, d1, f);
    ProjectAppend(listed + d1, d2, f);
    ProjectAppend(a1, a2, f);
    ProjectAppend(DetachEvents(ns, e), created, f);
    ProjectAppend(DetachEvents(ns, e) + created, AttachEvents(ns, e), f);
  }

  /** Wrapping an iteration's body in its start and done markers. */
  lemma ProjectWrapped<U>(inst: Instance, sc: InstanceScenario, ns: seq<Id>, stackId: Id, appId: Id, f: Event -> seq<U>)
    ensures Project(InstanceEvents(inst, sc, ns, stackId, appId), f) ==
            f(InstanceStarted(inst.instanceId))
            + Project(IterationBody(inst, sc, ns, stackId, appId), f)
            + f(InstanceDone(inst.instanceId))
  {
    var start, done := [InstanceStarted(inst.instanceId)], [InstanceDone(inst.instanceId)];
    var body := IterationBody(inst, sc, ns, stackId, appId);
    ProjectSingleton(start[0], f);
    ProjectSingleton(done[0], f);
    ProjectAppend(start, body, f);
    ProjectAppend(start + body, done, f);
  }

  /** What a detach emits, under a projection that ignores the listing and
      the waits: its deregistrations. */
  lemma ProjectDetachTrace<U>(fault: Option<DetachFault>, ns: seq<Id>, e: Id, f: Event -> seq<U>)
    requires f(LoadBalancersListed) == []
    requires forall k :: 0 <= k < |ns| ==> f(DeregistrationConfirmed(ns[k], e)) == []
    ensures Project(DetachTrace(fault, ns, e), f) == Project(Deregistrations(DrainedNames(fault, ns), e), f)
  {
    var d, w := DeregistrationsMade(fault, |ns|), WaitsReturned(fault, |ns|);
    if fault != Some(ListingRaises) {
      var listed := [LoadBalancersListed];
      ProjectSingleton(LoadBalancersListed, f);
      ProjectAppend(listed, Deregistrations(ns[..d], e), f);
      if d == |ns| {
        assert ns[..d] == ns;
        var c := DeregistrationConfirmations(ns[..w], e);
        assert DetachTrace(fault, ns, e) == listed + Deregistrations(ns, e) + c by {
          if w == |ns| {
            assert ns[..w] == ns;
          }
        }
        forall k | 0 <= k < |c|
          ensures f(c[k]) == []
        {
          assert c[k] == DeregistrationConfirmed(ns[k], e);
        }
        ProjectNone(c, f);
        ProjectAppend(listed + Deregistrations(ns, e), c, f);
      }
    }
  }

  /** What an iteration emits under a projection that ignores the listing
      and the waits: its start marker, the deregistrations its detach made
      and, when the detach went through, the deployment job and the
      registrations, then its done marker. */
  lemma ProjectInstance<U>(inst: Instance, sc: InstanceScenario, ns: seq<Id>, stackId: Id, appId: Id, f: Event -> seq<U>)
    requires f(LoadBalancersListed) == []
    requires forall l, x :: f(DeregistrationConfirmed(l, x)) == []
    requires forall l, x :: f(InServiceConfirmed(l, x)) == []
    ensures var e := inst.ec2InstanceId;
            Project(InstanceEvents(inst, sc, ns, stackId, appId), f) ==
            f(InstanceStarted(inst.instanceId))
            + (if DetachRaises(sc.detachFault, |ns|) then Project(Deregistrations(DrainedNames(sc.detachFault, ns), e), f)
               else Project(Deregistrations(ns, e), f)
                    + f(DeploymentCreated(DeploymentRequestFor(stackId, appId, inst.instanceId)))
                    + Project(Registrations(ns, e), f))
            + f(InstanceDone(inst.instanceId))
  {
    var e := inst.ec2InstanceId;
    ProjectWrapped(inst, sc, ns, stackId, appId, f);
    if DetachRaises(sc.detachFault, |ns|) {
      ProjectDetachTrace(sc.detachFault, ns, e, f);
    } else {
      assert DrainedNames(sc.detachFault, ns) == ns[..|ns|] == ns;
      ProjectNone(DeregistrationConfirmations(ns, e), f);
      ProjectNone(InServiceConfirmations(ns, e), f);
      ProjectIteration(inst, ns, stackId, appId, f, Project(Deregistrations(ns, e), f),
                       f(DeploymentCreated(DeploymentRequestFor(stackId, appId, inst.instanceId))),
                       Project(Registrations(ns, e), f));
    }
  }

  /** Balancer calls are neither markers nor deployment jobs. */
  lemma CallsAreQuiet(ns: seq<Id>, e: Id)
    ensures Markers(Deregistrations(ns, e)) == [] && Markers(Registrations(ns, e)) == []
    ensures Deployments(Deregistrations(ns, e)) == [] && Deployments(Registrations(ns, e)) == []
  {
    ProjectNone(Deregistrations(ns, e), MarkerOf);
    ProjectNone(Registrations(ns, e), MarkerOf);
    ProjectNone(Deregistrations(ns, e), CreatedOf);
    ProjectNone(Registrations(ns, e), CreatedOf);
  }

  /** The attachments an iteration removes: those of the balancers its
      detach deregistered the instance from, the whole drain set when the
      detach went through. */
  lemma SegmentDrains(inst: Instance, sc: InstanceScenario, ns: seq<Id>, stackId: Id, appId: Id)
    ensures Drains(InstanceEvents(inst, sc, ns, stackId, appId)) ==
            Attachments(DrainedNames(sc.detachFault, ns), inst.ec2InstanceId)
    ensures !DetachRaises(sc.detachFault, |ns|) ==> DrainedNames(sc.detachFault, ns) == ns
  {
    var e := inst.ec2InstanceId;
    var dn := DrainedNames(sc.detachFault, ns);
    ProjectInstance(inst, sc, ns, stackId, appId, DrainOf);
    ProjectSingles(Deregistrations(dn, e), DrainOf, Attachments(dn, e));
    if !DetachRaises(sc.detachFault, |ns|) {
      assert dn == ns[..|ns|] == ns;
      ProjectNone(Registrations(ns, e), DrainOf);
    }
  }

  /** The attachments an iteration adds back: those of its whole drain set
      when the detach went through, none when it raised. */
  lemma SegmentRestores(inst: Instance, sc: InstanceScenario, ns: seq<Id>, stackId: Id, appId: Id)
    ensures Restores(InstanceEvents(inst, sc, ns, stackId, appId)) ==
            (if DetachRaises(sc.detachFault, |ns|) then [] else Attachments(ns, inst.ec2InstanceId))
  {
    var e := inst.ec2InstanceId;
    ProjectInstance(inst, sc, ns, stackId, appId, RestoreOf);
    ProjectNone(Deregistrations(DrainedNames(sc.detachFault, ns), e), RestoreOf);
    ProjectNone(Deregistrations(ns, e), RestoreOf);
    ProjectSingles(Registrations(ns, e), RestoreOf, Attachments(ns, e));
  }

  /** An iteration removes what it adds back plus what it leaves drained. */
  lemma SegmentBalance(inst: Instance, sc: InstanceScenario, ns: seq<Id>, stackId: Id, appId: Id)
    ensures Drains(InstanceEvents(inst, sc, ns, stackId, appId)) ==
            Restores(InstanceEvents(inst, sc, ns, stackId, appId))
            + Attachments(LeftDrained(sc.detachFault, ns), inst.ec2InstanceId)
  {
    SegmentDrains(inst, sc, ns, stackId, appId);
    SegmentRestores(inst, sc, ns, stackId, appId);
    var left := Attachments(LeftDrained(sc.detachFault, ns), inst.ec2InstanceId);
    if DetachRaises(sc.detachFault, |ns|) {
      assert [] + left == left;
    } else {
      assert left == [];
    }
  }

  /** An iteration is opened once and closed once. */
  lemma SegmentMarkers(inst: Instance, sc: InstanceScenario, ns: seq<Id>, stackId: Id, appId: Id)
    ensures Markers(InstanceEvents(inst, sc, ns, stackId, appId)) ==
            [InstanceStarted(inst.instanceId), InstanceDone(inst.instanceId)]
  {
    ProjectInstance(inst, sc, ns, stackId, appId, MarkerOf);
    CallsAreQuiet(DrainedNames(sc.detachFault, ns), inst.ec2InstanceId);
    CallsAreQuiet(ns, inst.ec2InstanceId);
  }

  /** An iteration opens with its start marker and closes with its done
      marker, which comes after every registration of its cleanup. */
  lemma SegmentClosesAfterCleanup(inst: Instance, sc: InstanceScenario, ns: seq<Id>, stackId: Id, appId: Id)
    ensures var evs := InstanceEvents(inst, sc, ns, stackId, appId);
            && evs[0] == InstanceStarted(inst.instanceId)
            && evs[|evs| - 1] == InstanceDone(inst.instanceId)
            && Restores(evs[..|evs| - 1]) == Restores(evs)
  {
    var evs := InstanceEvents(inst, sc, ns, stackId, appId);
    var front := [InstanceStarted(inst.instanceId)] + IterationBody(inst, sc, ns, stackId, appId);
    assert evs == front + [InstanceDone(inst.instanceId)];
    assert evs[..|evs| - 1] == front;
    ProjectAppend(front, [InstanceDone(inst.instanceId)], RestoreOf);
    ProjectSingleton(InstanceDone(inst.instanceId), RestoreOf);
  }

  /** An iteration whose detach went through creates one deployment job,
      for its own instance; one whose detach raised creates none. */
  lemma SegmentDeployments(inst: Instance, sc: InstanceScenario, ns: seq<Id>, stackId: Id, appId: Id)
    ensures Deployments(InstanceEvents(inst, sc, ns, stackId, appId)) ==
            (if DetachRaises(sc.detachFault, |ns|) then [] else [DeploymentRequestFor(stackId, appId, inst.instanceId)])
  {
    ProjectInstance(inst, sc, ns, stackId, appId, CreatedOf);
    CallsAreQuiet(DrainedNames(sc.detachFault, ns), inst.ec2InstanceId);
    CallsAreQuiet(ns, inst.ec2InstanceId);
  }

  /** A run whose every step removes what it adds back plus what it strands,
      and strands nothing unless it fails, removes what it adds back plus
      what its failing step strands. */
  lemma {:induction false} ChainBalance(steps: seq<Step>, appId: Id)
    requires forall k :: 0 <= k < |steps| ==> Drains(steps[k].events) == Restores(steps[k].events) + steps[k].stranded
    requires forall k :: 0 <= k < |steps| && !steps[k].fails ==> steps[k].stranded == []
    ensures Drains(RunEvents(steps, appId)) == Restores(RunEvents(steps, appId)) + Stranded(steps)
  {
    if steps == [] {
      ProjectSingleton(RunSucceeded(appId), DrainOf);
      ProjectSingleton(RunSucceeded(appId), RestoreOf);
    } else {
      var evs := steps[0].events;
      var rest := if steps[0].fails then [] else RunEvents(steps[1..], appId);
      ProjectAppend(evs, rest, DrainOf);
      ProjectAppend(evs, rest, RestoreOf);
      if steps[0].fails {
        assert Drains(rest) == [] == Restores(rest);
      } else {
        ChainBalance(steps[1..], appId);
        assert Drains(evs) == Restores(evs);
        AppendAssociative(Restores(evs), Restores(rest), Stranded(steps[1..]));
      }
    }
  }

  /** Restore what was drained: over a whole run, whatever each deploy did,
      the attachments removed are the attachments added back, in the same
      order, followed by those a raising detach of the last instance touched
      had already removed. */
  lemma RunRestoresEveryDrain(ctx: RunContext, insts: seq<Instance>, scs: seq<InstanceScenario>)
    requires ValidContext(ctx) && |scs| == |insts|
    ensures var steps := Steps(ctx, insts, scs);
            Drains(RunEvents(steps, ctx.appId)) == Restores(RunEvents(steps, ctx.appId)) + Stranded(steps)
  {
    var steps := Steps(ctx, insts, scs);
    forall k | 0 <= k < |steps|
      ensures Drains(steps[k].events) == Restores(steps[k].events) + steps[k].stranded
      ensures !steps[k].fails ==> steps[k].stranded == []
    {
      SegmentBalance(insts[k], scs[k], DrainSetOf(ctx, insts[k]), ctx.stackId, ctx.appId);
    }
    ChainBalance(steps, ctx.appId);
  }

  /** At the run's start the balancer listed the drained instance and at
      least one other instance. */
  predicate SafeDrain(t: Table, a: Attachment)
  {
    a.lbName in t && a.ec2InstanceId in t[a.lbName]
    && exists other :: other in t[a.lbName] && other != a.ec2InstanceId
  }

  /** The attachments of a drain set are all safe to remove. */
  lemma DrainSetIsSafe(ctx: RunContext, e: Id)
    requires ValidContext(ctx)
    requires forall n :: n in ctx.table ==> Distinct(ctx.table[n])
    ensures forall k :: 0 <= k < |DrainSet(ctx.names, ctx.table, e)| ==>
              SafeDrain(ctx.table, Attachment(DrainSet(ctx.names, ctx.table, e)[k], e))
  {
    var ns := DrainSet(ctx.names, ctx.table, e);
    DrainSetMembers(ctx.names, ctx.table, e);
    forall k | 0 <= k < |ns|
      ensures SafeDrain(ctx.table, Attachment(ns[k], e))
    {
      var s := ctx.table[ns[k]];
      assert ns[k] in ns;
      assert s[0] != s[1];
      if s[0] == e {
        assert s[1] in s;
      } else {
        assert s[0] in s;
      }
    }
  }

  /** One iteration drains only balancers that keep another member. */
  lemma SegmentDrainsSafely(ctx: RunContext, inst: Instance, sc: InstanceScenario)
    requires ValidContext(ctx)
    requires forall n :: n in ctx.table ==> Distinct(ctx.table[n])
    ensures forall a :: a in Drains(InstanceEvents(inst, sc, DrainSetOf(ctx, inst), ctx.stackId, ctx.appId)) ==> SafeDrain(ctx.table, a)
  {
    var e := inst.ec2InstanceId;
    var ns := DrainSetOf(ctx, inst);
    var dn := DrainedNames(sc.detachFault, ns);
    SegmentDrains(inst, sc, ns, ctx.stackId, ctx.appId);
    DrainSetIsSafe(ctx, e);
    forall a | a in Attachments(dn, e)
      ensures SafeDrain(ctx.table, a)
    {
      var k :| 0 <= k < |dn| && Attachments(dn, e)[k] == a;
      assert dn[k] == ns[k];
    }
  }

  /** A run whose every step drains only safely drains only safely. */
  lemma {:induction false} ChainDrainsSafely(steps: seq<Step>, appId: Id, t: Table)
    requires forall k, a :: 0 <= k < |steps| && a in Drains(steps[k].events) ==> SafeDrain(t, a)
    ensures forall a :: a in Drains(RunEvents(steps, appId)) ==> SafeDrain(t, a)
  {
    if steps == [] {
      ProjectSingleton(RunSucceeded(appId), DrainOf);
    } else {
      var evs := steps[0].events;
      var rest := if steps[0].fails then [] else RunEvents(steps[1..], appId);
      ProjectAppend(evs, rest, DrainOf);
      if !steps[0].fails {
        ChainDrainsSafely(steps[1..], appId, t);
      }
    }
  }

  /** A sole member is never drained: every balancer a run deregisters an
      instance from listed that instance and at least one other at the start
      of the run. */
  lemma RunNeverDrainsSoleMember(ctx: RunContext, insts: seq<Instance>, scs: seq<InstanceScenario>)
    requires ValidContext(ctx) && |scs| == |insts|
    requires forall n :: n in ctx.table ==> Distinct(ctx.table[n])
    ensures forall a :: a in Drains(RunEvents(Steps(ctx, insts, scs), ctx.appId)) ==> SafeDrain(ctx.table, a)
  {
    var steps := Steps(ctx, insts, scs);
    forall k, a | 0 <= k < |steps| && a in Drains(steps[k].events)
      ensures SafeDrain(ctx.table, a)
    {
      SegmentDrainsSafely(ctx, insts[k], scs[k]);
    }
    ChainDrainsSafely(steps, ctx.appId, ctx.table);
  }

  /** A run whose every step is opened and closed once, for its own
      instance, brackets the instances it touches in order. */
  lemma {:induction false} ChainMarkers(steps: seq<Step>, appId: Id, insts: seq<Instance>)
    requires |insts| == |steps|
    requires forall k :: 0 <= k < |steps| ==>
               Markers(steps[k].events) == [InstanceStarted(insts[k].instanceId), InstanceDone(insts[k].instanceId)]
    ensures Markers(RunEvents(steps, appId)) == Brackets(insts[..Touched(steps)])
  {
    if steps == [] {
      ProjectSingleton(RunSucceeded(appId), MarkerOf);
    } else {
      var evs := steps[0].events;
      var rest := if steps[0].fails then [] else RunEvents(steps[1..], appId);
      ProjectAppend(evs, rest, MarkerOf);
      var t := Touched(steps);
      if steps[0].fails {
        assert insts[..t] == [insts[0]];
      } else {
        ChainMarkers(steps[1..], appId, insts[1..]);
        assert insts[..t][1..] == insts[1..][..Touched(steps[1..])];
      }
    }
  }

  /** Instances are handled strictly in listing order, each opened and
      closed (after its reattach) before the next one is opened, and the run
      touches no instance after the first failing one. */
  lemma RunHandlesInstancesInOrder(ctx: RunContext, insts: seq<Instance>, scs: seq<InstanceScenario>)
    requires ValidContext(ctx) && |scs| == |insts|
    ensures var steps := Steps(ctx, insts, scs);
            Markers(RunEvents(steps, ctx.appId)) == Brackets(insts[..Touched(steps)])
  {
    var steps := Steps(ctx, insts, scs);
    forall k | 0 <= k < |steps|
      ensures Markers(steps[k].events) == [InstanceStarted(insts[k].instanceId), InstanceDone(insts[k].instanceId)]
    {
      SegmentMarkers(insts[k], scs[k], DrainSetOf(ctx, insts[k]), ctx.stackId, ctx.appId);
    }
    ChainMarkers(steps, ctx.appId, insts);
  }

  /** A run whose every step creates jobs only for its own instance creates
      jobs only for its instances. */
  lemma {:induction false} ChainDeployments(steps: seq<Step>, stackId: Id, appId: Id, insts: seq<Instance>)
    requires |insts| == |steps|
    requires forall k, req :: 0 <= k < |steps| && req in Deployments(steps[k].events) ==>
               req == DeploymentRequestFor(stackId, appId, insts[k].instanceId)
    ensures forall req :: req in Deployments(RunEvents(steps, appId)) ==>
              exists k :: 0 <= k < |insts| && req == DeploymentRequestFor(stackId, appId, insts[k].instanceId)
  {
    if steps == [] {
      ProjectSingleton(RunSucceeded(appId), CreatedOf);
    } else {
      var evs := steps[0].events;
      var rest := if steps[0].fails then [] else RunEvents(steps[1..], appId);
      assert RunEvents(steps, appId) == evs + rest;
      ProjectAppend(evs, rest, CreatedOf);
      if !steps[0].fails {
        ChainDeployments(steps[1..], stackId, appId, insts[1..]);
      }
      forall req | req in Deployments(evs) + Deployments(rest)
        ensures exists k :: 0 <= k < |insts| && req == DeploymentRequestFor(stackId, appId, insts[k].instanceId)
      {
        if req in Deployments(evs) {
          assert req == DeploymentRequestFor(stackId, appId, insts[0].instanceId);
        } else {
          var k :| 0 <= k < |insts[1..]| && req == DeploymentRequestFor(stackId, appId, insts[1..][k].instanceId);
          assert insts[1..][k] == insts[k + 1];
        }
      }
      assert Deployments(RunEvents(steps, appId)) == Deployments(evs) + Deployments(rest);
    }
  }

  /** Every deployment job a run creates is scoped to exactly one of the
      layer's instances. */
  lemma RunDeploysOnlyLayerInstances(ctx: RunContext, insts: seq<Instance>, scs: seq<InstanceScenario>)
    requires ValidContext(ctx) && |scs| == |insts|
    ensures forall req :: req in Deployments(RunEvents(Steps(ctx, insts, scs), ctx.appId)) ==>
              exists k :: 0 <= k < |insts| && req == DeploymentRequestFor(ctx.stackId, ctx.appId, insts[k].instanceId)
  {
    var steps := Steps(ctx, insts, scs);
    forall k, req | 0 <= k < |steps| && req in Deployments(steps[k].events)
      ensures req == DeploymentRequestFor(ctx.stackId, ctx.appId, insts[k].instanceId)
    {
      SegmentDeployments(insts[k], scs[k], DrainSetOf(ctx, insts[k]), ctx.stackId, ctx.appId);
    }
    ChainDeployments(steps, ctx.stackId, ctx.appId, insts);
  }

  /** A run that fails reports the error of the first failing step. */
  lemma {:induction false} RunReportsFirstFailure(steps: seq<Step>, k: nat)
    requires k < |steps| && steps[k].fails
    requires forall j :: 0 <= j < k ==> !steps[j].fails
    ensures RunOutcome(steps) == Failure(steps[k].error)
  {
    if k > 0 {
      RunReportsFirstFailure(steps[1..], k - 1);
    }
  }

  /** Nothing after the first failing step contributes to the trace. */
  lemma {:induction false} RunStopsAtFirstFailure(steps: seq<Step>, appId: Id, k: nat)
    requires k < |steps| && steps[k].fails
    requires forall j :: 0 <= j < k ==> !steps[j].fails
    ensures RunEvents(steps, appId) == RunEvents(steps[..k + 1], appId)
  {
    if k > 0 {
      RunStopsAtFirstFailure(steps[1..], appId, k - 1);
      assert steps[..k + 1][1..] == steps[1..][..k];
    }
  }

  /** The only attachments a failing run leaves removed are those its first
      failing step strands, and the run ends with the membership that step
      leaves. */
  lemma {:induction false} RunStrandsOnlyTheFailingDrain(steps: seq<Step>, start: Table, k: nat)
    requires k < |steps| && steps[k].fails
    requires forall j :: 0 <= j < k ==> !steps[j].fails
    ensures Stranded(steps) == steps[k].stranded
    ensures EndTable(steps, start) == steps[k].endTable
  {
    if k > 0 {
      RunStrandsOnlyTheFailingDrain(steps[1..], start, k - 1);
    }
  }

  /** A run succeeds exactly when no step fails, and then strands nothing
      and ends with its starting membership. */
  lemma {:induction false} RunSucceedsWhenNothingFails(steps: seq<Step>, start: Table)
    ensures RunOutcome(steps).Success? <==> forall k :: 0 <= k < |steps| ==> !steps[k].fails
    ensures RunOutcome(steps).Success? ==>
              RunOutcome(steps) == Success(()) && Stranded(steps) == [] && EndTable(steps, start) == start
  {
    if steps != [] {
      RunSucceedsWhenNothingFails(steps[1..], start);
      if !steps[0].fails {
        assert forall k :: 1 <= k < |steps| ==> steps[k] == steps[1..][k - 1];
      }
    }
  }

  /** What a step of a run stands for: the instance's iteration on the
      run's starting membership, failing exactly when its scenario fails; a
      raising detach strands the attachments it removed and the run then
      ends without them, while a step whose detach went through strands
      nothing and leaves the starting membership. */
  lemma StepsOfRun(ctx: RunContext, insts: seq<Instance>, scs: seq<InstanceScenario>, k: nat)
    requires ValidContext(ctx) && |scs| == |insts| && k < |insts|
    ensures var s := Steps(ctx, insts, scs)[k];
            var ns := DrainSetOf(ctx, insts[k]);
            var e := insts[k].ec2InstanceId;
            && s.events == InstanceEvents(insts[k], scs[k], ns, ctx.stackId, ctx.appId)
            && (s.fails <==> Fails(scs[k], |ns|))
            && s.error == ErrorOf(insts[k], scs[k], |ns|)
            && (DetachRaises(scs[k].detachFault, |ns|) ==>
                  s.stranded == Attachments(DrainedNames(scs[k].detachFault, ns), e)
                  && s.endTable == Drained(ctx.table, DrainedNames(scs[k].detachFault, ns), e))
            && (!DetachRaises(scs[k].detachFault, |ns|) ==> s.stranded == [] && s.endTable == ctx.table)
  {
  }

  /** Deregistering from one more balancer adds one call. */
  lemma DeregistrationsStep(ns: seq<Id>, i: nat, e: Id)
    requires i < |ns|
    ensures Deregistrations(ns[..i + 1], e) == Deregistrations(ns[..i], e) + [Deregistered(ns[i], e)]
  {
  }

  /** Registering with one more balancer adds one call. */
  lemma RegistrationsStep(ns: seq<Id>, i: nat, e: Id)
    requires i < |ns|
    ensures Registrations(ns[..i + 1], e) == Registrations(ns[..i], e) + [Registered(ns[i], e)]
  {
  }

  /** Waiting for one more deregistration adds one confirmation. */
  lemma DeregistrationConfirmationsStep(ns: seq<Id>, j: nat, e: Id)
    requires j < |ns|
    ensures DeregistrationConfirmations(ns[..j + 1], e) ==
            DeregistrationConfirmations(ns[..j], e) + [DeregistrationConfirmed(ns[j], e)]
  {
  }

  /** Waiting for one more registration adds one confirmation. */
  lemma InServiceConfirmationsStep(ns: seq<Id>, j: nat, e: Id)
    requires j < |ns|
    ensures InServiceConfirmations(ns[..j + 1], e) ==
            InServiceConfirmations(ns[..j], e) + [InServiceConfirmed(ns[j], e)]
  {
  }

  /** An iteration's events, written as the pieces the orchestrator emits
      one after the other. */
  lemma InstanceEventsPieces(inst: Instance, sc: InstanceScenario, ns: seq<Id>, stackId: Id, appId: Id)
    ensures DetachRaises(sc.detachFault, |ns|) ==>
              InstanceEvents(inst, sc, ns, stackId, appId) ==
              [InstanceStarted(inst.instanceId)] + DetachTrace(sc.detachFault, ns, inst.ec2InstanceId)
              + [InstanceDone(inst.instanceId)]
    ensures !DetachRaises(sc.detachFault, |ns|) ==>
              InstanceEvents(inst, sc, ns, stackId, appId) ==
              [InstanceStarted(inst.instanceId)] + DetachEvents(ns, inst.ec2InstanceId)
              + [DeploymentCreated(DeploymentRequestFor(stackId, appId, inst.instanceId))]
              + AttachEvents(ns, inst.ec2InstanceId) + [InstanceDone(inst.instanceId)]
  {
    var started := [InstanceStarted(inst.instanceId)];
    if !DetachRaises(sc.detachFault, |ns|) {
      var d := DetachEvents(ns, inst.ec2InstanceId);
      var c := [DeploymentCreated(DeploymentRequestFor(stackId, appId, inst.instanceId))];
      var a := AttachEvents(ns, inst.ec2InstanceId);
      AppendAssociative(started, d + c, a);
      AppendAssociative(started, d, c);
    }
  }

  /** Appending three pieces one at a time appends their concatenation. */
  lemma AppendThree<T>(t: seq<T>, a: seq<T>, b: seq<T>, c: seq<T>)
    ensures t + a + b + c == t + (a + b + c)
  {
    AppendAssociative(t, a, b);
    AppendAssociative(t, a + b, c);
  }

  /** Appending five pieces one at a time appends their concatenation. */
  lemma AppendFive<T>(t: seq<T>, a: seq<T>, b: seq<T>, c: seq<T>, d: seq<T>, f: seq<T>)
    ensures t + a + b + c + d + f == t + (a + b + c + d + f)
  {
    AppendAssociative(t, a, b);
    AppendAssociative(t, a + b, c);
    AppendAssociative(t, a + b + c, d);
    AppendAssociative(t, a + b + c + d, f);
  }

  lemma AppendAssociative<T>(a: seq<T>, b: seq<T>, c: seq<T>)
    ensures a + (b + c) == (a + b) + c
  {
  }

  /** Unrolling a run at one step: its events, then either nothing more (it
      failed) or the run of the steps after it. */
  lemma RunStep(steps: seq<Step>, appId: Id, start: Table, i: nat)
    requires i < |steps|
    ensures RunEvents(steps[i..], appId) ==
            if steps[i].fails then steps[i].events
            else steps[i].events + RunEvents(steps[i + 1..], appId)
    ensures RunOutcome(steps[i..]) ==
            if steps[i].fails then Failure(steps[i].error) else RunOutcome(steps[i + 1..])
    ensures EndTable(steps[i..], start) ==
            if steps[i].fails then steps[i].endTable else EndTable(steps[i + 1..], start)
  {
    var tail := steps[i..];
    assert tail[0] == steps[i];
    assert tail[1..] == steps[i + 1..];
    assert steps[i].events + [] == steps[i].events;
  }
}
