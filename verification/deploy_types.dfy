/** Values shared by the deployment orchestration: the two kinds of AWS
    descriptors the orchestrator reads, the argument descriptors its guard
    inspects, the errors it raises and the outcomes the external services
    can produce. */
module DeployTypes {

  type Id = string

  /** Seconds a rolling deploy waits in the queue for the deploy semaphore. */
  const DEPLOY_WAIT_TIMEOUT: nat := 600

  /** Default wall-clock budget of one single-instance deploy (30 minutes). */
  const DEFAULT_DEPLOY_TIMEOUT: nat := 1800

  /** An OpsWorks instance: its OpsWorks id, its EC2 id and its host name. */
  datatype Instance = Instance(instanceId: Id, ec2InstanceId: Id, hostname: string)

  /** An ELB load-balancer description: its name and the EC2 ids of the
      instances currently registered with it, as the service lists them. */
  datatype LoadBalancer = LoadBalancer(name: Id, instances: seq<Id>)

  /** A value passed where an instance struct is expected: either such a
      struct or anything else. */
  datatype InstanceArg = InstanceStruct(instance: Instance) | NotAnInstance

  /** An element of a load-balancer collection: a description struct or
      anything else. */
  datatype DescriptionArg = DescriptionStruct(lb: LoadBalancer) | NotADescription

  /** A value passed as the load-balancer collection: something enumerable
      (holding arbitrary elements) or something that cannot be enumerated. */
  datatype CollectionArg = Enumerable(items: seq<DescriptionArg>) | NotEnumerable

  /** Which of the two argument checks failed. */
  datatype ArgumentFault = InstanceNotStruct | NotDescriptionCollection

  /** The command every deployment job carries: deploy and run migrations. */
  datatype Command = Command(name: string, args: map<string, seq<string>>)

  const DEPLOY_COMMAND: Command := Command("deploy", map["migrate" := ["true"]])

  /** The create-deployment request sent to OpsWorks. */
  datatype DeploymentRequest =
    DeploymentRequest(stackId: Id, appId: Id, instanceIds: seq<Id>, command: Command)

  /** How the remote deployment job ends, as seen by the polling wait. */
  datatype DeployOutcome = Succeeded | ReportedFailure | TimedOut

  /** The load-balancer call of a detach that raises: the listing, the
      deregistration call for the balancer at index `at` of the instance's
      drain set, or the wait for that deregistration. A raising call has no
      effect, and a call that is never made (an index past the drain set)
      cannot raise. */
  datatype DetachFault = ListingRaises | DeregisterRaises(at: nat) | WaitRaises(at: nat)

  /** What the external services do while one instance is processed: which
      call of the detach raises, if any, and how that instance's deploy ends. */
  datatype InstanceScenario = InstanceScenario(detachFault: Option<DetachFault>, deploy: DeployOutcome)

  /** Why the deploy semaphore was not used. */
  datatype LockSkip = NoSemaphoreLibrary | NoRedisConfig

  /** Host and port of the Redis server backing the deploy semaphore. */
  datatype RedisConfig = RedisConfig(host: string, port: nat)

  datatype Option<T> = None | Some(value: T)

  /** The exceptions of the orchestration. */
  datatype DeployError =
    | ArgumentError(fault: ArgumentFault)
    | LoadBalancerNotFound(name: Id)
    | LoadBalancerServiceError
    | DeployFailed(instanceId: Id)
    | DeployTimedOut(instanceId: Id, timeout: nat)
    | DeployLockError(waitTimeout: nat)

  datatype Result<T> = Success(value: T) | Failure(error: DeployError)

  /** No element occurs twice. */
  predicate Distinct<T(==)>(s: seq<T>)
  {
    forall i, j :: 0 <= i < j < |s| ==> s[i] != s[j]
  }

  /** The set of elements of a sequence. */
  function Elements<T>(s: seq<T>): set<T>
  {
    set x | x in s
  }

  /** The names of a sequence of load-balancer descriptions, in order. */
  function Names(lbs: seq<LoadBalancer>): (ns: seq<Id>)
    ensures |ns| == |lbs|
    ensures forall k {:trigger ns[k]} :: 0 <= k < |lbs| ==> ns[k] == lbs[k].name
  {
    seq(|lbs|, k requires 0 <= k < |lbs| => lbs[k].name)
  }

  /** Load-balancer descriptions handed on as a collection argument. */
  function AsArgument(lbs: seq<LoadBalancer>): (c: CollectionArg)
    ensures c.Enumerable? && |c.items| == |lbs|
    ensures forall k {:trigger c.items[k]} :: 0 <= k < |lbs| ==> c.items[k] == DescriptionStruct(lbs[k])
  {
    Enumerable(seq(|lbs|, k requires 0 <= k < |lbs| => DescriptionStruct(lbs[k])))
  }

  /** Appending an element adds it to the set of elements. */
  lemma ElementsSnoc<T>(s: seq<T>, x: T)
    ensures Elements(s + [x]) == Elements(s) + {x}
  {
  }

  /** A prefix grows by the next element. */
  lemma PrefixSnoc<T>(s: seq<T>, i: nat)
    requires i < |s|
    ensures s[..i] + [s[i]] == s[..i + 1]
  {
  }
}
