/** The argument guard and the safe-detach selection: which of the load
    balancers an instance may leave without leaving a balancer with nobody
    to serve its traffic. */
module Selection {
  import opened DeployTypes

  predicate WellFormedInstance(inst: InstanceArg)
  {
    inst.InstanceStruct?
  }

  /** Enumerable, and every element a load-balancer description. */
  predicate WellFormedCollection(lbs: CollectionArg)
  {
    lbs.Enumerable? && forall k :: 0 <= k < |lbs.items| ==> lbs.items[k].DescriptionStruct?
  }

  /** The guard run before any selection, deregistration or registration:
      None when both arguments are well formed, otherwise the fault that is
      raised, the instance being checked first. */
  function CheckArguments(inst: InstanceArg, lbs: CollectionArg): (r: Option<ArgumentFault>)
    ensures r.None? <==> WellFormedInstance(inst) && WellFormedCollection(lbs)
    ensures r == Some(InstanceNotStruct) <==> !WellFormedInstance(inst)
  {
    if !inst.InstanceStruct? then Some(InstanceNotStruct)
    else if !WellFormedCollection(lbs)
    then Some(NotDescriptionCollection)
    else None
  }

  /** The descriptions held by a well-formed collection. */
  function Descriptions(items: seq<DescriptionArg>): (lbs: seq<LoadBalancer>)
    requires forall k :: 0 <= k < |items| ==> items[k].DescriptionStruct?
    ensures |lbs| == |items|
    ensures forall k {:trigger lbs[k]} :: 0 <= k < |items| ==> items[k] == DescriptionStruct(lbs[k])
  {
    seq(|items|, k requires 0 <= k < |items| && items[k].DescriptionStruct? => items[k].lb)
  }

  /** The per-balancer decision of the selection block: the instance is
      detached only when it is a member and is not the only member. */
  function ShouldDetach(lb: LoadBalancer, ec2InstanceId: Id): (keep: bool)
    ensures keep ==> ec2InstanceId in lb.instances
    ensures lb.instances == [ec2InstanceId] ==> !keep
    ensures ec2InstanceId in lb.instances && |lb.instances| >= 2 ==> keep
  {
    var matched := ec2InstanceId in lb.instances;
    if matched && |lb.instances| > 1 then
      true
    else if matched && |lb.instances| == 1 then
      // the sole member: it stays attached
      false
    else
      false
  }

  /** The `select` over the descriptions, keeping the input order. */
  function Select(lbs: seq<LoadBalancer>, ec2InstanceId: Id): (r: seq<LoadBalancer>)
    ensures |r| <= |lbs|
  {
    if lbs == [] then []
    else
      var rest := Select(lbs[1..], ec2InstanceId);
      if ShouldDetach(lbs[0], ec2InstanceId) then [lbs[0]] + rest else rest
  }

  /** detach_from: check the arguments, then select the balancers to leave. */
  function DetachFrom(lbs: CollectionArg, inst: InstanceArg): (r: Result<seq<LoadBalancer>>)
    ensures r.Failure? <==> !(WellFormedInstance(inst) && WellFormedCollection(lbs))
    ensures !WellFormedInstance(inst) ==> r == Failure(ArgumentError(InstanceNotStruct))
    ensures WellFormedInstance(inst) && !WellFormedCollection(lbs) ==>
              r == Failure(ArgumentError(NotDescriptionCollection))
    ensures r.Success? ==>
              forall lb :: lb in r.value <==>
                lb in Descriptions(lbs.items) && ShouldDetach(lb, inst.instance.ec2InstanceId)
  {
    match CheckArguments(inst, lbs)
    case Some(fault) => Failure(ArgumentError(fault))
    case None =>
      var described := Descriptions(lbs.items);
      SelectExact(described, inst.instance.ec2InstanceId);
      Success(Select(described, inst.instance.ec2InstanceId))
  }

  /** `sub` can be obtained from `s` by deleting elements. */
  predicate IsSubsequence<T(==)>(sub: seq<T>, s: seq<T>)
    decreases |s|
  {
    if sub == [] then true
    else if s == [] then false
    else if sub[0] == s[0] then IsSubsequence(sub[1..], s[1..])
    else IsSubsequence(sub, s[1..])
  }

  /** Selected balancers are exactly the input balancers that pass the
      decision: nothing is invented, nothing eligible is dropped. */
  lemma {:induction false} SelectExact(lbs: seq<LoadBalancer>, ec2InstanceId: Id)
    ensures forall lb :: lb in Select(lbs, ec2InstanceId) <==> lb in lbs && ShouldDetach(lb, ec2InstanceId)
  {
    if lbs != [] {
      SelectExact(lbs[1..], ec2InstanceId);
      assert lbs == [lbs[0]] + lbs[1..];
    }
  }

  /** The selection keeps the order of the input. */
  lemma {:induction false} SelectIsSubsequence(lbs: seq<LoadBalancer>, ec2InstanceId: Id)
    ensures IsSubsequence(Select(lbs, ec2InstanceId), lbs)
  {
    if lbs != [] {
      SelectIsSubsequence(lbs[1..], ec2InstanceId);
      var rest := Select(lbs[1..], ec2InstanceId);
      if ShouldDetach(lbs[0], ec2InstanceId) {
        assert ([lbs[0]] + rest)[1..] == rest;
      } else {
        SkipHead(rest, lbs);
      }
    }
  }

  /** A subsequence of the tail is a subsequence of the whole. */
  lemma {:induction false} SkipHead<T>(sub: seq<T>, s: seq<T>)
    requires s != [] && IsSubsequence(sub, s[1..])
    ensures IsSubsequence(sub, s)
    decreases |s|, 0
  {
    if sub != [] && sub[0] == s[0] {
      // s[1..] contains sub, so it also contains sub[1..]
      DropHead(sub, s[1..]);
    }
  }

  /** Removing the first element keeps a subsequence a subsequence. */
  lemma {:induction false} DropHead<T>(sub: seq<T>, s: seq<T>)
    requires sub != [] && IsSubsequence(sub, s)
    ensures IsSubsequence(sub[1..], s)
    decreases |s|, 1
  {
    if sub[0] == s[0] {
      if sub[1..] != [] {
        SkipHead(sub[1..], s);
      }
    } else {
      DropHead(sub, s[1..]);
      if sub[1..] != [] {
        SkipHead(sub[1..], s);
      }
    }
  }

  /** Each description occurs in the selection as often as it occurs in the
      input when it is eligible, and not at all otherwise. */
  lemma {:induction false} SelectCounts(lbs: seq<LoadBalancer>, ec2InstanceId: Id, lb: LoadBalancer)
    ensures multiset(Select(lbs, ec2InstanceId))[lb] ==
              if ShouldDetach(lb, ec2InstanceId) then multiset(lbs)[lb] else 0
  {
    if lbs != [] {
      SelectCounts(lbs[1..], ec2InstanceId, lb);
      assert lbs == [lbs[0]] + lbs[1..];
    }
  }

  /** A selected balancer whose members are listed once each keeps at least
      one member other than the instance. */
  lemma SelectedKeepsAnotherMember(lbs: seq<LoadBalancer>, ec2InstanceId: Id, lb: LoadBalancer)
    requires lb in Select(lbs, ec2InstanceId) && Distinct(lb.instances)
    ensures exists other :: other in lb.instances && other != ec2InstanceId
  {
    SelectExact(lbs, ec2InstanceId);
    assert lb.instances[0] != lb.instances[1];
    if lb.instances[0] == ec2InstanceId {
      assert lb.instances[1] in lb.instances;
    } else {
      assert lb.instances[0] in lb.instances;
    }
  }

  /** Handing descriptions on as a collection argument passes the guard and
      gives back the same descriptions. */
  lemma AsArgumentRoundTrip(lbs: seq<LoadBalancer>)
    ensures WellFormedCollection(AsArgument(lbs))
    ensures Descriptions(AsArgument(lbs).items) == lbs
  {
  }
}
