/** The load-balancing service's state, as an abstract membership table
    from load-balancer name to the EC2 ids registered with it, and the
    effect of draining one instance from, and restoring it to, a set of
    balancers. */
module Membership {
  import opened DeployTypes
  import opened Selection

  type Table = map<Id, seq<Id>>

  /** Every listed name is a balancer of the table and the other way round,
      no name is listed twice, and no balancer lists an instance twice. */
  predicate WellFormedTable(names: seq<Id>, t: Table)
  {
    && Distinct(names)
    && (forall n :: n in names ==> n in t)
    && (forall n :: n in t ==> n in names)
    && (forall n :: n in t ==> Distinct(t[n]))
  }

  /** describe_load_balancers: one description per balancer, in listing order. */
  function Describe(names: seq<Id>, t: Table): (lbs: seq<LoadBalancer>)
    requires forall n :: n in names ==> n in t
    ensures |lbs| == |names|
    ensures forall k {:trigger lbs[k]} :: 0 <= k < |names| ==> lbs[k] == LoadBalancer(names[k], t[names[k]])
  {
    if names == [] then [] else [LoadBalancer(names[0], t[names[0]])] + Describe(names[1..], t)
  }

  /** The names of the balancers the instance is drained from, given the
      current table: in listing order, those the safe-detach decision keeps. */
  function DrainSet(names: seq<Id>, t: Table, ec2InstanceId: Id): seq<Id>
    requires forall n :: n in names ==> n in t
  {
    if names == [] then []
    else
      var rest := DrainSet(names[1..], t, ec2InstanceId);
      if ShouldDetach(LoadBalancer(names[0], t[names[0]]), ec2InstanceId) then [names[0]] + rest else rest
  }

  /** The drain set is the names of the descriptions detach_from selects
      from the listing. */
  lemma {:induction false} DrainSetIsSelection(names: seq<Id>, t: Table, e: Id)
    requires forall n :: n in names ==> n in t
    ensures DrainSet(names, t, e) == Names(Select(Describe(names, t), e))
  {
    if names != [] {
      DrainSetIsSelection(names[1..], t, e);
      var d := Describe(names, t);
      assert d[0] == LoadBalancer(names[0], t[names[0]]);
      assert d[1..] == Describe(names[1..], t);
      var rest := Select(d[1..], e);
      if ShouldDetach(d[0], e) {
        assert Names([d[0]] + rest) == [names[0]] + Names(rest);
      }
    }
  }

  /** A member list after deregistering an instance. */
  function Without(s: seq<Id>, e: Id): (r: seq<Id>)
    ensures forall x :: x in r <==> x in s && x != e
    ensures Distinct(s) ==> Distinct(r)
  {
    if s == [] then []
    else
      var rest := Without(s[1..], e);
      if s[0] == e then rest
      else
        assert Distinct(s) ==> Distinct(s[1..]) && s[0] !in s[1..];
        assert forall k :: 1 <= k < |[s[0]] + rest| ==> ([s[0]] + rest)[k] == rest[k - 1];
        [s[0]] + rest
  }

  /** A member list after registering an instance: ELB registration is
      idempotent, a registered instance is listed once. */
  function Join(s: seq<Id>, e: Id): (r: seq<Id>)
    ensures Elements(r) == Elements(s) + {e}
    ensures e in r
    ensures Distinct(s) ==> Distinct(r)
  {
    if e in s then s else s + [e]
  }

  /** The table after deregistering `e` from every balancer named in `ns`. */
  function Drained(t: Table, ns: seq<Id>, e: Id): (t': Table)
    ensures t'.Keys == t.Keys
  {
    map n | n in t :: if n in ns then Without(t[n], e) else t[n]
  }

  /** Draining from no balancer leaves the table as it was. */
  lemma DrainedNothing(t: Table, e: Id)
    ensures Drained(t, [], e) == t
  {
  }

  /** The table after registering `e` with every balancer named in `ns`. */
  function Restored(t: Table, ns: seq<Id>, e: Id): (t': Table)
    ensures t'.Keys == t.Keys
  {
    map n | n in t :: if n in ns then Join(t[n], e) else t[n]
  }

  /** Two tables with the same balancers, each with the same member set. */
  predicate SameMembers(t1: Table, t2: Table)
  {
    t1.Keys == t2.Keys && forall n :: n in t1 ==> Elements(t1[n]) == Elements(t2[n])
  }

  /** The balancers named in `ns` all exist and list `e`. */
  predicate AllListMember(t: Table, ns: seq<Id>, e: Id)
  {
    forall n :: n in ns ==> n in t && e in t[n]
  }

  /** The number of leading names that are balancers of the table: the
      registrations that go through before an unknown name raises. */
  function KnownPrefix(ns: seq<Id>, t: Table): (k: nat)
    ensures k <= |ns|
    ensures forall j :: 0 <= j < k ==> ns[j] in t
    ensures k < |ns| ==> ns[k] !in t
  {
    if ns == [] || ns[0] !in t then 0 else 1 + KnownPrefix(ns[1..], t)
  }

  /** When every name is a balancer, all the registrations go through. */
  lemma {:induction false} KnownPrefixOfKnownNames(ns: seq<Id>, t: Table)
    requires forall n :: n in ns ==> n in t
    ensures KnownPrefix(ns, t) == |ns|
  {
    if ns != [] {
      assert ns[0] in ns;
      KnownPrefixOfKnownNames(ns[1..], t);
    }
  }

  /** Draining is a round trip with restoring: registering the instance
      again with every balancer it was drained from gives every balancer
      its original member set back. */
  lemma DrainRestoreRoundTrip(t: Table, ns: seq<Id>, e: Id)
    requires AllListMember(t, ns, e)
    ensures SameMembers(Restored(Drained(t, ns, e), ns, e), t)
  {
    var t' := Restored(Drained(t, ns, e), ns, e);
    forall n | n in t'
      ensures Elements(t'[n]) == Elements(t[n])
    {
      if n in ns {
        assert Elements(Without(t[n], e)) == Elements(t[n]) - {e};
      }
    }
  }

  /** Draining an instance from more balancers than it lists changes
      nothing for them: the drain of one more name is one map update. */
  lemma DrainedStep(t: Table, ns: seq<Id>, n: Id, e: Id)
    requires n in t
    ensures Drained(t, ns + [n], e) == Drained(t, ns, e)[n := Without(Drained(t, ns, e)[n], e)]
  {
    if n in ns {
      var s := Without(t[n], e);
      assert Without(s, e) == s by {
        WithoutIdempotent(t[n], e);
      }
    }
  }

  lemma {:induction false} WithoutIdempotent(s: seq<Id>, e: Id)
    ensures Without(Without(s, e), e) == Without(s, e)
  {
    if s != [] {
      WithoutIdempotent(s[1..], e);
      if s[0] != e {
        assert ([s[0]] + Without(s[1..], e))[1..] == Without(s[1..], e);
      }
    }
  }

  /** Restoring to one more name is one map update. */
  lemma RestoredStep(t: Table, ns: seq<Id>, n: Id, e: Id)
    requires n in t
    ensures Restored(t, ns + [n], e) == Restored(t, ns, e)[n := Join(Restored(t, ns, e)[n], e)]
  {
  }

  /** Draining and restoring keep the table well formed. */
  lemma DrainRestoreWellFormed(names: seq<Id>, t: Table, ns: seq<Id>, e: Id)
    requires WellFormedTable(names, t)
    ensures WellFormedTable(names, Drained(t, ns, e))
    ensures WellFormedTable(names, Restored(t, ns, e))
  {
  }

  /** A distinct list has as many elements as its set of elements. */
  lemma {:induction false} DistinctCardinality(s: seq<Id>)
    requires Distinct(s)
    ensures |Elements(s)| == |s|
  {
    if s != [] {
      DistinctCardinality(s[1..]);
      assert Elements(s) == {s[0]} + Elements(s[1..]);
      assert s[0] !in Elements(s[1..]);
    }
  }

  /** The drain decision depends only on the member sets: two well-formed
      tables with the same member sets drain an instance from the same
      balancers. */
  lemma {:induction false} DrainSetDependsOnlyOnMembers(names: seq<Id>, t1: Table, t2: Table, e: Id)
    requires forall n :: n in names ==> n in t1 && n in t2
    requires forall n :: n in names ==> Distinct(t1[n]) && Distinct(t2[n])
    requires forall n :: n in names ==> Elements(t1[n]) == Elements(t2[n])
    ensures DrainSet(names, t1, e) == DrainSet(names, t2, e)
  {
    if names != [] {
      var n := names[0];
      DrainSetDependsOnlyOnMembers(names[1..], t1, t2, e);
      DistinctCardinality(t1[n]);
      DistinctCardinality(t2[n]);
      assert e in t1[n] <==> e in Elements(t1[n]);
      assert e in t2[n] <==> e in Elements(t2[n]);
      assert ShouldDetach(LoadBalancer(n, t1[n]), e) == ShouldDetach(LoadBalancer(n, t2[n]), e);
    }
  }

  /** Draining the same instance from the same balancers keeps two tables'
      member sets equal. */
  lemma DrainedKeepsSameMembers(t1: Table, t2: Table, ns: seq<Id>, e: Id)
    requires SameMembers(t1, t2)
    ensures SameMembers(Drained(t1, ns, e), Drained(t2, ns, e))
  {
    forall n | n in t1 && n in ns
      ensures Elements(Without(t1[n], e)) == Elements(Without(t2[n], e))
    {
      assert Elements(Without(t1[n], e)) == Elements(t1[n]) - {e};
      assert Elements(Without(t2[n], e)) == Elements(t2[n]) - {e};
    }
  }

  /** Having the same member sets is transitive. */
  lemma SameMembersTransitive(t1: Table, t2: Table, t3: Table)
    requires SameMembers(t1, t2) && SameMembers(t2, t3)
    ensures SameMembers(t1, t3)
  {
  }

  /** Two well-formed tables with the same member sets drain an instance
      from the same balancers. */
  lemma SameMembersSameDrainSet(names: seq<Id>, t1: Table, t2: Table, e: Id)
    requires WellFormedTable(names, t1) && WellFormedTable(names, t2) && SameMembers(t1, t2)
    ensures DrainSet(names, t1, e) == DrainSet(names, t2, e)
  {
    DrainSetDependsOnlyOnMembers(names, t1, t2, e);
  }

  /** Every balancer of the drain set exists and lists the instance, with at
      least one other member. */
  lemma {:induction false} DrainSetMembers(names: seq<Id>, t: Table, e: Id)
    requires forall n :: n in names ==> n in t
    ensures AllListMember(t, DrainSet(names, t, e), e)
    ensures forall n :: n in DrainSet(names, t, e) ==> |t[n]| >= 2
  {
    if names != [] {
      DrainSetMembers(names[1..], t, e);
    }
  }

  /** Draining never empties a balancer: every balancer that had members
      before the drain, or before part of it, still has one afterwards. */
  lemma DrainKeepsCapacity(names: seq<Id>, t: Table, e: Id, part: seq<Id>)
    requires WellFormedTable(names, t)
    requires forall n :: n in part ==> n in DrainSet(names, t, e)
    ensures forall n :: n in t && t[n] != [] ==> Drained(t, part, e)[n] != []
  {
    var ns := DrainSet(names, t, e);
    DrainSetMembers(names, t, e);
    forall n | n in t && t[n] != []
      ensures Drained(t, part, e)[n] != []
    {
      if n in part {
        assert t[n][0] != t[n][1];
        var other := if t[n][0] == e then t[n][1] else t[n][0];
        assert other in Without(t[n], e);
      } else {
        assert t[n][0] in t[n];
      }
    }
  }

  /** The registration results recorded so far: one per named balancer,
      each the balancer's current members, which include the instance. */
  predicate Recorded(registered: map<Id, seq<Id>>, t: Table, names: seq<Id>, e: Id)
  {
    && registered.Keys == Elements(names)
    && forall n :: n in registered ==> n in t && registered[n] == t[n] && e in t[n]
  }

  /** Registering with one more balancer records one more result. */
  lemma RecordedStep(registered: map<Id, seq<Id>>, t: Table, t0: Table, names: seq<Id>, n: Id, e: Id)
    requires Recorded(registered, t0, names, e) && n in t0
    requires t == t0[n := Join(t0[n], e)]
    ensures Recorded(registered[n := t[n]], t, names + [n], e)
  {
    ElementsSnoc(names, n);
  }
}
