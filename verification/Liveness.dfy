/** The verdict of is_security_group_in_use on a cache miss: the four signals in a fixed
    order, combined by a short-circuiting OR. */
module Liveness {
  import opened Records
  import opened Signals

  datatype SignalKind = Instances | NetworkInterfaces | LoadBalancers | SecurityGroupReferences

  /** The order in which the oracle consults the signals. */
  const ProbeOrder: seq<SignalKind> := [Instances, NetworkInterfaces, LoadBalancers, SecurityGroupReferences]

  /** The answer of one check for one group id in the given account. */
  function Signal(account: Account, kind: SignalKind, sgId: string): bool
  {
    match kind
    case Instances => CheckInstances(account.instancePages(sgId))
    case NetworkInterfaces => CheckNetworkInterfaces(account.interfacePages(sgId))
    case LoadBalancers => CheckLoadBalancers(account.loadBalancerPages, sgId)
    case SecurityGroupReferences =>
      CheckSgReferences(account.ingressReferencePages(sgId), account.egressReferencePages(sgId))
  }

  /** The OR of the signals in `order`, left to right. */
  predicate AnySignal(account: Account, sgId: string, order: seq<SignalKind>)
  {
    order != [] && (Signal(account, order[0], sgId) || AnySignal(account, sgId, order[1..]))
  }

  /** The verdict the oracle computes on a cache miss. */
  predicate InUse(account: Account, sgId: string)
  {
    AnySignal(account, sgId, ProbeOrder)
  }

  /** The signals actually consulted: those up to and including the first that answers true. */
  function Probed(account: Account, sgId: string, order: seq<SignalKind>): seq<SignalKind>
  {
    if order == [] then []
    else if Signal(account, order[0], sgId) then [order[0]]
    else [order[0]] + Probed(account, sgId, order[1..])
  }

  /** Monotone OR: the verdict is true exactly when some signal answers true, whatever the others say. */
  lemma {:induction false} AnySignalIff(account: Account, sgId: string, order: seq<SignalKind>)
    ensures AnySignal(account, sgId, order) <==> exists k :: 0 <= k < |order| && Signal(account, order[k], sgId)
  {
    if order != [] {
      AnySignalIff(account, sgId, order[1..]);
      if exists k :: 0 <= k < |order| && Signal(account, order[k], sgId) {
        var k :| 0 <= k < |order| && Signal(account, order[k], sgId);
        if k > 0 { assert order[1..][k - 1] == order[k]; }
      }
    }
  }

  /** Short circuit: the consulted signals are a prefix of the order, every consulted signal
      but the last answered false, the last one carries the verdict, and when none answers
      true all of them are consulted. */
  lemma {:induction false} ProbedShortCircuits(account: Account, sgId: string, order: seq<SignalKind>)
    ensures var p := Probed(account, sgId, order);
      |p| <= |order| && p == order[..|p|] &&
      (forall k :: 0 <= k < |p| - 1 ==> !Signal(account, p[k], sgId)) &&
      (AnySignal(account, sgId, order) <==> p != [] && Signal(account, p[|p| - 1], sgId)) &&
      (!AnySignal(account, sgId, order) ==> p == order)
  {
    if order != [] && !Signal(account, order[0], sgId) {
      ProbedShortCircuits(account, sgId, order[1..]);
      var q := Probed(account, sgId, order[1..]);
      var p := Probed(account, sgId, order);
      assert p == [order[0]] + q;
      assert p == order[..|p|] by {
        assert order == [order[0]] + order[1..];
      }
      if q != [] {
        assert p[|p| - 1] == q[|q| - 1];
      }
    }
  }

  /** The short circuit over the fixed order, written out. */
  lemma ProbedInOrder(account: Account, sgId: string)
    ensures Probed(account, sgId, ProbeOrder) ==
      if Signal(account, Instances, sgId) then [Instances]
      else if Signal(account, NetworkInterfaces, sgId) then [Instances, NetworkInterfaces]
      else if Signal(account, LoadBalancers, sgId) then [Instances, NetworkInterfaces, LoadBalancers]
      else ProbeOrder
    ensures InUse(account, sgId) <==>
      Signal(account, Instances, sgId) || Signal(account, NetworkInterfaces, sgId) ||
      Signal(account, LoadBalancers, sgId) || Signal(account, SecurityGroupReferences, sgId)
  {
    var o1 := ProbeOrder[1..];
    var o2 := o1[1..];
    var o3 := o2[1..];
    assert o1 == [NetworkInterfaces, LoadBalancers, SecurityGroupReferences];
    assert o2 == [LoadBalancers, SecurityGroupReferences];
    assert o3 == [SecurityGroupReferences] && o3[1..] == [];
    assert Probed(account, sgId, o3) == o3;
    assert Probed(account, sgId, o2) ==
      if Signal(account, LoadBalancers, sgId) then [LoadBalancers] else o2;
    assert Probed(account, sgId, o1) ==
      if Signal(account, NetworkInterfaces, sgId) then [NetworkInterfaces]
      else if Signal(account, LoadBalancers, sgId) then [NetworkInterfaces, LoadBalancers]
      else o1;
    assert AnySignal(account, sgId, o3) == Signal(account, SecurityGroupReferences, sgId);
    assert AnySignal(account, sgId, o2) == (Signal(account, LoadBalancers, sgId) || AnySignal(account, sgId, o3));
    assert AnySignal(account, sgId, o1) == (Signal(account, NetworkInterfaces, sgId) || AnySignal(account, sgId, o2));
  }

  /** The four-signal verdict, written out. */
  lemma InUseIsOr(account: Account, sgId: string)
    ensures InUse(account, sgId) <==>
      CheckInstances(account.instancePages(sgId)) ||
      CheckNetworkInterfaces(account.interfacePages(sgId)) ||
      CheckLoadBalancers(account.loadBalancerPages, sgId) ||
      CheckSgReferences(account.ingressReferencePages(sgId), account.egressReferencePages(sgId))
  {
    AnySignalIff(account, sgId, ProbeOrder);
    if CheckInstances(account.instancePages(sgId)) { assert Signal(account, ProbeOrder[0], sgId); }
    if CheckNetworkInterfaces(account.interfacePages(sgId)) { assert Signal(account, ProbeOrder[1], sgId); }
    if CheckLoadBalancers(account.loadBalancerPages, sgId) { assert Signal(account, ProbeOrder[2], sgId); }
    if CheckSgReferences(account.ingressReferencePages(sgId), account.egressReferencePages(sgId)) {
      assert Signal(account, ProbeOrder[3], sgId);
    }
  }

  /** Fail safe: a ClientError on any page of the instance or interface listing, of the
      load-balancer listing, or of either reference listing makes the group in use. */
  lemma FailureMeansInUse(account: Account, sgId: string)
    requires
      (exists i :: 0 <= i < |account.instancePages(sgId)| && account.instancePages(sgId)[i].Failed?) ||
      (exists i :: 0 <= i < |account.interfacePages(sgId)| && account.interfacePages(sgId)[i].Failed?) ||
      (exists i :: 0 <= i < |account.loadBalancerPages| && account.loadBalancerPages[i].Failed?) ||
      (exists i :: 0 <= i < |account.ingressReferencePages(sgId)| && account.ingressReferencePages(sgId)[i].Failed?) ||
      (exists i :: 0 <= i < |account.egressReferencePages(sgId)| && account.egressReferencePages(sgId)[i].Failed?)
    ensures InUse(account, sgId)
  {
    InUseIsOr(account, sgId);
  }

  /** With every listing fetched and showing no use, the group is not in use. */
  lemma AllClearMeansUnused(account: Account, sgId: string)
    requires forall i :: 0 <= i < |account.instancePages(sgId)| ==>
      account.instancePages(sgId)[i].Page? && forall r :: r in account.instancePages(sgId)[i].items ==> r.keys == {}
    requires forall i :: 0 <= i < |account.interfacePages(sgId)| ==>
      account.interfacePages(sgId)[i].Page? && account.interfacePages(sgId)[i].items == []
    requires forall i :: 0 <= i < |account.loadBalancerPages| ==>
      account.loadBalancerPages[i].Page? &&
      forall lb :: lb in account.loadBalancerPages[i].items ==> sgId !in SecurityGroupsOf(lb)
    requires forall i :: 0 <= i < |account.ingressReferencePages(sgId)| ==>
      account.ingressReferencePages(sgId)[i].Page? && account.ingressReferencePages(sgId)[i].items == []
    requires forall i :: 0 <= i < |account.egressReferencePages(sgId)| ==>
      account.egressReferencePages(sgId)[i].Page? && account.egressReferencePages(sgId)[i].items == []
    ensures !InUse(account, sgId)
    ensures Probed(account, sgId, ProbeOrder) == ProbeOrder
  {
    InUseIsOr(account, sgId);
    ProbedShortCircuits(account, sgId, ProbeOrder);
  }
}
