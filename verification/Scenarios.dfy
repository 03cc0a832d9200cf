/** Whole runs of the handler on small accounts. */
module Scenarios {
  import opened Records
  import opened Classifier
  import opened Collection
  import opened Signals
  import opened Liveness
  import opened Cleanup

  const ClusterTag := Tag("kubernetes.io/cluster/x", "owned")
  const GroupA := SecurityGroup("sg-a", "web", Some([ClusterTag]))
  const GroupB := SecurityGroup("sg-b", "api", Some([ClusterTag]))
  const GroupC := SecurityGroup("sg-c", "k8s-alb-c", None)

  /** A group that both the tag filter and the name filter return. */
  const TestGroup := SecurityGroup("sg-t", "k8s-alb-test", Some([Tag("kubernetes.io/cluster/test-cluster", "owned")]))

  /** The defaults of the environment settings. */
  const Defaults := Config(true, "kubernetes.io/cluster/", [], 5000, 10)

  /** The defaults of the environment settings, with deletion switched on. */
  const RealRun := Config(false, "kubernetes.io/cluster/", [], 5000, 10)

  /** sg-b is attached to a running instance; nothing refers to sg-a. */
  function OneInstanceAccount(): Account
  {
    Account(
      id => if id == "sg-b" then [Page([Reservation({"Instances"})])] else [],
      id => [],
      [],
      id => [],
      id => [],
      id => false)
  }

  /** Every listing call raises a ClientError. */
  function FailingAccount(): Account
  {
    Account(id => [Failed], id => [Failed], [Failed], id => [Failed], id => [Failed], id => false)
  }

  /** Both groups carry the cluster tag, so both are collected, in listing order. */
  lemma TwoCandidatesCollected()
    ensures Collect(RealRun, [Page([GroupA, GroupB])], []) == Ok([GroupA, GroupB])
  {
    var key := ClusterTag.key;
    assert StartsWith(key, RealRun.lbcTagKey) by {
      assert key[..|RealRun.lbcTagKey|] == RealRun.lbcTagKey;
    }
    assert IsLbcSecurityGroup(GroupA, RealRun.lbcTagKey) && IsLbcSecurityGroup(GroupB, RealRun.lbcTagKey);
    assert Ids([GroupA]) == ["sg-a"];
    var tagPages := [Page([GroupA, GroupB])];
    var none: seq<Fetch<seq<SecurityGroup>>> := [];
    assert RecordItems([GroupA, GroupB]) == [Record(GroupA), Record(GroupB)] by {
      assert [GroupB][1..] == [];
      assert RecordItems([GroupB]) == [Record(GroupB)];
      assert [GroupA, GroupB][1..] == [GroupB];
    }
    assert StreamItems(tagPages) == [Record(GroupA), Record(GroupB)] by {
      assert tagPages[1..] == [];
    }
    assert SetItems([tagPages, none]) == [Record(GroupA), Record(GroupB)] by {
      assert [none][1..] == [];
      assert SetItems([none]) == [];
      assert [tagPages, none][1..] == [none];
    }
    GatherRecord(RealRun, [], GroupA, [Record(GroupB)]);
    GatherRecord(RealRun, [GroupA], GroupB, []);
    assert [] + [GroupA] == [GroupA] && [GroupA] + [GroupB] == [GroupA, GroupB];
  }

  lemma TestGroupIsOwned()
    ensures IsLbcSecurityGroup(TestGroup, Defaults.lbcTagKey)
  {
    var key := "kubernetes.io/cluster/test-cluster";
    assert key[..|Defaults.lbcTagKey|] == Defaults.lbcTagKey;
    assert MarksOwner(Tag(key, "owned"), Defaults.lbcTagKey);
  }

  lemma TestGroupItems(pages: seq<Fetch<seq<SecurityGroup>>>)
    requires pages == [Page([TestGroup])]
    ensures SetItems([pages, pages]) == [Record(TestGroup), Record(TestGroup)]
  {
    assert RecordItems([TestGroup]) == [Record(TestGroup)] by {
      assert [TestGroup][1..] == [];
    }
    assert StreamItems(pages) == [Record(TestGroup)] by {
      assert pages[1..] == [];
    }
    assert [pages][1..] == [];
    assert SetItems([pages]) == [Record(TestGroup)];
    assert [pages, pages][1..] == [pages];
  }

  /** Returned by both listings, the group is collected once. */
  lemma TestGroupCollectedOnce()
    ensures Collect(Defaults, [Page([TestGroup])], [Page([TestGroup])]) == Ok([TestGroup])
  {
    TestGroupIsOwned();
    var pages: seq<Fetch<seq<SecurityGroup>>> := [Page([TestGroup])];
    TestGroupItems(pages);
    assert Admissible(Defaults, [], TestGroup);
    assert [] + [TestGroup] == [TestGroup];
    assert !Admissible(Defaults, [TestGroup], TestGroup) by {
      assert Ids([TestGroup])[0] == "sg-t";
    }
    GatherRecord(Defaults, [], TestGroup, [Record(TestGroup)]);
    GatherRecord(Defaults, [TestGroup], TestGroup, []);
  }

  /** Only sg-b shows a use. */
  lemma OnlyGroupBInUse()
    ensures !InUse(OneInstanceAccount(), "sg-a") && InUse(OneInstanceAccount(), "sg-b")
  {
    var account := OneInstanceAccount();
    AllClearMeansUnused(account, "sg-a");
    assert ShowsInstance([Reservation({"Instances"})]) by {
      assert Reservation({"Instances"}) in [Reservation({"Instances"})];
    }
    assert Signal(account, Instances, "sg-b");
    AnySignalIff(account, "sg-b", ProbeOrder);
  }

  /** The driver's results and delete calls for the two candidates, and their summary. */
  lemma TwoCandidateOutcomes()
    ensures Outcomes(RealRun, OneInstanceAccount(), [GroupA, GroupB]) == [true, false]
    ensures Doomed(OneInstanceAccount(), [GroupA, GroupB]) == ["sg-a"]
    ensures Summarize([true, false], false) == BatchResult(2, 1, 1, false)
  {
    OnlyGroupBInUse();
    var sgs := [GroupA, GroupB];
    assert sgs[..1] == [GroupA] && [GroupA][..0] == [];
    assert Outcomes(RealRun, OneInstanceAccount(), [GroupA]) == [true];
    assert Doomed(OneInstanceAccount(), [GroupA]) == ["sg-a"];
    assert multiset([true, false])[true] == 1 && multiset([true, false])[false] == 1;
  }

  /** Two owned candidates, one attached to an instance, deletion on: one deleted, one
      skipped, and a single delete call, for the unused one. */
  method TwoCandidateRun() returns (r: Result<BatchResult>, ghost deletes: seq<string>)
    ensures r == Ok(BatchResult(2, 1, 1, false))
    ensures deletes == ["sg-a"]
  {
    var cleaner := new Cleaner(RealRun, OneInstanceAccount());
    TwoCandidatesCollected();
    TwoCandidateOutcomes();
    r := cleaner.LambdaHandler([Page([GroupA, GroupB])], []);
    deletes := cleaner.deleteCalls;
  }

  /** No candidates: zero counts and no worker pool. */
  method EmptyRun() returns (r: Result<BatchResult>, ghost poolSizes: seq<int>)
    ensures r == Ok(BatchResult(0, 0, 0, false))
    ensures poolSizes == []
  {
    var cleaner := new Cleaner(RealRun, OneInstanceAccount());
    var none: seq<Fetch<seq<SecurityGroup>>> := [];
    assert SetItems([none, none]) == [] by {
      assert [none, none][1..] == [none] && [none][1..] == [];
    }
    r := cleaner.LambdaHandler([], []);
    poolSizes := cleaner.pools;
  }

  /** Every check fails with a ClientError: the candidate counts as in use after the first
      check, no later check is called, it is skipped, and no delete call is issued. */
  method FailingRun() returns (skipped: bool, ghost checks: seq<ProbeCall>, ghost deletes: seq<string>)
    ensures skipped
    ensures checks == [ProbeCall("sg-c", Instances)]
    ensures deletes == []
  {
    var cleaner := new Cleaner(RealRun, FailingAccount());
    assert Signal(FailingAccount(), Instances, GroupC.groupId) by {
      assert FailingAccount().instancePages(GroupC.groupId)[0].Failed?;
    }
    ProbedInOrder(FailingAccount(), GroupC.groupId);
    assert Calls(GroupC.groupId, [Instances]) == [ProbeCall(GroupC.groupId, Instances)] by {
      assert [Instances][1..] == [];
    }
    var ok := cleaner.ProcessSecurityGroup(GroupC);
    skipped := !ok;
    checks := cleaner.probes;
    deletes := cleaner.deleteCalls;
  }
}
