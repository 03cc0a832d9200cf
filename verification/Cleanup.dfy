/** The stateful part of the cleanup function: candidate collection, the memoised liveness
    oracle, the deletion executor, the per-candidate driver and the handler's totals. */
module Cleanup {
  import opened Records
  import opened Classifier
  import opened Collection
  import opened Signals
  import opened Liveness

  /** One call of a liveness check, as recorded in the ghost probe log. */
  datatype ProbeCall = ProbeCall(sgId: string, kind: SignalKind)

  /** The summary record the handler returns (without its wall-clock time). */
  datatype BatchResult = BatchResult(totalProcessed: nat, deleted: nat, skipped: nat, dryRun: bool)

  /** The check calls made for one id, in order. */
  function Calls(sgId: string, kinds: seq<SignalKind>): seq<ProbeCall>
  {
    if kinds == [] then [] else [ProbeCall(sgId, kinds[0])] + Calls(sgId, kinds[1..])
  }

  /** What process_security_group returns for a group: it is not in use, and its deletion
      was simulated or did not raise. */
  predicate Handled(cfg: Config, account: Account, sgId: string)
  {
    !InUse(account, sgId) && (cfg.dryRun || !account.deleteRaises(sgId))
  }

  /** The per-candidate results, in candidate order. */
  function Outcomes(cfg: Config, account: Account, sgs: seq<SecurityGroup>): (r: seq<bool>)
    ensures |r| == |sgs|
  {
    if sgs == [] then []
    else Outcomes(cfg, account, sgs[..|sgs| - 1]) + [Handled(cfg, account, sgs[|sgs| - 1].groupId)]
  }

  /** The ids of the candidates that are not in use, in candidate order: the groups the
      driver hands to the deletion executor. */
  function Doomed(account: Account, sgs: seq<SecurityGroup>): seq<string>
  {
    if sgs == [] then []
    else
      var last := sgs[|sgs| - 1];
      Doomed(account, sgs[..|sgs| - 1]) + (if InUse(account, last.groupId) then [] else [last.groupId])
  }

  /** The ids of the candidates, as a set. */
  function IdSet(sgs: seq<SecurityGroup>): set<string>
  {
    if sgs == [] then {} else IdSet(sgs[..|sgs| - 1]) + {sgs[|sgs| - 1].groupId}
  }

  lemma {:induction false} IdSetMembers(sgs: seq<SecurityGroup>, id: string)
    ensures id in IdSet(sgs) <==> exists j :: 0 <= j < |sgs| && sgs[j].groupId == id
  {
    if sgs != [] {
      var init := sgs[..|sgs| - 1];
      IdSetMembers(init, id);
      if exists j :: 0 <= j < |sgs| && sgs[j].groupId == id {
        var j :| 0 <= j < |sgs| && sgs[j].groupId == id;
        if j < |init| { assert init[j] == sgs[j]; }
      }
    }
  }

  /** sum(1 for r in results if r) */
  function Count(results: seq<bool>): nat
  {
    if results == [] then 0 else (if results[0] then 1 else 0) + Count(results[1..])
  }

  lemma {:induction false} CountIsMultiplicity(results: seq<bool>)
    ensures Count(results) == multiset(results)[true]
    ensures |results| - Count(results) == multiset(results)[false]
  {
    if results != [] {
      CountIsMultiplicity(results[1..]);
      assert results == [results[0]] + results[1..];
      assert multiset(results) == multiset{results[0]} + multiset(results[1..]);
    }
  }

  lemma {:induction false} CountAppend(results: seq<bool>, b: bool)
    ensures Count(results + [b]) == Count(results) + (if b then 1 else 0)
  {
    if results != [] {
      assert (results + [b])[1..] == results[1..] + [b];
      CountAppend(results[1..], b);
    }
  }

  /** The counting step of lambda_handler: every candidate is counted once, as deleted
      exactly when its result is true; an empty run gives zero counts. */
  function Summarize(results: seq<bool>, dryRun: bool): (b: BatchResult)
    ensures b.totalProcessed == |results| && b.deleted + b.skipped == b.totalProcessed
    ensures b.deleted == multiset(results)[true] && b.skipped == multiset(results)[false]
    ensures results == [] ==> b.deleted == 0 && b.skipped == 0
    ensures b.dryRun == dryRun
  {
    CountIsMultiplicity(results);
    var deleted := if results != [] then Count(results) else 0;
    BatchResult(|results|, deleted, |results| - deleted, dryRun)
  }

  /** The groups handed to the executor are candidates that are not in use, each id at most
      once when the candidates have distinct ids. */
  lemma {:induction false} DoomedAreUnused(account: Account, sgs: seq<SecurityGroup>)
    ensures forall k :: 0 <= k < |Doomed(account, sgs)| ==>
      !InUse(account, Doomed(account, sgs)[k]) && Doomed(account, sgs)[k] in IdSet(sgs)
    ensures DistinctIds(sgs) ==>
      forall k, l :: 0 <= k < l < |Doomed(account, sgs)| ==> Doomed(account, sgs)[k] != Doomed(account, sgs)[l]
  {
    if sgs != [] {
      var init := sgs[..|sgs| - 1];
      var last := sgs[|sgs| - 1];
      DoomedAreUnused(account, init);
      if DistinctIds(sgs) {
        assert DistinctIds(init);
        IdSetMembers(init, last.groupId);
      }
    }
  }

  /** In a dry run every unused candidate counts as deleted; in a real run only those whose
      delete call did not raise. */
  lemma {:induction false} DeletedCountMatches(cfg: Config, account: Account, sgs: seq<SecurityGroup>)
    ensures Count(Outcomes(cfg, account, sgs)) <= |Doomed(account, sgs)|
    ensures cfg.dryRun ==> Count(Outcomes(cfg, account, sgs)) == |Doomed(account, sgs)|
  {
    if sgs != [] {
      var init := sgs[..|sgs| - 1];
      DeletedCountMatches(cfg, account, init);
      assert Outcomes(cfg, account, sgs) == Outcomes(cfg, account, init) + [Handled(cfg, account, sgs[|sgs| - 1].groupId)];
      CountAppend(Outcomes(cfg, account, init), Handled(cfg, account, sgs[|sgs| - 1].groupId));
    }
  }

  /** What a real run may delete: only collected groups that pass the ownership heuristic,
      are not excluded and are not in use, each at most once. */
  lemma DeletionsAreSafe(cfg: Config, account: Account, tagPages: seq<Fetch<seq<SecurityGroup>>>,
                         namePages: seq<Fetch<seq<SecurityGroup>>>)
    requires Collect(cfg, tagPages, namePages).Ok?
    ensures var sgs := Collect(cfg, tagPages, namePages).value;
      var doomed := Doomed(account, sgs);
      (forall k :: 0 <= k < |doomed| ==>
        !InUse(account, doomed[k]) && doomed[k] !in cfg.excludeSgIds &&
        exists sg :: sg in sgs && sg.groupId == doomed[k] && IsLbcSecurityGroup(sg, cfg.lbcTagKey)) &&
      (forall k, l :: 0 <= k < l < |doomed| ==> doomed[k] != doomed[l])
  {
    var sgs := Collect(cfg, tagPages, namePages).value;
    CollectSound(cfg, SetItems([tagPages, namePages]), sgs);
    DoomedAreUnused(account, sgs);
    var doomed := Doomed(account, sgs);
    forall k | 0 <= k < |doomed|
      ensures doomed[k] !in cfg.excludeSgIds
      ensures exists sg :: sg in sgs && sg.groupId == doomed[k] && IsLbcSecurityGroup(sg, cfg.lbcTagKey)
    {
      IdSetMembers(sgs, doomed[k]);
      var j :| 0 <= j < |sgs| && sgs[j].groupId == doomed[k];
    }
  }

  /** A run over one module instance of the cleanup function: its configuration, the account
      it talks to, the module-level verdict cache, and ghost logs of the external calls. */
  class Cleaner {
    const config: Config
    const account: Account
    var cache: map<string, bool>
    ghost var probes: seq<ProbeCall>    // liveness-check calls, in order
    ghost var deleteCalls: seq<string>  // delete_security_group API calls, in order
    ghost var pools: seq<int>           // sizes of the worker pools created

    /** Every cached verdict is the verdict the four signals give. */
    ghost predicate Valid()
      reads this
    {
      forall sgId :: sgId in cache ==> cache[sgId] == InUse(account, sgId)
    }

    constructor (config: Config, account: Account)
      ensures Valid()
      ensures this.config == config && this.account == account
      ensures cache == map[] && probes == [] && deleteCalls == [] && pools == []
    {
      this.config := config;
      this.account := account;
      cache := map[];
      probes := [];
      deleteCalls := [];
      pools := [];
    }

    /** get_lbc_security_groups: the tag-filtered listing, then the name-filtered one. */
    method GetLbcSecurityGroups(tagPages: seq<Fetch<seq<SecurityGroup>>>, namePages: seq<Fetch<seq<SecurityGroup>>>)
      returns (r: Result<seq<SecurityGroup>>)
      ensures r == Collect(config, tagPages, namePages)
    {
      var filterSets := [tagPages, namePages];
      ghost var goal := Collect(config, tagPages, namePages);
      var found: seq<SecurityGroup> := [];
      var f := 0;
      while f < |filterSets|
        invariant 0 <= f <= |filterSets|
        invariant Gather(config, found, SetItems(filterSets[f..])) == goal
      {
        SetItemsAt(filterSets, f);
        var stop;
        found, stop := AddPages(found, filterSets[f], SetItems(filterSets[f + 1..]));
        if stop.Some? {
          return stop.value;
        }
        f := f + 1;
      }
      assert filterSets[f..] == [];
      r := Ok(found);
    }

    /** The page loop for one filter set, starting from `found`: `stop` holds the result when
      a page raised or the cap was reached, and is None when every page was consumed. */
    method AddPages(found: seq<SecurityGroup>, pages: seq<Fetch<seq<SecurityGroup>>>, ghost later: seq<Item>)
      returns (grown: seq<SecurityGroup>, stop: Option<Result<seq<SecurityGroup>>>)
      ensures Gather(config, found, StreamItems(pages) + later) ==
        match stop
        case Some(r) => r
        case None => Gather(config, grown, later)
    {
      grown := found;
      ghost var goal := Gather(config, found, StreamItems(pages) + later);
      assert pages[0..] == pages;
      var p := 0;
      while p < |pages|
        invariant 0 <= p <= |pages|
        invariant Gather(config, grown, StreamItems(pages[p..]) + later) == goal
      {
        ghost var tail := StreamItems(pages[p + 1..]) + later;
        PageStep(config, grown, pages, p, later);
        if pages[p].Failed? {
          return grown, Some(Err(ClientError));
        }
        var sgs := pages[p].items;
        var capped;
        grown, capped := AddRecords(grown, sgs, tail);
        if capped {
          return grown, Some(Ok(grown));
        }
        p := p + 1;
      }
      assert StreamItems(pages[p..]) + later == later by {
        assert pages[p..] == [];
      }
      stop := None;
    }

    /** The record loop for one page, starting from `found`: each admissible record is
      appended, and `capped` reports that the cap was reached right after an append. */
    method AddRecords(found: seq<SecurityGroup>, sgs: seq<SecurityGroup>, ghost tail: seq<Item>)
      returns (grown: seq<SecurityGroup>, capped: bool)
      ensures Gather(config, found, RecordItems(sgs) + tail) ==
        if capped then Ok(grown) else Gather(config, grown, tail)
      ensures |grown| >= |found| && grown[..|found|] == found
    {
      grown := found;
      assert sgs[0..] == sgs;
      var k := 0;
      while k < |sgs|
        invariant 0 <= k <= |sgs|
        invariant Gather(config, found, RecordItems(sgs) + tail) == Gather(config, grown, RecordItems(sgs[k..]) + tail)
        invariant |grown| >= |found| && grown[..|found|] == found
      {
        var sg := sgs[k];
        RecordItemsAt(sgs, k);
        assert RecordItems(sgs[k..]) + tail == [Record(sg)] + (RecordItems(sgs[k + 1..]) + tail);
        GatherRecord(config, grown, sg, RecordItems(sgs[k + 1..]) + tail);
        if IsLbcSecurityGroup(sg, config.lbcTagKey) && sg.groupId !in config.excludeSgIds && sg.groupId !in Ids(grown) {
          assert (grown + [sg])[..|found|] == grown[..|found|];
          grown := grown + [sg];
          if |grown| >= config.maxItemsPerRun {
            return grown, true;
          }
        }
        k := k + 1;
      }
      assert RecordItems(sgs[k..]) + tail == tail by {
        assert sgs[k..] == [];
      }
      capped := false;
    }

    /** is_security_group_in_use: the cached verdict if there is one, otherwise the four
      checks in order, stopping at the first that answers true, and the verdict cached. */
    method IsSecurityGroupInUse(sgId: string) returns (inUse: bool)
      requires Valid()
      modifies this`cache, this`probes
      ensures Valid()
      ensures inUse == InUse(account, sgId)
      ensures sgId in old(cache) ==> inUse == old(cache)[sgId] && cache == old(cache) && probes == old(probes)
      ensures sgId !in old(cache) ==>
        cache == old(cache)[sgId := inUse] &&
        probes == old(probes) + Calls(sgId, Probed(account, sgId, ProbeOrder))
    {
      if sgId in cache {
        return cache[sgId];
      }
      ProbedInOrder(account, sgId);
      if CheckInstances(account.instancePages(sgId)) {
        probes := probes + Calls(sgId, [Instances]);
        cache := cache[sgId := true];
        return true;
      }
      if CheckNetworkInterfaces(account.interfacePages(sgId)) {
        probes := probes + Calls(sgId, [Instances, NetworkInterfaces]);
        cache := cache[sgId := true];
        return true;
      }
      if CheckLoadBalancers(account.loadBalancerPages, sgId) {
        probes := probes + Calls(sgId, [Instances, NetworkInterfaces, LoadBalancers]);
        cache := cache[sgId := true];
        return true;
      }
      probes := probes + Calls(sgId, ProbeOrder);
      if CheckSgReferences(account.ingressReferencePages(sgId), account.egressReferencePages(sgId)) {
        cache := cache[sgId := true];
        return true;
      }
      cache := cache[sgId := false];
      return false;
    }

    /** delete_security_group: a dry run issues no call and reports success; otherwise one
      delete call, reporting failure when it raises (a group that is already gone too). */
    method DeleteSecurityGroup(sgId: string) returns (ok: bool)
      modifies this`deleteCalls
      ensures config.dryRun ==> ok && deleteCalls == old(deleteCalls)
      ensures !config.dryRun ==> deleteCalls == old(deleteCalls) + [sgId] && ok == !account.deleteRaises(sgId)
    {
      if config.dryRun {
        return true;
      }
      deleteCalls := deleteCalls + [sgId];
      return !account.deleteRaises(sgId);
    }

    /** process_security_group: the executor runs only for a group that is not in use. */
    method ProcessSecurityGroup(sg: SecurityGroup) returns (ok: bool)
      requires Valid()
      modifies this`cache, this`probes, this`deleteCalls
      ensures Valid()
      ensures ok == Handled(config, account, sg.groupId)
      ensures ok ==> !InUse(account, sg.groupId)
      ensures deleteCalls == old(deleteCalls) + (if InUse(account, sg.groupId) || config.dryRun then [] else [sg.groupId])
      ensures cache == old(cache)[sg.groupId := InUse(account, sg.groupId)]
      ensures sg.groupId in old(cache) ==> probes == old(probes)
      ensures sg.groupId !in old(cache) ==>
        probes == old(probes) + Calls(sg.groupId, Probed(account, sg.groupId, ProbeOrder))
    {
      var inUse := IsSecurityGroupInUse(sg.groupId);
      if !inUse {
        ok := DeleteSecurityGroup(sg.groupId);
      } else {
        ok := false;
      }
    }

    /** list(executor.map(process_security_group, candidates)), run in candidate order. */
    method ProcessAll(sgs: seq<SecurityGroup>) returns (results: seq<bool>)
      requires Valid()
      modifies this`cache, this`probes, this`deleteCalls
      ensures Valid()
      ensures results == Outcomes(config, account, sgs)
      ensures deleteCalls == old(deleteCalls) + (if config.dryRun then [] else Doomed(account, sgs))
      ensures cache.Keys == old(cache).Keys + IdSet(sgs)
      ensures LogWithin(old(probes), probes, IdSet(sgs))
    {
      results := [];
      var i := 0;
      while i < |sgs|
        invariant 0 <= i <= |sgs|
        invariant Valid()
        invariant results == Outcomes(config, account, sgs[..i])
        invariant deleteCalls == old(deleteCalls) + (if config.dryRun then [] else Doomed(account, sgs[..i]))
        invariant cache.Keys == old(cache).Keys + IdSet(sgs[..i])
        invariant LogWithin(old(probes), probes, IdSet(sgs[..i]))
      {
        ghost var probesBefore := probes;
        ghost var cacheBefore := cache;
        ghost var deletesBefore := deleteCalls;
        var ok := ProcessSecurityGroup(sgs[i]);
        ProcessStep(config, account, sgs, i, results, ok, old(deleteCalls), deletesBefore, deleteCalls,
                    old(cache).Keys, cacheBefore, cache, old(probes), probesBefore, probes);
        results := results + [ok];
        i := i + 1;
      }
      assert sgs[..i] == sgs;
    }

    /** lambda_handler: collect the candidates, run each through the driver and count the
      results. A worker pool of min(MAX_WORKERS, candidates) is created only for a non-empty
      candidate list; a size below one makes ThreadPoolExecutor raise ValueError. */
    method LambdaHandler(tagPages: seq<Fetch<seq<SecurityGroup>>>, namePages: seq<Fetch<seq<SecurityGroup>>>)
      returns (r: Result<BatchResult>)
      requires Valid()
      modifies this`cache, this`probes, this`deleteCalls, this`pools
      ensures Valid()
      ensures match Collect(config, tagPages, namePages)
        case Err(e) =>
          r == Err(e) && cache == old(cache) && probes == old(probes) &&
          deleteCalls == old(deleteCalls) && pools == old(pools)
        case Ok(sgs) =>
          if sgs != [] && Min(config.maxWorkers, |sgs|) < 1 then
            r == Err(ValueError) && cache == old(cache) && probes == old(probes) &&
            deleteCalls == old(deleteCalls) && pools == old(pools)
          else
            r == Ok(Summarize(Outcomes(config, account, sgs), config.dryRun)) &&
            r.value.totalProcessed == |sgs| &&
            deleteCalls == old(deleteCalls) + (if config.dryRun then [] else Doomed(account, sgs)) &&
            pools == old(pools) + (if sgs == [] then [] else [Min(config.maxWorkers, |sgs|)]) &&
            cache.Keys == old(cache).Keys + IdSet(sgs) &&
            LogWithin(old(probes), probes, IdSet(sgs))
    {
      var collected := GetLbcSecurityGroups(tagPages, namePages);
      if collected.Err? {
        return Err(collected.error);
      }
      var sgs := collected.value;
      var results: seq<bool> := [];
      if sgs != [] {
        var workers := Min(config.maxWorkers, |sgs|);
        if workers < 1 {
          return Err(ValueError);
        }
        pools := pools + [workers];
        results := ProcessAll(sgs);
      } else {
        assert IdSet(sgs) == {};
        assert probes[..|probes|] == probes;
      }
      r := Ok(Summarize(results, config.dryRun));
    }

    /** Idempotence: a second query for the same id returns the first answer and makes no
      check call. */
    method QueryTwice(sgId: string) returns (first: bool, second: bool)
      requires Valid()
      modifies this`cache, this`probes
      ensures Valid()
      ensures first == second == InUse(account, sgId)
      ensures sgId in cache
      ensures sgId in old(cache) ==> probes == old(probes)
      ensures sgId !in old(cache) ==> probes == old(probes) + Calls(sgId, Probed(account, sgId, ProbeOrder))
    {
      first := IsSecurityGroupInUse(sgId);
      ghost var probesAfterFirst := probes;
      second := IsSecurityGroupInUse(sgId);
      assert probes == probesAfterFirst;
    }
  }

  /** Extending the processed prefix by one candidate. */
  lemma PrefixStep(cfg: Config, account: Account, sgs: seq<SecurityGroup>, i: nat)
    requires i < |sgs|
    ensures Outcomes(cfg, account, sgs[..i + 1]) == Outcomes(cfg, account, sgs[..i]) + [Handled(cfg, account, sgs[i].groupId)]
    ensures Doomed(account, sgs[..i + 1]) ==
      Doomed(account, sgs[..i]) + (if InUse(account, sgs[i].groupId) then [] else [sgs[i].groupId])
    ensures IdSet(sgs[..i + 1]) == IdSet(sgs[..i]) + {sgs[i].groupId}
  {
    assert sgs[..i + 1][..i] == sgs[..i];
    assert sgs[..i + 1] == sgs[..i] + [sgs[i]];
  }

  /** The log `log` keeps `base` as a prefix and every later entry is a call for one of `ids`. */
  ghost predicate LogWithin(base: seq<ProbeCall>, log: seq<ProbeCall>, ids: set<string>)
  {
    |base| <= |log| && log[..|base|] == base &&
    forall k :: |base| <= k < |log| ==> log[k].sgId in ids
  }

  lemma LogExtends(base: seq<ProbeCall>, before: seq<ProbeCall>, added: seq<ProbeCall>, ids: set<string>, id: string)
    requires LogWithin(base, before, ids)
    requires forall k :: 0 <= k < |added| ==> added[k].sgId == id
    ensures LogWithin(base, before + added, ids + {id})
  {
    assert (before + added)[..|base|] == before[..|base|];
  }

  /** One round of the driver loop: the effects of process_security_group on the next
      candidate extend each of the loop's records from the first i candidates to the
      first i + 1. */
  lemma ProcessStep(cfg: Config, account: Account, sgs: seq<SecurityGroup>, i: nat,
                    results: seq<bool>, ok: bool,
                    deletes0: seq<string>, deletesBefore: seq<string>, deletesAfter: seq<string>,
                    keys0: set<string>, cacheBefore: map<string, bool>, cacheAfter: map<string, bool>,
                    probes0: seq<ProbeCall>, probesBefore: seq<ProbeCall>, probesAfter: seq<ProbeCall>)
    requires i < |sgs|
    requires results == Outcomes(cfg, account, sgs[..i])
    requires deletesBefore == deletes0 + (if cfg.dryRun then [] else Doomed(account, sgs[..i]))
    requires cacheBefore.Keys == keys0 + IdSet(sgs[..i])
    requires LogWithin(probes0, probesBefore, IdSet(sgs[..i]))
    requires ok == Handled(cfg, account, sgs[i].groupId)
    requires deletesAfter == deletesBefore +
      (if InUse(account, sgs[i].groupId) || cfg.dryRun then [] else [sgs[i].groupId])
    requires cacheAfter == cacheBefore[sgs[i].groupId := InUse(account, sgs[i].groupId)]
    requires sgs[i].groupId in cacheBefore ==> probesAfter == probesBefore
    requires sgs[i].groupId !in cacheBefore ==>
      probesAfter == probesBefore + Calls(sgs[i].groupId, Probed(account, sgs[i].groupId, ProbeOrder))
    ensures results + [ok] == Outcomes(cfg, account, sgs[..i + 1])
    ensures deletesAfter == deletes0 + (if cfg.dryRun then [] else Doomed(account, sgs[..i + 1]))
    ensures cacheAfter.Keys == keys0 + IdSet(sgs[..i + 1])
    ensures LogWithin(probes0, probesAfter, IdSet(sgs[..i + 1]))
  {
    var id := sgs[i].groupId;
    PrefixStep(cfg, account, sgs, i);
    AppendAssoc(deletes0, if cfg.dryRun then [] else Doomed(account, sgs[..i]),
                if InUse(account, id) || cfg.dryRun then [] else [id]);
    KeysStep(keys0, cacheBefore, IdSet(sgs[..i]), id, InUse(account, id));
    CallsAreFor(id, Probed(account, id, ProbeOrder));
    var added := if id in cacheBefore then [] else Calls(id, Probed(account, id, ProbeOrder));
    assert probesAfter == probesBefore + added by {
      assert probesBefore + [] == probesBefore;
    }
    LogExtends(probes0, probesBefore, added, IdSet(sgs[..i]), id);
  }

  lemma AppendAssoc<T>(a: seq<T>, b: seq<T>, c: seq<T>)
    ensures (a + b) + c == a + (b + c)
  {
  }

  lemma KeysStep(base: set<string>, cache: map<string, bool>, ids: set<string>, id: string, v: bool)
    requires cache.Keys == base + ids
    ensures cache[id := v].Keys == base + (ids + {id})
  {
  }

  lemma {:induction false} CallsAreFor(sgId: string, kinds: seq<SignalKind>)
    ensures |Calls(sgId, kinds)| == |kinds|
    ensures forall k :: 0 <= k < |kinds| ==> Calls(sgId, kinds)[k] == ProbeCall(sgId, kinds[k])
  {
    if kinds != [] {
      CallsAreFor(sgId, kinds[1..]);
    }
  }
}
