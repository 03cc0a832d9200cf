/** What candidate collection computes: the records of two paginated listings, filtered by
    the ownership heuristic and the exclusion list, without repeated ids, cut off at the
    configured maximum, or a ClientError if a page fails before the maximum is reached. */
module Collection {
  import opened Records
  import opened Classifier

  /** The listings flattened into the order the loops visit them: each record, and a
      `FetchError` where fetching a page raised a ClientError. */
  datatype Item = Record(sg: SecurityGroup) | FetchError

  function RecordItems(sgs: seq<SecurityGroup>): seq<Item>
  {
    if sgs == [] then [] else [Record(sgs[0])] + RecordItems(sgs[1..])
  }

  function PageItems(page: Fetch<seq<SecurityGroup>>): seq<Item>
  {
    match page
    case Failed => [FetchError]
    case Page(sgs) => RecordItems(sgs)
  }

  function StreamItems(pages: seq<Fetch<seq<SecurityGroup>>>): seq<Item>
  {
    if pages == [] then [] else PageItems(pages[0]) + StreamItems(pages[1..])
  }

  /** The filter sets in the order the outer loop takes them. */
  function SetItems(filterSets: seq<seq<Fetch<seq<SecurityGroup>>>>): seq<Item>
  {
    if filterSets == [] then [] else StreamItems(filterSets[0]) + SetItems(filterSets[1..])
  }

  function Ids(sgs: seq<SecurityGroup>): seq<string>
  {
    seq(|sgs|, i requires 0 <= i < |sgs| => sgs[i].groupId)
  }

  /** The three conditions of the client-side filter, against what is already collected. */
  predicate Admissible(cfg: Config, found: seq<SecurityGroup>, sg: SecurityGroup)
  {
    IsLbcSecurityGroup(sg, cfg.lbcTagKey) && sg.groupId !in cfg.excludeSgIds && sg.groupId !in Ids(found)
  }

  /** The collection loop from a state where `found` is already collected: the cap is
      tested only right after an append. */
  function Gather(cfg: Config, found: seq<SecurityGroup>, items: seq<Item>): Result<seq<SecurityGroup>>
    decreases |items|
  {
    if items == [] then Ok(found)
    else match items[0]
      case FetchError => Err(ClientError)
      case Record(sg) =>
        if Admissible(cfg, found, sg) then
          var grown := found + [sg];
          if |grown| >= cfg.maxItemsPerRun then Ok(grown) else Gather(cfg, grown, items[1..])
        else Gather(cfg, found, items[1..])
  }

  /** get_lbc_security_groups over the tag-filtered pages and then the name-filtered pages. */
  function Collect(cfg: Config, tagPages: seq<Fetch<seq<SecurityGroup>>>, namePages: seq<Fetch<seq<SecurityGroup>>>)
    : Result<seq<SecurityGroup>>
  {
    Gather(cfg, [], SetItems([tagPages, namePages]))
  }

  /** One step of the collection loop on a record. */
  lemma GatherRecord(cfg: Config, found: seq<SecurityGroup>, sg: SecurityGroup, rest: seq<Item>)
    ensures Gather(cfg, found, [Record(sg)] + rest) ==
      if !Admissible(cfg, found, sg) then Gather(cfg, found, rest)
      else if |found| + 1 >= cfg.maxItemsPerRun then Ok(found + [sg])
      else Gather(cfg, found + [sg], rest)
  {
    assert ([Record(sg)] + rest)[1..] == rest;
  }

  /** A page that cannot be fetched ends collection with the ClientError. */
  lemma GatherFault(cfg: Config, found: seq<SecurityGroup>, rest: seq<Item>)
    ensures Gather(cfg, found, [FetchError] + rest) == Err(ClientError)
  {
  }

  lemma RecordItemsAt(sgs: seq<SecurityGroup>, k: nat)
    requires k < |sgs|
    ensures RecordItems(sgs[k..]) == [Record(sgs[k])] + RecordItems(sgs[k + 1..])
  {
    assert sgs[k..][1..] == sgs[k + 1..];
  }

  lemma StreamItemsAt(pages: seq<Fetch<seq<SecurityGroup>>>, p: nat)
    requires p < |pages|
    ensures StreamItems(pages[p..]) == PageItems(pages[p]) + StreamItems(pages[p + 1..])
  {
    assert pages[p..][1..] == pages[p + 1..];
  }

  lemma SetItemsAt(filterSets: seq<seq<Fetch<seq<SecurityGroup>>>>, f: nat)
    requires f < |filterSets|
    ensures SetItems(filterSets[f..]) == StreamItems(filterSets[f]) + SetItems(filterSets[f + 1..])
  {
    assert filterSets[f..][1..] == filterSets[f + 1..];
  }

  /** One step of the page loop: a page that raised ends collection with the ClientError,
      a fetched page contributes its records ahead of the later pages. */
  lemma PageStep(cfg: Config, found: seq<SecurityGroup>, pages: seq<Fetch<seq<SecurityGroup>>>, p: nat, later: seq<Item>)
    requires p < |pages|
    ensures Gather(cfg, found, StreamItems(pages[p..]) + later) ==
      if pages[p].Failed? then Err(ClientError)
      else Gather(cfg, found, RecordItems(pages[p].items) + (StreamItems(pages[p + 1..]) + later))
  {
    StreamItemsAt(pages, p);
    var tail := StreamItems(pages[p + 1..]) + later;
    assert StreamItems(pages[p..]) + later == PageItems(pages[p]) + tail;
    if pages[p].Failed? {
      GatherFault(cfg, found, tail);
    }
  }

  /** A reference definition without the cap or the failures: the admissible records in
      first-seen order, given the ids already `seen`. */
  function FirstSeen(cfg: Config, seen: seq<SecurityGroup>, sgs: seq<SecurityGroup>): seq<SecurityGroup>
    decreases |sgs|
  {
    if sgs == [] then []
    else if Admissible(cfg, seen, sgs[0]) then [sgs[0]] + FirstSeen(cfg, seen + [sgs[0]], sgs[1..])
    else FirstSeen(cfg, seen, sgs[1..])
  }

  /** The records visited before the first failure. */
  function RecordsBeforeFault(items: seq<Item>): seq<SecurityGroup>
  {
    if items == [] || items[0].FetchError? then [] else [items[0].sg] + RecordsBeforeFault(items[1..])
  }

  predicate HasFault(items: seq<Item>)
  {
    exists i :: 0 <= i < |items| && items[i].FetchError?
  }

  /** The effective cap: a configured maximum below one still lets one record through,
      because the cap is tested only after an append. */
  function Cap(cfg: Config): int
  {
    if cfg.maxItemsPerRun >= 1 then cfg.maxItemsPerRun else 1
  }

  function Min(a: int, b: int): int
  {
    if a <= b then a else b
  }

  lemma {:induction false} GatherFrom(cfg: Config, found: seq<SecurityGroup>, items: seq<Item>)
    requires |found| < Cap(cfg)
    ensures var d := FirstSeen(cfg, found, RecordsBeforeFault(items));
      var room := Cap(cfg) - |found|;
      Gather(cfg, found, items) ==
        if |d| >= room || !HasFault(items) then Ok(found + d[..Min(|d|, room)]) else Err(ClientError)
    decreases |items|
  {
    if items == [] {
      assert !HasFault(items);
      assert FirstSeen(cfg, found, RecordsBeforeFault(items)) == [];
      assert found + [] == found;
    } else if items[0].FetchError? {
      assert HasFault(items);
    } else {
      var sg := items[0].sg;
      var rest := items[1..];
      assert RecordsBeforeFault(items) == [sg] + RecordsBeforeFault(rest);
      assert HasFault(items) <==> HasFault(rest) by {
        if HasFault(rest) {
          var i :| 0 <= i < |rest| && rest[i].FetchError?;
          assert items[i + 1] == rest[i];
        }
        if HasFault(items) {
          var i :| 0 <= i < |items| && items[i].FetchError?;
          assert i > 0 && rest[i - 1] == items[i];
        }
      }
      if Admissible(cfg, found, sg) {
        var grown := found + [sg];
        var d := FirstSeen(cfg, grown, RecordsBeforeFault(rest));
        assert FirstSeen(cfg, found, RecordsBeforeFault(items)) == [sg] + d;
        if |grown| < cfg.maxItemsPerRun {
          GatherFrom(cfg, grown, rest);
          var room := Cap(cfg) - |grown|;
          assert found + ([sg] + d)[..Min(|d| + 1, room + 1)] == grown + d[..Min(|d|, room)];
        }
      } else {
        assert FirstSeen(cfg, found, RecordsBeforeFault(items)) == FirstSeen(cfg, found, RecordsBeforeFault(rest));
        GatherFrom(cfg, found, rest);
      }
    }
  }

  /** Collection, characterised: the admissible records in first-seen order, cut off at the
      cap; a ClientError only when a page fails before the cap is reached. */
  lemma GatherCharacterised(cfg: Config, items: seq<Item>)
    ensures var d := FirstSeen(cfg, [], RecordsBeforeFault(items));
      Gather(cfg, [], items) ==
        if |d| >= Cap(cfg) || !HasFault(items) then Ok(d[..Min(|d|, Cap(cfg))]) else Err(ClientError)
  {
    GatherFrom(cfg, [], items);
    var d := FirstSeen(cfg, [], RecordsBeforeFault(items));
    assert [] + d[..Min(|d|, Cap(cfg))] == d[..Min(|d|, Cap(cfg))];
  }

  predicate DistinctIds(sgs: seq<SecurityGroup>)
  {
    forall i, j :: 0 <= i < j < |sgs| ==> sgs[i].groupId != sgs[j].groupId
  }

  /** Every first-seen record passes the filter, and no id repeats or was already seen. */
  lemma {:induction false} FirstSeenSound(cfg: Config, seen: seq<SecurityGroup>, sgs: seq<SecurityGroup>)
    ensures var d := FirstSeen(cfg, seen, sgs);
      (forall i :: 0 <= i < |d| ==>
         IsLbcSecurityGroup(d[i], cfg.lbcTagKey) && d[i].groupId !in cfg.excludeSgIds && d[i].groupId !in Ids(seen)) &&
      DistinctIds(d)
    decreases |sgs|
  {
    if sgs != [] {
      if Admissible(cfg, seen, sgs[0]) {
        var seen' := seen + [sgs[0]];
        FirstSeenSound(cfg, seen', sgs[1..]);
        var d := FirstSeen(cfg, seen, sgs);
        var tail := FirstSeen(cfg, seen', sgs[1..]);
        assert d == [sgs[0]] + tail;
        assert Ids(seen') == Ids(seen) + [sgs[0].groupId];
        forall i | 0 <= i < |tail|
          ensures tail[i].groupId != sgs[0].groupId && tail[i].groupId !in Ids(seen)
        {
          assert tail[i].groupId !in Ids(seen');
        }
      } else {
        FirstSeenSound(cfg, seen, sgs[1..]);
      }
    }
  }

  /** No admissible record is lost: every record that passes the ownership and exclusion
      tests has its id among those seen or those kept. */
  lemma {:induction false} FirstSeenComplete(cfg: Config, seen: seq<SecurityGroup>, sgs: seq<SecurityGroup>)
    ensures forall i :: 0 <= i < |sgs| && IsLbcSecurityGroup(sgs[i], cfg.lbcTagKey) && sgs[i].groupId !in cfg.excludeSgIds ==>
      sgs[i].groupId in Ids(seen) + Ids(FirstSeen(cfg, seen, sgs))
    decreases |sgs|
  {
    if sgs != [] {
      var d := FirstSeen(cfg, seen, sgs);
      if Admissible(cfg, seen, sgs[0]) {
        var seen' := seen + [sgs[0]];
        FirstSeenComplete(cfg, seen', sgs[1..]);
        var tail := FirstSeen(cfg, seen', sgs[1..]);
        assert Ids(seen) + Ids(d) == Ids(seen') + Ids(tail) by {
          assert Ids(d) == [sgs[0].groupId] + Ids(tail);
          assert Ids(seen') == Ids(seen) + [sgs[0].groupId];
        }
      } else {
        FirstSeenComplete(cfg, seen, sgs[1..]);
      }
      forall i | 0 <= i < |sgs| && IsLbcSecurityGroup(sgs[i], cfg.lbcTagKey) && sgs[i].groupId !in cfg.excludeSgIds
        ensures sgs[i].groupId in Ids(seen) + Ids(d)
      {
        if i > 0 {
          assert sgs[1..][i - 1] == sgs[i];
        } else if Admissible(cfg, seen, sgs[0]) {
          assert Ids(d)[0] == sgs[0].groupId;
        } else {
          assert sgs[0].groupId in Ids(seen);
        }
      }
    }
  }

  /** `sub` is `sgs` with some elements left out, order kept. */
  predicate Subsequence(sub: seq<SecurityGroup>, sgs: seq<SecurityGroup>)
    decreases |sgs|
  {
    sub == [] || (sgs != [] && (if sub[0] == sgs[0] then Subsequence(sub[1..], sgs[1..]) else Subsequence(sub, sgs[1..])))
  }

  /** First-seen order: the kept records appear in the order the listings gave them. */
  lemma {:induction false} FirstSeenKeepsOrder(cfg: Config, seen: seq<SecurityGroup>, sgs: seq<SecurityGroup>)
    ensures Subsequence(FirstSeen(cfg, seen, sgs), sgs)
    decreases |sgs|
  {
    if sgs != [] {
      if Admissible(cfg, seen, sgs[0]) {
        FirstSeenKeepsOrder(cfg, seen + [sgs[0]], sgs[1..]);
      } else {
        FirstSeenKeepsOrder(cfg, seen, sgs[1..]);
        SubsequenceCons(FirstSeen(cfg, seen, sgs), sgs);
      }
    }
  }

  lemma {:induction false} SubsequenceDropFirst(sub: seq<SecurityGroup>, sgs: seq<SecurityGroup>)
    requires sub != [] && Subsequence(sub, sgs)
    ensures Subsequence(sub[1..], sgs)
    decreases |sgs|, 1
  {
    if sub[0] != sgs[0] {
      SubsequenceDropFirst(sub, sgs[1..]);
    }
    SubsequenceCons(sub[1..], sgs);
  }

  lemma {:induction false} SubsequenceCons(sub: seq<SecurityGroup>, sgs: seq<SecurityGroup>)
    requires sgs != [] && Subsequence(sub, sgs[1..])
    ensures Subsequence(sub, sgs)
    decreases |sgs|, 0
  {
    if sub != [] && sub[0] == sgs[0] {
      SubsequenceDropFirst(sub, sgs[1..]);
    }
  }

  lemma PrefixKeepsProperties(cfg: Config, d: seq<SecurityGroup>, n: nat)
    requires n <= |d|
    requires forall i :: 0 <= i < |d| ==> IsLbcSecurityGroup(d[i], cfg.lbcTagKey) && d[i].groupId !in cfg.excludeSgIds
    requires DistinctIds(d)
    ensures forall i :: 0 <= i < n ==> IsLbcSecurityGroup(d[..n][i], cfg.lbcTagKey) && d[..n][i].groupId !in cfg.excludeSgIds
    ensures DistinctIds(d[..n])
  {
  }

  /** Every collected record passes the ownership heuristic, is not excluded, carries an id
      no other collected record has, and the records are in first-seen order; when the
      configured maximum is at least one, no more than that many are collected. */
  lemma CollectSound(cfg: Config, items: seq<Item>, r: seq<SecurityGroup>)
    requires Gather(cfg, [], items) == Ok(r)
    ensures forall i :: 0 <= i < |r| ==> IsLbcSecurityGroup(r[i], cfg.lbcTagKey) && r[i].groupId !in cfg.excludeSgIds
    ensures DistinctIds(r)
    ensures Subsequence(r, RecordsBeforeFault(items))
    ensures cfg.maxItemsPerRun >= 1 ==> |r| <= cfg.maxItemsPerRun
  {
    GatherCharacterised(cfg, items);
    var recs := RecordsBeforeFault(items);
    var d := FirstSeen(cfg, [], recs);
    FirstSeenSound(cfg, [], recs);
    FirstSeenKeepsOrder(cfg, [], recs);
    var n := Min(|d|, Cap(cfg));
    assert r == d[..n];
    PrefixKeepsProperties(cfg, d, n);
    SubsequencePrefix(d, recs, n);
  }

  lemma {:induction false} SubsequencePrefix(sub: seq<SecurityGroup>, sgs: seq<SecurityGroup>, n: nat)
    requires n <= |sub| && Subsequence(sub, sgs)
    ensures Subsequence(sub[..n], sgs)
    decreases |sgs|
  {
    if n > 0 {
      if sub[0] == sgs[0] {
        assert sub[..n][1..] == sub[1..][..n - 1];
        SubsequencePrefix(sub[1..], sgs[1..], n - 1);
      } else {
        SubsequencePrefix(sub, sgs[1..], n);
      }
    }
  }

  /** Once the cap is reached nothing after is examined: appending more items (further
      pages, or the whole second filter set) changes nothing. */
  lemma {:induction false} GatherStopsAtCap(cfg: Config, found: seq<SecurityGroup>, items: seq<Item>, more: seq<Item>)
    requires |found| < Cap(cfg)
    requires Gather(cfg, found, items).Ok? && |Gather(cfg, found, items).value| >= Cap(cfg)
    ensures Gather(cfg, found, items + more) == Gather(cfg, found, items)
    decreases |items|
  {
    if items == [] {
    } else {
      assert (items + more)[0] == items[0];
      assert (items + more)[1..] == items[1..] + more;
      var sg := items[0].sg;
      if Admissible(cfg, found, sg) && |found + [sg]| < cfg.maxItemsPerRun {
        GatherStopsAtCap(cfg, found + [sg], items[1..], more);
      } else if !Admissible(cfg, found, sg) {
        GatherStopsAtCap(cfg, found, items[1..], more);
      }
    }
  }
}
