/** The four liveness checks. Each walks a paginator's pages in order, returns at the first
    page that shows a use, and answers "in use" when a ClientError is raised. */
module Signals {
  import opened Records

  /** How a scan of pages ended: a page showed a use, every page was clear, or a
      ClientError was raised first. */
  datatype Probe = Hit | Miss | Fault

  /** The `for page in page_iterator` loop with its early return and the surrounding
      `except ClientError`. */
  function Scan<T>(pages: seq<Fetch<T>>, matches: T -> bool): Probe
  {
    if pages == [] then Miss
    else if pages[0].Failed? then Fault
    else if matches(pages[0].items) then Hit
    else Scan(pages[1..], matches)
  }

  /** The first k pages were fetched and none of them shows a use. */
  predicate ClearBefore<T>(pages: seq<Fetch<T>>, matches: T -> bool, k: nat)
    requires k <= |pages|
  {
    forall j :: 0 <= j < k ==> pages[j].Page? && !matches(pages[j].items)
  }

  /** A scan ends at the first page that is a failure or a match, and only there. */
  lemma {:induction false} ScanSpec<T>(pages: seq<Fetch<T>>, matches: T -> bool)
    ensures Scan(pages, matches) == Miss <==> ClearBefore(pages, matches, |pages|)
    ensures Scan(pages, matches) == Hit <==>
      exists i :: 0 <= i < |pages| && ClearBefore(pages, matches, i) && pages[i].Page? && matches(pages[i].items)
    ensures Scan(pages, matches) == Fault <==>
      exists i :: 0 <= i < |pages| && ClearBefore(pages, matches, i) && pages[i].Failed?
  {
    if pages != [] && pages[0].Page? && !matches(pages[0].items) {
      var rest := pages[1..];
      ScanSpec(rest, matches);
      forall k | 0 <= k <= |rest|
        ensures ClearBefore(pages, matches, k + 1) <==> ClearBefore(rest, matches, k)
      {
        if ClearBefore(rest, matches, k) {
          forall j | 0 <= j < k + 1
            ensures pages[j].Page? && !matches(pages[j].items)
          {
            if j > 0 { assert pages[j] == rest[j - 1]; }
          }
        }
        if ClearBefore(pages, matches, k + 1) {
          forall j | 0 <= j < k
            ensures rest[j].Page? && !matches(rest[j].items)
          {
            assert rest[j] == pages[j + 1];
          }
        }
      }
      if exists i :: 0 <= i < |pages| && ClearBefore(pages, matches, i) && pages[i].Page? && matches(pages[i].items) {
        var i :| 0 <= i < |pages| && ClearBefore(pages, matches, i) && pages[i].Page? && matches(pages[i].items);
        assert i > 0 && rest[i - 1] == pages[i];
        assert ClearBefore(rest, matches, i - 1);
      }
      if exists i :: 0 <= i < |pages| && ClearBefore(pages, matches, i) && pages[i].Failed? {
        var i :| 0 <= i < |pages| && ClearBefore(pages, matches, i) && pages[i].Failed?;
        assert i > 0 && rest[i - 1] == pages[i];
        assert ClearBefore(rest, matches, i - 1);
      }
      if exists i :: 0 <= i < |rest| && ClearBefore(rest, matches, i) && rest[i].Page? && matches(rest[i].items) {
        var i :| 0 <= i < |rest| && ClearBefore(rest, matches, i) && rest[i].Page? && matches(rest[i].items);
        assert pages[i + 1] == rest[i];
        assert ClearBefore(pages, matches, i + 1);
      }
      if exists i :: 0 <= i < |rest| && ClearBefore(rest, matches, i) && rest[i].Failed? {
        var i :| 0 <= i < |rest| && ClearBefore(rest, matches, i) && rest[i].Failed?;
        assert pages[i + 1] == rest[i];
        assert ClearBefore(pages, matches, i + 1);
      }
    } else if pages != [] {
      assert ClearBefore(pages, matches, 0);
    }
  }

  /** Short circuit: once a scan has stopped, pages after the stop are never consulted;
      if it has not, the scan goes on as a scan of the later pages. */
  lemma {:induction false} ScanAppend<T>(pages: seq<Fetch<T>>, later: seq<Fetch<T>>, matches: T -> bool)
    ensures Scan(pages + later, matches) ==
      if Scan(pages, matches) == Miss then Scan(later, matches) else Scan(pages, matches)
  {
    if pages == [] {
      assert pages + later == later;
    } else {
      assert (pages + later)[0] == pages[0];
      assert (pages + later)[1..] == pages[1..] + later;
      ScanAppend(pages[1..], later, matches);
    }
  }

  /** any(page['Reservations']) */
  predicate ShowsInstance(reservations: seq<Reservation>)
  {
    exists r :: r in reservations && r.keys != {}
  }

  /** check_instances_using_sg over the pages of describe_instances filtered by the group id. */
  function CheckInstances(pages: seq<Fetch<seq<Reservation>>>): (inUse: bool)
    ensures !inUse <==>
      forall i :: 0 <= i < |pages| ==> pages[i].Page? && forall r :: r in pages[i].items ==> r.keys == {}
  {
    ScanSpec(pages, ShowsInstance);
    Scan(pages, ShowsInstance) != Miss
  }

  /** `if page['NetworkInterfaces']` */
  predicate ShowsInterface(interfaces: seq<NetworkInterface>)
  {
    interfaces != []
  }

  /** check_enis_using_sg over the pages of describe_network_interfaces filtered by the group id. */
  function CheckNetworkInterfaces(pages: seq<Fetch<seq<NetworkInterface>>>): (inUse: bool)
    ensures !inUse <==> forall i :: 0 <= i < |pages| ==> pages[i].Page? && pages[i].items == []
  {
    ScanSpec(pages, ShowsInterface);
    Scan(pages, ShowsInterface) != Miss
  }

  /** lb.get('SecurityGroups', []) */
  function SecurityGroupsOf(lb: LoadBalancer): seq<string>
  {
    match lb.securityGroups
    case None => []
    case Some(ids) => ids
  }

  /** Some load balancer on the page lists the group id. */
  predicate ListsGroup(lbs: seq<LoadBalancer>, sgId: string)
  {
    exists lb :: lb in lbs && sgId in SecurityGroupsOf(lb)
  }

  /** check_lbs_using_sg over the unfiltered pages of describe_load_balancers. */
  function CheckLoadBalancers(pages: seq<Fetch<seq<LoadBalancer>>>, sgId: string): (inUse: bool)
    ensures !inUse <==>
      forall i :: 0 <= i < |pages| ==>
        pages[i].Page? && forall lb :: lb in pages[i].items ==> sgId !in SecurityGroupsOf(lb)
  {
    var lists := (lbs: seq<LoadBalancer>) => ListsGroup(lbs, sgId);
    ScanSpec(pages, lists);
    Scan(pages, lists) != Miss
  }

  /** `if page['SecurityGroups']` */
  predicate ShowsReference(groups: seq<SecurityGroup>)
  {
    groups != []
  }

  /** check_sg_references: the ingress-rule pages first, then the egress-rule pages. */
  function ReferenceProbe(ingress: seq<Fetch<seq<SecurityGroup>>>, egress: seq<Fetch<seq<SecurityGroup>>>): Probe
  {
    var first := Scan(ingress, ShowsReference);
    if first == Miss then Scan(egress, ShowsReference) else first
  }

  function CheckSgReferences(ingress: seq<Fetch<seq<SecurityGroup>>>, egress: seq<Fetch<seq<SecurityGroup>>>): (inUse: bool)
    ensures !inUse <==>
      (forall i :: 0 <= i < |ingress| ==> ingress[i].Page? && ingress[i].items == []) &&
      (forall i :: 0 <= i < |egress| ==> egress[i].Page? && egress[i].items == [])
  {
    ScanSpec(ingress, ShowsReference);
    ScanSpec(egress, ShowsReference);
    ReferenceProbe(ingress, egress) != Miss
  }

  /** The egress pages are consulted only when every ingress page was fetched and clear:
      a reference or a failure among the ingress pages decides the check on its own. */
  lemma IngressDecidesFirst(ingress: seq<Fetch<seq<SecurityGroup>>>, egress: seq<Fetch<seq<SecurityGroup>>>)
    requires exists i :: 0 <= i < |ingress| && (ingress[i].Failed? || ingress[i].items != [])
    ensures Scan(ingress, ShowsReference) != Miss
    ensures ReferenceProbe(ingress, egress) == Scan(ingress, ShowsReference)
    ensures CheckSgReferences(ingress, egress)
  {
    ScanSpec(ingress, ShowsReference);
  }
}
