/** The values the cleanup function reads from EC2 and ELBv2, its configuration,
    and the string operations its ownership heuristic uses. */
module Records {

  datatype Option<+T> = None | Some(value: T)

  /** The exceptions that reach the handler's caller. */
  datatype Exception =
    | ClientError   // botocore's ClientError, raised by an API call
    | ValueError    // raised by ThreadPoolExecutor for a pool size below one

  datatype Result<+T> = Ok(value: T) | Err(error: Exception)

  /** One step of a paginator: the page it yields, or the ClientError raised while fetching it.
      Iteration never goes past a `Failed` step, because the exception leaves the loop. */
  datatype Fetch<+T> = Page(items: T) | Failed

  datatype Tag = Tag(key: string, value: string)

  /** A record of describe_security_groups; `tags` is None when the record has no 'Tags' key. */
  datatype SecurityGroup = SecurityGroup(groupId: string, groupName: string, tags: Option<seq<Tag>>)

  /** A reservation of describe_instances, represented by the keys of its dict:
      Python's `any` over a list of dicts is true exactly when some dict is non-empty. */
  datatype Reservation = Reservation(keys: set<string>)

  /** A network interface of describe_network_interfaces. */
  datatype NetworkInterface = NetworkInterface(networkInterfaceId: string)

  /** A load balancer of describe_load_balancers; `securityGroups` is None when the key is absent. */
  datatype LoadBalancer = LoadBalancer(arn: string, securityGroups: Option<seq<string>>)

  /** The environment settings, already parsed. */
  datatype Config = Config(
    dryRun: bool,
    lbcTagKey: string,
    excludeSgIds: seq<string>,
    maxItemsPerRun: int,
    maxWorkers: int)

  /** What the AWS account answers during one run: for each group id, the pages of every
      filtered describe call, the unfiltered load-balancer listing, and whether
      delete_security_group raises a ClientError for that id. */
  datatype Account = Account(
    instancePages: string -> seq<Fetch<seq<Reservation>>>,
    interfacePages: string -> seq<Fetch<seq<NetworkInterface>>>,
    loadBalancerPages: seq<Fetch<seq<LoadBalancer>>>,
    ingressReferencePages: string -> seq<Fetch<seq<SecurityGroup>>>,
    egressReferencePages: string -> seq<Fetch<seq<SecurityGroup>>>,
    deleteRaises: string -> bool)

  /** Python's str.startswith. */
  predicate StartsWith(s: string, prefix: string)
  {
    |prefix| <= |s| && s[..|prefix|] == prefix
  }

  /** `sub` appears in `s` starting at index `i`. */
  predicate OccursAt(s: string, sub: string, i: int)
  {
    0 <= i <= |s| - |sub| && s[i..i + |sub|] == sub
  }

  /** Python's `sub in s` on strings. */
  predicate Contains(s: string, sub: string)
  {
    exists i :: 0 <= i <= |s| - |sub| && OccursAt(s, sub, i)
  }

  function LowerChar(c: char): char
  {
    if 'A' <= c <= 'Z' then (c as int + 32) as char else c
  }

  /** Python's str.lower, on ASCII letters. */
  function ToLower(s: string): (r: string)
    ensures |r| == |s|
    ensures forall i :: 0 <= i < |s| ==> r[i] == LowerChar(s[i])
  {
    if s == [] then [] else [LowerChar(s[0])] + ToLower(s[1..])
  }
}
