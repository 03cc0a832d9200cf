# EKS Load Balancer Controller security-group cleanup, in Dafny

A model of the AWS Lambda function that deletes security groups which the AWS Load Balancer
Controller (LBC) left behind and nothing uses any more. One run of the handler does four things:

- Collects candidate groups from two server-side-filtered `describe_security_groups` listings:
  - one filtered by tag key;
  - one filtered by group name.
- Keeps only those the ownership heuristic accepts, that are not in the exclusion list, and
  that have not been collected already. Collection stops at `MAX_ITEMS_PER_RUN`.
- For each candidate, asks a memoised liveness oracle whether the group is in use. The oracle
  consults four signals in order, and the first that answers true decides:
  - EC2 instances;
  - network interfaces;
  - ELBv2 load balancers;
  - ingress and then egress rule references.
  Any `ClientError` inside a check counts as "in use".
- Deletes the unused candidates, or only pretends to in a dry run, and returns the counts.

The AWS account a run talks to is a value (`Records.Account`):
- every paginated listing is a sequence of pages, each either fetched (`Page`) or raising a
  `ClientError` (`Failed`);
- the outcome of a delete call is a per-id flag.

The module-level verdict cache and the run's side effects are the state of a class,
`Cleanup.Cleaner`. Its ghost logs record the external calls made:
- the liveness-check calls;
- the delete calls;
- the sizes of the worker pools.

Modules:
- `Records` holds the records and the configuration.
- `Classifier` is `is_lbc_security_group`.
- `Collection` is the reference semantics of `get_lbc_security_groups`.
- `Signals` holds the four checks.
- `Liveness` is the oracle's verdict and its short circuit.
- `Cleanup` holds the class with the handler's operations and the facts about a whole batch.
- `Scenarios` holds whole runs on small accounts, among them the situations of
  `src/test_lambda_function.py`.

Where the design notes and the code differ, the model follows the code:
- A delete that raises, including for a group that is already gone, reports failure. That
  group is counted as skipped, not deleted.
- The verdict cache has no lock. The driver is modelled as running the candidates one after
  the other, in candidate order (see Left out).
- The client-side loop tests `MAX_ITEMS_PER_RUN` only after an append, so with a value below
  one it still keeps the first admissible record of the pages it is given. The same value is
  also the paginator's `MaxItems`, whose truncation the model takes as already applied to the
  pages (see Left out).
- A `MAX_WORKERS` below one with candidates present makes the worker pool raise `ValueError`,
  so the run fails.

## Model

| member | source | states |
|---|---|---|
| Classifier.AnyTagMarksIff | src/lambda_function.py:83-91 | the tag loop accepts exactly when some tag's key starts with LBC_TAG_KEY or is one of the two controller keys |
| Classifier.NameMarksIff | src/lambda_function.py:94 | the name rule holds exactly when the name starts with `k8s-` and `alb` occurs somewhere in it, compared without regard to case |
| Classifier.IsLbcSecurityGroupIff | src/lambda_function.py:80-97 | a group is classified as controller-owned iff one of the three rules holds; a record without a Tags key is decided by the name rule alone |
| Signals.ScanSpec | src/lambda_function.py:107-113 | a page scan reports "no use" iff every page was fetched and clear; it reports a use (or a ClientError) iff some page shows one (or fails) and every earlier page was fetched and clear |
| Signals.ScanAppend | src/lambda_function.py:107-110 | once a scan has stopped, later pages are never consulted; otherwise the scan continues on the later pages |
| Signals.CheckInstances | src/lambda_function.py:99-113 | the instance check answers "not in use" iff every page was fetched and every reservation on it is empty |
| Signals.CheckNetworkInterfaces | src/lambda_function.py:115-129 | the ENI check answers "not in use" iff every page was fetched and lists no interface |
| Signals.CheckLoadBalancers | src/lambda_function.py:131-144 | the load-balancer check answers "not in use" iff every page was fetched and no load balancer on it lists the group (a missing SecurityGroups key counts as none) |
| Signals.CheckSgReferences | src/lambda_function.py:146-171 | the reference check answers "not in use" iff every ingress-reference page and every egress-reference page was fetched and empty |
| Signals.IngressDecidesFirst | src/lambda_function.py:155-166 | a reference or a failure among the ingress pages decides the reference check before any egress page is read |
| Liveness.AnySignalIff | src/lambda_function.py:180-201 | the oracle's verdict is true iff some signal answers true |
| Liveness.ProbedShortCircuits | src/lambda_function.py:180-198 | the checks consulted are a prefix of the fixed order, every consulted check but the last answered false, the last one carries the verdict, and all four run when none answers true |
| Liveness.ProbedInOrder | src/lambda_function.py:180-201 | the consulted checks, written out for the fixed order instances, ENIs, load balancers, references |
| Liveness.InUseIsOr | src/lambda_function.py:180-201 | the verdict is the OR of the four checks |
| Liveness.FailureMeansInUse | src/lambda_function.py:111-113 | a ClientError on any page of any listing a check reads makes the group count as in use |
| Liveness.AllClearMeansUnused | src/test_lambda_function.py:72-82 | with every listing fetched and showing no use, the group is not in use and all four checks were consulted |
| Collection.PageStep | src/lambda_function.py:62-78 | a page that raises ends collection with the ClientError; a fetched page contributes its records ahead of the later pages |
| Collection.GatherFrom | src/lambda_function.py:56-75 | from any partial collection below the cap, the result is the admissible records in first-seen order cut at the remaining room, or the ClientError when a page fails before the cap is reached |
| Collection.GatherCharacterised | src/lambda_function.py:36-78 | collection returns the first-seen admissible records cut at the cap, and raises the ClientError only when a page fails before the cap is reached |
| Collection.FirstSeenSound | src/lambda_function.py:65-68 | every record the filter keeps passes the heuristic, is not excluded, and has an id neither kept before nor already collected |
| Collection.FirstSeenComplete | src/lambda_function.py:65-68 | every record that passes the heuristic and is not excluded has its id among those kept or already seen |
| Collection.FirstSeenKeepsOrder | src/lambda_function.py:56-68 | the kept records keep the listing order |
| Collection.CollectSound | src/lambda_function.py:56-75 | a successful collection holds only owned, non-excluded records with distinct ids, in listing order, and no more than MAX_ITEMS_PER_RUN when that is at least one |
| Collection.GatherStopsAtCap | src/lambda_function.py:70-73 | once the cap is reached, later records, pages and the second filter set change nothing |
| Cleanup.CountIsMultiplicity | src/lambda_function.py:279-280 | the deleted count is the number of true results and the skipped count the number of false ones |
| Cleanup.Summarize | src/lambda_function.py:271-289 | processed equals the number of per-candidate results, deleted plus skipped equals processed, deleted counts the true results and skipped the false ones, an empty run gives zeros, and dry_run is reported |
| Cleanup.IdSetMembers | src/lambda_function.py:276-277 | an id belongs to the candidate id set iff some candidate carries it |
| Cleanup.DoomedAreUnused | src/lambda_function.py:226-229 | every group handed to the deletion executor is a candidate that is not in use, and none twice when candidate ids are distinct |
| Cleanup.DeletedCountMatches | src/lambda_function.py:207-219 | the deleted count never exceeds the number of groups handed to the executor, and equals it in a dry run |
| Cleanup.DeletionsAreSafe | src/lambda_function.py:261-280 | in a run, every group handed to the executor was collected, passes the heuristic, is not excluded and is not in use, and no group is handed over twice |
| Cleanup.ProcessStep | src/lambda_function.py:276-277 | one round of the executor map extends the results, the delete calls, the cache keys and the check log from the first i candidates to the first i + 1 |
| Cleanup.Cleaner.constructor | src/lambda_function.py:33-34 | a fresh module instance has an empty verdict cache and has made no calls |
| Cleanup.Cleaner.GetLbcSecurityGroups | src/lambda_function.py:36-78 | the imperative collection loops compute exactly the reference collection over the tag-filtered and then the name-filtered listings |
| Cleanup.Cleaner.AddPages | src/lambda_function.py:62-73 | the page loop of one filter set stops with the ClientError, stops with the capped list, or hands on a list from which the reference collection continues |
| Cleanup.Cleaner.AddRecords | src/lambda_function.py:64-73 | the record loop of one page appends admissible records and stops right after the append that reaches the cap, as the reference collection does |
| Cleanup.Cleaner.IsSecurityGroupInUse | src/lambda_function.py:173-205 | the answer is the four-signal verdict; a cached id is answered from the cache with no check call; otherwise the verdict is cached and exactly the short-circuited checks are called |
| Cleanup.Cleaner.QueryTwice | src/lambda_function.py:176-178 | asking twice gives the same answer and leaves the id cached; the two questions together call the short-circuited checks at most once (none if the id was already cached), so the second makes no check call |
| Cleanup.Cleaner.DeleteSecurityGroup | src/lambda_function.py:207-219 | a dry run reports success with no API call; otherwise one delete call is made and success means it did not raise |
| Cleanup.Cleaner.ProcessSecurityGroup | src/lambda_function.py:221-232 | the result is true iff the group is not in use and its deletion was simulated or did not raise; a delete call is made only for a group not in use in a real run |
| Cleanup.Cleaner.ProcessAll | src/lambda_function.py:276-277 | the results are the per-candidate outcomes in candidate order; the delete calls are those for unused candidates (none in a dry run); the cache gains exactly the candidate ids; every new check call is for a candidate |
| Cleanup.Cleaner.LambdaHandler | src/lambda_function.py:261-302 | a collection ClientError is re-raised with nothing else done; a worker count below one with candidates raises ValueError; otherwise the counts summarise the per-candidate outcomes, with the processed total equal to the number of candidates, the delete calls are those for the unused candidates, and a pool is created only when there are candidates |
| Scenarios.TestGroupIsOwned | src/test_lambda_function.py:35-58 | a group named `k8s-alb-test` tagged `kubernetes.io/cluster/test-cluster` is classified as controller-owned |
| Scenarios.TestGroupCollectedOnce | src/test_lambda_function.py:10-32 | a group returned by both the tag listing and the name listing is collected exactly once |
| Scenarios.TwoCandidateRun | src/lambda_function.py:261-289 | two owned candidates, one attached to an instance: one deleted, one skipped, and one delete call, for the unused group |
| Scenarios.EmptyRun | src/lambda_function.py:271-289 | with no candidates the counts are zero and no worker pool is created |
| Scenarios.FailingRun | src/lambda_function.py:221-232 | when every check raises a ClientError the group is skipped after the instance check alone, no later check is called, and no delete call is made |

## Left out

- The boto3 clients, their paginators, the adaptive retry configuration and the server-side filters are not modelled. Each listing is the sequence of pages the paginator yields, with `MaxItems` truncation and filter matching already applied, so a group the server-side filter would not return is simply absent from the pages.
- `publish_metrics` and CloudWatch are not modelled. Its failures are caught and logged and do not change the returned record.
- The elapsed time (`execution_time_seconds`) is not modelled. `BatchResult` holds the other four fields.
- `ThreadPoolExecutor` concurrency is not modelled. `executor.map` becomes a loop over the candidates in order. Interleaved runs of the oracle against the unlocked cache can only repeat check calls, because every cached verdict is the same function of the fixed account.
- The account is fixed for a `Cleaner`'s whole life, across handler invocations on the same module instance, and every cached verdict is its current verdict (`Valid`). The module-level `resource_cache` is never cleared, so a reused Lambda container answers from verdicts computed against an earlier AWS state with no check call. For example, a group judged unused earlier whose delete raised goes straight to a new delete call without a re-check. Such stale verdicts are not modelled.
- The account does not change during a run. A deletion does not remove the group from the listings that later candidates' checks read. For example, rules of a deleted group that referenced a later candidate still count.
- Reading the environment variables and all logging are not modelled. The exclusion list is taken as the already-split list of ids, without the surrounding-whitespace handling that the code also lacks.
- The outer `except ClientError` of `is_security_group_in_use` (lines 202-205) is not modelled, because every check catches its own ClientError, so that handler cannot be reached.
- Exceptions other than ClientError and ValueError are not modelled. This covers a `KeyError` on a record without `GroupId`/`GroupName`/`Key`, and an exception from a non-ClientError API failure.
- `Classifier.NameMarksIff`: `str.lower` is modelled on ASCII letters only. A non-ASCII character that Python lower-cases into `a`, `l` or `b` would not match.
- `Cleanup.Cleaner.ProcessAll` and `Cleanup.Cleaner.LambdaHandler`: the check-call log is stated only as an extension of the earlier log by calls for candidate ids. The exact sequence depends on which candidates were already cached.
