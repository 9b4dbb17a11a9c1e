/**
 Rolling runs: how `serial` splits a plan's hosts into batches, when `max-fail` stops the run,
 and what every run conserves.
 */
module Rollout {
  import opened Wrappers
  import opened Totals

  datatype Amount = Count(n: nat) | Percent(p: nat)

  ghost function Sum(s: seq<nat>): nat {
    Total(s, (n: nat) => n)
  }

  lemma SumOne(n: nat)
    ensures Sum([n]) == n
  {
    assert [n][1..] == [];
    assert Total([n][1..], (n: nat) => n) == 0;
  }

  // ---- Batch sizes ----

  /** What `serial` asks of batch `k`: its last value repeats. */
  function Asked(serial: seq<Amount>, k: nat): Amount
    requires serial != []
  {
    if k < |serial| then serial[k] else serial[|serial| - 1]
  }

  /** Hosts for an amount, out of `total`: a share rounds down. */
  function Hosts(amount: Amount, total: nat): nat {
    match amount
    case Count(n) => n
    case Percent(p) => total * p / 100
  }

  /** The sizes follow `serial` in order, each at least one and at most what is left, until
      nothing is. */
  ghost predicate FollowSerial(sizes: seq<nat>, total: nat, serial: seq<Amount>)
    requires serial != []
  {
    forall k :: 0 <= k < |sizes| ==>
      && Sum(sizes[..k]) < total
      && sizes[k] == Min(Max(Hosts(Asked(serial, k), total), 1), total - Sum(sizes[..k]))
  }

  lemma FollowSerialMore(sizes: seq<nat>, size: nat, total: nat, serial: seq<Amount>)
    requires serial != [] && FollowSerial(sizes, total, serial) && Sum(sizes) < total
    requires size == Min(Max(Hosts(Asked(serial, |sizes|), total), 1), total - Sum(sizes))
    ensures FollowSerial(sizes + [size], total, serial)
    ensures Sum(sizes + [size]) == Sum(sizes) + size
  {
    var more := sizes + [size];
    TotalAppend(sizes, size, (n: nat) => n);
    forall k | 0 <= k < |more| ensures Sum(more[..k]) < total
        && more[k] == Min(Max(Hosts(Asked(serial, k), total), 1), total - Sum(more[..k])) {
      assert more[..k] == sizes[..k];
      assert sizes[..|sizes|] == sizes;
    }
  }

  method BatchSizes(total: nat, serial: seq<Amount>) returns (sizes: seq<nat>)
    ensures serial == [] || total == 0 ==> sizes == [total]
    ensures serial != [] && total > 0 ==> FollowSerial(sizes, total, serial) && 0 !in sizes
    ensures sizes != [] && Sum(sizes) == total
  {
    if serial == [] || total == 0 {
      sizes := [total];
      SumOne(total);
      return;
    }
    sizes := [];
    var left, values, current := total, serial, serial[0];
    while left > 0
      invariant 0 <= left && left + Sum(sizes) == total && 0 !in sizes && (sizes == [] ==> left == total)
      invariant FollowSerial(sizes, total, serial)
      invariant values == if |sizes| < |serial| then serial[|sizes|..] else []
      invariant |sizes| > 0 ==> current == Asked(serial, |sizes| - 1)
    {
      if values != [] {
        current, values := values[0], values[1..];
      }
      var size := Min(Max(Hosts(current, total), 1), left);
      FollowSerialMore(sizes, size, total, serial);
      sizes := sizes + [size];
      left := left - size;
    }
  }

  // ---- When to stop ----

  datatype StopReason = TooMany(failed: nat, total: nat, max: Amount) | WholeBatch(batch: nat)

  /** Whether failures exceed what the plan allows: more than `max-fail`, or without it every
      host of a batch. */
  predicate Exceeded(maxFail: Option<Amount>, failed: nat, total: nat, batch: nat, batchFailed: nat) {
    match maxFail
    case Some(Count(n)) => failed > n
    case Some(Percent(p)) => failed * 100 > p * total
    case None => batch > 0 && batchFailed == batch
  }

  /** A share is exceeded when the share rounded down is. */
  lemma ShareExceeded(failed: nat, p: nat, total: nat)
    ensures failed * 100 > p * total <==> failed > Hosts(Percent(p), total)
  {
    assert p * total == total * p;
  }

  lemma ExceededMeans(maxFail: Option<Amount>, failed: nat, total: nat, batch: nat, batchFailed: nat)
    ensures maxFail.Some? ==>
              (Exceeded(maxFail, failed, total, batch, batchFailed) <==> failed > Hosts(maxFail.value, total))
  {
    if maxFail.Some? && maxFail.value.Percent? {
      ShareExceeded(failed, maxFail.value.p, total);
    }
  }

  /** Why no further batch should start: more hosts failed than `max-fail` amounts to, which is
      rounded down as `serial` is; or there is no `max-fail` and nobody in the batch succeeded. */
  function ReasonToStop(maxFail: Option<Amount>, failed: nat, total: nat, batch: nat, batchFailed: nat)
    : (reason: Option<StopReason>)
    ensures match reason
            case None =>
              if maxFail.Some? then failed <= Hosts(maxFail.value, total) else batch == 0 || batchFailed != batch
            case Some(TooMany(f, t, max)) => maxFail == Some(max) && t == total && f == failed > Hosts(max, total)
            case Some(WholeBatch(b)) => maxFail.None? && b == batch == batchFailed > 0
  {
    ExceededMeans(maxFail, failed, total, batch, batchFailed);
    if !Exceeded(maxFail, failed, total, batch, batchFailed) then None
    else if maxFail.Some? then Some(TooMany(failed, total, maxFail.value))
    else Some(WholeBatch(batch))
  }

  // ---- A run ----

  datatype NodeResult = NodeResult(success: bool, changed: nat, skipped: nat)

  /** A host's task as joining it finds it: its result, or a panic. */
  datatype Joined = Finished(result: NodeResult) | Panicked

  /** What a join counts for: a panicked host failed. */
  function Counted(joined: Joined): NodeResult {
    match joined
    case Finished(result) => result
    case Panicked => NodeResult(false, 0, 0)
  }

  datatype RunSummary = RunSummary(
    totalHosts: nat,
    succeeded: nat,
    failed: nat,
    totalChanged: nat,
    totalSkipped: nat,
    aborted: nat)

  function Succeeded(r: NodeResult): nat {
    if r.success then 1 else 0
  }

  function Failed(r: NodeResult): nat {
    if r.success then 0 else 1
  }

  function ResultsOf(joins: seq<Joined>): seq<NodeResult> {
    seq(|joins|, k requires 0 <= k < |joins| => Counted(joins[k]))
  }

  method RunBatch(joins: seq<Joined>) returns (results: seq<NodeResult>)
    ensures results == ResultsOf(joins)
  {
    results := [];
    for k := 0 to |joins|
      invariant results == ResultsOf(joins[..k])
    {
      match joins[k] {
        case Finished(result) => results := results + [result];
        case Panicked => results := results + [NodeResult(false, 0, 0)];
      }
    }
    assert joins[..|joins|] == joins;
  }

  method CountOf(results: seq<NodeResult>, weight: NodeResult -> nat) returns (n: nat)
    ensures n == Total(results, weight)
  {
    n := 0;
    assert results[..0] == [];
    for k := 0 to |results|
      invariant n == Total(results[..k], weight)
    {
      assert results[..k + 1] == results[..k] + [results[k]];
      TotalAppend(results[..k], results[k], weight);
      n := n + weight(results[k]);
    }
    assert results[..|results|] == results;
  }

  lemma {:induction false} SuccessOrFailure(results: seq<NodeResult>)
    ensures Total(results, Succeeded) + Total(results, Failed) == |results|
  {
    if results != [] {
      SuccessOrFailure(results[1..]);
    }
  }

  /** The batches a run started: `hosts` in order, `failed` over all of them and in each. */
  datatype Batch<T> = Batch(hosts: seq<T>, failed: nat)

  ghost function FailedIn<T>(batches: seq<Batch<T>>): nat {
    Total(batches, (b: Batch<T>) => b.failed)
  }

  function HostsIn<T>(batches: seq<Batch<T>>): seq<T> {
    if batches == [] then [] else HostsIn(batches[..|batches| - 1]) + batches[|batches| - 1].hosts
  }

  /** After every batch but the last started one, failures were within what the plan allows. */
  ghost predicate NeverPastLimit<T>(batches: seq<Batch<T>>, maxFail: Option<Amount>, total: nat) {
    forall k :: 0 < k < |batches| ==>
      !Exceeded(maxFail, FailedIn(batches[..k]), total, |batches[k - 1].hosts|, batches[k - 1].failed)
  }

  /** How many hosts the first `n` batches take. */
  ghost function Taken(sizes: seq<nat>, n: nat): nat
    requires n <= |sizes|
  {
    Sum(sizes[..n])
  }

  /** The batches started so far take the targets in order, as many as each size says, and
      count their failures. */
  ghost predicate InOrder<T>(batches: seq<Batch<T>>, sizes: seq<nat>, targets: seq<T>, joins: seq<Joined>) {
    && |batches| <= |sizes| && Sum(sizes) == |targets| == |joins|
    && (forall k :: 0 <= k < |batches| ==> |batches[k].hosts| == sizes[k])
    && Taken(sizes, |batches|) <= |targets|
    && HostsIn(batches) == targets[..Taken(sizes, |batches|)]
    && FailedIn(batches) == Total(ResultsOf(joins[..Taken(sizes, |batches|)]), Failed)
  }

  lemma SumUpTo(sizes: seq<nat>, k: nat)
    requires k < |sizes|
    ensures Taken(sizes, k + 1) == Taken(sizes, k) + sizes[k] <= Sum(sizes)
  {
    assert sizes[..k + 1] == sizes[..k] + [sizes[k]];
    TotalAppend(sizes[..k], sizes[k], (n: nat) => n);
    assert sizes == sizes[..k + 1] + sizes[k + 1..];
    TotalJoin(sizes[..k + 1], sizes[k + 1..], (n: nat) => n);
  }

  lemma ResultsMore(joins: seq<Joined>, taken: nat, n: nat)
    requires taken + n <= |joins|
    ensures ResultsOf(joins[..taken + n]) == ResultsOf(joins[..taken]) + ResultsOf(joins[taken..taken + n])
  {
  }

  lemma StartNext<T>(batches: seq<Batch<T>>, sizes: seq<nat>, targets: seq<T>, joins: seq<Joined>,
                     batch: Batch<T>, taken: nat)
    requires InOrder(batches, sizes, targets, joins) && |batches| < |sizes|
    requires taken == Taken(sizes, |batches|) && taken + sizes[|batches|] <= |targets|
    requires batch.hosts == targets[taken..taken + sizes[|batches|]]
    requires batch.failed == Total(ResultsOf(joins[taken..taken + sizes[|batches|]]), Failed)
    ensures InOrder(batches + [batch], sizes, targets, joins)
  {
    var n := sizes[|batches|];
    SumUpTo(sizes, |batches|);
    TotalAppend(batches, batch, (b: Batch<T>) => b.failed);
    assert targets[..taken + n] == targets[..taken] + targets[taken..taken + n];
    ResultsMore(joins, taken, n);
    TotalJoin(ResultsOf(joins[..taken]), ResultsOf(joins[taken..taken + n]), Failed);
  }

  /** Whether the last started batch was one too many to go on after. */
  ghost predicate StopAfter<T>(batches: seq<Batch<T>>, maxFail: Option<Amount>, total: nat)
    requires batches != []
  {
    var last := batches[|batches| - 1];
    Exceeded(maxFail, FailedIn(batches), total, |last.hosts|, last.failed)
  }

  lemma LimitHolds<T>(batches: seq<Batch<T>>, batch: Batch<T>, maxFail: Option<Amount>, total: nat)
    requires NeverPastLimit(batches, maxFail, total)
    requires batches != [] ==> !StopAfter(batches, maxFail, total)
    ensures NeverPastLimit(batches + [batch], maxFail, total)
  {
    var more := batches + [batch];
    forall k | 0 < k < |more|
      ensures !Exceeded(maxFail, FailedIn(more[..k]), total, |more[k - 1].hosts|, more[k - 1].failed)
    {
      assert more[..k] == batches[..k] && more[k - 1] == batches[k - 1];
      assert batches[..|batches|] == batches;
    }
  }

  /** What a finished run is: batches in order as `serial` says, none started past the limit,
      and cut short only by exceeding it. */
  ghost predicate IsRun<T>(batches: seq<Batch<T>>, sizes: seq<nat>, targets: seq<T>, joins: seq<Joined>,
                           maxFail: Option<Amount>)
  {
    && batches != [] && InOrder(batches, sizes, targets, joins)
    && NeverPastLimit(batches, maxFail, |targets|)
    && (|batches| < |sizes| ==> StopAfter(batches, maxFail, |targets|))
  }

  /** What a summary says of the results it is made from. */
  ghost predicate Sums(summary: RunSummary, results: seq<NodeResult>) {
    && summary.succeeded == Total(results, Succeeded)
    && summary.failed == Total(results, Failed)
    && summary.totalChanged == Total(results, Changed)
    && summary.totalSkipped == Total(results, Skipped)
  }

  function Changed(r: NodeResult): nat {
    r.changed
  }

  function Skipped(r: NodeResult): nat {
    r.skipped
  }

  method Summarize(total: nat, results: seq<NodeResult>, aborted: nat) returns (summary: RunSummary)
    ensures Sums(summary, results) && summary.totalHosts == total && summary.aborted == aborted
    ensures summary.succeeded + summary.failed == |results|
  {
    var succeeded := CountOf(results, Succeeded);
    var failed := CountOf(results, Failed);
    var changed := CountOf(results, Changed);
    var skipped := CountOf(results, Skipped);
    SuccessOrFailure(results);
    summary := RunSummary(total, succeeded, failed, changed, skipped, aborted);
  }

  /** One more batch: the next hosts, run and counted. */
  method StartBatch<T>(targets: seq<T>, joins: seq<Joined>, ghost sizes: seq<nat>, ghost batches: seq<Batch<T>>, taken: nat,
                       size: nat, ghost maxFail: Option<Amount>)
    returns (batch: Batch<T>, results: seq<NodeResult>)
    requires InOrder(batches, sizes, targets, joins) && |batches| < |sizes|
    requires taken == Taken(sizes, |batches|) && size == sizes[|batches|]
    requires NeverPastLimit(batches, maxFail, |targets|)
    requires batches != [] ==> !StopAfter(batches, maxFail, |targets|)
    ensures InOrder(batches + [batch], sizes, targets, joins)
    ensures NeverPastLimit(batches + [batch], maxFail, |targets|)
    ensures FailedIn(batches + [batch]) == FailedIn(batches) + batch.failed
    ensures taken + size == Taken(sizes, |batches| + 1) == |HostsIn(batches + [batch])| <= |targets|
    ensures StopAfter(batches + [batch], maxFail, |targets|) <==>
            Exceeded(maxFail, FailedIn(batches) + batch.failed, |targets|, size, batch.failed)
    ensures results == ResultsOf(joins[taken..taken + size])
    ensures ResultsOf(joins[..taken]) + results == ResultsOf(joins[..taken + size])
  {
    SumUpTo(sizes, |batches|);
    results := RunBatch(joins[taken..taken + size]);
    var failed := CountOf(results, Failed);
    batch := Batch(targets[taken..taken + size], failed);
    StartNext(batches, sizes, targets, joins, batch, taken);
    LimitHolds(batches, batch, maxFail, |targets|);
    TotalAppend(batches, batch, (b: Batch<T>) => b.failed);
    ResultsMore(joins, taken, size);
  }

  lemma TakenAll(sizes: seq<nat>)
    ensures Taken(sizes, |sizes|) == Sum(sizes)
  {
    assert sizes[..|sizes|] == sizes;
  }

  /** The batches one after the other, until the hosts are done or failures exceed what the
      plan allows. */
  method RunBatches<T>(targets: seq<T>, joins: seq<Joined>, sizes: seq<nat>, maxFail: Option<Amount>)
    returns (batches: seq<Batch<T>>, results: seq<NodeResult>, aborted: nat)
    requires sizes != [] && Sum(sizes) == |targets| == |joins|
    ensures IsRun(batches, sizes, targets, joins, maxFail)
    ensures aborted == |targets| - |HostsIn(batches)| && results == ResultsOf(joins[..|HostsIn(batches)|])
  {
    var taken, failed := 0, 0;
    batches, results, aborted := [], [], 0;
    for index := 0 to |sizes|
      invariant |batches| == index && taken == Taken(sizes, index) == |HostsIn(batches)| <= |targets|
      invariant InOrder(batches, sizes, targets, joins) && NeverPastLimit(batches, maxFail, |targets|)
      invariant results == ResultsOf(joins[..taken]) && failed == FailedIn(batches) && aborted == 0
      invariant 0 < index < |sizes| ==> !StopAfter(batches, maxFail, |targets|)
    {
      var batch, batchResults := StartBatch(targets, joins, sizes, batches, taken, sizes[index], maxFail);
      batches := batches + [batch];
      failed, results, taken := failed + batch.failed, results + batchResults, taken + sizes[index];
      if index + 1 < |sizes| && ReasonToStop(maxFail, failed, |targets|, sizes[index], batch.failed).Some? {
        aborted := |targets| - taken;
        break;
      }
    }
    TakenAll(sizes);
  }

  /** The run of one engine. `joins` is what joining each host's task gives, if it is started. */
  method Run<T>(targets: seq<T>, joins: seq<Joined>, serial: seq<Amount>, maxFail: Option<Amount>)
    returns (summary: RunSummary, batches: seq<Batch<T>>, sizes: seq<nat>)
    requires |joins| == |targets|
    ensures serial == [] || |targets| == 0 ==> sizes == [|targets|]
    ensures serial != [] && |targets| > 0 ==> FollowSerial(sizes, |targets|, serial)
    ensures IsRun(batches, sizes, targets, joins, maxFail)
    ensures summary.totalHosts == |targets| == summary.succeeded + summary.failed + summary.aborted
    ensures summary.aborted == |targets| - |HostsIn(batches)|
    ensures Sums(summary, ResultsOf(joins[..|HostsIn(batches)|]))
  {
    sizes := BatchSizes(|targets|, serial);
    var results, aborted;
    batches, results, aborted := RunBatches(targets, joins, sizes, maxFail);
    summary := Summarize(|targets|, results, aborted);
  }

  /** Failures end within the limit, but for the last started batch; without a limit, every
      batch before it had a host that succeeded. */
  lemma FailuresBounded<T>(batches: seq<Batch<T>>, sizes: seq<nat>, targets: seq<T>, joins: seq<Joined>,
                           maxFail: Option<Amount>)
    requires IsRun(batches, sizes, targets, joins, maxFail)
    ensures var last := batches[|batches| - 1];
            match maxFail
            case Some(max) => FailedIn(batches) <= Hosts(max, |targets|) + last.failed
            case None => forall k :: 0 <= k < |batches| - 1 && |batches[k].hosts| > 0 ==>
                                       batches[k].failed != |batches[k].hosts|
  {
    var n := |batches| - 1;
    var last := batches[n];
    assert batches == batches[..n] + [last];
    TotalAppend(batches[..n], last, (b: Batch<T>) => b.failed);
    if n == 0 {
      assert FailedIn(batches[..0]) == 0;
    } else {
      assert !Exceeded(maxFail, FailedIn(batches[..n]), |targets|, |batches[n - 1].hosts|, batches[n - 1].failed);
      ExceededMeans(maxFail, FailedIn(batches[..n]), |targets|, |batches[n - 1].hosts|, batches[n - 1].failed);
    }
    forall k | 0 <= k < n
      ensures !Exceeded(maxFail, FailedIn(batches[..k + 1]), |targets|, |batches[k].hosts|, batches[k].failed)
    {
      assert batches[(k + 1) - 1] == batches[k];
    }
  }

  /** A run that was not cut short ran every host. */
  lemma EveryHostRunsUnlessStopped<T>(batches: seq<Batch<T>>, sizes: seq<nat>, targets: seq<T>, joins: seq<Joined>,
                                      maxFail: Option<Amount>)
    requires IsRun(batches, sizes, targets, joins, maxFail)
    ensures !StopAfter(batches, maxFail, |targets|) ==> HostsIn(batches) == targets
  {
    TakenAll(sizes);
    assert targets[..|targets|] == targets;
  }

  // ---- Several groups ----

  /** A group's run, joined: its summary, an error, or a panic. */
  datatype Group = Summed(summary: RunSummary) | GroupError(error: string) | GroupPanicked

  datatype Part = TotalHosts | SucceededPart | FailedPart | ChangedPart | SkippedPart | AbortedPart

  function PartOf(part: Part, summary: RunSummary): nat {
    match part
    case TotalHosts => summary.totalHosts
    case SucceededPart => summary.succeeded
    case FailedPart => summary.failed
    case ChangedPart => summary.totalChanged
    case SkippedPart => summary.totalSkipped
    case AbortedPart => summary.aborted
  }

  function Of(group: Group, part: Part): nat {
    match group
    case Summed(summary) => PartOf(part, summary)
    case _ => 0
  }

  /** The sum over the groups that finished. */
  ghost function OverGroups(groups: seq<Group>, part: Part): nat {
    Total(groups, (g: Group) => Of(g, part))
  }

  function AddUp(a: RunSummary, b: RunSummary): RunSummary {
    RunSummary(a.totalHosts + b.totalHosts, a.succeeded + b.succeeded, a.failed + b.failed,
               a.totalChanged + b.totalChanged, a.totalSkipped + b.totalSkipped, a.aborted + b.aborted)
  }

  ghost predicate IsSumOf(sum: RunSummary, groups: seq<Group>) {
    forall part :: PartOf(part, sum) == OverGroups(groups, part)
  }

  predicate Conserves(summary: RunSummary) {
    summary.totalHosts == summary.succeeded + summary.failed + summary.aborted
  }

  /** The groups' totals: an error ends it; a panicked group counts for nothing. The total
      conserves hosts as every group's summary does. */
  method RunGroups(groups: seq<Group>) returns (r: Result<RunSummary, string>)
    ensures r.Err? <==> exists g :: g in groups && g.GroupError?
    ensures r.Ok? ==> IsSumOf(r.value, groups)
    ensures r.Ok? && (forall g :: g in groups && g.Summed? ==> Conserves(g.summary)) ==> Conserves(r.value)
  {
    var sum := RunSummary(0, 0, 0, 0, 0, 0);
    assert groups[..0] == [];
    for i := 0 to |groups|
      invariant forall j :: 0 <= j < i ==> !groups[j].GroupError?
      invariant IsSumOf(sum, groups[..i])
    {
      SumWith(sum, groups, i);
      match groups[i] {
        case Summed(summary) => sum := AddUp(sum, summary);
        case GroupError(error) => return Err(error);
        case GroupPanicked =>
      }
    }
    assert groups[..|groups|] == groups;
    SumConserves(sum, groups);
    r := Ok(sum);
  }

  lemma SumWith(sum: RunSummary, groups: seq<Group>, i: nat)
    requires i < |groups| && IsSumOf(sum, groups[..i])
    ensures groups[i].Summed? ==> IsSumOf(AddUp(sum, groups[i].summary), groups[..i + 1])
    ensures groups[i].GroupPanicked? ==> IsSumOf(sum, groups[..i + 1])
  {
    var group := groups[i];
    assert groups[..i + 1] == groups[..i] + [group];
    forall part ensures OverGroups(groups[..i + 1], part) == OverGroups(groups[..i], part) + Of(group, part) {
      TotalAppend(groups[..i], group, (g: Group) => Of(g, part));
    }
    if group.Summed? {
      forall part ensures PartOf(part, AddUp(sum, group.summary)) == PartOf(part, sum) + PartOf(part, group.summary) {
      }
    }
  }

  /** Sums of summaries that conserve hosts conserve them. */
  lemma SumConserves(sum: RunSummary, groups: seq<Group>)
    requires IsSumOf(sum, groups)
    ensures (forall g :: g in groups && g.Summed? ==> Conserves(g.summary)) ==> Conserves(sum)
  {
    if forall g :: g in groups && g.Summed? ==> Conserves(g.summary) {
      PartsConserve(groups);
      assert PartOf(TotalHosts, sum) == OverGroups(groups, TotalHosts);
      assert PartOf(SucceededPart, sum) == OverGroups(groups, SucceededPart);
      assert PartOf(FailedPart, sum) == OverGroups(groups, FailedPart);
      assert PartOf(AbortedPart, sum) == OverGroups(groups, AbortedPart);
    }
  }

  lemma {:induction false} PartsConserve(groups: seq<Group>)
    requires forall g :: g in groups && g.Summed? ==> Conserves(g.summary)
    ensures OverGroups(groups, TotalHosts)
            == OverGroups(groups, SucceededPart) + OverGroups(groups, FailedPart) + OverGroups(groups, AbortedPart)
  {
    if groups != [] {
      PartsConserve(groups[1..]);
      assert groups[0] in groups;
      OverOne(groups, TotalHosts);
      OverOne(groups, SucceededPart);
      OverOne(groups, FailedPart);
      OverOne(groups, AbortedPart);
    }
  }

  lemma OverOne(groups: seq<Group>, part: Part)
    requires groups != []
    ensures OverGroups(groups, part) == Of(groups[0], part) + OverGroups(groups[1..], part)
  {
  }
}
