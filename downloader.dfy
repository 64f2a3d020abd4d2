/**
 * `ConcurrentDownloader::download`: for each URL, read the resume offset once,
 * wrap `downloadFile` in the retry policy (3 attempts), turn the outcome into a
 * settled result, wait for all of them and split them into successful and
 * failed downloads.
 *
 * The pipelines share nothing before the join, so running them one after the
 * other gives the same results as running them concurrently. The filesystem is
 * a map from path to file size; `env(i)(j)` is the environment of the j-th
 * attempt for the i-th URL.
 */
module Downloader {

  import opened Throwables
  import opened Promises
  import opened Settled
  import opened DataObjects
  import opened Transfer
  import opened Paths
  import opened Retrier
  import opened Wrappers
  import Decimal

  /** The attempt count the call site intends to pass to `Retrier::attempt`. */
  const MaxAttempts: int := 3

  /** `getExistingBytesDownloadedAmount`: the size of the file if it exists, otherwise 0. */
  function ExistingBytes(fs: map<string, nat>, path: string): (n: nat)
    ensures path in fs ==> n == fs[path]
    ensures path !in fs ==> n == 0
  {
    if path in fs then fs[path] else 0
  }

  /** Where a URL is saved: `$targetDir . basename($url)`. */
  function SavePath(targetDir: string, url: string): string {
    targetDir + Basename(url)
  }

  /** The path starts with the target directory and, after a directory prefix, ends in the URL's basename. */
  lemma SavePathKeepsBasename(targetDir: string, url: string)
    ensures var p := SavePath(targetDir, url);
      |p| >= |targetDir| && p[..|targetDir|] == targetDir &&
      (IsDirectoryPrefix(targetDir) ==> Basename(p) == Basename(url))
  {
    Paths.BasenameIsLastSegment(url);
    if IsDirectoryPrefix(targetDir) {
      BasenameAfterDirectory(targetDir, Basename(url));
    }
  }

  /** Without a trailing `/` the directory's last segment joins the file name: `d` and `f` give `df`. */
  lemma DirectoryWithoutSlash()
    ensures SavePath("d", "f") == "df" && Basename(SavePath("d", "f")) == "df"
  {
    assert Basename("f") == "f";
    assert Basename("df") == "df" by {
      assert "df"[..1] == "d";
      assert Basename("d") == "d";
    }
  }

  /** `settlePromise`: a promise that never rejects and records the outcome of `p`. */
  function SettlePromise<T>(p: Promise<T>): (r: Promise<SettledPromiseResult<T>>)
    ensures !r.Rejected?
    ensures r.Pending? <==> p.Pending?
    ensures r.Fulfilled? ==> r.value.AsPromise() == p
  {
    match p
    case Pending => Pending
    case Fulfilled(v) => Fulfilled(SettledFulfilled(v))
    case Rejected(e) => Fulfilled(SettledRejected(e))
  }

  /** The closure handed to the retry policy: every run uses the same URL, path and offset. */
  function TransferAction(url: string, saveTo: string, offset: nat, env: nat -> AttemptEnv): nat -> Promise<DownloadedFile> {
    (j: nat) => TransferSpec(url, saveTo, offset, env(j)).outcome
  }

  /** The retry promise for one URL: the offset is read once, before the first attempt. */
  function RetryOutcome(url: string, targetDir: string, fs: map<string, nat>, env: nat -> AttemptEnv):
    Promise<DownloadedFile>
  {
    var saveTo := SavePath(targetDir, url);
    ExpectedTrace(MaxAttempts, TransferAction(url, saveTo, ExistingBytes(fs, saveTo), env)).outcome
  }

  /** The settled promise built for one URL. */
  function UrlPipeline(url: string, targetDir: string, fs: map<string, nat>, env: nat -> AttemptEnv):
    Promise<SettledDownload>
  {
    SettlePromise(RetryOutcome(url, targetDir, fs, env))
  }

  function Pipelines(urls: seq<string>, targetDir: string, fs: map<string, nat>, env: nat -> nat -> AttemptEnv):
    (ps: seq<Promise<SettledDownload>>)
    ensures |ps| == |urls|
    ensures forall i :: 0 <= i < |urls| ==> ps[i] == UrlPipeline(urls[i], targetDir, fs, env(i))
  {
    seq(|urls|, i requires 0 <= i < |urls| => UrlPipeline(urls[i], targetDir, fs, env(i)))
  }

  /**
   * `all()`: fulfils with every value, in input order, once every promise has
   * fulfilled; rejects if one rejects (the earliest by position stands for the
   * earliest in time); otherwise stays pending.
   */
  function All<T>(ps: seq<Promise<T>>): (r: Promise<seq<T>>)
    ensures r.Fulfilled? <==> forall i :: 0 <= i < |ps| ==> ps[i].Fulfilled?
    ensures r.Fulfilled? ==> |r.value| == |ps| && forall i :: 0 <= i < |ps| ==> ps[i] == Fulfilled(r.value[i])
    ensures r.Rejected? <==> exists i :: 0 <= i < |ps| && ps[i].Rejected?
  {
    if ps == [] then Fulfilled([])
    else
      var init := All(ps[..|ps| - 1]);
      var last := ps[|ps| - 1];
      if init.Rejected? then init
      else if last.Rejected? then Rejected(last.reason)
      else if init.Fulfilled? && last.Fulfilled? then Fulfilled(init.value + [last.value])
      else Pending
  }

  /** `array_filter` on a list of settled results, keeping those in `state`, with their original keys. */
  function FilterByState<T>(a: seq<SettledPromiseResult<T>>, state: string): seq<Entry<SettledPromiseResult<T>>> {
    if a == [] then []
    else
      var last := a[|a| - 1];
      FilterByState(a[..|a| - 1], state) + (if last.GetState() == state then [Entry(|a| - 1, last)] else [])
  }

  /** The body of the `all()->then` callback. */
  function Partition(results: seq<SettledDownload>): (r: DownloadsResult)
    ensures |r.successfulDownloads| + |r.failedDownloads| == |results|
  {
    PartitionSizes(results);
    DownloadsResult(FilterByState(results, STATE_FULFILLED), FilterByState(results, STATE_REJECTED))
  }

  /** `all($promises)->then(...)`: the report once every settled promise is in. */
  function Join(joined: Promise<seq<SettledDownload>>): (r: Promise<DownloadsResult>)
    ensures r.Pending? <==> joined.Pending?
    ensures r.Rejected? <==> joined.Rejected?
    ensures r.Rejected? ==> r.reason == joined.reason
    ensures r.Fulfilled? ==> |r.value.successfulDownloads| + |r.value.failedDownloads| == |joined.value|
  {
    match joined
    case Fulfilled(results) => Fulfilled(Partition(results))
    case Pending => Pending
    case Rejected(e) => Rejected(e)
  }

  /** Reference definition of `download`. */
  function DownloadSpec(urls: seq<string>, targetDir: string, fs: map<string, nat>, env: nat -> nat -> AttemptEnv):
    Promise<DownloadsResult>
  {
    Join(All(Pipelines(urls, targetDir, fs, env)))
  }

  lemma JoinOfPipelines(urls: seq<string>, targetDir: string, fs: map<string, nat>, env: nat -> nat -> AttemptEnv,
                        promises: seq<Promise<SettledDownload>>)
    requires |promises| == |urls|
    requires forall k :: 0 <= k < |urls| ==> promises[k] == UrlPipeline(urls[k], targetDir, fs, env(k))
    ensures Join(All(promises)) == DownloadSpec(urls, targetDir, fs, env)
  {
    assert promises == Pipelines(urls, targetDir, fs, env);
  }

  /** `download($loop, $output, $browser, $downloadUrls, $targetDir)`. */
  method Download(urls: seq<string>, targetDir: string, fs: map<string, nat>, env: nat -> nat -> AttemptEnv)
    returns (result: Promise<DownloadsResult>)
    ensures result == DownloadSpec(urls, targetDir, fs, env)
  {
    var promises: seq<Promise<SettledDownload>> := [];
    for i := 0 to |urls|
      invariant |promises| == i
      invariant forall k :: 0 <= k < i ==> promises[k] == UrlPipeline(urls[k], targetDir, fs, env(k))
    {
      var url := urls[i];
      var saveTo := SavePath(targetDir, url);
      var bytesDownloaded := ExistingBytes(fs, saveTo);
      var trace := Attempt(MaxAttempts, TransferAction(url, saveTo, bytesDownloaded, env(i)));
      promises := promises + [SettlePromise(trace.outcome)];
    }
    JoinOfPipelines(urls, targetDir, fs, env, promises);
    result := Join(All(promises));
  }

  /** Every kept entry is the input element at its key and is in `state`; keys strictly increase. */
  lemma {:induction false} FilterByStateSound<T>(a: seq<SettledPromiseResult<T>>, state: string)
    ensures forall p :: 0 <= p < |FilterByState(a, state)| ==>
      var e := FilterByState(a, state)[p];
      e.key < |a| && a[e.key] == e.value && e.value.GetState() == state
    ensures forall p, q :: 0 <= p < q < |FilterByState(a, state)| ==>
      FilterByState(a, state)[p].key < FilterByState(a, state)[q].key
  {
    if a != [] {
      var init := a[..|a| - 1];
      FilterByStateSound(init, state);
      var f := FilterByState(a, state);
      var g := FilterByState(init, state);
      assert f == g + (if a[|a| - 1].GetState() == state then [Entry(|a| - 1, a[|a| - 1])] else []);
      forall p | 0 <= p < |f|
        ensures f[p].key < |a| && a[f[p].key] == f[p].value && f[p].value.GetState() == state
      {
        if p < |g| {
          assert f[p] == g[p];
          assert init[g[p].key] == a[g[p].key];
        }
      }
      forall p, q | 0 <= p < q < |f|
        ensures f[p].key < f[q].key
      {
        assert f[p] == g[p];
        if q < |g| {
          assert f[q] == g[q];
        }
      }
    }
  }

  /** Every input element in `state` is kept, under its own key. */
  lemma {:induction false} FilterByStateComplete<T>(a: seq<SettledPromiseResult<T>>, state: string)
    ensures forall i :: 0 <= i < |a| && a[i].GetState() == state ==> Entry(i, a[i]) in FilterByState(a, state)
  {
    if a != [] {
      var init := a[..|a| - 1];
      FilterByStateComplete(init, state);
      forall i | 0 <= i < |a| - 1 && a[i].GetState() == state
        ensures Entry(i, a[i]) in FilterByState(a, state)
      {
        assert init[i] == a[i];
      }
    }
  }

  /** Each settled result lands in exactly one of the two filters. */
  lemma {:induction false} PartitionSizes<T>(a: seq<SettledPromiseResult<T>>)
    ensures |FilterByState(a, STATE_FULFILLED)| + |FilterByState(a, STATE_REJECTED)| == |a|
  {
    if a != [] {
      PartitionSizes(a[..|a| - 1]);
    }
  }

  /** `download` never rejects: a failed URL becomes a rejected settled result instead. */
  lemma DownloadNeverRejects(urls: seq<string>, targetDir: string, fs: map<string, nat>, env: nat -> nat -> AttemptEnv)
    ensures !DownloadSpec(urls, targetDir, fs, env).Rejected?
  {
  }

  /** The report is produced exactly when every URL's retry promise has settled. */
  lemma DownloadSettlesWhenEveryUrlSettles(urls: seq<string>, targetDir: string, fs: map<string, nat>,
                                           env: nat -> nat -> AttemptEnv)
    ensures DownloadSpec(urls, targetDir, fs, env).Fulfilled? <==>
            forall i :: 0 <= i < |urls| ==> !RetryOutcome(urls[i], targetDir, fs, env(i)).Pending?
  {
    DownloadNeverRejects(urls, targetDir, fs, env);
  }

  /** The settled results the report is built from, one per URL, in input order. */
  lemma SettledResults(urls: seq<string>, targetDir: string, fs: map<string, nat>, env: nat -> nat -> AttemptEnv)
    returns (results: seq<SettledDownload>)
    requires DownloadSpec(urls, targetDir, fs, env).Fulfilled?
    ensures DownloadSpec(urls, targetDir, fs, env) == Fulfilled(Partition(results))
    ensures |results| == |urls|
    ensures forall i :: 0 <= i < |urls| ==> results[i].AsPromise() == RetryOutcome(urls[i], targetDir, fs, env(i))
  {
    var ps := Pipelines(urls, targetDir, fs, env);
    results := All(ps).value;
    forall i | 0 <= i < |urls|
      ensures results[i].AsPromise() == RetryOutcome(urls[i], targetDir, fs, env(i))
    {
      assert ps[i] == Fulfilled(results[i]);
    }
  }

  /** Every URL is reported once: the two lists together are as long as the URL list. */
  lemma ReportCountsEveryUrl(urls: seq<string>, targetDir: string, fs: map<string, nat>, env: nat -> nat -> AttemptEnv)
    requires DownloadSpec(urls, targetDir, fs, env).Fulfilled?
    ensures var r := DownloadSpec(urls, targetDir, fs, env).value;
      |r.successfulDownloads| + |r.failedDownloads| == |urls|
  {
    var results := SettledResults(urls, targetDir, fs, env);
    PartitionSizes(results);
  }

  /**
   * The successful list holds exactly the URLs whose retry promise fulfilled,
   * each under its position as key, with its value, in input order.
   */
  lemma SuccessfulAreExactlyTheFulfilled(urls: seq<string>, targetDir: string, fs: map<string, nat>,
                                         env: nat -> nat -> AttemptEnv)
    requires DownloadSpec(urls, targetDir, fs, env).Fulfilled?
    ensures var ok := DownloadSpec(urls, targetDir, fs, env).value.successfulDownloads;
      var outcomes := Outcomes(urls, targetDir, fs, env);
      (forall p :: 0 <= p < |ok| ==>
        ok[p].key < |urls| && ok[p].value.SettledFulfilled? && ok[p].value.AsPromise() == outcomes[ok[p].key]) &&
      (forall i :: 0 <= i < |urls| && outcomes[i].Fulfilled? ==> Entry(i, SettledFulfilled(outcomes[i].value)) in ok) &&
      (forall p, q :: 0 <= p < q < |ok| ==> ok[p].key < ok[q].key)
  {
    PipelinesSettleOutcomes(urls, targetDir, fs, env);
    SuccessfulOfJoin(Pipelines(urls, targetDir, fs, env), Outcomes(urls, targetDir, fs, env));
  }

  /**
   * The failed list holds exactly the URLs whose retry promise rejected, each
   * under its position as key, with its reason, in input order.
   */
  lemma FailedAreExactlyTheRejected(urls: seq<string>, targetDir: string, fs: map<string, nat>,
                                    env: nat -> nat -> AttemptEnv)
    requires DownloadSpec(urls, targetDir, fs, env).Fulfilled?
    ensures var failed := DownloadSpec(urls, targetDir, fs, env).value.failedDownloads;
      var outcomes := Outcomes(urls, targetDir, fs, env);
      (forall p :: 0 <= p < |failed| ==>
        failed[p].key < |urls| && failed[p].value.SettledRejected? && failed[p].value.AsPromise() == outcomes[failed[p].key]) &&
      (forall i :: 0 <= i < |urls| && outcomes[i].Rejected? ==> Entry(i, SettledRejected(outcomes[i].reason)) in failed) &&
      (forall p, q :: 0 <= p < q < |failed| ==> failed[p].key < failed[q].key)
  {
    PipelinesSettleOutcomes(urls, targetDir, fs, env);
    FailedOfJoin(Pipelines(urls, targetDir, fs, env), Outcomes(urls, targetDir, fs, env));
  }

  /** The retry outcome of every URL, in input order. */
  function Outcomes(urls: seq<string>, targetDir: string, fs: map<string, nat>, env: nat -> nat -> AttemptEnv):
    (outcomes: seq<Promise<DownloadedFile>>)
    ensures |outcomes| == |urls|
    ensures forall i :: 0 <= i < |urls| ==> outcomes[i] == RetryOutcome(urls[i], targetDir, fs, env(i))
  {
    seq(|urls|, i requires 0 <= i < |urls| => RetryOutcome(urls[i], targetDir, fs, env(i)))
  }

  /** Each URL's settled promise settles that URL's retry outcome. */
  lemma PipelinesSettleOutcomes(urls: seq<string>, targetDir: string, fs: map<string, nat>, env: nat -> nat -> AttemptEnv)
    ensures var ps := Pipelines(urls, targetDir, fs, env);
      var outcomes := Outcomes(urls, targetDir, fs, env);
      |ps| == |outcomes| && forall i :: 0 <= i < |ps| ==> ps[i] == SettlePromise(outcomes[i])
  {
  }

  /** The successful list of the joined report holds exactly the fulfilled outcomes, keyed, in order. */
  lemma SuccessfulOfJoin(ps: seq<Promise<SettledDownload>>, outcomes: seq<Promise<DownloadedFile>>)
    requires |ps| == |outcomes|
    requires forall i :: 0 <= i < |ps| ==> ps[i] == SettlePromise(outcomes[i])
    requires Join(All(ps)).Fulfilled?
    ensures var ok := Join(All(ps)).value.successfulDownloads;
      (forall p :: 0 <= p < |ok| ==>
        ok[p].key < |outcomes| && ok[p].value.SettledFulfilled? && ok[p].value.AsPromise() == outcomes[ok[p].key]) &&
      (forall i :: 0 <= i < |outcomes| && outcomes[i].Fulfilled? ==> Entry(i, SettledFulfilled(outcomes[i].value)) in ok) &&
      (forall p, q :: 0 <= p < q < |ok| ==> ok[p].key < ok[q].key)
  {
    SettledValues(ps, outcomes);
    FulfilledEntries(All(ps).value, outcomes);
  }

  /** The failed list of the joined report holds exactly the rejected outcomes, keyed, in order. */
  lemma FailedOfJoin(ps: seq<Promise<SettledDownload>>, outcomes: seq<Promise<DownloadedFile>>)
    requires |ps| == |outcomes|
    requires forall i :: 0 <= i < |ps| ==> ps[i] == SettlePromise(outcomes[i])
    requires Join(All(ps)).Fulfilled?
    ensures var failed := Join(All(ps)).value.failedDownloads;
      (forall p :: 0 <= p < |failed| ==>
        failed[p].key < |outcomes| && failed[p].value.SettledRejected? &&
        failed[p].value.AsPromise() == outcomes[failed[p].key]) &&
      (forall i :: 0 <= i < |outcomes| && outcomes[i].Rejected? ==>
        Entry(i, SettledRejected(outcomes[i].reason)) in failed) &&
      (forall p, q :: 0 <= p < q < |failed| ==> failed[p].key < failed[q].key)
  {
    SettledValues(ps, outcomes);
    RejectedEntries(All(ps).value, outcomes);
  }

  /** Once `all()` fulfils over settled promises, its values record the outcomes, position by position. */
  lemma SettledValues<T>(ps: seq<Promise<SettledPromiseResult<T>>>, outcomes: seq<Promise<T>>)
    requires |ps| == |outcomes|
    requires forall i :: 0 <= i < |ps| ==> ps[i] == SettlePromise(outcomes[i])
    requires All(ps).Fulfilled?
    ensures |All(ps).value| == |outcomes|
    ensures forall i :: 0 <= i < |outcomes| ==> All(ps).value[i].AsPromise() == outcomes[i]
  {
    forall i | 0 <= i < |outcomes|
      ensures All(ps).value[i].AsPromise() == outcomes[i]
    {
      assert ps[i] == Fulfilled(All(ps).value[i]);
    }
  }

  /** The fulfilled filter over results that record `outcomes`: exactly the fulfilled ones, keyed, in order. */
  lemma FulfilledEntries<T>(results: seq<SettledPromiseResult<T>>, outcomes: seq<Promise<T>>)
    requires |results| == |outcomes|
    requires forall i :: 0 <= i < |results| ==> results[i].AsPromise() == outcomes[i]
    ensures var ok := FilterByState(results, STATE_FULFILLED);
      (forall p :: 0 <= p < |ok| ==>
        ok[p].key < |outcomes| && ok[p].value.SettledFulfilled? && ok[p].value.AsPromise() == outcomes[ok[p].key]) &&
      (forall i :: 0 <= i < |outcomes| && outcomes[i].Fulfilled? ==> Entry(i, SettledFulfilled(outcomes[i].value)) in ok) &&
      (forall p, q :: 0 <= p < q < |ok| ==> ok[p].key < ok[q].key)
  {
    FilterByStateSound(results, STATE_FULFILLED);
    FilterByStateComplete(results, STATE_FULFILLED);
    forall i | 0 <= i < |outcomes| && outcomes[i].Fulfilled?
      ensures Entry(i, SettledFulfilled(outcomes[i].value)) in FilterByState(results, STATE_FULFILLED)
    {
      assert results[i] == SettledFulfilled(outcomes[i].value);
    }
  }

  /** The rejected filter over results that record `outcomes`: exactly the rejected ones, keyed, in order. */
  lemma RejectedEntries<T>(results: seq<SettledPromiseResult<T>>, outcomes: seq<Promise<T>>)
    requires |results| == |outcomes|
    requires forall i :: 0 <= i < |results| ==> results[i].AsPromise() == outcomes[i]
    ensures var failed := FilterByState(results, STATE_REJECTED);
      (forall p :: 0 <= p < |failed| ==>
        failed[p].key < |outcomes| && failed[p].value.SettledRejected? &&
        failed[p].value.AsPromise() == outcomes[failed[p].key]) &&
      (forall i :: 0 <= i < |outcomes| && outcomes[i].Rejected? ==>
        Entry(i, SettledRejected(outcomes[i].reason)) in failed) &&
      (forall p, q :: 0 <= p < q < |failed| ==> failed[p].key < failed[q].key)
  {
    FilterByStateSound(results, STATE_REJECTED);
    FilterByStateComplete(results, STATE_REJECTED);
    forall i | 0 <= i < |outcomes| && outcomes[i].Rejected?
      ensures Entry(i, SettledRejected(outcomes[i].reason)) in FilterByState(results, STATE_REJECTED)
    {
      assert results[i] == SettledRejected(outcomes[i].reason);
    }
  }

  /**
   * A URL's retry promise fulfils only with the file saved at
   * `targetDir . basename(url)` and named by that path's basename. When the
   * directory is empty or ends in `/`, the name is the URL's basename;
   * otherwise the directory's last segment is glued onto it.
   */
  lemma RetryFulfilsWithSavedFile(url: string, targetDir: string, fs: map<string, nat>, env: nat -> AttemptEnv)
    requires RetryOutcome(url, targetDir, fs, env).Fulfilled?
    ensures var saveTo := SavePath(targetDir, url);
      RetryOutcome(url, targetDir, fs, env).value == DownloadedFile(url, Basename(saveTo), saveTo)
    ensures IsDirectoryPrefix(targetDir) ==>
      RetryOutcome(url, targetDir, fs, env).value == DownloadedFile(url, Basename(url), targetDir + Basename(url))
  {
    var saveTo := SavePath(targetDir, url);
    var offset := ExistingBytes(fs, saveTo);
    var action := TransferAction(url, saveTo, offset, env);
    FulfilledByARun(MaxAttempts, action);
    var j :| 0 <= j < Limit(MaxAttempts) && action(j) == ExpectedTrace(MaxAttempts, action).outcome;
    OutcomeIsCompletedFileOrCause(url, saveTo, offset, env(j));
    SavePathKeepsBasename(targetDir, url);
  }

  /**
   * A URL's retry promise rejects only after three failed attempts, with a
   * `TooManyRetriesException` holding the three errors.
   */
  lemma RetryRejectsAfterThreeAttempts(url: string, targetDir: string, fs: map<string, nat>, env: nat -> AttemptEnv)
    requires RetryOutcome(url, targetDir, fs, env).Rejected?
    ensures var reason := RetryOutcome(url, targetDir, fs, env).reason;
      reason.TooManyRetries? && |reason.exception.exceptions| == 3 &&
      reason.exception.message == "Max attempts of 3 reached"
  {
    var saveTo := SavePath(targetDir, url);
    var action := TransferAction(url, saveTo, ExistingBytes(fs, saveTo), env);
    assert Limit(MaxAttempts) == 3;
    RejectionMeansExhaustion(MaxAttempts, action);
    RejectsAfterExhaustion(MaxAttempts, action);
    ThreeAttemptsMessage();
  }

  /**
   * The offset is read once per URL: every attempt that opens the file asks for
   * `Range: bytes=<size of the file before the first attempt>-`.
   */
  lemma EveryAttemptResumesAtTheSameOffset(url: string, targetDir: string, fs: map<string, nat>, env: nat -> AttemptEnv, j: nat)
    requires env(j).open.Opened?
    ensures var saveTo := SavePath(targetDir, url);
      var t := TransferSpec(url, saveTo, ExistingBytes(fs, saveTo), env(j));
      t.request.Some? &&
      ParseRangeHeader(t.request.value.headers["Range"]) == Some(if saveTo in fs then fs[saveTo] else 0) &&
      t.outcome == TransferAction(url, saveTo, ExistingBytes(fs, saveTo), env)(j)
  {
    var saveTo := SavePath(targetDir, url);
    RequestResumesAtOffset(url, saveTo, ExistingBytes(fs, saveTo), env(j));
  }

  /**
   * Resuming a file that is already complete: the server answers 416, the file
   * is opened for appending (not truncated) and the URL counts as downloaded.
   */
  lemma ResumeOfCompleteFile(url: string, targetDir: string, fs: map<string, nat>, env: nat -> AttemptEnv)
    requires SavePath(targetDir, url) in fs && fs[SavePath(targetDir, url)] > 0
    requires env(0).open.Opened? && env(0).events != [] && env(0).events[0] == RequestFailed(ResponseError(416))
    ensures var saveTo := SavePath(targetDir, url);
      TransferSpec(url, saveTo, ExistingBytes(fs, saveTo), env(0)).mode == "a" &&
      UrlPipeline(url, targetDir, fs, env) ==
        Fulfilled(SettledFulfilled(DownloadedFile(url, Basename(saveTo), saveTo)))
  {
    var saveTo := SavePath(targetDir, url);
    var action := TransferAction(url, saveTo, ExistingBytes(fs, saveTo), env);
    assert action(0) == Fulfilled(DownloadedFile(url, Basename(saveTo), saveTo));
    FulfilsWithFirstSuccess(MaxAttempts, action, 0, DownloadedFile(url, Basename(saveTo), saveTo));
  }

  /** Every attempt opens the file and the stream closes normally. */
  function StreamsToCompletion(): nat -> AttemptEnv {
    (j: nat) => AttemptEnv(Opened, [StreamClosed])
  }

  /** Every attempt opens the file and the server answers with `status`. */
  function AnswersWithStatus(status: int): nat -> AttemptEnv {
    (j: nat) => AttemptEnv(Opened, [RequestFailed(ResponseError(status))])
  }

  /** A URL whose every attempt streams to completion is fulfilled on the first attempt. */
  lemma UrlThatDownloadsAtOnce(url: string, targetDir: string, fs: map<string, nat>, env: nat -> AttemptEnv)
    requires env == StreamsToCompletion()
    ensures UrlPipeline(url, targetDir, fs, env) ==
            Fulfilled(SettledFulfilled(Completed(url, SavePath(targetDir, url))))
  {
    var saveTo := SavePath(targetDir, url);
    var offset := ExistingBytes(fs, saveTo);
    var action := TransferAction(url, saveTo, offset, env);
    var e0 := env(0);
    assert e0 == AttemptEnv(Opened, [StreamClosed]);
    assert e0.events[0] == StreamClosed;
    assert TransferSpec(url, saveTo, offset, e0).outcome == Fulfilled(Completed(url, saveTo));
    assert action(0) == Fulfilled(Completed(url, saveTo));
    FulfilsWithFirstSuccess(MaxAttempts, action, 0, Completed(url, saveTo));
  }

  /** A URL whose server always answers with a status other than 416 is reported failed after three attempts. */
  lemma UrlThatAlwaysFails(url: string, targetDir: string, fs: map<string, nat>, env: nat -> AttemptEnv, status: int)
    requires env == AnswersWithStatus(status)
    requires status != 416
    ensures UrlPipeline(url, targetDir, fs, env) ==
            Fulfilled(SettledRejected(TooManyRetries(TooManyRetriesException(
              "Max attempts of 3 reached", 0,
              [ResponseError(status), ResponseError(status), ResponseError(status)],
              Some(ResponseError(status))))))
  {
    var saveTo := SavePath(targetDir, url);
    var offset := ExistingBytes(fs, saveTo);
    var action := TransferAction(url, saveTo, offset, env);
    forall j: nat ensures action(j) == Rejected(ResponseError(status)) {
      var ej := env(j);
      assert ej == AttemptEnv(Opened, [RequestFailed(ResponseError(status))]);
      assert ej.events[0] == RequestFailed(ResponseError(status));
      assert TransferSpec(url, saveTo, offset, ej).outcome == Rejected(ResponseError(status));
    }
    AlwaysFailingThreeAttempts(action);
  }

  /**
   * Three URLs where the first and third settle as downloaded and the second
   * as failed (for instance the environments of `UrlThatDownloadsAtOnce` and
   * `UrlThatAlwaysFails`): the report lists the successes under keys 0 and 2
   * and the failure under key 1, each with its own settled result.
   */
  lemma OneFailingUrlAmongThree(urls: seq<string>, targetDir: string, fs: map<string, nat>, env: nat -> nat -> AttemptEnv,
                                results: seq<SettledDownload>)
    requires |urls| == 3 && |results| == 3
    requires UrlPipeline(urls[0], targetDir, fs, env(0)) == Fulfilled(results[0])
    requires UrlPipeline(urls[1], targetDir, fs, env(1)) == Fulfilled(results[1])
    requires UrlPipeline(urls[2], targetDir, fs, env(2)) == Fulfilled(results[2])
    requires results[0].SettledFulfilled? && results[1].SettledRejected? && results[2].SettledFulfilled?
    ensures DownloadSpec(urls, targetDir, fs, env) ==
            Fulfilled(DownloadsResult([Entry(0, results[0]), Entry(2, results[2])], [Entry(1, results[1])]))
  {
    var ps := Pipelines(urls, targetDir, fs, env);
    AllOfThree(ps, results);
    assert DownloadSpec(urls, targetDir, fs, env) == Fulfilled(Partition(results));
    PartitionOfThree(results);
  }

  lemma AllOfThree<T>(ps: seq<Promise<T>>, values: seq<T>)
    requires |values| == 3 && |ps| == 3
    requires ps[0] == Fulfilled(values[0]) && ps[1] == Fulfilled(values[1]) && ps[2] == Fulfilled(values[2])
    ensures All(ps) == Fulfilled(values)
  {
    var p1, p2 := ps[..1], ps[..2];
    assert p1[..0] == [] && p2[..1] == p1 && ps[..2] == p2;
    assert p1 == [Fulfilled(values[0])] && p2 == p1 + [Fulfilled(values[1])] && ps == p2 + [Fulfilled(values[2])];
    assert All(p1[..0]) == Fulfilled([]);
    assert [] + [values[0]] == [values[0]];
    assert All(p1) == Fulfilled([values[0]]);
    assert [values[0]] + [values[1]] == [values[0], values[1]];
    assert All(p2) == Fulfilled([values[0], values[1]]);
    assert [values[0], values[1]] + [values[2]] == values;
  }

  lemma PartitionOfThree(a: seq<SettledDownload>)
    requires |a| == 3 && a[0].SettledFulfilled? && a[1].SettledRejected? && a[2].SettledFulfilled?
    ensures Partition(a) == DownloadsResult([Entry(0, a[0]), Entry(2, a[2])], [Entry(1, a[1])])
  {
    FilterOfThree(a);
  }

  lemma FilterOfThree<T>(a: seq<SettledPromiseResult<T>>)
    requires |a| == 3 && a[0].SettledFulfilled? && a[1].SettledRejected? && a[2].SettledFulfilled?
    ensures FilterByState(a, STATE_FULFILLED) == [Entry(0, a[0]), Entry(2, a[2])]
    ensures FilterByState(a, STATE_REJECTED) == [Entry(1, a[1])]
  {
    var a1, a2 := a[..1], a[..2];
    assert a1[..0] == [] && a2[..1] == a1 && a[..2] == a2;
    assert a[0].GetState() == STATE_FULFILLED && a[1].GetState() == STATE_REJECTED && a[2].GetState() == STATE_FULFILLED;
    assert FilterByState(a1, STATE_FULFILLED) == [Entry(0, a[0])];
    assert FilterByState(a2, STATE_FULFILLED) == [Entry(0, a[0])];
    assert FilterByState(a1, STATE_REJECTED) == [];
    assert FilterByState(a2, STATE_REJECTED) == [Entry(1, a[1])];
  }
}
