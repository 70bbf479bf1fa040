/**
 * ActivitySync (src/sync/activity-sync.ts): the incremental sync. Pages of activities
 * newer than the stored watermark are fetched one by one; each Run is written to its
 * own file, and the sync state is committed after every page so that an interrupted
 * sync resumes from the last committed page.
 *
 * The API is the sequence `pages` of what each fetch answers (page k + 1 is `pages[k]`,
 * and every page past the end is empty). The writes of the sync are taken to succeed;
 * a failing fetch and an unreadable state file are the modelled errors.
 */
module Sync {
  import opened Util
  import opened JsonModel
  import opened Storage
  import opened Activities
  import opened DateUtils
  import opened SyncStates
  import Client

  /** `perPage`: a page shorter than this is the last one. */
  const PerPage := 200

  datatype FetchResult = Page(items: seq<Activity>) | FetchFailed(error: Client.ClientError)

  /** What the fetch of page `k + 1` answers. */
  function FetchAt(pages: seq<FetchResult>, k: nat): FetchResult {
    if k < |pages| then pages[k] else Page([])
  }

  /** The activities of page `k + 1`, none when that fetch failed. */
  function PageItems(pages: seq<FetchResult>, k: nat): seq<Activity> {
    if FetchAt(pages, k).Page? then FetchAt(pages, k).items else []
  }

  /** `after`: omitted exactly when the loaded watermark is 0. */
  function AfterOf(state: SyncState): (after: Option<real>)
    ensures after.None? <==> state.lastSyncTimestamp == 0.0
    ensures after.Some? ==> after.value == state.lastSyncTimestamp
  {
    if state.lastSyncTimestamp == 0.0 then None else Some(state.lastSyncTimestamp)
  }

  /** The query of the `k`-th fetch, counting from 0: page `k + 1`, 200 per page. */
  function QueryAt(state: SyncState, k: nat): Client.ActivitiesParams {
    Client.ActivitiesParams(AfterOf(state), Some(k + 1), Some(PerPage))
  }

  /** The queries of the first `n` fetches, in order. */
  function Queries(state: SyncState, n: nat): (q: seq<Client.ActivitiesParams>)
    ensures |q| == n
  {
    if n == 0 then [] else Queries(state, n - 1) + [QueryAt(state, n - 1)]
  }

  /** Fetch `k` asks for page `k + 1` with the loaded watermark as `after`, 200 per page. */
  lemma {:induction false} QueriesAt(state: SyncState, n: nat, k: nat)
    requires k < n
    ensures Queries(state, n)[k] == QueryAt(state, k)
    ensures Queries(state, n)[k].page == Some(k + 1) && Queries(state, n)[k].perPage == Some(PerPage)
    ensures Queries(state, n)[k].after == AfterOf(state)
  {
    if k < n - 1 {
      QueriesAt(state, n - 1, k);
    }
  }

  /**
   * The page's watermark, folded left to right into `base` as the inner loop does:
   * the largest of `base` and every activity's start in whole seconds.
   */
  function Watermark(base: real, page: seq<Activity>): (w: real)
    ensures w >= base
    ensures forall i :: 0 <= i < |page| ==> w >= EpochSeconds(page[i]) as real
    ensures w == base || exists i :: 0 <= i < |page| && w == EpochSeconds(page[i]) as real
  {
    if page == [] then base
    else
      var init := page[..|page| - 1];
      var w0 := Watermark(base, init);
      var t := EpochSeconds(page[|page| - 1]) as real;
      assert forall i :: 0 <= i < |init| ==> init[i] == page[i];
      if t > w0 then t else w0
  }

  /** `new Date(x)` keeps the integral part of a time value, rounding toward zero. */
  function TruncMs(x: real): (ms: int)
    ensures 0.0 <= x ==> ms as real <= x < ms as real + 1.0
    ensures x < 0.0 ==> ms as real - 1.0 < x <= ms as real
  {
    if x >= 0.0 then x.Floor else -((-x).Floor)
  }

  /**
   * The state committed after a page. Every field comes from the state loaded once at
   * the start of the sync and from this page alone.
   */
  function Commit(state: SyncState, page: seq<Activity>): SyncState
    requires |page| > 0
  {
    var w := Watermark(state.lastSyncTimestamp, page);
    SyncState(
      w,
      if page[0].id != 0 then NumId(page[0].id) else state.lastActivityId,
      state.totalActivities + |page|,
      SecondsToIso(w))
  }

  /** `new Date(seconds * 1000).toISOString()`. */
  const SecondsToIso: real -> string := w => IsoString(TruncMs(w * 1000.0))

  /**
   * The committed watermark is at least the loaded one and covers every activity of the
   * page, not just the first.
   */
  lemma CommitCoversPage(state: SyncState, page: seq<Activity>)
    requires |page| > 0
    ensures Commit(state, page).lastSyncTimestamp >= state.lastSyncTimestamp
    ensures forall i :: 0 <= i < |page| ==> Commit(state, page).lastSyncTimestamp >= EpochSeconds(page[i]) as real
  {
  }

  /**
   * Across pages the watermark can fall: each page's commit starts from the state loaded
   * at the start, so a page whose newest activity is older than one of an earlier page
   * (and which is above the loaded watermark) commits a lower watermark.
   */
  lemma CommitWatermarkCanFall(state: SyncState, p1: seq<Activity>, p2: seq<Activity>, newest: nat)
    requires |p2| > 0 && newest < |p1|
    requires state.lastSyncTimestamp < EpochSeconds(p1[newest]) as real
    requires forall i :: 0 <= i < |p2| ==> EpochSeconds(p2[i]) < EpochSeconds(p1[newest])
    ensures Commit(state, p2).lastSyncTimestamp < Commit(state, p1).lastSyncTimestamp
  {
    var w1 := Watermark(state.lastSyncTimestamp, p1);
    var w2 := Watermark(state.lastSyncTimestamp, p2);
    assert w1 >= EpochSeconds(p1[newest]) as real;
    if w2 != state.lastSyncTimestamp {
      var i :| 0 <= i < |p2| && w2 == EpochSeconds(p2[i]) as real;
      assert w2 < EpochSeconds(p1[newest]) as real;
    }
  }

  /** Page `k + 1` was fetched and held at least PerPage activities: the loop goes on after it. */
  predicate Full(pages: seq<FetchResult>, k: nat) {
    FetchAt(pages, k).Page? && |FetchAt(pages, k).items| >= PerPage
  }

  /** Pages 1 to `n` were fetched and each held at least PerPage activities. */
  predicate AllFull(pages: seq<FetchResult>, n: nat) {
    n == 0 || (AllFull(pages, n - 1) && Full(pages, n - 1))
  }

  /** One more full page: page `n + 1` full after `n` full pages makes `m == n + 1` full pages. */
  lemma AllFullStep(pages: seq<FetchResult>, n: nat, m: nat)
    requires AllFull(pages, n) && Full(pages, n) && m == n + 1
    ensures AllFull(pages, m)
  {
  }

  lemma {:induction false} AllFullPrefix(pages: seq<FetchResult>, n: nat, j: nat)
    requires AllFull(pages, n) && j < n
    ensures Full(pages, j)
  {
    if j < n - 1 {
      AllFullPrefix(pages, n - 1, j);
    }
  }

  /**
   * The loop's last fetch is determined by the pages: it is the first one that is not a
   * full page, so two runs over the same pages make the same fetches.
   */
  lemma LastFetchUnique(pages: seq<FetchResult>, a: nat, b: nat)
    requires AllFull(pages, a) && !Full(pages, a)
    requires AllFull(pages, b) && !Full(pages, b)
    ensures a == b
  {
    if a < b {
      AllFullPrefix(pages, b, a);
    } else if b < a {
      AllFullPrefix(pages, a, b);
    }
  }

  /** Every page past the answered ones is empty, so the loop makes at most |pages| + 1 fetches. */
  lemma {:induction false} AllFullWithin(pages: seq<FetchResult>, n: nat)
    requires AllFull(pages, n)
    ensures n <= |pages|
  {
    if n > 0 {
      AllFullWithin(pages, n - 1);
    }
  }

  /** totalFetched after `n` pages: the sum of their lengths. */
  function FetchedOf(pages: seq<FetchResult>, n: nat): nat {
    if n == 0 then 0 else FetchedOf(pages, n - 1) + |PageItems(pages, n - 1)|
  }

  /** newRuns after `n` pages: the number of Runs among them. */
  function NewRunsOf(pages: seq<FetchResult>, n: nat): nat {
    if n == 0 then 0 else NewRunsOf(pages, n - 1) + |Runs(PageItems(pages, n - 1))|
  }

  predicate EndsInDigit(p: string) {
    |p| > 0 && IsDigit(p[|p| - 1])
  }

  datatype SyncSummary = SyncSummary(newRuns: nat, totalFetched: nat, pagesProcessed: nat)

  datatype SyncError = StateUnreadable(loadError: LoadError) | FetchError(fetchError: Client.ClientError)

  class ActivitySync {
    const store: FileStore
    const stateManager: SyncStateManager
    const activitiesDir: string

    constructor (store: FileStore, stateManager: SyncStateManager, activitiesDir: string)
      ensures this.store == store && this.stateManager == stateManager && this.activitiesDir == activitiesDir
    {
      this.store := store;
      this.stateManager := stateManager;
      this.activitiesDir := activitiesDir;
    }

    /** `<activitiesDir>/<id>.json`. */
    function RunPath(id: int): string {
      activitiesDir + "/" + IntToString(id) + ".json"
    }

    lemma RunPathIsJson(id: int)
      ensures EndsWith(RunPath(id), ".json")
    {
      var p := RunPath(id);
      forall i | 0 <= i < 5
        ensures p[|p| - 5 + i] == ".json"[i]
      {
      }
    }

    /** The files after writing each of `runs`, in order, to its own file. */
    function WriteRuns(files: map<string, string>, runs: seq<Activity>): map<string, string>
    {
      if runs == [] then files
      else
        var last := runs[|runs| - 1];
        store.AfterWrite(WriteRuns(files, runs[..|runs| - 1]), RunPath(last.id), store.codec.stringify(last.raw))
    }

    /** The text of the state file saved after `page`, for the state loaded at the start. */
    function CommitText(state: SyncState, page: seq<Activity>): string {
      if page == [] then "" else store.codec.stringify(ToJson(Commit(state, page)))
    }

    /**
     * The files after one page: its Runs written, then the state file saved with `text`.
     * An empty page writes nothing.
     */
    function AfterPage(files: map<string, string>, page: seq<Activity>, text: string): map<string, string>
    {
      if page == [] then files
      else store.AfterWrite(WriteRuns(files, Runs(page)), stateManager.statePath, text)
    }

    /** The files after the first `n` pages, each page's state file text given by CommitText. */
    function AfterPages(files: map<string, string>, state: SyncState,
                        pages: seq<FetchResult>, n: nat): map<string, string>
    {
      if n == 0 then files
      else AfterPage(AfterPages(files, state, pages, n - 1), PageItems(pages, n - 1), CommitText(state, PageItems(pages, n - 1)))
    }

    lemma RunFileIsJson(id: int)
      ensures EndsWith(store.FullPath(RunPath(id)), ".json")
    {
      RunPathIsJson(id);
      ResolveKeepsPath(store.baseDir, RunPath(id));
      EndsWithTransitive(store.FullPath(RunPath(id)), RunPath(id), ".json");
    }

    /** A write never removes a `.json` file: only its own temporary file goes away. */
    lemma JsonSurvivesWrite(files: map<string, string>, filePath: string, content: string, p: string)
      requires EndsWith(p, ".json") && p in files
      ensures p in store.AfterWrite(files, filePath, content)
    {
      TempIsNotJson(store.FullPath(filePath), store.pid, p);
    }

    lemma {:induction false} WriteRunsKeepsJson(files: map<string, string>, runs: seq<Activity>, p: string)
      requires EndsWith(p, ".json") && p in files
      ensures p in WriteRuns(files, runs)
      decreases |runs|
    {
      if runs != [] {
        var last := runs[|runs| - 1];
        WriteRunsKeepsJson(files, runs[..|runs| - 1], p);
        JsonSurvivesWrite(WriteRuns(files, runs[..|runs| - 1]), RunPath(last.id), store.codec.stringify(last.raw), p);
      }
    }

    lemma {:induction false} WriteRunsPresent(files: map<string, string>, runs: seq<Activity>)
      ensures forall r :: r in runs ==> store.FullPath(RunPath(r.id)) in WriteRuns(files, runs)
      decreases |runs|
    {
      if runs != [] {
        var init := runs[..|runs| - 1];
        var last := runs[|runs| - 1];
        assert runs == init + [last];
        WriteRunsPresent(files, init);
        var before := WriteRuns(files, init);
        forall r | r in runs
          ensures store.FullPath(RunPath(r.id)) in WriteRuns(files, runs)
        {
          if r != last {
            RunFileIsJson(r.id);
            JsonSurvivesWrite(before, RunPath(last.id), store.codec.stringify(last.raw), store.FullPath(RunPath(r.id)));
          }
        }
      }
    }

    /** A page's Runs all have their files after the page. */
    lemma AfterPageHasRuns(before: map<string, string>, page: seq<Activity>, text: string)
      ensures forall r :: r in Runs(page) ==> store.FullPath(RunPath(r.id)) in AfterPage(before, page, text)
    {
      if page != [] {
        var runs := Runs(page);
        var written := WriteRuns(before, runs);
        WriteRunsPresent(before, runs);
        forall r | r in runs
          ensures store.FullPath(RunPath(r.id)) in store.AfterWrite(written, stateManager.statePath, text)
        {
          RunFileIsJson(r.id);
          JsonSurvivesWrite(written, stateManager.statePath, text, store.FullPath(RunPath(r.id)));
        }
      }
    }

    /** A page never removes a `.json` file. */
    lemma AfterPageKeepsJson(before: map<string, string>, page: seq<Activity>, text: string, p: string)
      requires EndsWith(p, ".json") && p in before
      ensures p in AfterPage(before, page, text)
    {
      if page != [] {
        var runs := Runs(page);
        WriteRunsKeepsJson(before, runs, p);
        JsonSurvivesWrite(WriteRuns(before, runs), stateManager.statePath, text, p);
      }
    }

    /** The first `k + 1` pages are the first `k` pages, then page `k`. */
    lemma AfterPagesUnfold(files: map<string, string>, state: SyncState, pages: seq<FetchResult>, k: nat)
      ensures AfterPages(files, state, pages, k + 1) ==
        AfterPage(AfterPages(files, state, pages, k), PageItems(pages, k), CommitText(state, PageItems(pages, k)))
    {
    }

    /** A Run of page `k` has its file after the first `k + 1` pages. */
    lemma RunFileOfPage(files: map<string, string>, state: SyncState, pages: seq<FetchResult>, k: nat, r: Activity)
      requires r in Runs(PageItems(pages, k))
      ensures store.FullPath(RunPath(r.id)) in AfterPages(files, state, pages, k + 1)
    {
      var page := PageItems(pages, k);
      var before := AfterPages(files, state, pages, k);
      AfterPagesUnfold(files, state, pages, k);
      AfterPageHasRuns(before, page, CommitText(state, page));
      assert store.FullPath(RunPath(r.id)) in AfterPage(before, page, CommitText(state, page));
    }

    /** A `.json` file present after the first `k` pages is still there after page `k`. */
    lemma JsonFileSurvivesPage(files: map<string, string>, state: SyncState, pages: seq<FetchResult>, k: nat, p: string)
      requires EndsWith(p, ".json") && p in AfterPages(files, state, pages, k)
      ensures p in AfterPages(files, state, pages, k + 1)
    {
      var page := PageItems(pages, k);
      AfterPagesUnfold(files, state, pages, k);
      AfterPageKeepsJson(AfterPages(files, state, pages, k), page, CommitText(state, page), p);
    }

    /** A `.json` file present after the first `m` pages is still there after the first `n`. */
    lemma {:induction false} JsonFileStays(files: map<string, string>, state: SyncState, pages: seq<FetchResult>,
                                           m: nat, n: nat, p: string)
      requires m <= n && EndsWith(p, ".json") && p in AfterPages(files, state, pages, m)
      ensures p in AfterPages(files, state, pages, n)
      decreases n - m
    {
      if m < n {
        JsonFileSurvivesPage(files, state, pages, m, p);
        JsonFileStays(files, state, pages, m + 1, n, p);
      }
    }

    /** Every Run of every processed page has its file. */
    lemma RunFilePresent(files: map<string, string>, state: SyncState,
                         pages: seq<FetchResult>, n: nat, k: nat, r: Activity)
      requires k < n && r in Runs(PageItems(pages, k))
      ensures store.FullPath(RunPath(r.id)) in AfterPages(files, state, pages, n)
    {
      RunFileOfPage(files, state, pages, k, r);
      RunFileIsJson(r.id);
      JsonFileStays(files, state, pages, k + 1, n, store.FullPath(RunPath(r.id)));
    }

    /** A write leaves alone every file other than its target and its temporary file. */
    lemma OtherSurvivesWrite(files: map<string, string>, filePath: string, content: string, p: string)
      requires p != store.FullPath(filePath) && !EndsInDigit(p)
      ensures p in store.AfterWrite(files, filePath, content) <==> p in files
      ensures p in files ==> store.AfterWrite(files, filePath, content)[p] == files[p]
    {
    }

    lemma {:induction false} WriteRunsLeavesOthers(files: map<string, string>, runs: seq<Activity>, p: string)
      requires !EndsWith(p, ".json") && !EndsInDigit(p)
      ensures p in WriteRuns(files, runs) <==> p in files
      ensures p in files ==> WriteRuns(files, runs)[p] == files[p]
      decreases |runs|
    {
      if runs != [] {
        var last := runs[|runs| - 1];
        WriteRunsLeavesOthers(files, runs[..|runs| - 1], p);
        RunFileIsJson(last.id);
        OtherSurvivesWrite(WriteRuns(files, runs[..|runs| - 1]), RunPath(last.id), store.codec.stringify(last.raw), p);
      }
    }

    /** Apart from `.json` files, temporary files and the state file, nothing is touched. */
    lemma {:induction false} OtherFilesUntouched(files: map<string, string>, state: SyncState,
                                                 pages: seq<FetchResult>, n: nat, p: string)
      requires p != store.FullPath(stateManager.statePath) && !EndsWith(p, ".json") && !EndsInDigit(p)
      ensures p in AfterPages(files, state, pages, n) <==> p in files
      ensures p in files ==> AfterPages(files, state, pages, n)[p] == files[p]
    {
      if n > 0 {
        OtherFilesUntouched(files, state, pages, n - 1, p);
        var before := AfterPages(files, state, pages, n - 1);
        var page := PageItems(pages, n - 1);
        var after := AfterPage(before, page, CommitText(state, page));
        assert AfterPages(files, state, pages, n) == after;
        OtherSurvivesPage(before, page, CommitText(state, page), p);
      }
    }

    /** A page leaves alone every file other than `.json` files, temporary files and the state file. */
    lemma OtherSurvivesPage(before: map<string, string>, page: seq<Activity>, text: string, p: string)
      requires p != store.FullPath(stateManager.statePath) && !EndsWith(p, ".json") && !EndsInDigit(p)
      ensures p in AfterPage(before, page, text) <==> p in before
      ensures p in before ==> AfterPage(before, page, text)[p] == before[p]
    {
      if page != [] {
        WriteRunsLeavesOthers(before, Runs(page), p);
        OtherSurvivesWrite(WriteRuns(before, Runs(page)), stateManager.statePath, text, p);
      }
    }

    /** The inner `for (const run of runs)` loop: each Run written to `<activitiesDir>/<id>.json`. */
    method WriteRunFiles(runs: seq<Activity>) returns (written: nat)
      modifies store
      ensures written == |runs|
      ensures store.files == WriteRuns(old(store.files), runs)
    {
      written := 0;
      while written < |runs|
        invariant 0 <= written <= |runs|
        invariant store.files == WriteRuns(old(store.files), runs[..written])
      {
        var run := runs[written];
        assert runs[..written + 1][..written] == runs[..written];
        var outcome := store.WriteJson(activitiesDir + "/" + IntToString(run.id) + ".json", run.raw, NoFault);
        written := written + 1;
      }
      assert runs[..written] == runs;
    }

    /** The inner `for (const activity of activities)` loop: the page's watermark. */
    static method PageWatermark(base: real, activities: seq<Activity>) returns (maxTimestamp: real)
      ensures maxTimestamp == Watermark(base, activities)
    {
      maxTimestamp := base;
      var i := 0;
      while i < |activities|
        invariant 0 <= i <= |activities|
        invariant maxTimestamp == Watermark(base, activities[..i])
      {
        assert activities[..i + 1][..i] == activities[..i];
        var timestamp := EpochSeconds(activities[i]) as real;
        if timestamp > maxTimestamp {
          maxTimestamp := timestamp;
        }
        i := i + 1;
      }
      assert activities[..i] == activities;
    }

    /** The state saved after a non-empty page: `newState` in the page loop. */
    static method CommitState(state: SyncState, activities: seq<Activity>) returns (newState: SyncState)
      requires |activities| > 0
      ensures newState == Commit(state, activities)
    {
      var maxTimestamp := PageWatermark(state.lastSyncTimestamp, activities);
      var lastActivityId := if activities[0].id != 0 then NumId(activities[0].id) else state.lastActivityId;
      var lastSyncDate := SecondsToIso(maxTimestamp);
      newState := SyncState(maxTimestamp, lastActivityId, state.totalActivities + |activities|, lastSyncDate);
    }

    /**
     * How the page loop ends when its last fetch is fetch `last` (counting from 0): every
     * earlier page was full and this one is not; the pages processed are all written; the
     * result is the fetch error or the summary of those pages.
     */
    predicate StoppedAt(state: SyncState, pages: seq<FetchResult>, before: map<string, string>,
                        after: map<string, string>, r: Result<SyncSummary, SyncError>, last: nat)
    {
      && AllFull(pages, last) && !Full(pages, last)
      && (FetchAt(pages, last).FetchFailed? ==>
            && r == Err(FetchError(FetchAt(pages, last).error))
            && after == AfterPages(before, state, pages, last))
      && (FetchAt(pages, last) == Page([]) ==>
            && r == Ok(SyncSummary(NewRunsOf(pages, last), FetchedOf(pages, last), last))
            && after == AfterPages(before, state, pages, last))
      && (FetchAt(pages, last).Page? && FetchAt(pages, last).items != [] ==>
            && r == Ok(SyncSummary(NewRunsOf(pages, last + 1), FetchedOf(pages, last + 1), last + 1))
            && after == AfterPages(before, state, pages, last + 1))
    }

    /**
     * What the page loop leaves behind, for the state loaded at the start: the fetches
     * made, one query each, and how the loop ended at the last of them.
     */
    predicate SyncedFrom(state: SyncState, pages: seq<FetchResult>, before: map<string, string>,
                         after: map<string, string>, r: Result<SyncSummary, SyncError>,
                         queries: seq<Client.ActivitiesParams>)
    {
      && |queries| >= 1 && queries == Queries(state, |queries|)
      && StoppedAt(state, pages, before, after, r, |queries| - 1)
    }

    /** The files, counters and queries after the first `n` pages. */
    predicate Done(state: SyncState, pages: seq<FetchResult>, before: map<string, string>,
                   files: map<string, string>, n: nat, newRuns: nat, totalFetched: nat,
                   queries: seq<Client.ActivitiesParams>)
    {
      && files == AfterPages(before, state, pages, n)
      && newRuns == NewRunsOf(pages, n) && totalFetched == FetchedOf(pages, n)
      && queries == Queries(state, n)
    }

    /**
     * The page loop's variables at the top of an iteration, after `n` full pages: the
     * page to fetch next, the files those pages left, their counters and the queries made.
     */
    predicate Progress(state: SyncState, pages: seq<FetchResult>, before: map<string, string>,
                       files: map<string, string>, page: nat, n: nat, newRuns: nat, totalFetched: nat,
                       queries: seq<Client.ActivitiesParams>)
    {
      && page == n + 1 && n <= |pages| && AllFull(pages, n)
      && Done(state, pages, before, files, n, newRuns, totalFetched, queries)
    }

    /**
     * The loop's variables right after processing page `n`, which was fetched and not
     * empty, every page before it being full.
     */
    predicate Processed(state: SyncState, pages: seq<FetchResult>, before: map<string, string>,
                        files: map<string, string>, page: nat, n: nat, newRuns: nat, totalFetched: nat,
                        queries: seq<Client.ActivitiesParams>)
    {
      && page == n && 0 < n <= |pages| && AllFull(pages, n - 1)
      && FetchAt(pages, n - 1).Page? && FetchAt(pages, n - 1).items != []
      && Done(state, pages, before, files, n, newRuns, totalFetched, queries)
    }

    /** The loop stops at a failed fetch after `n` full pages. */
    lemma StopOnFailure(state: SyncState, pages: seq<FetchResult>, before: map<string, string>,
                        files: map<string, string>, page: nat, n: nat, newRuns: nat, totalFetched: nat,
                        made: seq<Client.ActivitiesParams>, queries: seq<Client.ActivitiesParams>,
                        r: Result<SyncSummary, SyncError>)
      requires Progress(state, pages, before, files, page, n, newRuns, totalFetched, made)
      requires queries == made + [Client.ActivitiesParams(AfterOf(state), Some(page), Some(PerPage))]
      requires FetchAt(pages, page - 1).FetchFailed? && r == Err(FetchError(FetchAt(pages, page - 1).error))
      ensures SyncedFrom(state, pages, before, files, r, queries)
    {
      Synced(state, pages, before, files, r, n);
    }

    /** The loop stops at an empty page after `n` full pages. */
    lemma StopOnEmpty(state: SyncState, pages: seq<FetchResult>, before: map<string, string>,
                      files: map<string, string>, page: nat, n: nat, newRuns: nat, totalFetched: nat,
                      made: seq<Client.ActivitiesParams>, queries: seq<Client.ActivitiesParams>,
                      r: Result<SyncSummary, SyncError>)
      requires Progress(state, pages, before, files, page, n, newRuns, totalFetched, made)
      requires queries == made + [Client.ActivitiesParams(AfterOf(state), Some(page), Some(PerPage))]
      requires FetchAt(pages, page - 1).Page? && |FetchAt(pages, page - 1).items| == 0
      requires r == Ok(SyncSummary(newRuns, totalFetched, n))
      ensures SyncedFrom(state, pages, before, files, r, queries)
    {
      Synced(state, pages, before, files, r, n);
    }

    /** The loop stops after a short page. */
    lemma StopAfterShort(state: SyncState, pages: seq<FetchResult>, before: map<string, string>,
                         files: map<string, string>, page: nat, n: nat, newRuns: nat, totalFetched: nat,
                         queries: seq<Client.ActivitiesParams>, r: Result<SyncSummary, SyncError>)
      requires Processed(state, pages, before, files, page, n, newRuns, totalFetched, queries)
      requires |FetchAt(pages, page - 1).items| < PerPage
      requires r == Ok(SyncSummary(newRuns, totalFetched, n))
      ensures SyncedFrom(state, pages, before, files, r, queries)
    {
      var last := n - 1;
      assert last + 1 == n;
      assert !Full(pages, last);
      assert StoppedAt(state, pages, before, files, r, last);
      Synced(state, pages, before, files, r, last);
    }

    /** A full page: the loop goes on to the next one. */
    lemma GoOnAfterFull(state: SyncState, pages: seq<FetchResult>, before: map<string, string>,
                        files: map<string, string>, page: nat, n: nat, newRuns: nat, totalFetched: nat,
                        queries: seq<Client.ActivitiesParams>)
      requires Processed(state, pages, before, files, page, n, newRuns, totalFetched, queries)
      requires |FetchAt(pages, page - 1).items| >= PerPage
      ensures Progress(state, pages, before, files, page + 1, n, newRuns, totalFetched, queries)
    {
      assert Full(pages, n - 1);
      AllFullStep(pages, n - 1, n);
      assert Done(state, pages, before, files, n, newRuns, totalFetched, queries);
    }

    /** The state file exists and holds the text stringified from `state`. */
    predicate StateFileHolds(state: SyncState)
      reads store
    {
      var p := store.FullPath(stateManager.statePath);
      p in store.files && store.files[p] == store.codec.stringify(ToJson(state))
    }

    /** One more non-empty page: its Runs written over the files so far, then the state file. */
    lemma AfterPagesStep(files0: map<string, string>, state: SyncState, pages: seq<FetchResult>, k: nat)
      requires FetchAt(pages, k).Page? && |FetchAt(pages, k).items| > 0
      ensures AfterPages(files0, state, pages, k + 1) ==
        store.AfterWrite(WriteRuns(AfterPages(files0, state, pages, k), Runs(FetchAt(pages, k).items)),
                         stateManager.statePath, store.codec.stringify(ToJson(Commit(state, FetchAt(pages, k).items))))
    {
    }

    /**
     * The body of the page loop for a non-empty page `activities`: write its Runs, then save
     * the state built from the loaded state and this page.
     */
    method ProcessPage(state: SyncState, activities: seq<Activity>, ghost pages: seq<FetchResult>,
                       ghost page: nat, ghost n: nat, ghost newRuns: nat, ghost totalFetched: nat,
                       ghost made: seq<Client.ActivitiesParams>, ghost queries: seq<Client.ActivitiesParams>,
                       ghost before: map<string, string>)
      returns (written: nat)
      requires stateManager.store == store
      requires Progress(state, pages, before, store.files, page, n, newRuns, totalFetched, made)
      requires queries == made + [Client.ActivitiesParams(AfterOf(state), Some(page), Some(PerPage))]
      requires FetchAt(pages, page - 1).Page? && activities == FetchAt(pages, page - 1).items && |activities| > 0
      modifies store
      ensures written == |Runs(activities)|
      ensures Processed(state, pages, before, store.files, page, n + 1, newRuns + written, totalFetched + |activities|, queries)
    {
      AfterPagesStep(before, state, pages, n);
      written := WriteRunFiles(Runs(activities));
      var newState := CommitState(state, activities);
      var saved := stateManager.Save(newState, NoFault);
    }

    /** The loop ended at fetch `n`: its queries are those of fetches 0 to `n`. */
    lemma Synced(state: SyncState, pages: seq<FetchResult>, before: map<string, string>,
                 after: map<string, string>, r: Result<SyncSummary, SyncError>, n: nat)
      requires StoppedAt(state, pages, before, after, r, n)
      ensures SyncedFrom(state, pages, before, after, r, Queries(state, n + 1))
    {
    }

    /**
     * After a non-empty page `n - 1`, the state file holds the state committed for that
     * page, and load finds that state when the codec reads it back.
     */
    lemma LoadAfterPages(files0: map<string, string>, state: SyncState, pages: seq<FetchResult>, n: nat)
      requires stateManager.store == store
      requires 0 < n && FetchAt(pages, n - 1).Page? && FetchAt(pages, n - 1).items != []
      requires store.files == AfterPages(files0, state, pages, n)
      ensures StateFileHolds(Commit(state, FetchAt(pages, n - 1).items))
      ensures RoundTripsOn(store.codec, ToJson(Commit(state, FetchAt(pages, n - 1).items))) ==>
        stateManager.Load() == Ok(Commit(state, FetchAt(pages, n - 1).items))
    {
      var page := FetchAt(pages, n - 1).items;
      var written := WriteRuns(AfterPages(files0, state, pages, n - 1), Runs(page));
      var fullPath, tempPath := store.FullPath(stateManager.statePath), store.TempPath(stateManager.statePath);
      AfterPagesStep(files0, state, pages, n - 1);
      assert store.files == Committed(written, fullPath, tempPath, store.codec.stringify(ToJson(Commit(state, page))));
      if RoundTripsOn(store.codec, ToJson(Commit(state, page))) {
        LoadAfterSave(written, fullPath, tempPath, store.codec, Commit(state, page));
        assert stateManager.Load() == LoadFrom(store.files, fullPath, store.codec);
      }
    }

    /**
     * After the page loop, the state file holds the commit of the last non-empty page:
     * the last fetch's own page, or the full page before a failed or empty fetch. Load
     * finds that commit when the codec reads it back.
     */
    lemma LoadAfterSync(state: SyncState, pages: seq<FetchResult>, before: map<string, string>,
                        r: Result<SyncSummary, SyncError>, queries: seq<Client.ActivitiesParams>)
      requires stateManager.store == store
      requires SyncedFrom(state, pages, before, store.files, r, queries)
      ensures FetchAt(pages, |queries| - 1).Page? && FetchAt(pages, |queries| - 1).items != [] ==>
        var c := Commit(state, FetchAt(pages, |queries| - 1).items);
        StateFileHolds(c) && (RoundTripsOn(store.codec, ToJson(c)) ==> stateManager.Load() == Ok(c))
      ensures |queries| > 1 && PageItems(pages, |queries| - 1) == [] ==>
        var c := Commit(state, FetchAt(pages, |queries| - 2).items);
        StateFileHolds(c) && (RoundTripsOn(store.codec, ToJson(c)) ==> stateManager.Load() == Ok(c))
    {
      var last := |queries| - 1;
      if FetchAt(pages, last).Page? && FetchAt(pages, last).items != [] {
        LoadAfterPages(before, state, pages, last + 1);
      } else if last > 0 {
        assert Full(pages, last - 1);
        LoadAfterPages(before, state, pages, last);
      }
    }

    /**
     * After a full first page and a short second one, the state file holds the commit of
     * the second page alone: its total is the loaded total plus the second page, fewer
     * than the activities fetched by the sync.
     */
    lemma TotalNotCumulative(state: SyncState, pages: seq<FetchResult>, before: map<string, string>,
                             r: Result<SyncSummary, SyncError>, queries: seq<Client.ActivitiesParams>)
      requires stateManager.store == store
      requires Full(pages, 0)
      requires FetchAt(pages, 1).Page? && 0 < |FetchAt(pages, 1).items| < PerPage
      requires SyncedFrom(state, pages, before, store.files, r, queries)
      ensures |queries| == 2
      ensures StateFileHolds(Commit(state, PageItems(pages, 1)))
      ensures Commit(state, PageItems(pages, 1)).totalActivities == state.totalActivities + |PageItems(pages, 1)|
      ensures Commit(state, PageItems(pages, 1)).totalActivities < state.totalActivities + FetchedOf(pages, 2)
      ensures RoundTripsOn(store.codec, ToJson(Commit(state, PageItems(pages, 1)))) ==>
        stateManager.Load() == Ok(Commit(state, PageItems(pages, 1)))
    {
      var last := |queries| - 1;
      assert AllFull(pages, last) && !Full(pages, last);
      AllFullStep(pages, 0, 1);
      LastFetchUnique(pages, last, 1);
      var second := FetchAt(pages, 1).items;
      assert PageItems(pages, 1) == second;
      LoadAfterSync(state, pages, before, r, queries);
      assert StateFileHolds(Commit(state, second));
      assert Commit(state, second).totalActivities == state.totalActivities + |second|;
      assert FetchedOf(pages, 1) == |PageItems(pages, 0)| >= PerPage;
    }

    /**
     * The same two pages, when the first holds an activity newer than every one of the
     * second and than the loaded watermark: the watermark left in the state file is below
     * the one saved after the first page.
     */
    lemma WatermarkFallsAcrossPages(state: SyncState, pages: seq<FetchResult>, before: map<string, string>,
                                    r: Result<SyncSummary, SyncError>, queries: seq<Client.ActivitiesParams>,
                                    newest: nat)
      requires stateManager.store == store
      requires Full(pages, 0)
      requires FetchAt(pages, 1).Page? && 0 < |FetchAt(pages, 1).items| < PerPage
      requires SyncedFrom(state, pages, before, store.files, r, queries)
      requires newest < |PageItems(pages, 0)|
      requires state.lastSyncTimestamp < EpochSeconds(PageItems(pages, 0)[newest]) as real
      requires forall i :: 0 <= i < |PageItems(pages, 1)| ==>
        EpochSeconds(PageItems(pages, 1)[i]) < EpochSeconds(PageItems(pages, 0)[newest])
      ensures StateFileHolds(Commit(state, PageItems(pages, 1)))
      ensures Commit(state, PageItems(pages, 1)).lastSyncTimestamp < Commit(state, PageItems(pages, 0)).lastSyncTimestamp
      ensures RoundTripsOn(store.codec, ToJson(Commit(state, PageItems(pages, 1)))) ==>
        stateManager.Load().Ok? &&
        stateManager.Load().value.lastSyncTimestamp < Commit(state, PageItems(pages, 0)).lastSyncTimestamp
    {
      TotalNotCumulative(state, pages, before, r, queries);
      CommitWatermarkCanFall(state, PageItems(pages, 0), PageItems(pages, 1), newest);
    }

    /**
     * The page loop of syncNewActivities, for the state loaded at the start: fetch page
     * after page until a fetch fails or a page is not full.
     */
    method FetchLoop(state: SyncState, pages: seq<FetchResult>)
      returns (r: Result<SyncSummary, SyncError>, queries: seq<Client.ActivitiesParams>)
      requires stateManager.store == store
      modifies store
      ensures SyncedFrom(state, pages, old(store.files), store.files, r, queries)
    {
      var after := AfterOf(state);
      var newRuns: nat, totalFetched: nat, pagesProcessed: nat := 0, 0, 0;
      var page: nat := 1;
      queries := [];
      while true
        invariant Progress(state, pages, old(store.files), store.files, page, pagesProcessed, newRuns, totalFetched, queries)
        decreases |pages| - pagesProcessed
      {
        var query := Client.ActivitiesParams(after, Some(page), Some(PerPage));
        ghost var made := queries;
        queries := queries + [query];
        var fetched := FetchAt(pages, page - 1);
        if fetched.FetchFailed? {
          r := Err(FetchError(fetched.error));
          StopOnFailure(state, pages, old(store.files), store.files, page, pagesProcessed, newRuns, totalFetched, made, queries, r);
          return;
        }
        var activities := fetched.items;
        if |activities| == 0 {
          r := Ok(SyncSummary(newRuns, totalFetched, pagesProcessed));
          StopOnEmpty(state, pages, old(store.files), store.files, page, pagesProcessed, newRuns, totalFetched, made, queries, r);
          return;
        }
        var written := ProcessPage(state, activities, pages, page, pagesProcessed, newRuns, totalFetched, made, queries, old(store.files));
        newRuns := newRuns + written;
        totalFetched := totalFetched + |activities|;
        pagesProcessed := pagesProcessed + 1;
        if |activities| < PerPage {
          r := Ok(SyncSummary(newRuns, totalFetched, pagesProcessed));
          StopAfterShort(state, pages, old(store.files), store.files, page, pagesProcessed, newRuns, totalFetched, queries, r);
          return;
        }
        GoOnAfterFull(state, pages, old(store.files), store.files, page, pagesProcessed, newRuns, totalFetched, queries);
        page := page + 1;
      }
    }

    /**
     * syncNewActivities: load the state once, then run the page loop from page 1 with
     * that state's watermark as `after`. A state file that cannot be read ends the sync
     * before any fetch.
     */
    method SyncNewActivities(pages: seq<FetchResult>)
      returns (r: Result<SyncSummary, SyncError>, queries: seq<Client.ActivitiesParams>)
      requires stateManager.store == store
      modifies store
      ensures old(stateManager.Load()).Err? ==>
        r == Err(StateUnreadable(old(stateManager.Load()).error)) && queries == [] && store.files == old(store.files)
      ensures old(stateManager.Load()).Ok? ==>
        SyncedFrom(old(stateManager.Load()).value, pages, old(store.files), store.files, r, queries)
      ensures old(stateManager.Load()).Ok? && FetchAt(pages, |queries| - 1).Page? && FetchAt(pages, |queries| - 1).items != [] ==>
        var c := Commit(old(stateManager.Load()).value, FetchAt(pages, |queries| - 1).items);
        StateFileHolds(c) && (RoundTripsOn(store.codec, ToJson(c)) ==> stateManager.Load() == Ok(c))
      ensures old(stateManager.Load()).Ok? && |queries| > 1 && PageItems(pages, |queries| - 1) == [] ==>
        var c := Commit(old(stateManager.Load()).value, FetchAt(pages, |queries| - 2).items);
        StateFileHolds(c) && (RoundTripsOn(store.codec, ToJson(c)) ==> stateManager.Load() == Ok(c))
    {
      var loaded := stateManager.Load();
      if loaded.Err? {
        return Err(StateUnreadable(loaded.error)), [];
      }
      r, queries := FetchLoop(loaded.value, pages);
      LoadAfterSync(loaded.value, pages, old(store.files), r, queries);
    }
  }
}
