/**
 * SyncStateManager (src/storage/sync-state.ts): the durable sync cursor, a small JSON
 * file holding the high watermark, the last activity id, a running total and the date
 * of the last sync. Loading falls back to an all-zero default when the file is absent.
 */
module SyncStates {
  import opened Util
  import opened JsonModel
  import opened Storage
  import opened Activities
  import opened DateUtils

  /** `number | string`: the sync stores the API's number, updateAfterSync a string. */
  datatype ActivityId = NumId(n: int) | StrId(s: string)

  datatype SyncState = SyncState(
    lastSyncTimestamp: real,
    lastActivityId: ActivityId,
    totalActivities: int,
    lastSyncDate: string)

  /** The state of a first run: `{0, '', 0, ''}`. */
  const DefaultState := SyncState(0.0, StrId(""), 0, "")

  function IdToJson(id: ActivityId): Json {
    match id
    case NumId(n) => JNum(n as real)
    case StrId(s) => JStr(s)
  }

  function IdFromJson(j: Json): Option<ActivityId> {
    if j.JStr? then Some(StrId(j.s))
    else match AsInt(j)
      case Some(n) => Some(NumId(n))
      case None => None
  }

  function ToJson(s: SyncState): Json {
    JObj(map[
      "last_sync_timestamp" := JNum(s.lastSyncTimestamp),
      "last_activity_id" := IdToJson(s.lastActivityId),
      "total_activities" := JNum(s.totalActivities as real),
      "last_sync_date" := JStr(s.lastSyncDate)])
  }

  /** The state a parsed file describes, if it has the four fields with the right types. */
  function FromJson(j: Json): Option<SyncState> {
    var ts := Field(j, "last_sync_timestamp");
    var id := Field(j, "last_activity_id");
    var total := Field(j, "total_activities");
    var date := Field(j, "last_sync_date");
    if ts.None? || id.None? || total.None? || date.None? then None
    else
      match (AsReal(ts.value), IdFromJson(id.value), AsInt(total.value), AsString(date.value))
      case (Some(t), Some(i), Some(n), Some(d)) => Some(SyncState(t, i, n, d))
      case _ => None
  }

  lemma FromToJson(s: SyncState)
    ensures FromJson(ToJson(s)) == Some(s)
  {
    var j := ToJson(s);
    assert Field(j, "last_activity_id") == Some(IdToJson(s.lastActivityId));
    assert Field(j, "total_activities") == Some(JNum(s.totalActivities as real));
  }

  /**
   * Why load failed: the file could not be read or parsed, or it parsed to something that
   * is not a state. The source casts the parsed value without checking, so the second
   * case stands for a state with undefined fields.
   */
  datatype LoadError = Unreadable(error: StoreError) | Malformed(path: string)

  /** What load finds in the files: the default when absent, else the decoded state. */
  function LoadFrom(files: map<string, string>, fullPath: string, codec: Codec): Result<SyncState, LoadError>
  {
    if fullPath !in files then Ok(DefaultState)
    else match ReadFrom(files, fullPath, codec)
      case Err(e) => Err(Unreadable(e))
      case Ok(j) =>
        match FromJson(j)
        case Some(s) => Ok(s)
        case None => Err(Malformed(fullPath))
  }

  /** A state written by save is what the next load returns. */
  lemma LoadAfterSave(files: map<string, string>, fullPath: string, tempPath: string, codec: Codec, s: SyncState)
    requires fullPath != tempPath
    requires RoundTripsOn(codec, ToJson(s))
    ensures LoadFrom(Committed(files, fullPath, tempPath, codec.stringify(ToJson(s))), fullPath, codec) == Ok(s)
  {
    ReadAfterCommit(files, fullPath, tempPath, codec, ToJson(s));
    FromToJson(s);
  }

  /** The watermark in seconds of an activity, as updateAfterSync computes it (not floored). */
  function StartSeconds(a: Activity): real {
    a.start as real / 1000.0
  }

  /**
   * The state updateAfterSync builds for a non-empty batch: the larger of the first
   * activity's time and the current watermark, the first activity's id as a string,
   * the total grown by the batch size, and the date of the sync.
   */
  function NextState(current: SyncState, activities: seq<Activity>, syncDate: string): (s: SyncState)
    requires |activities| > 0
    ensures s.lastSyncTimestamp >= current.lastSyncTimestamp
    ensures s.lastSyncTimestamp >= StartSeconds(activities[0])
    ensures s.lastSyncTimestamp == current.lastSyncTimestamp || s.lastSyncTimestamp == StartSeconds(activities[0])
    ensures s.lastActivityId == StrId(IntToString(activities[0].id))
    ensures s.totalActivities == current.totalActivities + |activities|
    ensures s.lastSyncDate == syncDate
  {
    var ts := StartSeconds(activities[0]);
    SyncState(
      if ts >= current.lastSyncTimestamp then ts else current.lastSyncTimestamp,
      StrId(IntToString(activities[0].id)),
      current.totalActivities + |activities|,
      syncDate)
  }

  /**
   * updateAfterSync trusts the batch to be newest first: given one that is not, the
   * watermark stops short of the newest activity.
   */
  lemma NextStateTrustsOrder()
    ensures var older := Activity(1, "", "Run", 1000, 1000, 0.0, 0, 0.0, None, None, JNull);
            var newer := Activity(2, "", "Run", 5000, 5000, 0.0, 0, 0.0, None, None, JNull);
            NextState(DefaultState, [older, newer], "").lastSyncTimestamp < StartSeconds(newer)
  {
  }

  datatype UpdateError = LoadFailed(error: LoadError) | SaveFailed(reason: string)

  class SyncStateManager {
    const statePath: string
    const store: FileStore

    constructor (statePath: string, store: FileStore)
      ensures this.statePath == statePath && this.store == store
    {
      this.statePath := statePath;
      this.store := store;
    }

    /** load: the default state when the file is absent, otherwise the stored state. */
    function Load(): (r: Result<SyncState, LoadError>)
      reads store
      ensures !store.Exists(statePath) ==> r == Ok(DefaultState)
      ensures store.Exists(statePath) ==>
        (r.Ok? <==> store.ReadJson(statePath).Ok? && FromJson(store.ReadJson(statePath).value).Some?)
      ensures r.Ok? && store.Exists(statePath) ==> FromJson(store.ReadJson(statePath).value) == Some(r.value)
    {
      LoadFrom(store.files, store.FullPath(statePath), store.codec)
    }

    /** save: writes exactly the given state. */
    method Save(state: SyncState, fault: WriteFault) returns (r: Outcome<string>)
      modifies store
      ensures fault.NoFault? <==> r.Pass?
      ensures r.Pass? ==> store.files == store.AfterWrite(old(store.files), statePath, store.codec.stringify(ToJson(state)))
      ensures r.Pass? && RoundTripsOn(store.codec, ToJson(state)) ==> Load() == Ok(state)
      ensures r.Fail? ==> r.error == fault.reason
      ensures r.Fail? ==> store.files == old(store.files) - {store.TempPath(statePath)}
    {
      r := store.WriteJson(statePath, ToJson(state), fault);
      if r.Pass? && RoundTripsOn(store.codec, ToJson(state)) {
        LoadAfterSave(old(store.files), store.FullPath(statePath), store.TempPath(statePath), store.codec, state);
      }
    }

    /**
     * updateAfterSync: an empty batch returns the current state and writes nothing; a
     * non-empty one saves and returns NextState.
     */
    method UpdateAfterSync(activities: seq<Activity>, nowMs: int, fault: WriteFault)
      returns (r: Result<SyncState, UpdateError>)
      modifies store
      ensures old(Load()).Err? ==> r == Err(LoadFailed(old(Load()).error)) && store.files == old(store.files)
      ensures old(Load()).Ok? && |activities| == 0 ==> r == Ok(old(Load()).value) && store.files == old(store.files)
      ensures old(Load()).Ok? && |activities| > 0 && fault.NoFault? ==>
        && r == Ok(NextState(old(Load()).value, activities, IsoString(nowMs)))
        && store.files == store.AfterWrite(old(store.files), statePath, store.codec.stringify(ToJson(r.value)))
      ensures old(Load()).Ok? && |activities| > 0 && !fault.NoFault? ==>
        && r == Err(SaveFailed(fault.reason))
        && store.files == old(store.files) - {store.TempPath(statePath)}
    {
      var current := Load();
      if current.Err? {
        return Err(LoadFailed(current.error));
      }
      if |activities| == 0 {
        return Ok(current.value);
      }
      var newState := NextState(current.value, activities, IsoString(nowMs));
      var saved := Save(newState, fault);
      if saved.Fail? {
        return Err(SaveFailed(saved.error));
      }
      return Ok(newState);
    }
  }
}
