/** The projections of
    be/apps/dashboard/src/modules/photos/components/sync/PhotoSyncProgressPanel.tsx:
    the four stage rows with their progress ratios, the summary counters,
    the window of recent log lines, the heading chosen by the run's state,
    the action label, and the detail segments of a log line.

    Labels are i18n keys; their translation is left out. Numbers are the
    exact values the sync run reports. */
module ProgressPanel {
  import opened Common

  // ---------------------------------------------------------------------
  // Stages
  // ---------------------------------------------------------------------

  /** `PhotoSyncProgressStage`. */
  datatype Stage = MissingInDb | OrphanInDb | MetadataConflicts | StatusReconciliation

  /** `STAGE_ORDER`. */
  const StageOrder: seq<Stage> := [MissingInDb, OrphanInDb, MetadataConflicts, StatusReconciliation]

  datatype StageStatus = Pending | Running | Completed

  /** A stage's reported state. */
  datatype StageState = StageState(total: real, processed: real, status: StageStatus)

  /** A rendered stage row. */
  datatype StageItem = StageItem(stage: Stage, total: real, processed: real, status: StageStatus, ratio: real)

  /** The filled share of a stage's progress bar. */
  function Ratio(total: real, processed: real, status: StageStatus): (r: real)
    ensures r <= 1.0
    ensures processed >= 0.0 ==> r >= 0.0
    ensures total > 0.0 && processed <= total ==> r * total == processed
    ensures total > 0.0 && processed >= total ==> r == 1.0
    ensures total <= 0.0 ==> (r == 1.0 <==> status == Completed) && (r == 0.0 <==> status != Completed)
  {
    if total > 0.0 then
      var share := processed / total;
      if share < 1.0 then share else 1.0
    else if status == Completed then 1.0
    else 0.0
  }

  /** A stage's bar never moves backwards while its total stays fixed. */
  lemma RatioIsMonotone(total: real, p1: real, p2: real, status: StageStatus)
    requires total > 0.0 && p1 <= p2
    ensures Ratio(total, p1, status) <= Ratio(total, p2, status)
  {
    if p2 < total {
      assert p1 / total <= p2 / total by {
        assert p1 / total * total == p1;
        assert p2 / total * total == p2;
      }
    }
  }

  /** The row of one stage; an unreported stage is pending with nothing
      to do. */
  function StageRow(stages: map<Stage, StageState>, s: Stage): (r: StageItem)
    ensures r.stage == s
    ensures s !in stages ==> r.total == 0.0 && r.processed == 0.0 && r.status == Pending && r.ratio == 0.0
    ensures s in stages ==> r.total == stages[s].total && r.processed == stages[s].processed && r.status == stages[s].status
    ensures r.ratio <= 1.0 && (r.processed >= 0.0 ==> r.ratio >= 0.0)
  {
    var st := if s in stages then stages[s] else StageState(0.0, 0.0, Pending);
    StageItem(s, st.total, st.processed, st.status, Ratio(st.total, st.processed, st.status))
  }

  /** `stageItems`: one row per stage, in `STAGE_ORDER`. */
  function StageItems(stages: map<Stage, StageState>): (r: seq<StageItem>)
    ensures |r| == |StageOrder|
    ensures forall i :: 0 <= i < |r| ==> r[i] == StageRow(stages, StageOrder[i])
  {
    seq(|StageOrder|, i requires 0 <= i < |StageOrder| => StageRow(stages, StageOrder[i]))
  }

  /** Every stage has exactly one row, whatever the run reported, and the
      rows come in the fixed order missing-in-db, orphan-in-db,
      metadata-conflicts, status-reconciliation. */
  lemma StageItemsCoverEveryStageOnce(stages: map<Stage, StageState>, s: Stage)
    ensures StageItems(stages)[0].stage == MissingInDb && StageItems(stages)[1].stage == OrphanInDb
    ensures StageItems(stages)[2].stage == MetadataConflicts && StageItems(stages)[3].stage == StatusReconciliation
    ensures exists i :: 0 <= i < |StageItems(stages)| && StageItems(stages)[i].stage == s
    ensures forall i, j :: 0 <= i < j < |StageItems(stages)| ==> StageItems(stages)[i].stage != StageItems(stages)[j].stage
  {
    var items := StageItems(stages);
    match s
    case MissingInDb => assert items[0].stage == s;
    case OrphanInDb => assert items[1].stage == s;
    case MetadataConflicts => assert items[2].stage == s;
    case StatusReconciliation => assert items[3].stage == s;
  }

  // ---------------------------------------------------------------------
  // Summary
  // ---------------------------------------------------------------------

  /** `progress.summary`. */
  datatype Summary = Summary(inserted: int, updated: int, conflicts: int, errors: int)

  /** The action type whose label each summary counter carries
      (`SUMMARY_FIELDS`). */
  const SummaryActionTypes: seq<string> := ["insert", "update", "conflict", "error"]

  /** `summaryItems`: label and value per counter, given the label of each
      action type. */
  function SummaryItems(summary: Summary, actionLabel: string -> string): (r: seq<(string, int)>)
    ensures |r| == |SummaryActionTypes|
    ensures forall i :: 0 <= i < |r| ==> r[i].0 == actionLabel(SummaryActionTypes[i])
    ensures [r[0].1, r[1].1, r[2].1, r[3].1] == [summary.inserted, summary.updated, summary.conflicts, summary.errors]
  {
    [(actionLabel("insert"), summary.inserted),
     (actionLabel("update"), summary.updated),
     (actionLabel("conflict"), summary.conflicts),
     (actionLabel("error"), summary.errors)]
  }

  // ---------------------------------------------------------------------
  // Recent logs
  // ---------------------------------------------------------------------

  datatype LogLevel = Info | Success | Warn | Error

  /** A log line of the run. `details` is the loosely typed record. */
  datatype Log = Log(
    id: string,
    level: LogLevel,
    message: string,
    storageKey: Option<string>,
    stage: Option<Stage>,
    details: Option<seq<(string, Json)>>,
    timestamp: int)

  /** How many log lines the panel shows. */
  const RecentLogLimit: nat := 8

  function Reverse<T>(s: seq<T>): (r: seq<T>)
    ensures |r| == |s|
    ensures forall i :: 0 <= i < |s| ==> r[i] == s[|s| - 1 - i]
  {
    if s == [] then [] else Reverse(s[1..]) + [s[0]]
  }

  /** `logs.slice(-8).reverse()`: the last eight lines (all of them when
      there are fewer), newest first. */
  function RecentLogs(logs: seq<Log>): (r: seq<Log>)
    ensures |r| == if |logs| < RecentLogLimit then |logs| else RecentLogLimit
    ensures forall i :: 0 <= i < |r| ==> r[i] == logs[|logs| - 1 - i]
  {
    var n := if |logs| < RecentLogLimit then |logs| else RecentLogLimit;
    Reverse(logs[|logs| - n..])
  }

  /** A new line goes to the top of the window and the others move down
      one place, the oldest dropping out once eight are shown. */
  lemma NewLogGoesOnTop(logs: seq<Log>, l: Log)
    ensures RecentLogs(logs + [l])[0] == l
    ensures var before := RecentLogs(logs);
            RecentLogs(logs + [l])[1..] == before[..if |before| < RecentLogLimit then |before| else RecentLogLimit - 1]
  {
    var after := RecentLogs(logs + [l]);
    var before := RecentLogs(logs);
    var m := if |before| < RecentLogLimit then |before| else RecentLogLimit - 1;
    assert after[0] == (logs + [l])[|logs|];
    assert |after[1..]| == m;
    forall i | 0 <= i < m
      ensures after[1..][i] == before[i]
    {
      assert after[1..][i] == after[i + 1];
      assert after[i + 1] == (logs + [l])[|logs| - 1 - i];
      assert before[i] == logs[|logs| - 1 - i];
    }
  }

  // ---------------------------------------------------------------------
  // Heading
  // ---------------------------------------------------------------------

  /** Which wording the header uses. */
  datatype Tone = ErrorTone | PreviewTone | RunningTone

  /** An error outranks a dry run, which outranks a plain run. */
  function HeadingTone(error: Option<string>, dryRun: bool): (r: Tone)
    ensures r == ErrorTone <==> Truthy(error)
    ensures r == PreviewTone <==> !Truthy(error) && dryRun
    ensures r == RunningTone <==> !Truthy(error) && !dryRun
  {
    if Truthy(error) then ErrorTone
    else if dryRun then PreviewTone
    else RunningTone
  }

  function ToneName(t: Tone): string {
    match t
    case ErrorTone => "error"
    case PreviewTone => "preview"
    case RunningTone => "running"
  }

  /** The i18n keys of heading, subtitle and status text. */
  datatype Header = Header(heading: string, subtitle: string, status: string)

  function HeaderKeys(error: Option<string>, dryRun: bool): (r: Header)
    ensures var t := ToneName(HeadingTone(error, dryRun));
            r.heading == "photos.sync.progress.heading." + t && r.subtitle == "photos.sync.progress.subtitle." + t
    ensures r.status == "photos.sync.progress.status." + (if Truthy(error) then "error" else "running")
  {
    var t := ToneName(HeadingTone(error, dryRun));
    Header("photos.sync.progress.heading." + t,
           "photos.sync.progress.subtitle." + t,
           "photos.sync.progress.status." + (if Truthy(error) then "error" else "running"))
  }

  /** The status reads "error" exactly when the heading does, and a dry
      run shows the preview wording only when there is no error. */
  lemma HeaderPrecedence(error: Option<string>, dryRun: bool)
    ensures (HeaderKeys(error, dryRun).status == "photos.sync.progress.status.error")
              == (HeaderKeys(error, dryRun).heading == "photos.sync.progress.heading.error")
    ensures HeaderKeys(error, dryRun).heading == "photos.sync.progress.heading.preview" <==> !Truthy(error) && dryRun
  {
    var h := HeaderKeys(error, dryRun);
    var p := "photos.sync.progress.heading.";
    if HeadingTone(error, dryRun) != ErrorTone {
      assert h.heading[|p|..] != "error";
      assert "photos.sync.progress.status.running"[28] != "photos.sync.progress.status.error"[28];
    }
    if HeadingTone(error, dryRun) != PreviewTone {
      assert h.heading[|p|..] != "preview";
    }
  }

  // ---------------------------------------------------------------------
  // Action label
  // ---------------------------------------------------------------------

  datatype ConflictPayload = ConflictPayload(conflictType: string)

  /** The part of `PhotoSyncAction` the label depends on. */
  datatype Action = Action(actionType: string, conflictPayload: Option<ConflictPayload>)

  /** The separator between the action and the conflict label. */
  const LabelSeparator: string := " \U{B7} "

  /** `formatActionLabel`, given the translated label of each action type
      and of each conflict type. */
  function FormatActionLabel(a: Action, actionLabel: string -> string, conflictLabel: string -> string): (r: string)
    ensures StartsWith(r, actionLabel(a.actionType))
    ensures r == actionLabel(a.actionType) <==> !(a.actionType == "conflict" && a.conflictPayload.Some?)
    ensures a.actionType == "conflict" && a.conflictPayload.Some? ==>
              r == actionLabel(a.actionType) + LabelSeparator + conflictLabel(a.conflictPayload.value.conflictType)
  {
    var base := actionLabel(a.actionType);
    if a.actionType == "conflict" && a.conflictPayload.Some? then
      base + LabelSeparator + conflictLabel(a.conflictPayload.value.conflictType)
    else base
  }

  // ---------------------------------------------------------------------
  // Log details
  // ---------------------------------------------------------------------

  /** One fragment of a log line's detail text. */
  datatype Segment =
    | IdSegment(photoId: string)
    | ResultSegment(resultType: string)
    | ManifestSegment(hasExisting: bool)
    | LivePhotoSegment(hasLivePhotoMap: bool)
    | ErrorSegment(error: string)

  /** The position each kind of fragment takes. */
  function Rank(s: Segment): nat {
    match s
    case IdSegment(_) => 0
    case ResultSegment(_) => 1
    case ManifestSegment(_) => 2
    case LivePhotoSegment(_) => 3
    case ErrorSegment(_) => 4
  }

  /** A detail field read only when it holds a string. */
  function StringDetail(details: Option<seq<(string, Json)>>, key: string): (r: Option<string>)
    ensures r.Some? <==> details.Some? && Get(details.value, key).Some? && Get(details.value, key).value.JStr?
    ensures r.Some? ==> Get(details.value, key) == Some(JStr(r.value))
  {
    if details.Some? then
      match Get(details.value, key)
      case Some(JStr(s)) => Some(s)
      case _ => None
    else None
  }

  /** A detail field read only when it holds a boolean. */
  function BoolDetail(details: Option<seq<(string, Json)>>, key: string): (r: Option<bool>)
    ensures r.Some? <==> details.Some? && Get(details.value, key).Some? && Get(details.value, key).value.JBool?
    ensures r.Some? ==> Get(details.value, key) == Some(JBool(r.value))
  {
    if details.Some? then
      match Get(details.value, key)
      case Some(JBool(b)) => Some(b)
      case _ => None
    else None
  }

  /** The fragment a slot contributes: none, or one. */
  function Slot(present: bool, s: Segment): (r: seq<Segment>)
    ensures present ==> r == [s]
    ensures !present ==> r == []
  {
    if present then [s] else []
  }

  /** `detailSegments`: strings count only when non-empty, booleans
      whichever their value; fields of the wrong type are ignored. */
  function DetailSegments(details: Option<seq<(string, Json)>>): (r: seq<Segment>)
    ensures |r| <= 5
    ensures forall i, j :: 0 <= i < j < |r| ==> Rank(r[i]) < Rank(r[j])
  {
    var photoId := StringDetail(details, "photoId");
    var resultType := StringDetail(details, "resultType");
    var error := StringDetail(details, "error");
    var hasExisting := BoolDetail(details, "hasExistingManifest");
    var hasLivePhoto := BoolDetail(details, "hasLivePhotoMap");
    var a := Slot(Truthy(photoId), IdSegment(if photoId.Some? then photoId.value else ""));
    var b := Slot(Truthy(resultType), ResultSegment(if resultType.Some? then resultType.value else ""));
    var c := Slot(hasExisting.Some?, ManifestSegment(hasExisting == Some(true)));
    var d := Slot(hasLivePhoto.Some?, LivePhotoSegment(hasLivePhoto == Some(true)));
    var e := Slot(Truthy(error), ErrorSegment(if error.Some? then error.value else ""));
    RanksIncrease(a, b, c, d, e);
    a + b + c + d + e
  }

  lemma RanksIncrease(a: seq<Segment>, b: seq<Segment>, c: seq<Segment>, d: seq<Segment>, e: seq<Segment>)
    requires |a| <= 1 && |b| <= 1 && |c| <= 1 && |d| <= 1 && |e| <= 1
    requires forall x :: x in a ==> Rank(x) == 0
    requires forall x :: x in b ==> Rank(x) == 1
    requires forall x :: x in c ==> Rank(x) == 2
    requires forall x :: x in d ==> Rank(x) == 3
    requires forall x :: x in e ==> Rank(x) == 4
    ensures var r := a + b + c + d + e;
            forall i, j :: 0 <= i < j < |r| ==> Rank(r[i]) < Rank(r[j])
  {
    var r := a + b + c + d + e;
    forall i, j | 0 <= i < j < |r|
      ensures Rank(r[i]) < Rank(r[j])
    {
      var bounds := [0, |a|, |a| + |b|, |a| + |b| + |c|, |a| + |b| + |c| + |d|];
      forall k | 0 <= k < |r|
        ensures Rank(r[k]) == if k < bounds[1] then 0 else if k < bounds[2] then 1
                              else if k < bounds[3] then 2 else if k < bounds[4] then 3 else 4
      {
        if k < bounds[1] { assert r[k] in a; }
        else if k < bounds[2] { assert r[k] == b[k - bounds[1]]; }
        else if k < bounds[3] { assert r[k] == c[k - bounds[2]]; }
        else if k < bounds[4] { assert r[k] == d[k - bounds[3]]; }
        else { assert r[k] == e[k - bounds[4]]; }
      }
    }
  }

  /** The fragments a line shows, slot by slot. */
  lemma InSlots(details: Option<seq<(string, Json)>>, x: Segment)
    ensures x in DetailSegments(details) <==>
              var photoId := StringDetail(details, "photoId");
              var resultType := StringDetail(details, "resultType");
              var error := StringDetail(details, "error");
              var hasExisting := BoolDetail(details, "hasExistingManifest");
              var hasLivePhoto := BoolDetail(details, "hasLivePhotoMap");
              || (Truthy(photoId) && x == IdSegment(photoId.value))
              || (Truthy(resultType) && x == ResultSegment(resultType.value))
              || (hasExisting.Some? && x == ManifestSegment(hasExisting.value))
              || (hasLivePhoto.Some? && x == LivePhotoSegment(hasLivePhoto.value))
              || (Truthy(error) && x == ErrorSegment(error.value))
  {
  }

  /** Which fragments a line shows: the photo id, result type and error
      when they are non-empty strings, the manifest and live-photo flags
      when they are booleans, of either value. */
  lemma DetailSegmentsContents(details: Option<seq<(string, Json)>>, x: string, flag: bool)
    ensures IdSegment(x) in DetailSegments(details) <==> StringDetail(details, "photoId") == Some(x) && x != ""
    ensures ResultSegment(x) in DetailSegments(details) <==> StringDetail(details, "resultType") == Some(x) && x != ""
    ensures ManifestSegment(flag) in DetailSegments(details) <==> BoolDetail(details, "hasExistingManifest") == Some(flag)
    ensures LivePhotoSegment(flag) in DetailSegments(details) <==> BoolDetail(details, "hasLivePhotoMap") == Some(flag)
    ensures ErrorSegment(x) in DetailSegments(details) <==> StringDetail(details, "error") == Some(x) && x != ""
  {
    InSlots(details, IdSegment(x));
    InSlots(details, ResultSegment(x));
    InSlots(details, ManifestSegment(flag));
    InSlots(details, LivePhotoSegment(flag));
    InSlots(details, ErrorSegment(x));
  }

  /** A line without details shows no detail text. */
  lemma NoDetailsNoSegments()
    ensures DetailSegments(None) == []
  {
  }
}
