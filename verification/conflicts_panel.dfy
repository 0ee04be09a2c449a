/** The state logic of
    be/apps/dashboard/src/modules/photos/components/sync/PhotoSyncConflictsPanel.tsx:
    conflicts shown newest first, a selection set pruned whenever the list
    changes, the tri-state "select all" box, the expanded row, and the
    bookkeeping of single and batch resolution.

    The resolve handlers are parameters: whether each is provided and
    whether each call succeeds. Dates are their parsed millisecond values. */
module ConflictsPanel {
  import opened Common
  import Sorting

  datatype Payload = Payload(conflictType: string, incomingStorageKey: Option<string>)

  datatype Manifest = Manifest(originalUrl: Option<string>, thumbnailUrl: Option<string>)

  /** `PhotoSyncConflict`, with `updatedAt` as `new Date(..).getTime()`. */
  datatype Conflict = Conflict(
    id: string,
    photoId: Option<string>,
    storageKey: string,
    updatedAt: int,
    payload: Option<Payload>,
    manifest: Option<Manifest>)

  // ---------------------------------------------------------------------
  // Ordering
  // ---------------------------------------------------------------------

  /** The comparator `b.updatedAt - a.updatedAt` read as "a may precede b". */
  function NewerFirst(): (Conflict, Conflict) -> bool {
    (a: Conflict, b: Conflict) => b.updatedAt - a.updatedAt <= 0
  }

  lemma NewerFirstIsTotalPreorder()
    ensures Sorting.TotalPreorder(NewerFirst())
  {
  }

  /** `sortedConflicts`: [] without conflicts, else a permutation ordered
      by `updatedAt`, newest first. */
  function SortedConflicts(conflicts: Option<seq<Conflict>>): (r: seq<Conflict>)
    ensures conflicts.None? ==> r == []
    ensures conflicts.Some? ==> multiset(r) == multiset(conflicts.value)
    ensures forall i, j :: 0 <= i < j < |r| ==> r[i].updatedAt >= r[j].updatedAt
    ensures conflicts.Some? ==> forall z :: Sorting.Ties(r, z, NewerFirst()) == Sorting.Ties(conflicts.value, z, NewerFirst())
  {
    match conflicts
    case None => []
    case Some(cs) =>
      NewerFirstIsTotalPreorder();
      Sorting.InsertionSortStableAll(cs, NewerFirst());
      var r := Sorting.InsertionSort(cs, NewerFirst());
      assert forall i, j :: 0 <= i < j < |r| ==> NewerFirst()(r[i], r[j]);
      r
  }

  /** The ids of the listed conflicts. */
  function IdSet(cs: seq<Conflict>): (r: set<string>)
    ensures forall id :: id in r <==> exists i :: 0 <= i < |cs| && cs[i].id == id
  {
    set i | 0 <= i < |cs| :: cs[i].id
  }

  /** The ids in display order. */
  function Ids(cs: seq<Conflict>): (r: seq<string>)
    ensures |r| == |cs| && forall i :: 0 <= i < |cs| ==> r[i] == cs[i].id
  {
    if cs == [] then [] else [cs[0].id] + Ids(cs[1..])
  }

  // ---------------------------------------------------------------------
  // Selection
  // ---------------------------------------------------------------------

  /** The pruning effect run whenever the sorted list changes: the
      selection is cut down to the ids still listed. `reused` tells whether
      the previous set object is handed back (it is exactly when nothing
      had to go). */
  method PruneSelection(prev: set<string>, sorted: seq<Conflict>) returns (sel: set<string>, reused: bool)
    ensures sel == prev * IdSet(sorted)
    ensures reused <==> prev <= IdSet(sorted)
  {
    if |prev| == 0 {
      return prev, true;
    }
    var next := KeepListed(prev, sorted);
    if |next| == |prev| {
      var same := Contains(next, prev);
      if same {
        return prev, true;
      }
    }
    assert prev <= IdSet(sorted) ==> next == prev;
    return next, false;
  }

  /** The ids of `prev` that are still listed, collected in list order. */
  method KeepListed(prev: set<string>, sorted: seq<Conflict>) returns (next: set<string>)
    ensures next == prev * IdSet(sorted)
  {
    next := {};
    var i := 0;
    while i < |sorted|
      invariant 0 <= i <= |sorted|
      invariant next == prev * IdSet(sorted[..i])
    {
      IdSetSnoc(sorted[..i], sorted[i]);
      assert sorted[..i + 1] == sorted[..i] + [sorted[i]];
      if sorted[i].id in prev {
        next := next + {sorted[i].id};
      }
      i := i + 1;
    }
    assert sorted[..i] == sorted;
  }

  /** `[...prev].every(id => next.has(id))`. */
  method Contains(next: set<string>, prev: set<string>) returns (same: bool)
    ensures same <==> prev <= next
  {
    same := true;
    var remaining := prev;
    while remaining != {} && same
      invariant remaining <= prev
      invariant same ==> prev - remaining <= next
      invariant !same ==> !(prev <= next)
      decreases |remaining|
    {
      var id :| id in remaining;
      if id !in next {
        same := false;
      }
      remaining := remaining - {id};
    }
  }

  lemma IdSetSnoc(cs: seq<Conflict>, c: Conflict)
    ensures IdSet(cs + [c]) == IdSet(cs) + {c.id}
  {
    var all := cs + [c];
    forall id | id in IdSet(all)
      ensures id in IdSet(cs) + {c.id}
    {
      var i :| 0 <= i < |all| && all[i].id == id;
      if i < |cs| {
        assert cs[i].id == id;
      }
    }
    forall id | id in IdSet(cs)
      ensures id in IdSet(all)
    {
      var i :| 0 <= i < |cs| && cs[i].id == id;
      assert all[i].id == id;
    }
    assert all[|cs|].id == c.id;
  }

  /** The state of the header checkbox. */
  datatype CheckState = Checked | Indeterminate | Unchecked

  /** `allCheckboxState`: computed from sizes only. */
  function AllCheckboxState(sel: set<string>, sorted: seq<Conflict>): (r: CheckState)
    ensures r == Checked <==> |sorted| > 0 && |sel| == |sorted|
    ensures r == Unchecked <==> |sel| == 0 && !(|sorted| > 0 && |sel| == |sorted|)
  {
    if |sorted| > 0 && |sel| == |sorted| then Checked
    else if |sel| > 0 then Indeterminate
    else Unchecked
  }

  /** The invariant the pruning effect and the toggles keep: only listed
      conflicts are selected. */
  predicate SelectionValid(sel: set<string>, sorted: seq<Conflict>) {
    sel <= IdSet(sorted)
  }

  lemma {:induction false} DistinctIdsCount(cs: seq<Conflict>)
    requires NoDuplicates(Ids(cs))
    ensures |IdSet(cs)| == |cs|
  {
    if cs != [] {
      var rest := cs[1..];
      DistinctTail(cs);
      DistinctIdsCount(rest);
      IdSetCons(cs);
      assert |IdSet(cs)| == 1 + |IdSet(rest)|;
    }
  }

  /** Splitting off the first conflict: its id is not among the others. */
  lemma DistinctTail(cs: seq<Conflict>)
    requires cs != [] && NoDuplicates(Ids(cs))
    ensures NoDuplicates(Ids(cs[1..]))
    ensures cs[0].id !in IdSet(cs[1..])
  {
    var rest := cs[1..];
    forall i, j | 0 <= i < j < |rest|
      ensures Ids(rest)[i] != Ids(rest)[j]
    {
      assert Ids(rest)[i] == Ids(cs)[i + 1] && Ids(rest)[j] == Ids(cs)[j + 1];
    }
    forall i | 0 <= i < |rest|
      ensures rest[i].id != cs[0].id
    {
      assert rest[i].id == Ids(cs)[i + 1] && cs[0].id == Ids(cs)[0];
    }
  }

  lemma IdSetCons(cs: seq<Conflict>)
    requires cs != []
    ensures IdSet(cs) == {cs[0].id} + IdSet(cs[1..])
  {
    var rest := cs[1..];
    forall id | id in IdSet(cs)
      ensures id == cs[0].id || id in IdSet(rest)
    {
      var i :| 0 <= i < |cs| && cs[i].id == id;
      if i > 0 {
        assert rest[i - 1].id == id;
      }
    }
    forall id | id in IdSet(rest)
      ensures id in IdSet(cs)
    {
      var i :| 0 <= i < |rest| && rest[i].id == id;
      assert cs[i + 1].id == id;
    }
    assert cs[0].id in IdSet(cs);
  }

  lemma SubsetOfSameSizeIsEqual(a: set<string>, b: set<string>)
    requires a <= b && |a| == |b|
    ensures a == b
  {
    assert |b - a| == |b| - |a|;
  }

  /** With the selection valid and ids distinct, the checkbox is checked
      exactly when every listed conflict is selected, indeterminate exactly
      when some but not all are, and unchecked exactly when none is. */
  lemma AllCheckboxStateMeaning(sel: set<string>, sorted: seq<Conflict>)
    requires SelectionValid(sel, sorted) && NoDuplicates(Ids(sorted))
    ensures AllCheckboxState(sel, sorted) == Checked <==> sorted != [] && sel == IdSet(sorted)
    ensures AllCheckboxState(sel, sorted) == Indeterminate <==> sel != {} && sel != IdSet(sorted)
    ensures AllCheckboxState(sel, sorted) == Unchecked <==> sel == {}
  {
    DistinctIdsCount(sorted);
    if |sel| == |sorted| {
      SubsetOfSameSizeIsEqual(sel, IdSet(sorted));
    }
    if sorted == [] {
      assert IdSet(sorted) == {};
    } else {
      assert sorted[0].id in IdSet(sorted);
    }
  }

  /** Without pruning a stale id would make the box claim everything is
      selected while the one listed conflict is not. */
  lemma StaleSelectionMisreports(c: Conflict)
    requires c.id != "stale"
    ensures AllCheckboxState({"stale"}, [c]) == Checked
    ensures c.id !in {"stale"}
  {
  }

  /** Pruning establishes the invariant the checkbox relies on. */
  lemma PruningMakesSelectionValid(prev: set<string>, sorted: seq<Conflict>)
    ensures SelectionValid(prev * IdSet(sorted), sorted)
  {
  }

  /** `toggleSelection`: adds or removes exactly one id. */
  function ToggleSelection(sel: set<string>, id: string, checked: bool): (r: set<string>)
    ensures id in r <==> checked
    ensures forall x :: x != id ==> (x in r <==> x in sel)
  {
    if checked then sel + {id} else sel - {id}
  }

  /** `toggleAllSelection`: every listed id, or none. */
  function ToggleAllSelection(sorted: seq<Conflict>, checked: bool): (r: set<string>)
    ensures checked ==> r == IdSet(sorted)
    ensures !checked ==> r == {}
  {
    if checked then IdSet(sorted) else {}
  }

  /** `clearSelection`. */
  function ClearSelection(): (r: set<string>)
    ensures |r| == 0
  {
    {}
  }

  /** The toggles keep the selection valid when they act on listed rows. */
  lemma TogglesKeepSelectionValid(sel: set<string>, sorted: seq<Conflict>, i: nat, checked: bool, all: bool)
    requires SelectionValid(sel, sorted) && i < |sorted|
    ensures SelectionValid(ToggleSelection(sel, sorted[i].id, checked), sorted)
    ensures SelectionValid(ToggleAllSelection(sorted, all), sorted)
    ensures SelectionValid(ClearSelection(), sorted)
  {
  }

  /** Selecting all checks the box whenever something is listed. */
  lemma SelectAllChecksBox(sorted: seq<Conflict>)
    requires sorted != [] && NoDuplicates(Ids(sorted))
    ensures AllCheckboxState(ToggleAllSelection(sorted, true), sorted) == Checked
  {
    AllCheckboxStateMeaning(IdSet(sorted), sorted);
  }

  /** `toggleExpand`: at most one row is open; toggling the open row closes
      it and toggling another opens that one instead. */
  function ToggleExpand(expanded: Option<string>, id: string): (r: Option<string>)
    ensures expanded == Some(id) ==> r.None?
    ensures expanded != Some(id) ==> r == Some(id)
  {
    if expanded == Some(id) then None else Some(id)
  }

  lemma ToggleExpandTwiceCloses(id: string)
    ensures ToggleExpand(ToggleExpand(None, id), id).None?
  {
  }

  /** `selectedConflicts`: the listed conflicts that are selected, in
      display order. */
  function SelectedConflicts(sorted: seq<Conflict>, sel: set<string>): (r: seq<Conflict>)
    ensures IsSubsequence(r, sorted)
    ensures forall i :: 0 <= i < |r| ==> r[i].id in sel
    ensures forall i :: 0 <= i < |sorted| && sorted[i].id in sel ==> sorted[i] in r
    ensures forall c :: multiset(r)[c] == if c.id in sel then multiset(sorted)[c] else 0
  {
    var selected := (c: Conflict) => c.id in sel;
    FilterMembers(sorted, selected);
    FilterCounts(sorted, selected);
    Filter(sorted, selected)
  }

  // ---------------------------------------------------------------------
  // Resolution
  // ---------------------------------------------------------------------

  /** A call to one of the resolve handlers. */
  datatype Call = BatchCall(targets: seq<Conflict>) | SingleCall(target: Conflict)

  /** The result of `runBatchResolve`: the handler calls made, the
      selection afterwards, whether the "select something" notice was
      shown, and whether a single-resolve failure escaped. */
  datatype BatchResult = BatchResult(calls: seq<Call>, selection: set<string>, notified: bool, failed: bool)

  /** The index of the first target whose resolution fails, or the number
      of targets when none does. */
  function FirstFailure(targets: seq<Conflict>, ok: Conflict -> bool): (r: nat)
    ensures r <= |targets|
    ensures forall i :: 0 <= i < r ==> ok(targets[i])
    ensures r < |targets| ==> !ok(targets[r])
  {
    if targets == [] then 0
    else if !ok(targets[0]) then 0
    else
      var r := 1 + FirstFailure(targets[1..], ok);
      assert forall i :: 1 <= i < |targets| ==> targets[i] == targets[1..][i - 1];
      r
  }

  function SingleCalls(targets: seq<Conflict>): (r: seq<Call>)
    ensures |r| == |targets| && forall i :: 0 <= i < |targets| ==> r[i] == SingleCall(targets[i])
  {
    if targets == [] then [] else [SingleCall(targets[0])] + SingleCalls(targets[1..])
  }

  /** `runBatchResolve`. With no targets nothing is called. With a batch
      handler it is called once; the selection is cleared on success when
      asked, and a failure is swallowed. Otherwise the single handler, if
      any, is awaited target by target in order; the first failure ends
      the loop and escapes, and the selection is cleared only after every
      target succeeded. */
  method RunBatchResolve(targets: seq<Conflict>, sel: set<string>, clear: bool,
                         hasBatch: bool, batchOk: bool, hasSingle: bool, singleOk: Conflict -> bool)
    returns (r: BatchResult)
    ensures targets == [] ==> r == BatchResult([], sel, true, false)
    ensures targets != [] && hasBatch ==>
              r == BatchResult([BatchCall(targets)], if batchOk && clear then {} else sel, false, false)
    ensures targets != [] && !hasBatch && !hasSingle ==> r == BatchResult([], sel, false, false)
    ensures targets != [] && !hasBatch && hasSingle ==>
              var k := FirstFailure(targets, singleOk);
              && r.calls == SingleCalls(targets[..if k < |targets| then k + 1 else k])
              && r.failed == (k < |targets|)
              && r.selection == (if k == |targets| && clear then {} else sel)
              && !r.notified
  {
    if |targets| == 0 {
      return BatchResult([], sel, true, false);
    }
    if hasBatch {
      var selection := if batchOk && clear then {} else sel;
      return BatchResult([BatchCall(targets)], selection, false, false);
    }
    if !hasSingle {
      return BatchResult([], sel, false, false);
    }
    ghost var k := FirstFailure(targets, singleOk);
    var calls: seq<Call> := [];
    var i := 0;
    var failed := false;
    while i < |targets| && !failed
      invariant 0 <= i <= |targets|
      invariant |calls| == i
      invariant forall j :: 0 <= j < i ==> calls[j] == SingleCall(targets[j])
      invariant !failed ==> i <= k
      invariant failed ==> i == k + 1
    {
      calls := calls + [SingleCall(targets[i])];
      if !singleOk(targets[i]) {
        failed := true;
      }
      i := i + 1;
    }
    assert calls == SingleCalls(targets[..i]);
    if failed {
      return BatchResult(calls, sel, false, true);
    }
    assert targets[..i] == targets;
    var selection := if clear then {} else sel;
    return BatchResult(calls, selection, false, false);
  }

  /** The scope of a bulk accept. */
  datatype Scope = SelectedScope | AllScope

  /** The targets of `handleAcceptSelected` / `handleAcceptAll`. */
  function AcceptTargets(scope: Scope, sorted: seq<Conflict>, sel: set<string>): (r: seq<Conflict>)
    ensures scope == AllScope ==> r == sorted
    ensures IsSubsequence(r, sorted)
    ensures scope == SelectedScope ==> forall i :: 0 <= i < |r| ==> r[i].id in sel
    ensures scope == SelectedScope ==> r == SelectedConflicts(sorted, sel)
    ensures scope == SelectedScope ==> forall c :: multiset(r)[c] == if c.id in sel then multiset(sorted)[c] else 0
  {
    match scope
    case SelectedScope => SelectedConflicts(sorted, sel)
    case AllScope =>
      SubsequenceOfItself(sorted);
      sorted
  }

  lemma {:induction false} SubsequenceOfItself<T>(s: seq<T>)
    ensures IsSubsequence(s, s)
  {
    if s != [] {
      SubsequenceOfItself(s[1..]);
    }
  }

  /** `handleResolve` after confirmation: on success the conflict's id is
      dropped from the selection and nothing else changes; without a
      handler, or on failure, the selection stays. */
  function HandleResolve(sel: set<string>, c: Conflict, hasSingle: bool, ok: bool): (r: set<string>)
    ensures hasSingle && ok ==> c.id !in r && forall x :: x != c.id ==> (x in r <==> x in sel)
    ensures !(hasSingle && ok) ==> r == sel
    ensures c.id !in sel ==> r == sel
  {
    if !hasSingle || !ok then sel
    else if c.id !in sel then sel
    else sel - {c.id}
  }

  // ---------------------------------------------------------------------
  // Fallback identifiers
  // ---------------------------------------------------------------------

  /** The identifier named in the single-resolve prompt: the photo id when
      defined, else the conflict id. */
  function ConfirmIdentifier(c: Conflict): (r: string)
    ensures c.photoId.Some? ==> r == c.photoId.value
    ensures c.photoId.None? ==> r == c.id
  {
    match c.photoId
    case Some(p) => p
    case None => c.id
  }

  /** The storage key a row shows: the incoming key when the payload has
      one, else the conflict's own. */
  function DisplayedStorageKey(c: Conflict): (r: string)
    ensures c.payload.Some? && c.payload.value.incomingStorageKey.Some? ==> r == c.payload.value.incomingStorageKey.value
    ensures !(c.payload.Some? && c.payload.value.incomingStorageKey.Some?) ==> r == c.storageKey
  {
    if c.payload.Some? && c.payload.value.incomingStorageKey.Some? then c.payload.value.incomingStorageKey.value
    else c.storageKey
  }

  /** `handleOpenManifest`: the URL opened, None when a notice is shown
      instead. The original is preferred whenever it is defined, even when
      it is empty. */
  function OriginalLink(manifest: Option<Manifest>): (r: Option<string>)
    ensures r.Some? ==> r.value != ""
    ensures manifest.None? ==> r.None?
    ensures manifest.Some? && manifest.value.originalUrl.Some? ==>
              r == (if manifest.value.originalUrl.value != "" then manifest.value.originalUrl else None)
    ensures manifest.Some? && manifest.value.originalUrl.None? ==>
              r == (if Truthy(manifest.value.thumbnailUrl) then manifest.value.thumbnailUrl else None)
  {
    match manifest
    case None => None
    case Some(m) =>
      var candidate := if m.originalUrl.Some? then m.originalUrl else m.thumbnailUrl;
      if Truthy(candidate) then candidate else None
  }

  /** `isProcessing`: a single resolve is running or a batch is. */
  function IsProcessing(resolvingId: Option<string>, isBatchResolving: Option<bool>): (r: bool)
    ensures r <==> (resolvingId.Some? && resolvingId.value != "") || isBatchResolving == Some(true)
  {
    Truthy(resolvingId) || isBatchResolving == Some(true)
  }

  /** A row is busy while a batch runs or while it is the one resolving. */
  function IsResolving(c: Conflict, resolvingId: Option<string>, isBatchResolving: Option<bool>): (r: bool)
    ensures isBatchResolving == Some(true) ==> r
    ensures isBatchResolving != Some(true) ==> (r <==> resolvingId == Some(c.id))
  {
    isBatchResolving == Some(true) || resolvingId == Some(c.id)
  }

  /** A busy row implies a busy panel, except for a conflict whose id is
      the empty string. */
  lemma ResolvingImpliesProcessing(c: Conflict, resolvingId: Option<string>, isBatchResolving: Option<bool>)
    requires c.id != ""
    ensures IsResolving(c, resolvingId, isBatchResolving) ==> IsProcessing(resolvingId, isBatchResolving)
  {
  }
}
