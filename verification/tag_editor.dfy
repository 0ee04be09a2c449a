/** The state logic of
    be/apps/dashboard/src/modules/photos/components/library/PhotoTagEditorModal.tsx:
    the tags a selection starts from, the options offered, the file name
    and storage path preview, change detection, and the save loop that
    writes the tags to every selected asset.

    The update mutation is a parameter telling whether each call succeeds. */
module TagEditor {
  import opened Common

  /** The part of `PhotoAssetListItem` the editor reads; `tags` and `title`
      come from the optional manifest data. */
  datatype Asset = Asset(id: string, photoId: string, storageKey: string,
                         tags: Option<seq<string>>, title: Option<string>)

  /** `asset.manifest?.data?.tags ?? []`. */
  function TagsOf(a: Asset): seq<string> {
    if a.tags.Some? then a.tags.value else []
  }

  // ---------------------------------------------------------------------
  // Initial tags
  // ---------------------------------------------------------------------

  /** Every asset carries the tag. */
  predicate SharedBy(tag: string, assets: seq<Asset>) {
    forall i :: 0 <= i < |assets| ==> tag in TagsOf(assets[i])
  }

  /** `tags.filter(tag => assets.every(...))`: the tags every asset
      carries, in the given order. */
  function FilterShared(tags: seq<string>, assets: seq<Asset>): (r: seq<string>)
    ensures IsSubsequence(r, tags)
    ensures forall i :: 0 <= i < |r| ==> SharedBy(r[i], assets)
    ensures forall i :: 0 <= i < |tags| && SharedBy(tags[i], assets) ==> tags[i] in r
    ensures forall t :: multiset(r)[t] == if SharedBy(t, assets) then multiset(tags)[t] else 0
  {
    var shared := t => SharedBy(t, assets);
    FilterMembers(tags, shared);
    FilterCounts(tags, shared);
    Filter(tags, shared)
  }

  /** `initialTags`: none for an empty selection, the single asset's tags
      as they are, and for several assets the first asset's tags that all
      of them carry. */
  function InitialTags(assets: seq<Asset>): (r: seq<string>)
    ensures assets == [] ==> r == []
    ensures |assets| == 1 ==> r == TagsOf(assets[0])
    ensures |assets| > 1 ==> IsSubsequence(r, TagsOf(assets[0]))
    ensures |assets| > 1 ==> forall i, j :: 0 <= i < |r| && 0 <= j < |assets| ==> r[i] in TagsOf(assets[j])
    ensures |assets| > 1 ==> forall t :: t in TagsOf(assets[0]) && SharedBy(t, assets) ==> t in r
    ensures |assets| > 1 ==> forall t :: multiset(r)[t] == if SharedBy(t, assets) then multiset(TagsOf(assets[0]))[t] else 0
  {
    if |assets| == 0 then []
    else if |assets| == 1 then TagsOf(assets[0])
    else
      var r := FilterShared(TagsOf(assets[0]), assets);
      assert forall i :: 0 <= i < |r| ==> SharedBy(r[i], assets);
      r
  }

  /** For one asset the shortcut agrees with the intersection: filtering a
      single asset's tags by that asset keeps them all. */
  lemma {:induction false} SingleAssetIsIntersection(tags: seq<string>, a: Asset)
    requires a.tags == Some(tags) || (a.tags.None? && tags == [])
    ensures FilterShared(tags, [a]) == tags
  {
    KeepAll(tags, tags, a);
  }

  lemma {:induction false} KeepAll(s: seq<string>, all: seq<string>, a: Asset)
    requires TagsOf(a) == all
    requires forall x :: x in s ==> x in all
    ensures FilterShared(s, [a]) == s
  {
    if s != [] {
      assert SharedBy(s[0], [a]);
      KeepAll(s[1..], all, a);
    }
  }

  // ---------------------------------------------------------------------
  // Change detection
  // ---------------------------------------------------------------------

  /** `arraysEqual`: equal length and equal at every index. */
  /** `arraysEqual`: same length and the same tag at every position, which
      is sequence equality. */
  function ArraysEqual(a: seq<string>, b: seq<string>): (r: bool)
    ensures r <==> a == b
  {
    |a| == |b| && forall i :: 0 <= i < |a| ==> a[i] == b[i]
  }

  /** `hasChanges`. */
  function HasChanges(tags: seq<string>, initial: seq<string>): (r: bool)
    ensures r <==> tags != initial
  {
    !ArraysEqual(tags, initial)
  }

  /** The save button. */
  function SaveEnabled(tags: seq<string>, initial: seq<string>, isSaving: bool, isPending: bool): (r: bool)
    ensures r <==> tags != initial && !isSaving && !isPending
  {
    HasChanges(tags, initial) && !(isSaving || isPending)
  }

  /** Save is enabled exactly when the tags differ from the initial ones
      and nothing is in flight; reopening the selection disables it. */
  lemma SaveEnabledMeaning(tags: seq<string>, assets: seq<Asset>, isSaving: bool, isPending: bool)
    ensures SaveEnabled(tags, InitialTags(assets), isSaving, isPending)
              == (tags != InitialTags(assets) && !isSaving && !isPending)
    ensures !SaveEnabled(InitialTags(assets), InitialTags(assets), isSaving, isPending)
  {

  }

  // ---------------------------------------------------------------------
  // Options, file name, preview, title
  // ---------------------------------------------------------------------

  datatype TagOption = TagOption(text: string, value: string)

  /** `tagOptions`: one option per available tag, shown as written and
      valued in lower case. */
  function TagOptions(available: seq<string>): (r: seq<TagOption>)
    ensures |r| == |available|
    ensures forall i :: 0 <= i < |r| ==> r[i].text == available[i] && r[i].value == ToLower(available[i])
  {
    if available == [] then []
    else [TagOption(available[0], ToLower(available[0]))] + TagOptions(available[1..])
  }

  lemma LowerCharIdempotent(c: char)
    ensures LowerChar(LowerChar(c)) == LowerChar(c)
  {
  }

  /** Option values are already lower case: lowering them again changes
      nothing. */
  lemma OptionValuesAreLowerCase(available: seq<string>, i: nat)
    requires i < |available|
    ensures ToLower(TagOptions(available)[i].value) == TagOptions(available)[i].value
  {
    var v := TagOptions(available)[i].value;
    forall k | 0 <= k < |v|
      ensures ToLower(v)[k] == v[k]
    {
      LowerCharIdempotent(available[i][k]);
    }
  }

  /** `fileName`: the last '/'-separated part of the first asset's storage
      key, "" without assets. `split` always yields a last part, so the
      photo-id fallback never applies. */
  function FileName(assets: seq<Asset>): (r: string)
    ensures assets == [] ==> r == ""
    ensures assets != [] ==> '/' !in r && EndsWith(assets[0].storageKey, r)
    ensures assets != [] ==> (r == assets[0].storageKey <==> '/' !in assets[0].storageKey)
    ensures assets != [] && |r| < |assets[0].storageKey| ==>
      assets[0].storageKey[|assets[0].storageKey| - |r| - 1] == '/'
  {
    if assets == [] then "" else AfterLast(assets[0].storageKey, '/')
  }

  /** The file name of a key under a directory is the part after the
      directory. */
  lemma FileNameOfKey(a: Asset, rest: seq<Asset>, dir: string, name: string)
    requires a.storageKey == dir + "/" + name && '/' !in name
    ensures FileName([a] + rest) == name
  {
    assert a.storageKey == dir + ['/'] + name;
    AfterLastOfConcat(dir, '/', name);
  }

  /** `nextPathPreview`: none without a file name, the bare file name
      without tags, else the tags joined by '/' then " / " then the file
      name. */
  function NextPathPreview(fileName: string, tags: seq<string>): (r: Option<string>)
    ensures r.None? <==> fileName == ""
    ensures r.Some? ==> EndsWith(r.value, fileName)
    ensures r.Some? && tags != [] ==> StartsWith(r.value, Join(tags, "/") + " / ")
    ensures r.Some? && tags == [] ==> r.value == fileName
    ensures r.Some? && tags != [] ==> |r.value| == |Join(tags, "/")| + 3 + |fileName|
  {
    if fileName == "" then None
    else if tags == [] then Some(fileName)
    else Some(Join(tags, "/") + " / " + fileName)
  }

  /** The preview's last '/'-part gives the file name back (behind the
      single space of the " / " separator when there are tags). */
  lemma PreviewEndsWithFileName(fileName: string, tags: seq<string>)
    requires fileName != "" && '/' !in fileName
    ensures AfterLast(NextPathPreview(fileName, tags).value, '/') == (if tags == [] then fileName else " " + fileName)
  {
    if tags == [] {
      AfterLastAbsent(fileName, '/');
    } else {
      var p := Join(tags, "/") + " / " + fileName;
      assert p == (Join(tags, "/") + " ") + ['/'] + (" " + fileName);
      AfterLastOfConcat(Join(tags, "/") + " ", '/', " " + fileName);
    }
  }

  lemma {:induction false} AfterLastAbsent(s: string, c: char)
    requires c !in s
    ensures AfterLast(s, c) == s
  {
    if s != [] {
      AfterLastAbsent(s[..|s| - 1], c);
    }
  }

  /** What the dialog title names. */
  datatype Title = NoSelection | Named(name: string) | AssetCount(count: nat)

  /** `assetTitle`: the single asset's title, or its photo id when the
      manifest has none. */
  function AssetTitle(assets: seq<Asset>): (r: Title)
    ensures r == NoSelection <==> assets == []
    ensures |assets| == 1 && assets[0].title.Some? ==> r == Named(assets[0].title.value)
    ensures |assets| == 1 && assets[0].title.None? ==> r == Named(assets[0].photoId)
    ensures |assets| > 1 ==> r == AssetCount(|assets|)
  {
    if |assets| == 0 then NoSelection
    else if |assets| == 1 then Named(if assets[0].title.Some? then assets[0].title.value else assets[0].photoId)
    else AssetCount(|assets|)
  }

  // ---------------------------------------------------------------------
  // Saving
  // ---------------------------------------------------------------------

  /** One call of the update mutation. */
  datatype Update = Update(id: string, tags: seq<string>)

  /** What `handleSave` did: the updates sent, whether the dialog was
      dismissed, and whether the error notice was shown. */
  datatype SaveOutcome = SaveOutcome(updates: seq<Update>, dismissed: bool, failed: bool)

  function UpdatesFor(assets: seq<Asset>, tags: seq<string>): (r: seq<Update>)
    ensures |r| == |assets|
    ensures forall i :: 0 <= i < |r| ==> r[i] == Update(assets[i].id, tags)
  {
    if assets == [] then [] else [Update(assets[0].id, tags)] + UpdatesFor(assets[1..], tags)
  }

  /** The number of assets updated before the first failing call. */
  function Succeeded(assets: seq<Asset>, ok: string -> bool): (r: nat)
    ensures r <= |assets|
    ensures forall i :: 0 <= i < r ==> ok(assets[i].id)
    ensures r < |assets| ==> !ok(assets[r].id)
  {
    if assets == [] || !ok(assets[0].id) then 0
    else
      var n := 1 + Succeeded(assets[1..], ok);
      assert forall i :: 1 <= i < |assets| ==> assets[i] == assets[1..][i - 1];
      n
  }

  /** `handleSave`: no assets dismisses at once; otherwise the same tags
      are sent for each asset in order, a failure stops the loop and keeps
      the dialog open, and success of every call dismisses it. */
  method HandleSave(assets: seq<Asset>, tags: seq<string>, ok: string -> bool) returns (r: SaveOutcome)
    ensures assets == [] ==> r == SaveOutcome([], true, false)
    ensures assets != [] ==>
              var k := Succeeded(assets, ok);
              && r.updates == UpdatesFor(assets[..if k < |assets| then k + 1 else k], tags)
              && r.failed == (k < |assets|)
              && r.dismissed == !r.failed
  {
    if |assets| == 0 {
      return SaveOutcome([], true, false);
    }
    ghost var k := Succeeded(assets, ok);
    var updates: seq<Update> := [];
    var i := 0;
    var failed := false;
    while i < |assets| && !failed
      invariant 0 <= i <= |assets|
      invariant |updates| == i
      invariant forall j :: 0 <= j < i ==> updates[j] == Update(assets[j].id, tags)
      invariant !failed ==> i <= k
      invariant failed ==> i == k + 1
    {
      updates := updates + [Update(assets[i].id, tags)];
      if !ok(assets[i].id) {
        failed := true;
      }
      i := i + 1;
    }
    assert updates == UpdatesFor(assets[..i], tags);
    return SaveOutcome(updates, !failed, failed);
  }
}
