/**
 * The Azure DevOps client's pull-request logic: the branch guard of `get_pr_diff`
 * and the added-lines assembly of `get_pr_added_lines_only`.
 *
 * The three HTTP collaborators are inputs: the pull-request metadata (`None` when
 * the request failed or returned an empty body), the commit-diff response, and the
 * blob store, a map from object id to file text in which an absent id is a failed
 * fetch.
 */
module AzdoClient {
  import opened Wrappers
  import opened Text
  import opened LineDiff
  import opened Records

  /** A ref name made of the heads prefix and a name that does not contain it becomes that name. */
  lemma StripBranchOfHeadsRef(name: string)
    requires forall i: nat :: !OccursAt(name, HeadsPrefix, i)
    ensures StripBranch(Some(HeadsPrefix + name)) == name
  {
    RemoveAllLeading(HeadsPrefix, name);
    RemoveAllNoOccurrence(name, HeadsPrefix);
  }

  /** Every occurrence is removed, not only a leading one. */
  lemma StripBranchRemovesInnerOccurrence()
    ensures StripBranch(Some("refs/heads/a/refs/heads/b")) == "a/b"
  {
    var p := HeadsPrefix;
    var t1 := "/" + p + "b";
    var t0 := ['a'] + t1;
    var t2 := p + "b";
    assert "refs/heads/a/refs/heads/b" == p + t0;
    assert t1 == ['/'] + t2;
    RemoveAllLeading(p, t0);
    NoOccurrenceAtStart(t0, p, 0);
    RemoveAllKeepsHead('a', t1, p);
    NoOccurrenceAtStart(t1, p, 0);
    RemoveAllKeepsHead('/', t2, p);
    RemoveAllLeading(p, "b");
    assert RemoveAll("b", p) == "b";
  }

  /** Stripping is not prefix removal: its result may contain the prefix again. */
  lemma StripBranchMayLeavePrefix(ref: string)
    requires ref == "refs/" + HeadsPrefix + "heads/"
    ensures StripBranch(Some(ref)) == HeadsPrefix
  {
    var p := HeadsPrefix;
    var x := "refs/";
    var s := p + "heads/";
    assert ref == x + s;
    assert forall i :: 0 <= i < |x| ==> !OccursAt(x + s, p, i) by {
      NoOccurrenceAtStart(ref, p, 5);
      NoOccurrenceAtStart(ref[1..], p, 0);
      NoOccurrenceAtStart(ref[2..], p, 0);
      NoOccurrenceAtStart(ref[3..], p, 0);
      NoOccurrenceAtStart(ref[4..], p, 0);
      forall i | 1 <= i < |x| ensures !OccursAt(ref, p, i) {
        OccursAtSuffix(ref, p, i);
      }
    }
    RemoveAllKeepsPrefix(x, s, p);
    RemoveAllLeading(p, "heads/");
    assert RemoveAll("heads/", p) == "heads/";
    assert x + "heads/" == p;
  }

  /** Python truthiness of an optional string: present and non-empty. */
  predicate Truthy(s: Option<string>)
  {
    s.Some? && s.value != ""
  }

  /** `get_file_content(repo, path, id)`: the blob's text, or `None` when the fetch fails. */
  function FetchBlob(blobs: map<string, string>, id: string): (r: Option<string>)
    ensures r.Some? <==> id in blobs
    ensures r.Some? ==> r.value == blobs[id]
  {
    if id in blobs then Some(blobs[id]) else None
  }

  /**
   * `get_pr_diff`: no diff without pull-request metadata, nor when either branch
   * name is empty once stripped; otherwise the commit-diff response.
   */
  function GetPrDiff(pr: Option<PullRequest>, response: Option<DiffData>): (r: Option<DiffData>)
    ensures r.Some? <==>
      pr.Some? && StripBranch(pr.value.sourceRefName) != "" && StripBranch(pr.value.targetRefName) != "" && response.Some?
    ensures r.Some? ==> r == response
  {
    if pr.None? then None
    else
      var source := StripBranch(pr.value.sourceRefName);
      var target := StripBranch(pr.value.targetRefName);
      if source == "" || target == "" then None
      else response
  }

  /** A pull request whose source ref is missing, or is the bare heads prefix, has no diff. */
  lemma GetPrDiffNeedsSourceBranch(pr: PullRequest, response: Option<DiffData>)
    requires pr.sourceRefName == None || pr.sourceRefName == Some(HeadsPrefix)
    ensures GetPrDiff(Some(pr), response) == None
  {
    RemoveAllLeading(HeadsPrefix, "");
    assert HeadsPrefix + "" == HeadsPrefix;
  }

  /**
   * The added lines of one changeset entry: the whole new blob for `add`, the
   * inserted lines of a line diff for `edit`, nothing for any other change type
   * or when an object id is missing or a fetched text is missing or empty.
   */
  function AddedLinesFor(change: Change, blobs: map<string, string>): (r: seq<string>)
    ensures change.changeType != Some("add") && change.changeType != Some("edit") ==> r == []
    ensures change.changeType == Some("add") ==>
      (r != [] <==> Truthy(change.item.objectId) && Truthy(FetchBlob(blobs, change.item.objectId.value)))
    ensures change.changeType == Some("add") && r != [] ==>
      r == SplitLines(FetchBlob(blobs, change.item.objectId.value).value)
    ensures change.changeType == Some("edit") ==>
      r == (if && Truthy(change.item.originalObjectId) && Truthy(change.item.objectId)
               && Truthy(FetchBlob(blobs, change.item.originalObjectId.value))
               && Truthy(FetchBlob(blobs, change.item.objectId.value))
            then Inserted(Compare(SplitLines(FetchBlob(blobs, change.item.originalObjectId.value).value),
                                  SplitLines(FetchBlob(blobs, change.item.objectId.value).value)))
            else [])
    ensures r != [] ==>
      && Truthy(change.item.objectId) && Truthy(FetchBlob(blobs, change.item.objectId.value))
      && IsSubsequence(r, SplitLines(FetchBlob(blobs, change.item.objectId.value).value))
      && |r| <= |SplitLines(FetchBlob(blobs, change.item.objectId.value).value)|
  {
    var item := change.item;
    if change.changeType == Some("add") then
      if Truthy(item.objectId) then
        var content := FetchBlob(blobs, item.objectId.value);
        if Truthy(content) then
          var lines := SplitLines(content.value);
          SubsequenceOfItself(lines);
          lines
        else []
      else []
    else if change.changeType == Some("edit") then
      if Truthy(item.originalObjectId) && Truthy(item.objectId) then
        var before := FetchBlob(blobs, item.originalObjectId.value);
        var after := FetchBlob(blobs, item.objectId.value);
        if Truthy(before) && Truthy(after) then
          var linesBefore := SplitLines(before.value);
          var linesAfter := SplitLines(after.value);
          var diff := Compare(linesBefore, linesAfter);
          PlusLinesOfRendered(diff);
          InsertedAreSubsequenceOfAfter(linesBefore, linesAfter, diff);
          PlusLines(RenderAll(diff))
        else []
      else []
    else []
  }

  /** An edit whose old and new blobs have the same text adds no lines. */
  lemma UnchangedEditAddsNothing(change: Change, blobs: map<string, string>)
    requires change.changeType == Some("edit")
    requires Truthy(change.item.originalObjectId) && Truthy(change.item.objectId)
    requires FetchBlob(blobs, change.item.originalObjectId.value) == FetchBlob(blobs, change.item.objectId.value)
    ensures AddedLinesFor(change, blobs) == []
  {
    var content := FetchBlob(blobs, change.item.objectId.value);
    if Truthy(content) {
      CompareIdentical(SplitLines(content.value));
    }
  }

  /** A changeset entry that makes it into the report: not a folder, and some added lines. */
  predicate Included(change: Change, blobs: map<string, string>)
  {
    !change.item.isFolder && AddedLinesFor(change, blobs) != []
  }

  function InfoOf(change: Change, blobs: map<string, string>): FileInfo
  {
    FileInfo(change.item.path, change.changeType, AddedLinesFor(change, blobs))
  }

  /** The report's files for a changeset: the included entries, in changeset order. */
  function FilesWithAdditions(changes: seq<Change>, blobs: map<string, string>): (r: seq<FileInfo>)
    ensures |r| <= |changes|
    ensures forall k :: 0 <= k < |r| ==> r[k].addedLines != []
  {
    if changes == [] then []
    else
      var last := changes[|changes| - 1];
      FilesWithAdditions(changes[..|changes| - 1], blobs) + (if Included(last, blobs) then [InfoOf(last, blobs)] else [])
  }

  /** Whether each changeset entry is reported, position by position. */
  ghost function IncludedFlags(changes: seq<Change>, blobs: map<string, string>): (flags: seq<bool>)
    ensures |flags| == |changes|
    ensures forall j :: 0 <= j < |changes| ==> flags[j] == Included(changes[j], blobs)
  {
    seq(|changes|, j requires 0 <= j < |changes| => Included(changes[j], blobs))
  }

  /** The positions holding `true`, ascending. */
  ghost function Positions(flags: seq<bool>): seq<nat>
  {
    if flags == [] then []
    else
      var n := |flags| - 1;
      Positions(flags[..n]) + (if flags[n] then [n] else [])
  }

  /** The positions in the changeset of the entries that are reported, ascending. */
  ghost function SelectedIndices(changes: seq<Change>, blobs: map<string, string>): seq<nat>
  {
    Positions(IncludedFlags(changes, blobs))
  }

  /** Positions lie below the length and strictly increase. */
  lemma {:induction false} PositionsIncrease(flags: seq<bool>)
    ensures forall k :: 0 <= k < |Positions(flags)| ==> Positions(flags)[k] < |flags|
    ensures forall k, l :: 0 <= k < l < |Positions(flags)| ==> Positions(flags)[k] < Positions(flags)[l]
  {
    if flags != [] {
      var n := |flags| - 1;
      PositionsIncrease(flags[..n]);
      var pos0 := Positions(flags[..n]);
      var pos := pos0 + (if flags[n] then [n] else []);
      assert Positions(flags) == pos;
      forall k | 0 <= k < |pos|
        ensures pos[k] < |flags|
      {
        if k < |pos0| {
          assert pos[k] == pos0[k];
        }
      }
      forall k, l | 0 <= k < l < |pos|
        ensures pos[k] < pos[l]
      {
        assert pos[k] == pos0[k];
        if l < |pos0| {
          assert pos[l] == pos0[l];
        }
      }
    }
  }

  /** A position is listed exactly when its flag is set. */
  lemma {:induction false} PositionsAreSet(flags: seq<bool>)
    ensures forall j :: 0 <= j < |flags| ==> (flags[j] <==> j in Positions(flags))
  {
    if flags != [] {
      var n := |flags| - 1;
      var prefix := flags[..n];
      PositionsAreSet(prefix);
      PositionsIncrease(prefix);
      var pos0 := Positions(prefix);
      var pos := pos0 + (if flags[n] then [n] else []);
      assert Positions(flags) == pos;
      assert n !in pos0 by {
        forall k | 0 <= k < |pos0| ensures pos0[k] != n { }
      }
      forall j | 0 <= j < n
        ensures flags[j] <==> j in pos
      {
        assert flags[j] == prefix[j];
      }
    }
  }

  /** Appending an entry appends its position when it is reported. */
  lemma SelectedIndicesStep(changes: seq<Change>, blobs: map<string, string>)
    requires changes != []
    ensures var n := |changes| - 1;
      SelectedIndices(changes, blobs)
        == SelectedIndices(changes[..n], blobs) + (if Included(changes[n], blobs) then [n] else [])
  {
    var n := |changes| - 1;
    var flags := IncludedFlags(changes, blobs);
    assert flags[..n] == IncludedFlags(changes[..n], blobs);
  }

  /**
   * The report lists exactly the changeset entries that are not folders and have
   * added lines, each once, in changeset order.
   */
  lemma FilesAreIncludedChangesInOrder(changes: seq<Change>, blobs: map<string, string>)
    ensures var files, sel := FilesWithAdditions(changes, blobs), SelectedIndices(changes, blobs);
      && |files| == |sel|
      && (forall k :: 0 <= k < |sel| ==>
            sel[k] < |changes| && Included(changes[sel[k]], blobs) && files[k] == InfoOf(changes[sel[k]], blobs))
      && (forall k, l :: 0 <= k < l < |sel| ==> sel[k] < sel[l])
      && (forall j :: 0 <= j < |changes| ==> (Included(changes[j], blobs) <==> j in sel))
  {
    FilesAreSelectedChanges(changes, blobs);
    SelectedIndicesIncrease(changes, blobs);
    SelectedIndicesAreIncluded(changes, blobs);
    var sel := SelectedIndices(changes, blobs);
    forall k | 0 <= k < |sel|
      ensures Included(changes[sel[k]], blobs)
    {
      assert sel[k] in sel;
    }
  }

  /** The `k`-th reported file is the entry at the `k`-th selected position. */
  lemma {:induction false} FilesAreSelectedChanges(changes: seq<Change>, blobs: map<string, string>)
    ensures |FilesWithAdditions(changes, blobs)| == |SelectedIndices(changes, blobs)|
    ensures forall k :: 0 <= k < |SelectedIndices(changes, blobs)| ==>
      && SelectedIndices(changes, blobs)[k] < |changes|
      && FilesWithAdditions(changes, blobs)[k] == InfoOf(changes[SelectedIndices(changes, blobs)[k]], blobs)
  {
    if changes != [] {
      var n := |changes| - 1;
      var prefix := changes[..n];
      var last := changes[n];
      FilesAreSelectedChanges(prefix, blobs);
      var files0, sel0 := FilesWithAdditions(prefix, blobs), SelectedIndices(prefix, blobs);
      var files := files0 + (if Included(last, blobs) then [InfoOf(last, blobs)] else []);
      var sel := sel0 + (if Included(last, blobs) then [n] else []);
      assert FilesWithAdditions(changes, blobs) == files;
      SelectedIndicesStep(changes, blobs);
      forall k | 0 <= k < |sel|
        ensures sel[k] < |changes| && files[k] == InfoOf(changes[sel[k]], blobs)
      {
        if k < |sel0| {
          assert sel[k] == sel0[k] && files[k] == files0[k];
          assert changes[sel0[k]] == prefix[sel0[k]];
        }
      }
    }
  }

  /** The selected positions lie in the changeset and strictly increase. */
  lemma SelectedIndicesIncrease(changes: seq<Change>, blobs: map<string, string>)
    ensures forall k :: 0 <= k < |SelectedIndices(changes, blobs)| ==> SelectedIndices(changes, blobs)[k] < |changes|
    ensures forall k, l :: 0 <= k < l < |SelectedIndices(changes, blobs)| ==>
      SelectedIndices(changes, blobs)[k] < SelectedIndices(changes, blobs)[l]
  {
    PositionsIncrease(IncludedFlags(changes, blobs));
  }

  /** A position is selected exactly when its entry is included. */
  lemma SelectedIndicesAreIncluded(changes: seq<Change>, blobs: map<string, string>)
    ensures forall j :: 0 <= j < |changes| ==> (Included(changes[j], blobs) <==> j in SelectedIndices(changes, blobs))
  {
    PositionsAreSet(IncludedFlags(changes, blobs));
  }

  /** Folders and entries without added lines never appear; every listed file has added lines. */
  lemma ListedFilesHaveAddedLines(changes: seq<Change>, blobs: map<string, string>)
    ensures forall k :: 0 <= k < |FilesWithAdditions(changes, blobs)| ==>
      FilesWithAdditions(changes, blobs)[k].addedLines != []
    ensures forall j :: 0 <= j < |changes| && (changes[j].item.isFolder || AddedLinesFor(changes[j], blobs) == []) ==>
      j !in SelectedIndices(changes, blobs)
    ensures |FilesWithAdditions(changes, blobs)| <= |changes|
  {
    SelectedIndicesAreIncluded(changes, blobs);
  }

  /** An added file with text `"l1\nl2"` is reported with both lines; a deleted file is not reported. */
  lemma AddedAndDeletedFileExample()
    ensures FilesWithAdditions(
              [Change(Item(false, Some("/a.txt"), Some("o1"), None), Some("add")),
               Change(Item(false, Some("/b.txt"), None, Some("o2")), Some("delete"))],
              map["o1" := "l1\nl2", "o2" := "gone"])
         == [FileInfo(Some("/a.txt"), Some("add"), ["l1", "l2"])]
  {
    var blobs := map["o1" := "l1\nl2", "o2" := "gone"];
    var add := Change(Item(false, Some("/a.txt"), Some("o1"), None), Some("add"));
    var del := Change(Item(false, Some("/b.txt"), None, Some("o2")), Some("delete"));
    var changes := [add, del];
    SplitLinesTwoLines();
    assert FetchBlob(blobs, "o1") == Some("l1\nl2");
    assert AddedLinesFor(add, blobs) == ["l1", "l2"];
    assert AddedLinesFor(del, blobs) == [];
    assert changes[..1] == [add] && changes[..1][..0] == [];
  }

  /** `diff_data.get('changes', [])`: the changeset entries of a diff response. */
  function ChangesOf(diff: DiffData): seq<Change>
  {
    diff.changes.GetOr([])
  }

  /**
   * `get_pr_added_lines_only`: `None` without metadata or diff; otherwise walks the
   * changeset, classifies each non-folder entry, keeps those with added lines and
   * counts them.
   */
  method GetPrAddedLinesOnly(pr: Option<PullRequest>, diffResponse: Option<DiffData>, blobs: map<string, string>)
    returns (r: Option<AddedLinesReport>)
    ensures r.None? <==> GetPrDiff(pr, diffResponse).None?
    ensures r.Some? ==>
      && r.value.files == FilesWithAdditions(ChangesOf(diffResponse.value), blobs)
      && r.value.total == |r.value.files|
      && r.value.sourceBranch == StripBranch(pr.value.sourceRefName)
      && r.value.targetBranch == StripBranch(pr.value.targetRefName)
  {
    if pr.None? {
      return None;
    }
    var diffData := GetPrDiff(pr, diffResponse);
    if diffData.None? {
      return None;
    }
    var sourceBranch := StripBranch(pr.value.sourceRefName);
    var targetBranch := StripBranch(pr.value.targetRefName);
    var changes := ChangesOf(diffData.value);
    var filesWithAdditions: seq<FileInfo> := [];
    var i := 0;
    while i < |changes|
      invariant 0 <= i <= |changes|
      invariant filesWithAdditions == FilesWithAdditions(changes[..i], blobs)
    {
      var change := changes[i];
      assert changes[..i + 1] == changes[..i] + [change];
      i := i + 1;
      var item := change.item;
      if item.isFolder {
        continue;
      }
      var fileInfo := FileInfo(item.path, change.changeType, []);
      if change.changeType == Some("add") {
        var objectId := item.objectId;
        if Truthy(objectId) {
          var content := FetchBlob(blobs, objectId.value);
          if Truthy(content) {
            fileInfo := fileInfo.(addedLines := SplitLines(content.value));
          }
        }
      } else if change.changeType == Some("edit") {
        var originalObjectId := item.originalObjectId;
        var objectId := item.objectId;
        if Truthy(originalObjectId) && Truthy(objectId) {
          var contentBefore := FetchBlob(blobs, originalObjectId.value);
          var contentAfter := FetchBlob(blobs, objectId.value);
          if Truthy(contentBefore) && Truthy(contentAfter) {
            var linesBefore := SplitLines(contentBefore.value);
            var linesAfter := SplitLines(contentAfter.value);
            var diff := RenderAll(Compare(linesBefore, linesAfter));
            fileInfo := fileInfo.(addedLines := PlusLines(diff));
          }
        }
      }
      if fileInfo.addedLines != [] {
        filesWithAdditions := filesWithAdditions + [fileInfo];
      }
    }
    assert changes[..|changes|] == changes;
    r := Some(AddedLinesReport(filesWithAdditions, |filesWithAdditions|, sourceBranch, targetBranch));
  }
}
