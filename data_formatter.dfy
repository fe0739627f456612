/**
 * The data formatter: it holds the five loaded documents and reshapes them into
 * one record (issue, pull request, commits, changed files, per-file line
 * statistics, counts) and into a readable text summary.
 */
module DataFormatter {
  import opened Wrappers
  import opened Text
  import opened Records
  import opened AdfExtract
  import opened Summary

  /** The description of an issue: only an ADF dict is flattened; other values pass through. */
  function DescriptionText(d: Description): (r: Option<string>)
    ensures d.DescDoc? ==> r == Some(FlattenAdf(d.doc))
    ensures d.DescText? ==> r == Some(d.text)
    ensures d.DescMissing? ==> r == Some("")
    ensures d.DescNull? ==> r == None
  {
    match d
    case DescMissing => Some("")
    case DescNull => None
    case DescText(s) => Some(s)
    case DescDoc(doc) => Some(FlattenAdf(doc))
  }

  /** `x.get(key, {}).get('name', '')`. */
  function NameOr(x: Option<Named>): string
  {
    if x.Some? then x.value.name.GetOr("") else ""
  }

  /** `x.get(key, {}).get('displayName', 'N/A')`. */
  function DisplayNameOr(x: Option<Person>): string
  {
    if x.Some? then x.value.displayName.GetOr("N/A") else "N/A"
  }

  /** The id is cut to its first eight characters (fewer when shorter); missing fields get defaults. */
  function FormatCommit(c: Commit): (r: CommitSummary)
    ensures var id := c.commitId.GetOr("");
      r.commitId <= id && |r.commitId| == (if |id| < 8 then |id| else 8)
    ensures r.message == c.comment.GetOr("")
    ensures r.author == (if c.author.Some? then c.author.value.name.GetOr("N/A") else "N/A")
    ensures r.date == (if c.author.Some? then c.author.value.date.GetOr("") else "")
  {
    CommitSummary(
      Take(c.commitId.GetOr(""), 8),
      c.comment.GetOr(""),
      if c.author.Some? then c.author.value.name.GetOr("N/A") else "N/A",
      if c.author.Some? then c.author.value.date.GetOr("") else "")
  }

  /** `len(content.split('\n')) if content else 0`. */
  function LineCount(content: string): (n: nat)
    ensures content == "" ==> n == 0
    ensures content != "" ==> n == Occurrences(content, '\n') + 1
  {
    if content != "" then |Split(content, '\n')| else 0
  }

  /** A non-empty text made of `n` lines joined with newlines counts `n` lines. */
  lemma LineCountOfJoined(lines: seq<string>)
    requires lines != []
    requires forall i :: 0 <= i < |lines| ==> '\n' !in lines[i]
    requires JoinLines(lines) != ""
    ensures LineCount(JoinLines(lines)) == |lines|
  {
    SplitJoinLines(lines);
  }

  function Abs(x: int): nat
  {
    if x < 0 then -x else x
  }

  /**
   * The line statistics of one file. An added file counts no removed lines and a
   * deleted file no added lines, so for both the change is the difference of the
   * line counts; for any other change type added and removed lines are opposite
   * numbers and the change is twice that difference.
   */
  function FileStatsOf(f: FileContent): (r: FileStats)
    ensures r.path == f.path && r.changeType == f.changeType
    ensures r.contentBefore == f.contentBefore.GetOr("") && r.contentAfter == f.contentAfter.GetOr("")
    ensures r.linesBefore == LineCount(r.contentBefore) && r.linesAfter == LineCount(r.contentAfter)
    ensures f.changeType == "add" || f.changeType == "delete" ==>
      r.linesChanged == Abs(r.linesAfter - r.linesBefore)
    ensures f.changeType != "add" && f.changeType != "delete" ==>
      r.linesChanged == 2 * Abs(r.linesAfter - r.linesBefore)
  {
    var contentBefore := f.contentBefore.GetOr("");
    var contentAfter := f.contentAfter.GetOr("");
    var linesBefore := LineCount(contentBefore);
    var linesAfter := LineCount(contentAfter);
    var linesAdded := if f.changeType != "delete" then linesAfter - linesBefore else 0;
    var linesRemoved := if f.changeType != "add" then linesBefore - linesAfter else 0;
    FileStats(f.path, f.changeType, linesBefore, linesAfter, Abs(linesAdded - linesRemoved), contentBefore, contentAfter)
  }

  /** A file whose content is unchanged shows no change, whatever its change type. */
  lemma UnchangedContentNoChange(f: FileContent)
    requires f.contentBefore.GetOr("") == f.contentAfter.GetOr("")
    ensures FileStatsOf(f).linesChanged == 0
  {
  }

  /** A three-line file grown to five lines by an edit is reported as a change of four lines. */
  lemma EditedFileChangeIsDoubled()
    ensures FileStatsOf(FileContent("f.py", "edit", Some("a\nb\nc"), Some("a\nb\nc\nd\ne"))).linesChanged == 4
  {
    assert Occurrences("a\nb\nc", '\n') == 2;
    assert Occurrences("a\nb\nc\nd\ne", '\n') == 4;
  }

  class DataFormatter {
    var issueData: Option<Issue>
    var prData: Option<PullRequest>
    var prCommits: Option<CommitsDoc>
    var prFiles: Option<FilesDoc>
    var prFilesContent: Option<FilesContentDoc>

    constructor ()
      ensures issueData == None && prData == None && prCommits == None
      ensures prFiles == None && prFilesContent == None
    {
      issueData := None;
      prData := None;
      prCommits := None;
      prFiles := None;
      prFilesContent := None;
    }

    /** `load_all_data`: the five documents, each `None` when absent or unreadable. */
    method LoadAllData(
      issue: Option<Issue>, pr: Option<PullRequest>, commits: Option<CommitsDoc>,
      files: Option<FilesDoc>, filesContent: Option<FilesContentDoc>)
      modifies this
      ensures issueData == issue && prData == pr && prCommits == commits
      ensures prFiles == files && prFilesContent == filesContent
    {
      issueData := issue;
      prData := pr;
      prCommits := commits;
      prFiles := files;
      prFilesContent := filesContent;
    }

    /** `format_jira_issue`: `None` without issue data; otherwise the fields with their defaults. */
    function FormatJiraIssue(): (r: Option<IssueSummary>)
      reads this
      ensures r.None? <==> issueData.None?
      ensures r.Some? ==>
        var fields := issueData.value.fields.GetOr(IssueFields(None, DescMissing, None, None, None, None, None, None, None));
        && r.value.issueKey == issueData.value.key
        && r.value.description == DescriptionText(fields.description)
        && r.value.summary == fields.summary.GetOr("")
        && r.value.issueType == NameOr(fields.issuetype)
        && r.value.status == NameOr(fields.status)
        && r.value.priority == NameOr(fields.priority)
        && r.value.assignee == DisplayNameOr(fields.assignee)
        && r.value.reporter == DisplayNameOr(fields.reporter)
        && r.value.created == fields.created.GetOr("")
        && r.value.updated == fields.updated.GetOr("")
    {
      match issueData
      case None => None
      case Some(issue) =>
        var fields := issue.fields.GetOr(IssueFields(None, DescMissing, None, None, None, None, None, None, None));
        Some(IssueSummary(
          issue.key,
          fields.summary.GetOr(""),
          DescriptionText(fields.description),
          NameOr(fields.issuetype),
          NameOr(fields.status),
          NameOr(fields.priority),
          DisplayNameOr(fields.assignee),
          DisplayNameOr(fields.reporter),
          fields.created.GetOr(""),
          fields.updated.GetOr("")))
    }

    /** `format_pr_data`: `None` without pull-request data; branch names have every `refs/heads/` removed. */
    function FormatPrData(): (r: Option<PrSummary>)
      reads this
      ensures r.None? <==> prData.None?
      ensures r.Some? ==>
        var pr := prData.value;
        && r.value.prId == pr.pullRequestId
        && r.value.title == pr.title
        && r.value.description == pr.description.GetOr("")
        && r.value.status == pr.status
        && r.value.sourceBranch == StripBranch(pr.sourceRefName)
        && r.value.targetBranch == StripBranch(pr.targetRefName)
        && |r.value.sourceBranch| <= |pr.sourceRefName.GetOr("")|
        && |r.value.targetBranch| <= |pr.targetRefName.GetOr("")|
        && r.value.createdBy == DisplayNameOr(pr.createdBy)
        && r.value.creationDate == pr.creationDate.GetOr("")
        && r.value.url == pr.url.GetOr("")
    {
      match prData
      case None => None
      case Some(pr) =>
        Some(PrSummary(
          pr.pullRequestId,
          pr.title,
          pr.description.GetOr(""),
          pr.status,
          StripBranch(pr.sourceRefName),
          StripBranch(pr.targetRefName),
          DisplayNameOr(pr.createdBy),
          pr.creationDate.GetOr(""),
          pr.url.GetOr("")))
    }

    /** The commits listed in the loaded commits document. */
    function CommitList(): seq<Commit>
      reads this
    {
      if prCommits.None? then [] else prCommits.value.value.GetOr([])
    }

    function ChangedFileList(): seq<ChangedFile>
      reads this
    {
      if prFiles.None? then [] else prFiles.value.files.GetOr([])
    }

    function FileContentList(): seq<FileContent>
      reads this
    {
      if prFilesContent.None? then [] else prFilesContent.value.files.GetOr([])
    }

    /** `format_commits`: one summary per commit, in the same order. */
    method FormatCommits() returns (commits: seq<CommitSummary>)
      ensures prCommits.None? ==> commits == []
      ensures |commits| == |CommitList()|
      ensures forall i :: 0 <= i < |commits| ==> commits[i] == FormatCommit(CommitList()[i])
    {
      commits := [];
      if prCommits.None? {
        return;
      }
      var source := prCommits.value.value.GetOr([]);
      for i := 0 to |source|
        invariant |commits| == i
        invariant forall j :: 0 <= j < i ==> commits[j] == FormatCommit(source[j])
      {
        commits := commits + [FormatCommit(source[i])];
      }
    }

    /** `format_file_changes`: path and change type of every changed file, in the same order. */
    method FormatFileChanges() returns (changes: seq<FileChangeSummary>)
      ensures prFiles.None? ==> changes == []
      ensures |changes| == |ChangedFileList()|
      ensures forall i :: 0 <= i < |changes| ==>
        changes[i] == FileChangeSummary(ChangedFileList()[i].path, ChangedFileList()[i].changeType)
    {
      changes := [];
      if prFiles.None? {
        return;
      }
      var source := prFiles.value.files.GetOr([]);
      for i := 0 to |source|
        invariant |changes| == i
        invariant forall j :: 0 <= j < i ==> changes[j] == FileChangeSummary(source[j].path, source[j].changeType)
      {
        changes := changes + [FileChangeSummary(source[i].path, source[i].changeType)];
      }
    }

    /** `format_file_contents`: the line statistics of every file, in the same order. */
    method FormatFileContents() returns (files: seq<FileStats>)
      ensures prFilesContent.None? ==> files == []
      ensures |files| == |FileContentList()|
      ensures forall i :: 0 <= i < |files| ==> files[i] == FileStatsOf(FileContentList()[i])
    {
      files := [];
      if prFilesContent.None? {
        return;
      }
      var source := prFilesContent.value.files.GetOr([]);
      for i := 0 to |source|
        invariant |files| == i
        invariant forall j :: 0 <= j < i ==> files[j] == FileStatsOf(source[j])
      {
        files := files + [FileStatsOf(source[i])];
      }
    }

    /**
     * `generate_formatted_output`: loads the documents and formats them; the
     * metadata counts are the lengths of the commit and changed-file lists.
     */
    method GenerateFormattedOutput(
      issue: Option<Issue>, pr: Option<PullRequest>, commits: Option<CommitsDoc>,
      files: Option<FilesDoc>, filesContent: Option<FilesContentDoc>)
      returns (data: FormattedData)
      modifies this
      ensures issueData == issue && prData == pr && prCommits == commits
      ensures prFiles == files && prFilesContent == filesContent
      ensures data.jiraIssue == FormatJiraIssue() && data.pullRequest == FormatPrData()
      ensures |data.commits| == |CommitList()| && |data.fileChangesSummary| == |ChangedFileList()|
      ensures |data.fileContents| == |FileContentList()|
      ensures forall i :: 0 <= i < |data.commits| ==> data.commits[i] == FormatCommit(CommitList()[i])
      ensures forall i :: 0 <= i < |data.fileChangesSummary| ==>
        data.fileChangesSummary[i] == FileChangeSummary(ChangedFileList()[i].path, ChangedFileList()[i].changeType)
      ensures forall i :: 0 <= i < |data.fileContents| ==> data.fileContents[i] == FileStatsOf(FileContentList()[i])
      ensures data.metadata.totalCommits == |data.commits|
      ensures data.metadata.totalFilesChanged == |data.fileChangesSummary|
    {
      LoadAllData(issue, pr, commits, files, filesContent);
      var formattedCommits := FormatCommits();
      var fileChanges := FormatFileChanges();
      var fileContents := FormatFileContents();
      var recountedCommits := FormatCommits();
      var recountedChanges := FormatFileChanges();
      data := FormattedData(
        FormatJiraIssue(),
        FormatPrData(),
        formattedCommits,
        fileChanges,
        fileContents,
        Metadata(|recountedCommits|, |recountedChanges|));
    }

    /** `generate_readable_summary`: the summary lines joined with newlines. */
    method GenerateReadableSummary(data: FormattedData) returns (text: string)
      ensures text == JoinLines(SummaryLines(data))
    {
      var summary: seq<string> := [];
      summary := AppendIssueSection(summary, data.jiraIssue);
      assert summary == IssueSection(data.jiraIssue);
      summary := AppendPrSection(summary, data.pullRequest);
      summary := AppendCommitsSection(summary, data.commits);
      summary := AppendFilesSection(summary, data.fileChangesSummary);
      summary := AppendStatsSection(summary, data.fileContents);
      assert summary == SummaryLines(data);
      text := JoinLines(summary);
    }
  }

  /** Appends the issue section of the summary. */
  method AppendIssueSection(summary: seq<string>, jiraIssue: Option<IssueSummary>) returns (out: seq<string>)
    ensures out == summary + IssueSection(jiraIssue)
  {
    out := summary;
    if jiraIssue.Some? {
      var issue := jiraIssue.value;
      out := out + [Rule, "JIRA ISSUE", Rule];
      out := out + ["Key: " + StrOrNone(issue.issueKey)];
      out := out + ["Tipo: " + issue.issueType + " | Status: " + issue.status + " | Prioridade: " + issue.priority];
      out := out + ["\nSumario: " + issue.summary];
      out := out + ["\nDescricao:\n" + StrOrNone(issue.description)];
      out := out + ["\nAssignee: " + issue.assignee + " | Reporter: " + issue.reporter];
      out := out + [""];
    }
  }

  /** Appends the pull-request section; the description line only when the description is non-empty. */
  method AppendPrSection(summary: seq<string>, pullRequest: Option<PrSummary>) returns (out: seq<string>)
    ensures out == summary + PrSection(pullRequest)
  {
    out := summary;
    if pullRequest.Some? {
      var pr := pullRequest.value;
      out := out + [Rule, "PULL REQUEST", Rule];
      out := out + ["ID: #" + IntOrNone(pr.prId)];
      out := out + ["Titulo: " + StrOrNone(pr.title)];
      out := out + ["Status: " + StrOrNone(pr.status)];
      out := out + ["Branch: " + pr.sourceBranch + " -> " + pr.targetBranch];
      out := out + ["Criado por: " + pr.createdBy + " em " + pr.creationDate];
      if pr.description != "" {
        out := out + ["\nDescricao: " + pr.description];
      }
      out := out + [""];
    }
  }

  /** Appends the commits section: a header with the count, then two lines per commit. */
  method AppendCommitsSection(summary: seq<string>, commits: seq<CommitSummary>) returns (out: seq<string>)
    ensures out == summary + CommitsSection(commits)
  {
    out := summary;
    if commits != [] {
      out := out + [Rule, "COMMITS (" + NatToString(|commits|) + ")", Rule];
      ghost var head := out;
      for i := 0 to |commits|
        invariant out == head + CommitLines(commits[..i])
      {
        var commit := commits[i];
        assert commits[..i + 1][..i] == commits[..i];
        out := out + ["  [" + commit.commitId + "] " + commit.message];
        out := out + ["      Por: " + commit.author + " em " + commit.date];
      }
      assert commits[..|commits|] == commits;
      out := out + [""];
    }
  }

  /** Appends the changed-files section: a header with the count, then one line per file. */
  method AppendFilesSection(summary: seq<string>, changes: seq<FileChangeSummary>) returns (out: seq<string>)
    ensures out == summary + FilesSection(changes)
  {
    out := summary;
    if changes != [] {
      out := out + [Rule, "FICHEIROS ALTERADOS (" + NatToString(|changes|) + ")", Rule];
      ghost var head := out;
      for i := 0 to |changes|
        invariant out == head + FileChangeLines(changes[..i])
      {
        assert changes[..i + 1][..i] == changes[..i];
        out := out + ["  [" + changes[i].changeType + "] " + changes[i].path];
      }
      assert changes[..|changes|] == changes;
      out := out + [""];
    }
  }

  /** Appends the code-statistics section: a header, then each file's statistics by change type. */
  method AppendStatsSection(summary: seq<string>, contents: seq<FileStats>) returns (out: seq<string>)
    ensures out == summary + StatsSection(contents)
  {
    out := summary;
    if contents != [] {
      out := out + [Rule, "ESTATISTICAS DE CODIGO", Rule];
      out := AppendStatsLines(out, contents);
    }
  }

  /** Appends the statistics of every file, in order. */
  method AppendStatsLines(summary: seq<string>, contents: seq<FileStats>) returns (out: seq<string>)
    ensures out == summary + StatsLines(contents)
  {
    out := summary;
    for i := 0 to |contents|
      invariant out == summary + StatsLines(contents[..i])
    {
      StatsLinesStep(contents, i);
      out := AppendStatsEntry(out, contents[i]);
    }
    assert contents[..|contents|] == contents;
  }

  /** Appends the statistics of one file. */
  method AppendStatsEntry(summary: seq<string>, f: FileStats) returns (out: seq<string>)
    ensures out == summary + StatsEntry(f)
  {
    out := summary + ["\n" + f.path, "  Tipo: " + f.changeType];
    if f.changeType == "add" {
      out := out + ["  Ficheiro novo: " + NatToString(f.linesAfter) + " linhas"];
    } else if f.changeType == "delete" {
      out := out + ["  Ficheiro apagado: tinha " + NatToString(f.linesBefore) + " linhas"];
    } else {
      out := out + ["  Antes: " + NatToString(f.linesBefore) + " linhas"];
      out := out + ["  Depois: " + NatToString(f.linesAfter) + " linhas"];
      out := out + ["  Alteracao: " + NatToString(f.linesChanged) + " linhas"];
    }
  }

  lemma StatsLinesStep(contents: seq<FileStats>, i: nat)
    requires i < |contents|
    ensures StatsLines(contents[..i + 1]) == StatsLines(contents[..i]) + StatsEntry(contents[i])
  {
    assert contents[..i + 1][..i] == contents[..i];
  }
}
