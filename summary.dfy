/**
 * The readable summary (`generate_readable_summary`): the formatted record as
 * text lines, section by section in a fixed order (issue, pull request, commits,
 * changed files, code statistics), each section present only when its data is.
 */
module Summary {
  import opened Wrappers
  import opened Text
  import opened Records

  /** `"=" * 80`. */
  const Rule: string := "================================================================================"

  function IssueSection(issue: Option<IssueSummary>): seq<string>
  {
    match issue
    case None => []
    case Some(i) =>
      [ Rule, "JIRA ISSUE", Rule,
        "Key: " + StrOrNone(i.issueKey),
        "Tipo: " + i.issueType + " | Status: " + i.status + " | Prioridade: " + i.priority,
        "\nSumario: " + i.summary,
        "\nDescricao:\n" + StrOrNone(i.description),
        "\nAssignee: " + i.assignee + " | Reporter: " + i.reporter,
        "" ]
  }

  function PrSection(pr: Option<PrSummary>): seq<string>
  {
    match pr
    case None => []
    case Some(p) =>
      [ Rule, "PULL REQUEST", Rule,
        "ID: #" + IntOrNone(p.prId),
        "Titulo: " + StrOrNone(p.title),
        "Status: " + StrOrNone(p.status),
        "Branch: " + p.sourceBranch + " -> " + p.targetBranch,
        "Criado por: " + p.createdBy + " em " + p.creationDate ]
      + (if p.description != "" then ["\nDescricao: " + p.description] else [])
      + [""]
  }

  function CommitEntry(c: CommitSummary): seq<string>
  {
    ["  [" + c.commitId + "] " + c.message, "      Por: " + c.author + " em " + c.date]
  }

  function CommitLines(commits: seq<CommitSummary>): seq<string>
  {
    if commits == [] then []
    else CommitLines(commits[..|commits| - 1]) + CommitEntry(commits[|commits| - 1])
  }

  function CommitsSection(commits: seq<CommitSummary>): seq<string>
  {
    if commits == [] then []
    else [Rule, "COMMITS (" + NatToString(|commits|) + ")", Rule] + CommitLines(commits) + [""]
  }

  function FileChangeEntry(f: FileChangeSummary): string
  {
    "  [" + f.changeType + "] " + f.path
  }

  function FileChangeLines(files: seq<FileChangeSummary>): seq<string>
  {
    if files == [] then []
    else FileChangeLines(files[..|files| - 1]) + [FileChangeEntry(files[|files| - 1])]
  }

  function FilesSection(files: seq<FileChangeSummary>): seq<string>
  {
    if files == [] then []
    else [Rule, "FICHEIROS ALTERADOS (" + NatToString(|files|) + ")", Rule] + FileChangeLines(files) + [""]
  }

  /** The statistics of one file: the new size of an added file, the old size of a deleted one, else all three. */
  function StatsEntry(f: FileStats): seq<string>
  {
    ["\n" + f.path, "  Tipo: " + f.changeType]
    + if f.changeType == "add" then ["  Ficheiro novo: " + NatToString(f.linesAfter) + " linhas"]
      else if f.changeType == "delete" then ["  Ficheiro apagado: tinha " + NatToString(f.linesBefore) + " linhas"]
      else [ "  Antes: " + NatToString(f.linesBefore) + " linhas",
             "  Depois: " + NatToString(f.linesAfter) + " linhas",
             "  Alteracao: " + NatToString(f.linesChanged) + " linhas" ]
  }

  function StatsLines(files: seq<FileStats>): seq<string>
  {
    if files == [] then []
    else StatsLines(files[..|files| - 1]) + StatsEntry(files[|files| - 1])
  }

  function StatsSection(files: seq<FileStats>): seq<string>
  {
    if files == [] then []
    else [Rule, "ESTATISTICAS DE CODIGO", Rule] + StatsLines(files)
  }

  /** The summary's lines, before they are joined with newlines. */
  function SummaryLines(data: FormattedData): seq<string>
  {
    IssueSection(data.jiraIssue)
    + PrSection(data.pullRequest)
    + CommitsSection(data.commits)
    + FilesSection(data.fileChangesSummary)
    + StatsSection(data.fileContents)
  }

  /** The summary is empty exactly when there is no data at all. */
  lemma SummaryEmptyIffNoData(data: FormattedData)
    ensures SummaryLines(data) == [] <==>
      && data.jiraIssue.None? && data.pullRequest.None?
      && data.commits == [] && data.fileChangesSummary == [] && data.fileContents == []
    ensures SummaryLines(data) == [] ==> JoinLines(SummaryLines(data)) == ""
  {
  }

  /**
   * The sections come in a fixed order; a section begins with a rule, its title
   * and a rule, exactly when its data is present.
   */
  lemma SectionsInOrder(data: FormattedData)
    ensures var issue, pr, commits, files := IssueSection(data.jiraIssue), PrSection(data.pullRequest),
                                            CommitsSection(data.commits), FilesSection(data.fileChangesSummary);
      var lines := SummaryLines(data);
      && (data.jiraIssue.Some? ==> lines[1] == "JIRA ISSUE")
      && (data.pullRequest.Some? ==> lines[|issue| + 1] == "PULL REQUEST")
      && (data.commits != [] ==> lines[|issue| + |pr| + 1] == "COMMITS (" + NatToString(|data.commits|) + ")")
      && (data.fileChangesSummary != [] ==>
            lines[|issue| + |pr| + |commits| + 1] == "FICHEIROS ALTERADOS (" + NatToString(|data.fileChangesSummary|) + ")")
      && (data.fileContents != [] ==> lines[|issue| + |pr| + |commits| + |files| + 1] == "ESTATISTICAS DE CODIGO")
      && (data.jiraIssue.None? <==> issue == [])
      && (data.pullRequest.None? <==> pr == [])
      && (data.commits == [] <==> commits == [])
      && (data.fileChangesSummary == [] <==> files == [])
      && (data.fileContents == [] <==> StatsSection(data.fileContents) == [])
  {
    SectionsPresentIffData(data);
    IssueTitle(data);
    PrTitle(data);
    CommitsTitle(data);
    FilesTitle(data);
    StatsTitle(data);
  }

  /** A section is empty exactly when its data is missing or empty. */
  lemma SectionsPresentIffData(data: FormattedData)
    ensures data.jiraIssue.None? <==> IssueSection(data.jiraIssue) == []
    ensures data.pullRequest.None? <==> PrSection(data.pullRequest) == []
    ensures data.commits == [] <==> CommitsSection(data.commits) == []
    ensures data.fileChangesSummary == [] <==> FilesSection(data.fileChangesSummary) == []
    ensures data.fileContents == [] <==> StatsSection(data.fileContents) == []
  {
  }

  lemma IssueTitle(data: FormattedData)
    ensures data.jiraIssue.Some? ==> SummaryLines(data)[1] == "JIRA ISSUE"
  {
  }

  lemma PrTitle(data: FormattedData)
    ensures data.pullRequest.Some? ==> SummaryLines(data)[|IssueSection(data.jiraIssue)| + 1] == "PULL REQUEST"
  {
  }

  lemma CommitsTitle(data: FormattedData)
    ensures var offset := |IssueSection(data.jiraIssue)| + |PrSection(data.pullRequest)|;
      data.commits != [] ==> SummaryLines(data)[offset + 1] == "COMMITS (" + NatToString(|data.commits|) + ")"
  {
  }

  lemma FilesTitle(data: FormattedData)
    ensures var offset := |IssueSection(data.jiraIssue)| + |PrSection(data.pullRequest)| + |CommitsSection(data.commits)|;
      data.fileChangesSummary != [] ==>
        SummaryLines(data)[offset + 1] == "FICHEIROS ALTERADOS (" + NatToString(|data.fileChangesSummary|) + ")"
  {
  }

  lemma StatsTitle(data: FormattedData)
    ensures var offset := |IssueSection(data.jiraIssue)| + |PrSection(data.pullRequest)|
                          + |CommitsSection(data.commits)| + |FilesSection(data.fileChangesSummary)|;
      data.fileContents != [] ==> SummaryLines(data)[offset + 1] == "ESTATISTICAS DE CODIGO"
  {
  }

  /** Commit `i` is reported on lines `2i` and `2i + 1` of the commit lines. */
  lemma {:induction false} CommitLinesLayout(commits: seq<CommitSummary>)
    ensures |CommitLines(commits)| == 2 * |commits|
    ensures forall i :: 0 <= i < |commits| ==>
      && CommitLines(commits)[2 * i] == "  [" + commits[i].commitId + "] " + commits[i].message
      && CommitLines(commits)[2 * i + 1] == "      Por: " + commits[i].author + " em " + commits[i].date
  {
    if commits != [] {
      var n := |commits| - 1;
      CommitLinesLayout(commits[..n]);
      forall i | 0 <= i < n
        ensures CommitLines(commits)[2 * i] == CommitLines(commits[..n])[2 * i]
        ensures CommitLines(commits)[2 * i + 1] == CommitLines(commits[..n])[2 * i + 1]
      {
      }
    }
  }

  /** Changed file `i` is line `i` of the changed-files lines. */
  lemma {:induction false} FileChangeLinesLayout(files: seq<FileChangeSummary>)
    ensures |FileChangeLines(files)| == |files|
    ensures forall i :: 0 <= i < |files| ==> FileChangeLines(files)[i] == "  [" + files[i].changeType + "] " + files[i].path
  {
    if files != [] {
      FileChangeLinesLayout(files[..|files| - 1]);
    }
  }

  /** Files that are neither added nor deleted. */
  function EditedCount(files: seq<FileStats>): nat
  {
    if files == [] then 0
    else
      var last := files[|files| - 1];
      EditedCount(files[..|files| - 1]) + (if last.changeType != "add" && last.changeType != "delete" then 1 else 0)
  }

  /** Added and deleted files take three statistics lines, every other file five. */
  lemma {:induction false} StatsLinesLength(files: seq<FileStats>)
    ensures |StatsLines(files)| == 3 * |files| + 2 * EditedCount(files)
  {
    if files != [] {
      StatsLinesLength(files[..|files| - 1]);
    }
  }
}
