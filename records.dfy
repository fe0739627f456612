/**
 * The JSON documents the core reads and the records it produces, as typed values.
 * A key that may be absent is an `Option`; a dict that the source tests for
 * truthiness (`if not x`) is an `Option` whose `None` is "missing or empty".
 */
module Records {
  import opened Wrappers
  import opened Text

  /** The prefix of a branch ref name. */
  const HeadsPrefix: string := "refs/heads/"

  /** `ref.replace('refs/heads/', '')` of a possibly missing ref name (default `''`). */
  function StripBranch(ref: Option<string>): (r: string)
    ensures ref.None? ==> r == ""
    ensures |r| <= |ref.GetOr("")|
    ensures (forall i: nat :: !OccursAt(ref.GetOr(""), HeadsPrefix, i)) ==> r == ref.GetOr("")
  {
    RemoveAllIdentity(ref.GetOr(""), HeadsPrefix);
    RemoveAll(ref.GetOr(""), HeadsPrefix)
  }

  // ---- Azure DevOps: pull-request metadata and the changeset ----

  datatype Person = Person(displayName: Option<string>)

  /** A pull request as returned by the pull-request endpoint. */
  datatype PullRequest = PullRequest(
    pullRequestId: Option<int>,
    title: Option<string>,
    description: Option<string>,
    status: Option<string>,
    sourceRefName: Option<string>,
    targetRefName: Option<string>,
    createdBy: Option<Person>,
    creationDate: Option<string>,
    url: Option<string>)

  /** The `item` of a changeset entry; a missing `item` is the all-default one. */
  datatype Item = Item(
    isFolder: bool,
    path: Option<string>,
    objectId: Option<string>,
    originalObjectId: Option<string>)

  datatype Change = Change(item: Item, changeType: Option<string>)

  /** The commit-diff response; `changes` may be absent. */
  datatype DiffData = DiffData(changes: Option<seq<Change>>)

  /** One file of the added-lines report. */
  datatype FileInfo = FileInfo(path: Option<string>, changeType: Option<string>, addedLines: seq<string>)

  /** The result of assembling the added lines of a pull request. */
  datatype AddedLinesReport = AddedLinesReport(
    files: seq<FileInfo>,
    total: int,
    sourceBranch: string,
    targetBranch: string)

  // ---- Jira ----

  /**
   * An Atlassian Document Format value: a dict node with an optional `text` and the
   * children listed under `content`, a list, or any other JSON value (ignored).
   */
  datatype Adf =
    | Node(text: Option<string>, content: seq<Adf>)
    | Items(items: seq<Adf>)
    | Scalar

  type AdfDict = a: Adf | a.Node? witness Node(None, [])

  /** An issue's `description`: absent, JSON null, plain text, or an ADF document. */
  datatype Description =
    | DescMissing
    | DescNull
    | DescText(text: string)
    | DescDoc(doc: AdfDict)

  datatype Named = Named(name: Option<string>)

  datatype IssueFields = IssueFields(
    summary: Option<string>,
    description: Description,
    issuetype: Option<Named>,
    status: Option<Named>,
    priority: Option<Named>,
    assignee: Option<Person>,
    reporter: Option<Person>,
    created: Option<string>,
    updated: Option<string>)

  datatype Issue = Issue(key: Option<string>, fields: Option<IssueFields>)

  // ---- The other loaded documents ----

  datatype CommitAuthor = CommitAuthor(name: Option<string>, date: Option<string>)

  datatype Commit = Commit(commitId: Option<string>, comment: Option<string>, author: Option<CommitAuthor>)

  datatype CommitsDoc = CommitsDoc(value: Option<seq<Commit>>)

  /** An entry of the changed-files list; `path` and `changeType` are required keys. */
  datatype ChangedFile = ChangedFile(path: string, changeType: string)

  datatype FilesDoc = FilesDoc(files: Option<seq<ChangedFile>>)

  datatype FileContent = FileContent(
    path: string,
    changeType: string,
    contentBefore: Option<string>,
    contentAfter: Option<string>)

  datatype FilesContentDoc = FilesContentDoc(files: Option<seq<FileContent>>)

  // ---- The formatted output ----

  datatype IssueSummary = IssueSummary(
    issueKey: Option<string>,
    summary: string,
    description: Option<string>,
    issueType: string,
    status: string,
    priority: string,
    assignee: string,
    reporter: string,
    created: string,
    updated: string)

  datatype PrSummary = PrSummary(
    prId: Option<int>,
    title: Option<string>,
    description: string,
    status: Option<string>,
    sourceBranch: string,
    targetBranch: string,
    createdBy: string,
    creationDate: string,
    url: string)

  datatype CommitSummary = CommitSummary(commitId: string, message: string, author: string, date: string)

  datatype FileChangeSummary = FileChangeSummary(path: string, changeType: string)

  datatype FileStats = FileStats(
    path: string,
    changeType: string,
    linesBefore: nat,
    linesAfter: nat,
    linesChanged: nat,
    contentBefore: string,
    contentAfter: string)

  datatype Metadata = Metadata(totalCommits: nat, totalFilesChanged: nat)

  datatype FormattedData = FormattedData(
    jiraIssue: Option<IssueSummary>,
    pullRequest: Option<PrSummary>,
    commits: seq<CommitSummary>,
    fileChangesSummary: seq<FileChangeSummary>,
    fileContents: seq<FileStats>,
    metadata: Metadata)
}
