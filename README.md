# Pull-request and issue data shaping, modelled in Dafny

This project models the two pieces of logic in the PR analyzer that do real work.
Everything else in the analyzer is HTTP, file and LLM glue.

- **Added-lines assembly** (`AzureDevOpsClient.get_pr_added_lines_only`).
  - It walks the changeset of a pull request and skips folders.
  - An added file contributes every line of its new blob.
  - An edited file contributes the lines a line diff tags as inserted (`'+ '`).
  - Any other change contributes nothing.
  - Files without added lines are dropped. The files are counted and returned with the two branch names.
  - The branch guard of `get_pr_diff` comes first: no diff without metadata or with an empty branch name.
- **Record normalisation** (`DataFormatter`).
  - The formatter keeps the five loaded documents as fields.
  - It flattens Atlassian Document Format (ADF) descriptions into newline-joined text, in depth-first pre-order.
  - It reshapes the issue and the pull request with their defaults. Every `refs/heads/` is removed from the branch refs.
  - It cuts commit ids to eight characters.
  - It computes per-file line statistics from `split('\n')` counts.
  - It counts commits and changed files.
  - It renders the readable summary section by section.

Files:

| file | module | contents |
|---|---|---|
| `wrappers.dfy` | `Wrappers` | `Option`, used for missing keys and falsy values |
| `text.dfy` | `Text` | `split`, `'\n'.join`, `splitlines`, `str.replace` with an empty replacement, slicing, printing of numbers and `None` |
| `line_diff.dfy` | `LineDiff` | the line diff as tagged entries, with an LCS stand-in for `difflib.Differ` and the `'+ '` extraction |
| `records.dfy` | `Records` | the JSON documents and formatted records as datatypes, and branch-ref stripping |
| `azdo_client.dfy` | `AzdoClient` | `get_pr_diff`'s guard and `get_pr_added_lines_only` |
| `adf_extract.dfy` | `AdfExtract` | `_extract_text_from_adf` |
| `summary.dfy` | `Summary` | the lines of the readable summary, as functions |
| `data_formatter.dfy` | `DataFormatter` | the `DataFormatter` class and its formatters |

The HTTP collaborators are inputs:
- the pull-request metadata is an `Option<PullRequest>`, where `None` is a failed request or an empty body;
- the commit-diff response is an `Option<DiffData>`;
- blob lookup is a `map<string, string>` from object id to text, where an absent id is a failed fetch.

A Python value that is falsy is modelled as `None` (an absent key, `None`, or an empty dict or list where the code tests truthiness).

The change count of a file is `abs(lines_added − lines_removed)` (data_formatter.py:157). For a change type other than `add` or `delete`, the two counts are opposite numbers, so the reported change is `2·|after − before|`. `FileStatsOf` states this and `EditedFileChangeIsDoubled` shows it on an example.

## Model

| member | source | states |
|---|---|---|
| AzdoClient.GetPrAddedLinesOnly | azdo_client.py:95-158 | `None` exactly when the metadata or the diff is missing or a stripped branch is empty; otherwise the files are the included changes in order, `total` is their number and the branches are the stripped refs |
| AzdoClient.FilesAreIncludedChangesInOrder | azdo_client.py:108-151 | the report lists exactly the non-folder entries with added lines, each once, in strictly increasing changeset position |
| AzdoClient.ListedFilesHaveAddedLines | azdo_client.py:113-114 | folders and entries without added lines never appear; every listed file has added lines; there are no more files than changes |
| Records.StripBranch | azdo_client.py:57-58 | `ref.get(…, '').replace('refs/heads/', '')`: `""` for a missing ref, never longer than the ref, and the ref itself when it holds no `refs/heads/` |
| AzdoClient.FetchBlob | azdo_client.py:78-93 | a blob fetch succeeds exactly when the object id is known, with that blob's text |
| AzdoClient.FilesWithAdditions | azdo_client.py:108-151 | the loop's file list: no more files than changes, each with added lines |
| AzdoClient.FilesAreSelectedChanges | azdo_client.py:108-151 | the `k`-th reported file is the entry at the `k`-th selected changeset position |
| AzdoClient.SelectedIndicesIncrease | azdo_client.py:110 | the selected positions lie in the changeset and strictly increase, so changeset order is kept |
| AzdoClient.SelectedIndicesAreIncluded | azdo_client.py:113-151 | a changeset position is selected exactly when its entry is not a folder and has added lines |
| AzdoClient.AddedLinesFor | azdo_client.py:125-151 | add: the blob's lines, non-empty iff the object id and the fetched text are non-empty; edit: exactly the inserted lines of the diff when both ids and both fetched texts are non-empty, else nothing; a non-empty result is a subsequence of the new lines; other types: nothing |
| AzdoClient.UnchangedEditAddsNothing | azdo_client.py:132-148 | an edit whose old and new blobs are the same text adds no lines |
| AzdoClient.AddedAndDeletedFileExample | azdo_client.py:125-151 | an added two-line file is reported with both lines; a deleted file is not reported |
| AzdoClient.GetPrDiff | azdo_client.py:51-62 | no diff without metadata or when either stripped branch is empty; otherwise the diff response |
| AzdoClient.GetPrDiffNeedsSourceBranch | azdo_client.py:57-62 | a missing source ref, or one that is just `refs/heads/`, gives no diff |
| AzdoClient.StripBranchOfHeadsRef | azdo_client.py:105-106 | `refs/heads/` followed by a name that does not contain it strips to that name |
| AzdoClient.StripBranchRemovesInnerOccurrence | data_formatter.py:99-100 | every occurrence is removed: `refs/heads/a/refs/heads/b` becomes `a/b` |
| AzdoClient.StripBranchMayLeavePrefix | data_formatter.py:99-100 | stripping is not prefix removal: `refs/refs/heads/heads/` strips to `refs/heads/` |
| LineDiff.Compare | azdo_client.py:144-145 | the diff's old side is the old lines and its new side is the new lines |
| LineDiff.PlusLinesOfRendered | azdo_client.py:147 | the `'+ '` lines of the rendered diff with their tag removed are exactly the inserted entries, in diff order |
| LineDiff.InsertedAreSubsequenceOfAfter | azdo_client.py:144-148 | for any alignment of the old and new lines, the inserted lines are a subsequence of the new lines, so no more of them |
| LineDiff.CompareIdentical | azdo_client.py:144-148 | comparing lines with themselves inserts nothing |
| LineDiff.CompareFromEmpty | azdo_client.py:144-148 | from no lines, every new line is inserted |
| LineDiff.CompareToEmpty | azdo_client.py:144-148 | to no lines, nothing is inserted |
| LineDiff.CompareSwapped | azdo_client.py:144-148 | of two swapped lines `[a, b]` → `[b, a]`, the first old line is kept and only the line moved in front of it, `b`, is inserted, as `Differ` reports |
| LineDiff.CompareInsertMiddle | azdo_client.py:144-148 | a line inserted between kept lines is the only inserted line |
| Text.SplitLines | azdo_client.py:130 | text splits into no lines exactly when it is empty; no line holds a line break |
| Text.SplitLinesIsSplit | azdo_client.py:130 | for text without `'\r'` or a trailing newline, the line split is the split on `'\n'` |
| Text.JoinLines | data_formatter.py:87 | `'\n'.join`: `""` for no parts, starts with the first part, and holds one newline between neighbours beyond those inside the parts |
| Text.SplitJoinLines | data_formatter.py:87 | splitting newline-joined parts on `'\n'` gives back the parts |
| Text.Split | data_formatter.py:147-148 | `split('\n')` gives one more piece than there are newlines, none holding a newline |
| Text.RemoveAll | data_formatter.py:99-100 | removing every occurrence never lengthens the text |
| Text.RemoveAllKeepsPrefix | data_formatter.py:99-100 | text in front of the first occurrence is kept unchanged |
| Text.Take | data_formatter.py:114 | the slice `[:n]` is a prefix of length `min(n, len)` |
| AdfExtract.ExtractContent | data_formatter.py:71-83 | the shared text list grows by exactly the node's texts: own text first, then each child's, and each item of a list |
| AdfExtract.ExtractTextFromAdf | data_formatter.py:64-87 | a dict document flattens to its texts in depth-first pre-order, joined with `'\n'` |
| AdfExtract.TextsOfIsPreOrder | data_formatter.py:71-83 | the collected texts are the texts of the nodes in pre-order |
| AdfExtract.FlattenAdf | data_formatter.py:64-87 | the flattened text is the pre-order texts joined with `'\n'` |
| AdfExtract.NoTextFlattensToEmpty | data_formatter.py:64-87 | a document with no `text` anywhere flattens to `""` |
| AdfExtract.FlattenSplitsBack | data_formatter.py:87 | splitting the flattened text on newlines gives back the pre-order texts, when none holds a newline |
| AdfExtract.FlattenExample | data_formatter.py:64-87 | `{content:[{text:"A"},{content:[{text:"B"}]}]}` flattens to `"A\nB"` |
| DataFormatter.DescriptionText | data_formatter.py:46-49 | only a dict description is flattened; a string passes through, `null` stays `None`, a missing one is `""` |
| DataFormatter.DataFormatter.constructor | data_formatter.py:8-13 | all five documents start unloaded |
| DataFormatter.DataFormatter.LoadAllData | data_formatter.py:28-36 | the five fields hold the loaded documents |
| DataFormatter.DataFormatter.FormatJiraIssue | data_formatter.py:38-62 | `None` exactly without issue data; otherwise key, description and every field with its default (`''`, or `'N/A'` for people) |
| DataFormatter.DataFormatter.FormatPrData | data_formatter.py:89-104 | `None` exactly without PR data; otherwise the fields with their defaults and branches stripped of every `refs/heads/`, no longer than the refs |
| DataFormatter.FormatCommit | data_formatter.py:112-118 | the id is a prefix of the original of length `min(8, len)`; message, author and date with their defaults |
| DataFormatter.DataFormatter.FormatCommits | data_formatter.py:106-120 | `[]` without commits; otherwise one summary per commit, same length and order |
| DataFormatter.DataFormatter.FormatFileChanges | data_formatter.py:122-134 | `[]` without files; otherwise path and change type of each file, same length and order |
| DataFormatter.LineCount | data_formatter.py:147-148 | 0 for empty content, otherwise the number of newlines plus one |
| DataFormatter.LineCountOfJoined | data_formatter.py:147-148 | `n` newline-free lines joined with newlines count `n` lines |
| DataFormatter.FileStatsOf | data_formatter.py:140-160 | line counts of both contents; the change is `abs(after - before)` for add and delete and twice that for any other type |
| DataFormatter.UnchangedContentNoChange | data_formatter.py:147-157 | unchanged content shows no change, whatever the change type |
| DataFormatter.EditedFileChangeIsDoubled | data_formatter.py:149-157 | an edit from three to five lines is reported as a change of four |
| DataFormatter.DataFormatter.FormatFileContents | data_formatter.py:136-162 | `[]` without contents; otherwise the statistics of each file, same length and order |
| DataFormatter.DataFormatter.GenerateFormattedOutput | data_formatter.py:164-181 | the record of the formatted documents; the commit and changed-file totals equal the lengths of their lists |
| DataFormatter.DataFormatter.GenerateReadableSummary | data_formatter.py:193-261 | the summary is its section lines joined with `'\n'` |
| DataFormatter.AppendIssueSection | data_formatter.py:198-208 | the issue block: a titled header, key, type/status/priority, summary, description, people, then a blank line |
| DataFormatter.AppendPrSection | data_formatter.py:211-223 | the description line only when the description is non-empty |
| DataFormatter.AppendCommitsSection | data_formatter.py:226-233 | a header with the count, then two lines per commit, in order |
| DataFormatter.AppendFilesSection | data_formatter.py:236-242 | a header with the count, then one line per changed file, in order |
| DataFormatter.AppendStatsSection | data_formatter.py:245-259 | a titled header and each file's statistics, only when there are file contents |
| DataFormatter.AppendStatsLines | data_formatter.py:249-259 | each file's statistics, in order |
| DataFormatter.AppendStatsEntry | data_formatter.py:250-259 | new size for add, old size for delete, before/after/changed otherwise |
| Summary.SummaryEmptyIffNoData | data_formatter.py:193-261 | the summary is empty exactly when every section's data is missing or empty |
| Summary.SectionsInOrder | data_formatter.py:193-261 | issue, PR, commits, changed files and statistics come in that order, each titled exactly when its data is present |
| Summary.SectionsPresentIffData | data_formatter.py:198-259 | each section is empty exactly when its data is missing or empty |
| Summary.CommitLinesLayout | data_formatter.py:230-232 | commit `i` is on lines `2i` and `2i+1` of the commit block |
| Summary.FileChangeLinesLayout | data_formatter.py:240-241 | changed file `i` is on line `i` of its block |
| Summary.StatsLinesLength | data_formatter.py:249-259 | the statistics block has three lines per file plus two per file that is neither added nor deleted |

## Left out

- HTTP traffic (`requests.get` against Azure DevOps and Jira) is not modelled. Its results are the inputs described above.
- `get_pr_added_lines_only` fetches the pull-request metadata twice, once itself and once inside `get_pr_diff`. The model assumes both fetches return the same record.
- LineDiff.Compare: it is an LCS stand-in, not `difflib.Differ`. On a tie it inserts the head of the new lines, keeping the head of the old lines for a later match, as the library's matcher prefers the match that comes first in the old lines; it does not reproduce that matcher in general. The junk heuristics, `fancy_replace` and the `'? '` hint lines are not reproduced. The properties of the `'+ '` extraction are proved for any alignment (`IsAlignment`); only the worked examples depend on the stand-in.
- Text.SplitLines: it breaks only on `'\n'`, `'\r'` and `'\r\n'`, not on the other Unicode line boundaries `str.splitlines` knows.
- AdfExtract.ExtractTextFromAdf: it takes only a dict document, so the `str(adf_doc)` branch for a non-dict is not modelled. Its only caller flattens a description only when it is a dict, and Python's `repr` of lists and numbers is not modelled.
- ADF values are either dicts with an optional string `text` and a `content` list, or lists, or scalars. A non-string `text` or a non-list `content` is not modelled.
- A JSON `null` in a scalar field is treated like an absent key, except for the Jira description, where `null` and absent differ. The crash of `.get` on a JSON `null` is not modelled: for the issue's `fields`, `issuetype`, `status`, `priority`, `assignee` and `reporter` (data_formatter.py:43, 55-59), the pull request's `createdBy` (data_formatter.py:101), a commit's `author` (data_formatter.py:116-117) and a change's `item` (azdo_client.py:111-113).
- The `KeyError` raised by `format_file_changes` and `format_file_contents` for a file entry without `path` or `changeType` (data_formatter.py:130-131, 149-154) is not modelled: the record types `ChangedFile` and `FileContent` always carry both fields.
- A diff response that is a non-empty dict without `changes` is modelled; an empty dict is the same as a missing response.
- `load_json_file` (filesystem and JSON parsing), `save_formatted_output` and the `generated_at` timestamp from `datetime.now()` are not modelled. `LoadAllData` takes the parsed documents as parameters.
- The `__main__` block of the formatter, `ai_analyzer.py`, `main.py` and `jira_client.py` are not part of this model. They are orchestration, LLM calls, console output and HTTP.
