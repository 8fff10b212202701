# Jira issue shaping, modelled in Dafny

The repository exposes Jira operations as tools for an automation framework.
Almost every operation forwards its arguments to the third-party
`atlassian.Jira` client. The only local logic is the data shaping inside
`ManageIssues` (`jira_client/issue.py`). This project models that shaping as
pure functions over a JSON value and proves what each one promises. The
remote response is always an input value.

- `json.dfy` — module `JsonModel`: the `Json` datatype (null, boolean,
  number, string, array, object as an ordered member list). It also holds
  Python's dictionary reads (`d.get(k, default)`, `k in d`), nested path
  look-up, and what a `for` loop visits in a container.
- `text.dfy` — module `Text`: single-character `str.replace`, ASCII
  `str.lower`, `sep.join` and `str.split`, and the lemma that splitting
  undoes joining.
- `null_strip.dfy` — module `NullStrip`: `_remove_null_values` and
  `GetIssue`.
- `issue_search.dfy` — module `IssueSearch`: the three-field projection
  `_getFilteredIssues`, `GetIssues`, and `SearchIssuesByText` with its
  sanitiser and query assembly.
- `issue_links.dfy` — module `IssueLinks`: `GetLinkedIssues`, covering link
  direction, the relationship filter and the `{key, relationship, summary}`
  entries.
- `listing.dfy` — module `Listing`: the default field list used by
  `GetIssuesForBoard` and `GetIssuesForProject`.

Python raises a fault on some inputs, for example `.get` on a value that is
not a dict. Those inputs are excluded by shape predicates in each
operation's `requires` (`IssueShapeOk`, `ResponseShapeOk`, `LinkOk`,
`LinkedIssueShapeOk`). Python processes every input these predicates admit
without a fault. A few fault-free inputs are excluded too: a response,
`fields` value or link that is not an object. "## Left out" lists these.

A projected issue always carries `status`. It is null when
`fields.status.name` is missing (jira_client/issue.py:122).

## Model

| member | source | states |
|---|---|---|
| NullStrip.StripItemsKeepsOrder | jira_client/issue.py:133-134 | a stripped list holds exactly the non-null items, in their original order, each stripped in turn; its length is the original length minus the number of nulls |
| NullStrip.StripMembersKeepsOrder | jira_client/issue.py:131-132 | a stripped dict keeps exactly the keys whose value is not null, in their original order, and each keeps its value stripped |
| NullStrip.StripIsNullFree | jira_client/issue.py:129-136 | after stripping, any value other than null itself contains no null at any depth |
| NullStrip.StripNullFreeUnchanged | jira_client/issue.py:129-136 | a value that contains no null anywhere comes back unchanged |
| NullStrip.StripIdempotent | jira_client/issue.py:129-136 | stripping a second time changes nothing |
| NullStrip.StripFixedPoints | jira_client/issue.py:129-136 | stripping leaves a value unchanged if and only if the value is null or contains no null |
| NullStrip.StripMembersLookup | jira_client/issue.py:131-132 | read as a dict, a stripped object has key k exactly when the original had a non-null value under k, and it holds that value stripped |
| NullStrip.StripPreservesWellFormed | jira_client/issue.py:131-132 | stripping keeps the keys of every object distinct, at every depth |
| NullStrip.GetIssue | jira_client/issue.py:30-37 | a dict response comes back as a dict with no null at any depth, and its keys answer as the null-dropping dict read says; any other response is returned unchanged |
| IssueSearch.Sanitize | jira_client/issue.py:103-105 | the cleaned text has the input's length, a space where the input had `"`, `~` or `\`, the input's character everywhere else, and none of the three characters |
| IssueSearch.SanitizeIdempotent | jira_client/issue.py:105 | cleaning an already cleaned text changes nothing |
| IssueSearch.TextSearchJqlLiterals | jira_client/issue.py:107-108 | cutting the query at its double quotes gives `text ~ `, c, ` OR summary ~ `, c, ` OR description ~ `, c, ` OR comment ~ `, c, where c is the cleaned text; so the text fills exactly four quoted literals and cannot close one early |
| IssueSearch.ProjectIssue | jira_client/issue.py:119-123 | each projected issue has exactly the keys key, summary, status; their values are the issue's `key`, `fields.summary` and `fields.status.name`, each null when any step of its path is missing |
| IssueSearch.FilteredIssues | jira_client/issue.py:114-126 | one entry per issue visited under `issues`, in the same order, each with exactly the keys key, summary, status holding the nested values above |
| IssueSearch.FilteredIssuesMissingList | jira_client/issue.py:118 | a response without an `issues` key projects to the empty list |
| IssueSearch.GetIssues | jira_client/issue.py:43-46 | the query is passed to the remote search unchanged and without a cap; the caller gets one entry per listed issue, in order, with exactly the keys key, summary, status holding `key`, `fields.summary` and `fields.status.name` (null when missing) |
| IssueSearch.SearchIssuesByText | jira_client/issue.py:93-112 | the remote search receives `max_results` as its cap and a four-field query built from the cleaned text, which contains no `"`, `~` or `\`; the caller gets one entry per listed issue, in order, with exactly the keys key, summary, status holding the nested values |
| IssueLinks.Resolve | jira_client/issue.py:65-78 | a link resolves only if it has `outwardIssue` or `inwardIssue`; `outwardIssue` is checked first and takes `type.outward`, otherwise `inwardIssue` takes `type.inward`; both default to "relates to" and take the key of the issue on that side |
| IssueLinks.Entry | jira_client/issue.py:84-89 | an entry has exactly the keys key, relationship, summary; summary is the other issue's `fields.summary`, or "" when missing |
| IssueLinks.CollectLinks | jira_client/issue.py:65-91 | the result has no more entries than there are links; every entry has exactly the keys key, relationship, summary; under a non-empty filter, every relationship equals the filter ignoring case |
| IssueLinks.CollectLinksAppend | jira_client/issue.py:65-91 | the result for two concatenated link lists is the concatenation of their results, so the output keeps link order |
| IssueLinks.CollectLinksMembership | jira_client/issue.py:65-91 | an entry is in the result if and only if some link resolves, passes the filter and produces that entry |
| IssueLinks.UnfilteredKeepsDirected | jira_client/issue.py:67-82 | with no filter or an empty filter, the result has one entry per link that has a direction key |
| IssueLinks.FilterAfterCollect | jira_client/issue.py:80-82 | filtering during the loop gives the same list as collecting every link and then keeping the entries whose relationship matches the filter ignoring case |
| IssueLinks.KeepIgnoresCase | jira_client/issue.py:81 | the filter "Blocks" keeps the relationship "blocks" and drops "is blocked by" |
| IssueLinks.GetLinkedIssues | jira_client/issue.py:58-91 | an issue without `fields` or without `fields.issuelinks` gives the empty list; otherwise there are no more entries than links, each has exactly the keys key, relationship, summary, each matches an active filter ignoring case, an entry is present exactly when some link contributes it, and the result at any cut of the link list is the result for the first part followed by the result for the rest |
| Listing.FieldsParam | jira_client/issue.py:19 | a non-empty field list is passed through unchanged; otherwise the comma-separated list names each of the ten defaults of models/constants.py exactly once and nothing else, whatever the set's iteration order |
| Listing.GetIssuesForBoard | jira_client/issue.py:11-21 | the board id, query, start and limit reach the remote call unchanged; the field list is the caller's, or, when none is given, a comma-separated list naming each of the ten defaults exactly once and nothing else |
| Listing.GetIssuesForProject | jira_client/issue.py:24-27 | the project key, start and limit reach the remote call unchanged; the field list is the caller's, or, when none is given, a comma-separated list naming each of the ten defaults exactly once and nothing else |

## Left out

- The remote calls (`jira.issue`, `jira.jql`, `get_issues_for_board`, `get_all_project_issues`, `issue_get_comments`): their results are inputs. The arguments of `jira.jql`, `get_issues_for_board` and `get_all_project_issues` are modelled as call records (`JqlCall`, `BoardCall`, `ProjectCall`). The arguments of `jira.issue` are not modelled, including `fields="issuelinks"` (jira_client/issue.py:59).
- `GetIssueComments` (jira_client/issue.py:39-41): a pure pass-through of a remote result, with no logic.
- `json.dumps` pretty-printing (jira_client/issue.py:22, 28, 126): the value before serialisation is modelled, and the listings' remote response is returned untouched.
- Python's default argument values (`jql=""`, `start=0`, `limit=50`, `max_results=10`): the modelled operations take every argument explicitly.
- Inputs on which the Python code raises a fault, such as `.get` on a non-dict, iterating a null, `type: null`, `status: null`, a non-string relationship under a filter, or an `outwardIssue`/`inwardIssue` without `key`: these are excluded by `requires`. Faults are not modelled as results.
- IssueLinks.GetLinkedIssues: a response or `fields` value that is a list or a string is excluded by `requires`. On such values Python's `in` test could still return `[]`, but the real service always returns objects.
- IssueLinks.Resolve: a link that is not an object is excluded by `requires`. In Python, a string or list link without the two direction keys fails both `in` tests and is skipped (jira_client/issue.py:67, 72, 77-78), so an `issuelinks` value such as `["x"]` or `"abc"` gives `[]`. The real service only returns object links.
- IssueLinks.Keep: lower-casing covers ASCII letters only. Python's `str.lower` also folds non-ASCII letters, so the model matches fewer filter and relationship pairs than the code does.
- Floating-point numbers are folded into `Num`. No modelled operation inspects a number.
- Objects are member lists, and a look-up returns the first matching key. Python dicts never hold a key twice, so `WellFormed` (distinct keys) is what the lemmas about dict reads assume.
- The MCP tool layer (jira_mcp_server.py, mcp_server.py) is declarative registration. Note that it passes its `limit` argument in the `fields` position of `GetIssuesForBoard` and `GetIssuesForProject`. The tool layer is not part of this model.
- Configuration and client construction (jira_client/client.py) and the pydantic models (models/issue.py): I/O and declarations only.
- Project operations (jira_client/project.py): thin wrappers around the remote client.
- Creating issues, updating issues and adding comments, including the status-transition matching: that code is not part of this model.
