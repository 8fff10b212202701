/**
 * Query-based issue search: the three-field summary projection applied to
 * every search result (`_getFilteredIssues`), `GetIssues`, and the
 * free-text search that sanitises its input and assembles a query-language
 * expression over four fields (`SearchIssuesByText`).
 */
module IssueSearch {
  import opened JsonModel
  import opened Text

  /** A query call as sent to the remote client: the expression and the optional result cap. */
  datatype JqlCall = JqlCall(jql: string, limit: Option<int>)

  // ---------------------------------------------------------------------
  // Free-text sanitisation and query assembly

  /** The characters the sanitiser replaces: double quote, tilde, backslash. */
  predicate BreaksJql(c: char) {
    c == '"' || c == '~' || c == '\\'
  }

  /**
   * The three chained `replace` calls. The result has the input's length,
   * a space wherever the input had one of the three characters, and the
   * input's character everywhere else.
   */
  function Sanitize(text: string): (r: string)
    ensures |r| == |text|
    ensures forall i :: 0 <= i < |text| ==>
              r[i] == if BreaksJql(text[i]) then ' ' else text[i]
    ensures forall i :: 0 <= i < |r| ==> !BreaksJql(r[i])
  {
    ReplaceChar(ReplaceChar(ReplaceChar(text, '"', ' '), '~', ' '), '\\', ' ')
  }

  /** Sanitising an already sanitised text changes nothing. */
  lemma SanitizeIdempotent(text: string)
    ensures Sanitize(Sanitize(text)) == Sanitize(text)
  {
  }

  const TextPrefix: string := "text ~ "
  const SummaryPrefix: string := " OR summary ~ "
  const DescriptionPrefix: string := " OR description ~ "
  const CommentPrefix: string := " OR comment ~ "

  /** One field predicate `<prefix>"<c>"`, followed by the rest of the expression. */
  function QuotedTerm(prefix: string, c: string, rest: string): string {
    prefix + "\"" + c + "\"" + rest
  }

  /** The expression for a free-text search: the cleaned text quoted against four fields. */
  function TextSearchJql(text: string): string {
    var c := Sanitize(text);
    QuotedTerm(TextPrefix, c,
      QuotedTerm(SummaryPrefix, c,
        QuotedTerm(DescriptionPrefix, c,
          QuotedTerm(CommentPrefix, c, ""))))
  }

  /**
   * Cutting the expression at its double quotes yields the four field
   * predicates' left-hand sides interleaved with the cleaned text, four
   * times: the text can never close a string literal early, so the
   * expression is exactly `text ~ "c" OR summary ~ "c" OR description ~ "c"
   * OR comment ~ "c"`.
   */
  lemma TextSearchJqlLiterals(text: string)
    ensures var c := Sanitize(text);
            Split(TextSearchJql(text), '"') ==
              [TextPrefix, c, SummaryPrefix, c, DescriptionPrefix, c, CommentPrefix, c, ""]
  {
    var c := Sanitize(text);
    assert '"' !in c by {
      forall i | 0 <= i < |c| ensures c[i] != '"' { assert !BreaksJql(c[i]); }
    }
    var t3 := QuotedTerm(CommentPrefix, c, "");
    var t2 := QuotedTerm(DescriptionPrefix, c, t3);
    var t1 := QuotedTerm(SummaryPrefix, c, t2);
    SplitQuotedTerm(CommentPrefix, c, "");
    SplitQuotedTerm(DescriptionPrefix, c, t3);
    SplitQuotedTerm(SummaryPrefix, c, t2);
    SplitQuotedTerm(TextPrefix, c, t1);
  }

  /** A quoted term whose prefix and text are free of double quotes splits into those two pieces. */
  lemma SplitQuotedTerm(prefix: string, c: string, rest: string)
    requires '"' !in prefix && '"' !in c
    ensures Split(QuotedTerm(prefix, c, rest), '"') == [prefix, c] + Split(rest, '"')
  {
    assert "\"" == ['"'];
    assert QuotedTerm(prefix, c, rest) == prefix + ['"'] + (c + ['"'] + rest);
    SplitAtSeparator(prefix, c + ['"'] + rest, '"');
    SplitAtSeparator(c, rest, '"');
  }

  // ---------------------------------------------------------------------
  // Three-field projection

  /**
   * The issue can be projected without a Python fault: it is an object, and
   * its `fields` and `fields.status`, where present, are objects.
   */
  predicate IssueShapeOk(issue: Json) {
    && issue.Obj?
    && AbsentOrObj(Get(issue, "fields"))
    && AbsentOrObj(Get(Get(issue, "fields").GetOr(Obj([])), "status"))
  }

  /** The summary entry `{key, summary, status}` for one issue. */
  function ProjectIssue(issue: Json): (r: Json)
    requires IssueShapeOk(issue)
    ensures r.Obj? && Keys(r.members) == ["key", "summary", "status"]
    ensures Get(r, "key") == Some(GetPath(issue, ["key"]).GetOr(Null))
    ensures Get(r, "summary") == Some(GetPath(issue, ["fields", "summary"]).GetOr(Null))
    ensures Get(r, "status") == Some(GetPath(issue, ["fields", "status", "name"]).GetOr(Null))
  {
    var fields := Get(issue, "fields").GetOr(Obj([]));
    var r := Obj([("key", Get(issue, "key").GetOr(Null)),
         ("summary", Get(fields, "summary").GetOr(Null)),
         ("status", Get(Get(fields, "status").GetOr(Obj([])), "name").GetOr(Null))]);
    LookupFirst(r.members, 1, "summary");
    LookupFirst(r.members, 2, "status");
    assert GetPath(fields, ["summary"]) == Get(fields, "summary");
    assert GetPath(fields, ["status", "name"]) ==
      if HasKey(fields, "status") then GetPath(Get(fields, "status").value, ["name"]) else None;
    assert GetPath(issue, ["fields", "summary"]) ==
      if HasKey(issue, "fields") then GetPath(fields, ["summary"]) else None;
    assert GetPath(issue, ["fields", "status", "name"]) ==
      if HasKey(issue, "fields") then GetPath(fields, ["status", "name"]) else None;
    r
  }

  /** What `for issue in issues.get('issues', [])` visits. */
  function IssueList(response: Json): seq<Json> {
    Elements(Get(response, "issues").GetOr(Arr([]))).GetOr([])
  }

  /**
   * The search response can be projected without a Python fault: it is an
   * object, its `issues` entry (when present) is iterable, and every issue
   * visited has a projectable shape.
   */
  predicate ResponseShapeOk(response: Json) {
    && response.Obj?
    && Elements(Get(response, "issues").GetOr(Arr([]))).Some?
    && forall i :: 0 <= i < |IssueList(response)| ==> IssueShapeOk(IssueList(response)[i])
  }

  /**
   * `entries` is the summary projection of the issues the response lists:
   * one entry per visited issue, in order, each with exactly the keys `key`,
   * `summary`, `status`, where `status` is `fields.status.name` and each
   * value is null when any step of its path is missing.
   */
  predicate IsProjectionOf(entries: seq<Json>, response: Json) {
    var issues := IssueList(response);
    && |entries| == |issues|
    && forall i :: 0 <= i < |entries| ==>
         && entries[i].Obj?
         && Keys(entries[i].members) == ["key", "summary", "status"]
         && Get(entries[i], "key") == Some(GetPath(issues[i], ["key"]).GetOr(Null))
         && Get(entries[i], "summary") == Some(GetPath(issues[i], ["fields", "summary"]).GetOr(Null))
         && Get(entries[i], "status") ==
              Some(GetPath(issues[i], ["fields", "status", "name"]).GetOr(Null))
  }

  /** `_getFilteredIssues`, before serialisation. */
  function FilteredIssues(response: Json): (r: seq<Json>)
    requires ResponseShapeOk(response)
    ensures IsProjectionOf(r, response)
  {
    var issues := IssueList(response);
    seq(|issues|, i requires 0 <= i < |issues| && IssueShapeOk(issues[i]) => ProjectIssue(issues[i]))
  }

  /** A response without an `issues` entry projects to the empty list. */
  lemma FilteredIssuesMissingList(response: Json)
    requires response.Obj? && !HasKey(response, "issues")
    ensures ResponseShapeOk(response) && FilteredIssues(response) == []
  {
  }

  /**
   * `GetIssues`: the expression goes to the remote client unchanged and
   * without a cap, and the caller gets the summary projection of its answer.
   */
  function GetIssues(jql: string, response: Json): (r: (JqlCall, seq<Json>))
    requires ResponseShapeOk(response)
    ensures r.0.jql == jql && r.0.limit.None?
    ensures IsProjectionOf(r.1, response)
  {
    (JqlCall(jql, None), FilteredIssues(response))
  }

  /**
   * `SearchIssuesByText`: the remote client receives the four-field
   * expression around the sanitised text with `max_results` as its cap, and
   * its answer is projected.
   */
  function SearchIssuesByText(text: string, maxResults: int, response: Json): (r: (JqlCall, seq<Json>))
    requires ResponseShapeOk(response)
    ensures r.0.limit == Some(maxResults)
    ensures var c := Sanitize(text);
            && (forall i :: 0 <= i < |c| ==> !BreaksJql(c[i]))
            && Split(r.0.jql, '"') ==
                 [TextPrefix, c, SummaryPrefix, c, DescriptionPrefix, c, CommentPrefix, c, ""]
    ensures IsProjectionOf(r.1, response)
  {
    TextSearchJqlLiterals(text);
    (JqlCall(TextSearchJql(text), Some(maxResults)), FilteredIssues(response))
  }
}
