/**
 * The board and project listings (`GetIssuesForBoard`,
 * `GetIssuesForProject`): the field list sent to the remote client is the
 * caller's, or the comma-joined default field names when none is given.
 */
module Listing {
  import opened JsonModel
  import opened Text

  /** The default field names read for an issue. */
  const DefaultReadFields: set<string> :=
    {"summary", "description", "status", "assignee", "reporter",
     "labels", "priority", "created", "updated", "issuetype"}

  /**
   * One order in which iterating the default set may visit its names: each
   * name once. Python does not fix this order, so it is an input here.
   */
  predicate IsIterationOrder(order: seq<string>) {
    && (forall i, j :: 0 <= i < j < |order| ==> order[i] != order[j])
    && (forall i :: 0 <= i < |order| ==> order[i] in DefaultReadFields)
    && (forall f :: f in DefaultReadFields ==> f in order)
  }

  /** A field list counts as given when it is present and non-empty (Python truthiness). */
  predicate FieldsGiven(fields: Option<string>) {
    fields.Some? && fields.value != []
  }

  /**
   * Split at commas, `s` names each default field exactly once and nothing
   * else.
   */
  predicate NamesDefaultsOnce(s: string) {
    var names := Split(s, ',');
    && (forall i, j :: 0 <= i < j < |names| ==> names[i] != names[j])
    && (forall i :: 0 <= i < |names| ==> names[i] in DefaultReadFields)
    && (forall f :: f in DefaultReadFields ==> f in names)
  }

  /**
   * The `fields` argument passed on: a given list unchanged; otherwise a
   * comma-separated list that names every default field exactly once.
   */
  function FieldsParam(fields: Option<string>, order: seq<string>): (r: string)
    requires IsIterationOrder(order)
    ensures FieldsGiven(fields) ==> r == fields.value
    ensures !FieldsGiven(fields) ==> NamesDefaultsOnce(r)
  {
    if FieldsGiven(fields) then fields.value
    else
      assert "summary" in order;
      assert forall f :: f in DefaultReadFields ==> ',' !in f;
      SplitJoin(order, ',');
      Join(order, ',')
  }

  /** The arguments of the remote board-listing call. */
  datatype BoardCall = BoardCall(boardId: string, jql: string, fields: string, start: int, limit: int)

  /** The arguments of the remote project-listing call. */
  datatype ProjectCall = ProjectCall(projectKey: string, fields: string, start: int, limit: int)

  /**
   * `GetIssuesForBoard`: the board, query and paging arguments go through
   * unchanged, and the field list is the caller's or each default name once.
   */
  function GetIssuesForBoard(boardId: string, jql: string, fields: Option<string>,
                             start: int, limit: int, order: seq<string>): (c: BoardCall)
    requires IsIterationOrder(order)
    ensures c.boardId == boardId && c.jql == jql && c.start == start && c.limit == limit
    ensures FieldsGiven(fields) ==> c.fields == fields.value
    ensures !FieldsGiven(fields) ==> NamesDefaultsOnce(c.fields)
  {
    BoardCall(boardId, jql, FieldsParam(fields, order), start, limit)
  }

  /**
   * `GetIssuesForProject`: the project key and paging arguments go through
   * unchanged, and the field list is the caller's or each default name once.
   */
  function GetIssuesForProject(projectKey: string, fields: Option<string>,
                               start: int, limit: int, order: seq<string>): (c: ProjectCall)
    requires IsIterationOrder(order)
    ensures c.projectKey == projectKey && c.start == start && c.limit == limit
    ensures FieldsGiven(fields) ==> c.fields == fields.value
    ensures !FieldsGiven(fields) ==> NamesDefaultsOnce(c.fields)
  {
    ProjectCall(projectKey, FieldsParam(fields, order), start, limit)
  }
}
