/**
 * `GetLinkedIssues`: each link of an issue is resolved to the other issue
 * and a relationship phrase taken from the link type's outward or inward
 * side, optionally filtered by a case-insensitive relationship name, and
 * reduced to `{key, relationship, summary}`.
 */
module IssueLinks {
  import opened JsonModel
  import opened Text

  /** The phrase used when the link type does not name its direction. */
  const DefaultRelationship: string := "relates to"

  /** A link seen from this issue: the other issue's key, the phrase, and the other issue. */
  datatype Resolved = Resolved(key: Json, phrase: Json, target: Json)

  /** The other issue's object can be read for its key: it is an object carrying `key`. */
  predicate TargetShapeOk(target: Json) {
    target.Obj? && HasKey(target, "key")
  }

  /** The link carries an `outwardIssue` or an `inwardIssue` key. */
  predicate Directed(link: Json) {
    HasKey(link, "outwardIssue") || HasKey(link, "inwardIssue")
  }

  /**
   * Resolving the link raises no Python fault: it is an object and, when it
   * has a direction, its `type` is absent or an object and the issue on the
   * chosen side is an object with a key.
   */
  predicate ResolvableShape(link: Json) {
    && link.Obj?
    && (Directed(link) ==> AbsentOrObj(Get(link, "type")))
    && (if HasKey(link, "outwardIssue") then TargetShapeOk(Get(link, "outwardIssue").value)
        else HasKey(link, "inwardIssue") ==> TargetShapeOk(Get(link, "inwardIssue").value))
  }

  /**
   * The direction test: `outwardIssue` is looked at first and labelled with
   * `type.outward`, then `inwardIssue` with `type.inward`, both defaulting to
   * "relates to"; a link with neither key has no resolution.
   */
  function Resolve(link: Json): (r: Option<Resolved>)
    requires ResolvableShape(link)
    ensures r.Some? <==> Directed(link)
    ensures HasKey(link, "outwardIssue") ==>
              r == Some(Resolved(GetPath(link, ["outwardIssue", "key"]).value,
                                 GetPath(link, ["type", "outward"]).GetOr(Str(DefaultRelationship)),
                                 GetPath(link, ["outwardIssue"]).value))
    ensures !HasKey(link, "outwardIssue") && HasKey(link, "inwardIssue") ==>
              r == Some(Resolved(GetPath(link, ["inwardIssue", "key"]).value,
                                 GetPath(link, ["type", "inward"]).GetOr(Str(DefaultRelationship)),
                                 GetPath(link, ["inwardIssue"]).value))
  {
    var linkType := Get(link, "type").GetOr(Obj([]));
    if HasKey(link, "outwardIssue") then
      var target := Get(link, "outwardIssue").value;
      Some(Resolved(Get(target, "key").value,
                    Get(linkType, "outward").GetOr(Str(DefaultRelationship)), target))
    else if HasKey(link, "inwardIssue") then
      var target := Get(link, "inwardIssue").value;
      Some(Resolved(Get(target, "key").value,
                    Get(linkType, "inward").GetOr(Str(DefaultRelationship)), target))
    else None
  }

  /** A relationship filter takes effect only when it is given and non-empty. */
  predicate FilterActive(filter: Option<string>) {
    filter.Some? && filter.value != []
  }

  /** Whether a link with this phrase survives the filter. */
  predicate Keep(filter: Option<string>, phrase: Json)
    requires FilterActive(filter) ==> phrase.Str?
  {
    !FilterActive(filter) || Lower(filter.value) == Lower(phrase.s)
  }

  /** The result entry for a kept link; the summary defaults to the empty string. */
  function Entry(res: Resolved): (e: Json)
    requires res.target.Obj? && AbsentOrObj(Get(res.target, "fields"))
    ensures e.Obj? && Keys(e.members) == ["key", "relationship", "summary"]
    ensures Get(e, "key") == Some(res.key)
    ensures Get(e, "relationship") == Some(res.phrase)
    ensures Get(e, "summary") == Some(GetPath(res.target, ["fields", "summary"]).GetOr(Str("")))
  {
    var e := Obj([("key", res.key),
                  ("relationship", res.phrase),
                  ("summary", Get(Get(res.target, "fields").GetOr(Obj([])), "summary").GetOr(Str("")))]);
    LookupFirst(e.members, 1, "relationship");
    LookupFirst(e.members, 2, "summary");
    e
  }

  /**
   * Processing the link raises no Python fault under this filter: it
   * resolves without fault, an active filter meets a string phrase, and a
   * kept link's other issue has an object or no `fields`.
   */
  predicate LinkOk(link: Json, filter: Option<string>) {
    && ResolvableShape(link)
    && match Resolve(link)
       case None => true
       case Some(res) =>
         && (FilterActive(filter) ==> res.phrase.Str?)
         && (Keep(filter, res.phrase) ==> AbsentOrObj(Get(res.target, "fields")))
  }

  /** What one link contributes to the result: its entry, or nothing. */
  function Contribution(link: Json, filter: Option<string>): Option<Json>
    requires LinkOk(link, filter)
  {
    match Resolve(link)
    case None => None
    case Some(res) => if Keep(filter, res.phrase) then Some(Entry(res)) else None
  }

  /** A result entry: an object with exactly the keys `key`, `relationship`, `summary`. */
  predicate IsLinkEntry(e: Json) {
    e.Obj? && Keys(e.members) == ["key", "relationship", "summary"]
  }

  /** The entry's relationship is a string equal to the filter up to case. */
  predicate MatchesFilter(e: Json, f: string) {
    e.Obj? && Get(e, "relationship").Some? && Get(e, "relationship").value.Str? &&
    Lower(Get(e, "relationship").value.s) == Lower(f)
  }

  /**
   * The loop over the links: never more entries than links, each a link
   * entry, and under an active filter each one's relationship matches it.
   */
  function CollectLinks(links: seq<Json>, filter: Option<string>): (r: seq<Json>)
    requires forall i :: 0 <= i < |links| ==> LinkOk(links[i], filter)
    ensures |r| <= |links|
    ensures forall i :: 0 <= i < |r| ==> IsLinkEntry(r[i])
    ensures FilterActive(filter) ==> forall i :: 0 <= i < |r| ==> MatchesFilter(r[i], filter.value)
  {
    if links == [] then []
    else
      match Contribution(links[0], filter)
      case None => CollectLinks(links[1..], filter)
      case Some(e) => [e] + CollectLinks(links[1..], filter)
  }

  /** The loop distributes over concatenation of link lists, so the result keeps link order. */
  lemma {:induction false} CollectLinksAppend(a: seq<Json>, b: seq<Json>, filter: Option<string>)
    requires forall i :: 0 <= i < |a| ==> LinkOk(a[i], filter)
    requires forall i :: 0 <= i < |b| ==> LinkOk(b[i], filter)
    ensures forall i :: 0 <= i < |a + b| ==> LinkOk((a + b)[i], filter)
    ensures CollectLinks(a + b, filter) == CollectLinks(a, filter) + CollectLinks(b, filter)
  {
    assert forall i :: 0 <= i < |a + b| ==> (a + b)[i] == if i < |a| then a[i] else b[i - |a|];
    if a == [] {
      assert a + b == b;
    } else {
      CollectLinksAppend(a[1..], b, filter);
      assert (a + b)[1..] == a[1..] + b;
    }
  }

  /**
   * An entry is in the result exactly when some link resolves, passes the
   * filter, and yields that entry.
   */
  lemma {:induction false} CollectLinksMembership(links: seq<Json>, filter: Option<string>, e: Json)
    requires forall i :: 0 <= i < |links| ==> LinkOk(links[i], filter)
    ensures e in CollectLinks(links, filter) <==>
              exists i :: 0 <= i < |links| && Contribution(links[i], filter) == Some(e)
  {
    if links != [] {
      CollectLinksMembership(links[1..], filter, e);
      if exists i :: 0 <= i < |links| && Contribution(links[i], filter) == Some(e) {
        var i :| 0 <= i < |links| && Contribution(links[i], filter) == Some(e);
        if i > 0 {
          assert links[1..][i - 1] == links[i];
        }
      }
      if exists i :: 0 <= i < |links[1..]| && Contribution(links[1..][i], filter) == Some(e) {
        var i :| 0 <= i < |links[1..]| && Contribution(links[1..][i], filter) == Some(e);
        assert links[i + 1] == links[1..][i];
      }
    }
  }

  /**
   * The membership and order facts for every entry and every cut point of
   * the link list at once.
   */
  lemma CollectLinksMeaning(links: seq<Json>, filter: Option<string>)
    requires forall i :: 0 <= i < |links| ==> LinkOk(links[i], filter)
    ensures forall e :: e in CollectLinks(links, filter) <==>
              exists i :: 0 <= i < |links| && Contribution(links[i], filter) == Some(e)
    ensures forall k :: 0 <= k <= |links| ==>
              CollectLinks(links, filter) == CollectLinks(links[..k], filter) + CollectLinks(links[k..], filter)
  {
    forall e {
      CollectLinksMembership(links, filter, e);
    }
    forall k | 0 <= k <= |links|
      ensures CollectLinks(links, filter) ==
              CollectLinks(links[..k], filter) + CollectLinks(links[k..], filter)
    {
      assert links == links[..k] + links[k..];
      CollectLinksAppend(links[..k], links[k..], filter);
    }
  }

  /** How many links carry a direction key. */
  function CountDirected(links: seq<Json>): nat {
    if links == [] then 0
    else (if Directed(links[0]) then 1 else 0) + CountDirected(links[1..])
  }

  /** Without an active filter every link with a direction yields an entry and the others none. */
  lemma {:induction false} UnfilteredKeepsDirected(links: seq<Json>, filter: Option<string>)
    requires !FilterActive(filter)
    requires forall i :: 0 <= i < |links| ==> LinkOk(links[i], filter)
    ensures |CollectLinks(links, filter)| == CountDirected(links)
  {
    if links != [] {
      UnfilteredKeepsDirected(links[1..], filter);
    }
  }

  /** The entries among `entries` whose relationship matches the filter up to case, in order. */
  function MatchingEntries(entries: seq<Json>, f: string): seq<Json> {
    if entries == [] then []
    else if MatchesFilter(entries[0], f) then [entries[0]] + MatchingEntries(entries[1..], f)
    else MatchingEntries(entries[1..], f)
  }

  /**
   * Filtering while collecting equals collecting everything and then keeping
   * the entries whose relationship matches: the filter only removes entries.
   */
  lemma {:induction false} FilterAfterCollect(links: seq<Json>, f: string)
    requires f != []
    requires forall i :: 0 <= i < |links| ==> LinkOk(links[i], Some(f)) && LinkOk(links[i], None)
    ensures CollectLinks(links, Some(f)) == MatchingEntries(CollectLinks(links, None), f)
  {
    if links != [] {
      FilterAfterCollect(links[1..], f);
      match Resolve(links[0])
      case None =>
      case Some(res) =>
        var e := Entry(res);
        assert Get(e, "relationship") == Some(res.phrase);
    }
  }

  /** Case-insensitive matching: the filter "Blocks" keeps a link labelled "blocks". */
  lemma KeepIgnoresCase()
    ensures Keep(Some("Blocks"), Str("blocks"))
    ensures !Keep(Some("Blocks"), Str("is blocked by"))
  {
  }

  /** The `issuelinks` entry under `fields`, when both are present. */
  function LinkField(issue: Json): Option<Json> {
    GetPath(issue, ["fields", "issuelinks"])
  }

  /**
   * Reading the links raises no Python fault: the issue is an object, its
   * `fields` is absent or an object, and any `issuelinks` there is iterable
   * with every link processable under the filter.
   */
  predicate LinkedIssueShapeOk(issue: Json, filter: Option<string>) {
    && issue.Obj?
    && AbsentOrObj(Get(issue, "fields"))
    && (LinkField(issue).Some? ==>
          && Elements(LinkField(issue).value).Some?
          && var links := Elements(LinkField(issue).value).value;
             forall i :: 0 <= i < |links| ==> LinkOk(links[i], filter))
  }

  /**
   * `GetLinkedIssues`, with the remote issue as input: no `fields` or no
   * `fields.issuelinks` gives the empty list. Otherwise every entry is a
   * link entry matching an active filter, there are no more entries than
   * links, they come in link order, and an entry is present exactly when
   * some link contributes it.
   */
  function GetLinkedIssues(issue: Json, filter: Option<string>): (r: seq<Json>)
    requires LinkedIssueShapeOk(issue, filter)
    ensures !HasKey(issue, "fields") || !HasKey(Get(issue, "fields").value, "issuelinks") ==> r == []
    ensures LinkField(issue).Some? ==>
              var links := Elements(LinkField(issue).value).value;
              && |r| <= |links|
              && (forall i :: 0 <= i < |r| ==> IsLinkEntry(r[i]))
              && (FilterActive(filter) ==> forall i :: 0 <= i < |r| ==> MatchesFilter(r[i], filter.value))
              && (forall e :: e in r <==>
                    exists i :: 0 <= i < |links| && Contribution(links[i], filter) == Some(e))
              && (forall k :: 0 <= k <= |links| ==>
                    r == CollectLinks(links[..k], filter) + CollectLinks(links[k..], filter))
  {
    if !HasKey(issue, "fields") || !HasKey(Get(issue, "fields").value, "issuelinks") then []
    else
      var links := Elements(Get(Get(issue, "fields").value, "issuelinks").value).value;
      CollectLinksMeaning(links, filter);
      CollectLinks(links, filter)
  }
}
