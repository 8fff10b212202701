/**
 * JSON values as the remote ticketing service returns them, with the
 * dictionary operations the issue-shaping code relies on: `d.get(k, default)`,
 * `k in d`, nested look-up, and Python's iteration over a container.
 */
module JsonModel {

  /** The conventional Some/None datatype, used for "key present or absent". */
  datatype Option<+T> = None | Some(value: T) {
    /** The value if Some, otherwise the given default (Python's `d.get(k, default)`). */
    function GetOr(default: T): T {
      match this
      case Some(v) => v
      case None => default
    }
  }

  /**
   * A decoded JSON value. Numbers are kept as integers: nothing in the
   * modelled code inspects them. An object is its sequence of members in
   * insertion order, which is the order a Python dict iterates in.
   */
  datatype Json =
    | Null
    | Bool(b: bool)
    | Num(n: int)
    | Str(s: string)
    | Arr(items: seq<Json>)
    | Obj(members: seq<(string, Json)>)

  /** The keys of an object's members, in order. */
  function Keys(ms: seq<(string, Json)>): seq<string> {
    seq(|ms|, i requires 0 <= i < |ms| => ms[i].0)
  }

  /** No key occurs twice among the members (true of every Python dict). */
  predicate DistinctKeys(ms: seq<(string, Json)>) {
    forall i, j :: 0 <= i < j < |ms| ==> ms[i].0 != ms[j].0
  }

  /** Every object at every depth has distinct keys. */
  predicate WellFormed(j: Json)
    decreases j
  {
    match j
    case Arr(items) => ItemsWellFormed(items)
    case Obj(ms) => DistinctKeys(ms) && MembersWellFormed(ms)
    case _ => true
  }

  predicate ItemsWellFormed(items: seq<Json>)
    decreases items
  {
    items == [] || (WellFormed(items[0]) && ItemsWellFormed(items[1..]))
  }

  predicate MembersWellFormed(ms: seq<(string, Json)>)
    decreases ms
  {
    ms == [] ||
    (assert ms[0] in ms; assert ms[0].1 < ms[0];
     WellFormed(ms[0].1) && MembersWellFormed(ms[1..]))
  }

  /** No `Null` occurs anywhere in the value, the value itself included. */
  predicate NullFree(j: Json)
    decreases j
  {
    match j
    case Null => false
    case Arr(items) => ItemsNullFree(items)
    case Obj(ms) => MembersNullFree(ms)
    case _ => true
  }

  predicate ItemsNullFree(items: seq<Json>)
    decreases items
  {
    items == [] || (NullFree(items[0]) && ItemsNullFree(items[1..]))
  }

  predicate MembersNullFree(ms: seq<(string, Json)>)
    decreases ms
  {
    ms == [] ||
    (assert ms[0] in ms; assert ms[0].1 < ms[0];
     NullFree(ms[0].1) && MembersNullFree(ms[1..]))
  }

  /** The value stored under `k`, scanning members in order. */
  function Lookup(ms: seq<(string, Json)>, k: string): Option<Json> {
    if ms == [] then None
    else if ms[0].0 == k then Some(ms[0].1)
    else Lookup(ms[1..], k)
  }

  /** A key that no member carries is not found. */
  lemma {:induction false} LookupMissing(ms: seq<(string, Json)>, k: string)
    requires forall i :: 0 <= i < |ms| ==> ms[i].0 != k
    ensures Lookup(ms, k).None?
  {
    if ms != [] {
      LookupMissing(ms[1..], k);
    }
  }

  /** The first member carrying a key is the one found. */
  lemma {:induction false} LookupFirst(ms: seq<(string, Json)>, i: nat, k: string)
    requires i < |ms| && ms[i].0 == k
    requires forall j :: 0 <= j < i ==> ms[j].0 != k
    ensures Lookup(ms, k) == Some(ms[i].1)
  {
    if i > 0 {
      LookupFirst(ms[1..], i - 1, k);
    }
  }

  /** Python's `d.get(k)` on an object; a non-object has no keys here. */
  function Get(j: Json, k: string): Option<Json> {
    if j.Obj? then Lookup(j.members, k) else None
  }

  /** Python's `k in d` on an object. */
  predicate HasKey(j: Json, k: string) {
    Get(j, k).Some?
  }

  /** `v` is absent or is an object, so that `.get(k, {})` on it cannot fail. */
  predicate AbsentOrObj(v: Option<Json>) {
    v.None? || v.value.Obj?
  }

  /**
   * Nested look-up along a path of keys, such as `fields.status.name`;
   * None as soon as a step is missing or lands on a non-object.
   */
  function GetPath(j: Json, path: seq<string>): Option<Json>
    decreases |path|
  {
    if path == [] then Some(j)
    else
      match Get(j, path[0])
      case None => None
      case Some(v) => GetPath(v, path[1..])
  }

  /**
   * What a Python `for x in v` loop visits: the items of a list, the keys of
   * a dict (as strings), the one-character strings of a str; None when the
   * value is not iterable (a null, a boolean or a number).
   */
  function Elements(v: Json): Option<seq<Json>> {
    match v
    case Arr(items) => Some(items)
    case Obj(ms) => Some(seq(|ms|, i requires 0 <= i < |ms| => Str(ms[i].0)))
    case Str(s) => Some(seq(|s|, i requires 0 <= i < |s| => Str([s[i]])))
    case _ => None
  }
}
