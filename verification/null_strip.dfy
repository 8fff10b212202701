/**
 * Recursive removal of null values from a response tree
 * (`_remove_null_values`), and `GetIssue`, which applies it to an object
 * response.
 */
module NullStrip {
  import opened JsonModel

  /**
   * Drops every null member of an object and every null item of an array,
   * at every depth. Containers that become empty stay as `{}` or `[]`;
   * scalars come back as they are.
   */
  function Strip(j: Json): Json
    decreases j
  {
    match j
    case Arr(items) => Arr(StripItems(items))
    case Obj(ms) => Obj(StripMembers(ms))
    case _ => j
  }

  function StripItems(items: seq<Json>): seq<Json>
    decreases items
  {
    if items == [] then []
    else if items[0].Null? then StripItems(items[1..])
    else [Strip(items[0])] + StripItems(items[1..])
  }

  function StripMembers(ms: seq<(string, Json)>): seq<(string, Json)>
    decreases ms
  {
    if ms == [] then []
    else if ms[0].1.Null? then StripMembers(ms[1..])
    else
      assert ms[0] in ms; assert ms[0].1 < ms[0];
      [(ms[0].0, Strip(ms[0].1))] + StripMembers(ms[1..])
  }

  /** The non-null items, in their original order. */
  function NonNullItems(items: seq<Json>): seq<Json> {
    if items == [] then []
    else if items[0].Null? then NonNullItems(items[1..])
    else [items[0]] + NonNullItems(items[1..])
  }

  /** The members whose value is not null, in their original order. */
  function NonNullMembers(ms: seq<(string, Json)>): seq<(string, Json)> {
    if ms == [] then []
    else if ms[0].1.Null? then NonNullMembers(ms[1..])
    else [ms[0]] + NonNullMembers(ms[1..])
  }

  /**
   * Stripping an array keeps exactly its non-null items, in order, each
   * stripped in turn; its length drops by the number of nulls it held.
   */
  lemma {:induction false} StripItemsKeepsOrder(items: seq<Json>)
    ensures |StripItems(items)| == |NonNullItems(items)| == |items| - multiset(items)[Null]
    ensures forall i :: 0 <= i < |StripItems(items)| ==>
              StripItems(items)[i] == Strip(NonNullItems(items)[i])
  {
    if items != [] {
      StripItemsKeepsOrder(items[1..]);
      assert items == [items[0]] + items[1..];
      assert multiset(items) == multiset{items[0]} + multiset(items[1..]);
    }
  }

  /**
   * Stripping an object keeps exactly the keys whose value is not null, in
   * their original order, each with its value stripped.
   */
  lemma {:induction false} StripMembersKeepsOrder(ms: seq<(string, Json)>)
    ensures |StripMembers(ms)| == |NonNullMembers(ms)|
    ensures forall i :: 0 <= i < |StripMembers(ms)| ==>
              StripMembers(ms)[i].0 == NonNullMembers(ms)[i].0 &&
              StripMembers(ms)[i].1 == Strip(NonNullMembers(ms)[i].1)
  {
    if ms != [] {
      StripMembersKeepsOrder(ms[1..]);
    }
  }

  /** Neither the stripped items nor the stripped members contain a null anywhere. */
  lemma {:induction false} StripIsNullFree(j: Json)
    requires j != Null
    ensures NullFree(Strip(j))
    decreases j, 1
  {
    match j
    case Arr(items) => StripItemsNullFree(items);
    case Obj(ms) => StripMembersNullFree(ms);
    case _ =>
  }

  lemma {:induction false} StripItemsNullFree(items: seq<Json>)
    ensures ItemsNullFree(StripItems(items))
    decreases items
  {
    if items != [] {
      StripItemsNullFree(items[1..]);
      if !items[0].Null? {
        StripIsNullFree(items[0]);
        var r := [Strip(items[0])] + StripItems(items[1..]);
        assert r[1..] == StripItems(items[1..]);
      }
    }
  }

  lemma {:induction false} StripMembersNullFree(ms: seq<(string, Json)>)
    ensures MembersNullFree(StripMembers(ms))
    decreases ms
  {
    if ms != [] {
      StripMembersNullFree(ms[1..]);
      if !ms[0].1.Null? {
        assert ms[0] in ms; assert ms[0].1 < ms[0];
        StripIsNullFree(ms[0].1);
        var r := [(ms[0].0, Strip(ms[0].1))] + StripMembers(ms[1..]);
        assert r[1..] == StripMembers(ms[1..]);
      }
    }
  }

  /** A value with no null anywhere is left untouched. */
  lemma {:induction false} StripNullFreeUnchanged(j: Json)
    requires NullFree(j)
    ensures Strip(j) == j
    decreases j, 1
  {
    match j
    case Arr(items) => StripItemsNullFreeUnchanged(items);
    case Obj(ms) => StripMembersNullFreeUnchanged(ms);
    case _ =>
  }

  lemma {:induction false} StripItemsNullFreeUnchanged(items: seq<Json>)
    requires ItemsNullFree(items)
    ensures StripItems(items) == items
    decreases items
  {
    if items != [] {
      StripItemsNullFreeUnchanged(items[1..]);
      StripNullFreeUnchanged(items[0]);
      assert items == [items[0]] + items[1..];
    }
  }

  lemma {:induction false} StripMembersNullFreeUnchanged(ms: seq<(string, Json)>)
    requires MembersNullFree(ms)
    ensures StripMembers(ms) == ms
    decreases ms
  {
    if ms != [] {
      StripMembersNullFreeUnchanged(ms[1..]);
      assert ms[0] in ms; assert ms[0].1 < ms[0];
      StripNullFreeUnchanged(ms[0].1);
      assert ms == [(ms[0].0, ms[0].1)] + ms[1..];
    }
  }

  /** Stripping twice is the same as stripping once. */
  lemma StripIdempotent(j: Json)
    ensures Strip(Strip(j)) == Strip(j)
  {
    if j != Null {
      StripIsNullFree(j);
      StripNullFreeUnchanged(Strip(j));
    }
  }

  /** The values stripping leaves alone are exactly null and the null-free values. */
  lemma StripFixedPoints(j: Json)
    ensures Strip(j) == j <==> j == Null || NullFree(j)
  {
    if NullFree(j) {
      StripNullFreeUnchanged(j);
    }
    if j != Null {
      StripIsNullFree(j);
    }
  }

  /**
   * Read as a dictionary, a stripped object answers a key exactly when the
   * original held a non-null value there, and answers with that value stripped.
   */
  lemma {:induction false} StripMembersLookup(ms: seq<(string, Json)>, k: string)
    requires DistinctKeys(ms)
    ensures Lookup(StripMembers(ms), k) ==
              match Lookup(ms, k)
              case Some(v) => if v.Null? then None else Some(Strip(v))
              case None => None
  {
    if ms != [] {
      assert DistinctKeys(ms[1..]);
      StripMembersLookup(ms[1..], k);
      if ms[0].0 == k {
        LookupMissing(ms[1..], k);
        StripMembersKeysFrom(ms[1..], k);
      }
    }
  }

  /** Stripping never introduces a key. */
  lemma {:induction false} StripMembersKeysFrom(ms: seq<(string, Json)>, k: string)
    requires Lookup(ms, k).None?
    ensures Lookup(StripMembers(ms), k).None?
  {
    if ms != [] {
      StripMembersKeysFrom(ms[1..], k);
    }
  }

  /** Stripping keeps the keys of every object distinct. */
  lemma {:induction false} StripPreservesWellFormed(j: Json)
    requires WellFormed(j)
    ensures WellFormed(Strip(j))
    decreases j, 1
  {
    match j
    case Arr(items) => StripItemsWellFormed(items);
    case Obj(ms) =>
      StripMembersWellFormed(ms);
      StripMembersDistinct(ms);
    case _ =>
  }

  lemma {:induction false} StripItemsWellFormed(items: seq<Json>)
    requires ItemsWellFormed(items)
    ensures ItemsWellFormed(StripItems(items))
    decreases items
  {
    if items != [] {
      StripItemsWellFormed(items[1..]);
      if !items[0].Null? {
        StripPreservesWellFormed(items[0]);
        var r := [Strip(items[0])] + StripItems(items[1..]);
        assert r[1..] == StripItems(items[1..]);
      }
    }
  }

  lemma {:induction false} StripMembersWellFormed(ms: seq<(string, Json)>)
    requires MembersWellFormed(ms)
    ensures MembersWellFormed(StripMembers(ms))
    decreases ms
  {
    if ms != [] {
      StripMembersWellFormed(ms[1..]);
      if !ms[0].1.Null? {
        assert ms[0] in ms; assert ms[0].1 < ms[0];
        StripPreservesWellFormed(ms[0].1);
        var r := [(ms[0].0, Strip(ms[0].1))] + StripMembers(ms[1..]);
        assert r[1..] == StripMembers(ms[1..]);
      }
    }
  }

  lemma {:induction false} StripMembersDistinct(ms: seq<(string, Json)>)
    requires DistinctKeys(ms)
    ensures DistinctKeys(StripMembers(ms))
  {
    if ms != [] {
      assert DistinctKeys(ms[1..]);
      StripMembersDistinct(ms[1..]);
      if !ms[0].1.Null? {
        var tail := StripMembers(ms[1..]);
        forall i | 0 <= i < |tail|
          ensures tail[i].0 != ms[0].0
        {
          StripMembersKeyOrigin(ms[1..], i);
        }
      }
    }
  }

  /** Every key of a stripped object is a key of the original. */
  lemma {:induction false} StripMembersKeyOrigin(ms: seq<(string, Json)>, i: nat)
    requires i < |StripMembers(ms)|
    ensures exists j :: 0 <= j < |ms| && ms[j].0 == StripMembers(ms)[i].0
  {
    if ms[0].1.Null? {
      StripMembersKeyOrigin(ms[1..], i);
      var j :| 0 <= j < |ms[1..]| && ms[1..][j].0 == StripMembers(ms[1..])[i].0;
      assert ms[j + 1].0 == StripMembers(ms)[i].0;
    } else if i == 0 {
      assert ms[0].0 == StripMembers(ms)[0].0;
    } else {
      StripMembersKeyOrigin(ms[1..], i - 1);
      var j :| 0 <= j < |ms[1..]| && ms[1..][j].0 == StripMembers(ms[1..])[i - 1].0;
      assert ms[j + 1].0 == StripMembers(ms)[i].0;
    }
  }

  /**
   * `GetIssue`: an object response comes back with every null removed at
   * every depth and each surviving key holding its stripped value; any other
   * response is returned untouched.
   */
  function GetIssue(response: Json): (r: Json)
    ensures response.Obj? ==> r.Obj? && NullFree(r)
    ensures response.Obj? && WellFormed(response) ==>
              WellFormed(r) &&
              forall k :: Get(r, k) ==
                match Get(response, k)
                case Some(v) => if v.Null? then None else Some(Strip(v))
                case None => None
    ensures !response.Obj? ==> r == response
  {
    if response.Obj? then
      StripIsNullFree(response);
      if WellFormed(response) then
        StripPreservesWellFormed(response);
        assert forall k :: Get(Strip(response), k) == Lookup(StripMembers(response.members), k);
        forall k ensures Lookup(StripMembers(response.members), k) ==
                   match Lookup(response.members, k)
                   case Some(v) => if v.Null? then None else Some(Strip(v))
                   case None => None
        {
          StripMembersLookup(response.members, k);
        }
        Strip(response)
      else Strip(response)
    else response
  }
}
