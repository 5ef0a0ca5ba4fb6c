/**
 * The bookmark list reconciler of the dashboard page: the three updaters that
 * turn the current list into the next one when a realtime change event for the
 * bookmarks table arrives. Every updater is a pure function of the previous
 * list and the event; rows are matched by their `id` alone.
 */
module Reconciler {

  type Id = string

  /** One row of the bookmarks table. */
  datatype Bookmark = Bookmark(id: Id, createdAt: string, userId: string, url: string, title: string)

  /**
   * A change event as the handler sees it: an INSERT and an UPDATE carry the
   * new row, a DELETE carries the id of the old row, and any other event type
   * falls through the handler's else-if chain.
   */
  datatype ChangeEvent =
    | Insert(row: Bookmark)
    | Update(row: Bookmark)
    | Delete(oldId: Id)
    | Other

  /** No two rows of the list share an id. */
  predicate DistinctIds(s: seq<Bookmark>)
  {
    forall i, j :: 0 <= i < j < |s| ==> s[i].id != s[j].id
  }

  /** Every row of the list belongs to the user `owner`. */
  predicate OwnedBy(s: seq<Bookmark>, owner: string)
  {
    forall i :: 0 <= i < |s| ==> s[i].userId == owner
  }

  /** The event carries no row of a user other than `owner`. */
  predicate EventOwnedBy(e: ChangeEvent, owner: string)
  {
    (e.Insert? || e.Update?) ==> e.row.userId == owner
  }

  /** `prev.some(b => b.id === id)`. */
  function ContainsId(s: seq<Bookmark>, id: Id): (r: bool)
    ensures r <==> exists i :: 0 <= i < |s| && s[i].id == id
  {
    if s == [] then false
    else if s[0].id == id then true
    else
      var rest := ContainsId(s[1..], id);
      assert rest ==> exists i :: 0 <= i < |s[1..]| && s[1..][i].id == id;
      rest
  }

  /** `prev.filter(b => b.id !== id)`: the DELETE updater. */
  function RemoveId(s: seq<Bookmark>, id: Id): (r: seq<Bookmark>)
    ensures |r| <= |s|
    ensures forall i :: 0 <= i < |r| ==> r[i].id != id && r[i] in s
    ensures forall i :: 0 <= i < |s| && s[i].id != id ==> s[i] in r
  {
    if s == [] then []
    else
      var rest := RemoveId(s[1..], id);
      assert forall i :: 1 <= i < |s| ==> s[i] == s[1..][i - 1];
      (if s[0].id == id then [] else [s[0]]) + rest
  }

  /** `prev.map(b => b.id === row.id ? row : b)`: the UPDATE updater. */
  function ReplaceId(s: seq<Bookmark>, row: Bookmark): (r: seq<Bookmark>)
    ensures |r| == |s|
    ensures forall i :: 0 <= i < |s| ==> r[i] == if s[i].id == row.id then row else s[i]
  {
    if s == [] then []
    else [if s[0].id == row.id then row else s[0]] + ReplaceId(s[1..], row)
  }

  /** The INSERT updater: keep the list if the id is already tracked, else prepend the row. */
  function InsertRow(s: seq<Bookmark>, row: Bookmark): (r: seq<Bookmark>)
    ensures ContainsId(r, row.id)
    ensures |s| <= |r| <= |s| + 1
    ensures r[|r| - |s|..] == s
  {
    if ContainsId(s, row.id) then s else [row] + s
  }

  /** The realtime handler: dispatch on the event type; an unknown type changes nothing. */
  function Apply(s: seq<Bookmark>, e: ChangeEvent): (r: seq<Bookmark>)
    ensures e.Insert? ==> ContainsId(r, e.row.id) && |r| <= |s| + 1
    ensures e.Delete? ==> !ContainsId(r, e.oldId) && |r| <= |s|
    ensures e.Update? ==> |r| == |s|
    ensures e.Other? ==> r == s
  {
    match e
    case Insert(row) => InsertRow(s, row)
    case Delete(id) => RemoveId(s, id)
    case Update(row) => ReplaceId(s, row)
    case Other => s
  }

  // ---------------------------------------------------------------------------
  // INSERT

  /** An insert echo for a tracked id leaves the list exactly as it was. */
  lemma InsertTrackedIsNoOp(s: seq<Bookmark>, row: Bookmark, k: nat)
    requires k < |s| && s[k].id == row.id
    ensures Apply(s, Insert(row)) == s
    ensures |Apply(s, Insert(row))| == |s|
  {
  }

  /** An insert of an untracked id puts the row in front of all old rows, in their order. */
  lemma InsertUntrackedPrepends(s: seq<Bookmark>, row: Bookmark)
    requires forall i :: 0 <= i < |s| ==> s[i].id != row.id
    ensures Apply(s, Insert(row)) == [row] + s
    ensures |Apply(s, Insert(row))| == |s| + 1
    ensures Apply(s, Insert(row))[0] == row && Apply(s, Insert(row))[1..] == s
  {
  }

  /** `DistinctIds` of a list with a row in front. */
  lemma {:induction false} DistinctCons(x: Bookmark, t: seq<Bookmark>)
    ensures DistinctIds([x] + t) <==> !ContainsId(t, x.id) && DistinctIds(t)
  {
    var s := [x] + t;
    if DistinctIds(s) {
      forall i, j | 0 <= i < j < |t| ensures t[i].id != t[j].id {
        assert s[i + 1] == t[i] && s[j + 1] == t[j];
      }
      forall i | 0 <= i < |t| ensures t[i].id != x.id {
        assert s[0] == x && s[i + 1] == t[i];
      }
    }
    if !ContainsId(t, x.id) && DistinctIds(t) {
      forall i, j | 0 <= i < j < |s| ensures s[i].id != s[j].id {
        assert s[j] == t[j - 1];
        if i > 0 {
          assert s[i] == t[i - 1];
        }
      }
    }
  }

  lemma InsertPreservesDistinct(s: seq<Bookmark>, row: Bookmark)
    requires DistinctIds(s)
    ensures DistinctIds(Apply(s, Insert(row)))
  {
    if !ContainsId(s, row.id) {
      DistinctCons(row, s);
    }
  }

  // ---------------------------------------------------------------------------
  // DELETE

  /** Deleting keeps exactly the rows with another id: no row with the id is left. */
  lemma DeleteRemovesExactly(s: seq<Bookmark>, id: Id)
    ensures forall b :: b in Apply(s, Delete(id)) <==> b in s && b.id != id
    ensures !ContainsId(Apply(s, Delete(id)), id)
  {
  }

  /** Deleting keeps every other row as often as it occurred, and drops every copy of the id. */
  lemma {:induction false} DeleteKeepsMultiplicity(s: seq<Bookmark>, id: Id, b: Bookmark)
    ensures multiset(Apply(s, Delete(id)))[b] == if b.id == id then 0 else multiset(s)[b]
  {
    if s != [] {
      assert s == [s[0]] + s[1..];
      DeleteKeepsMultiplicity(s[1..], id, b);
    }
  }

  /** Deleting distributes over concatenation, so the kept rows keep their relative order. */
  lemma {:induction false} DeleteKeepsOrder(a: seq<Bookmark>, b: seq<Bookmark>, id: Id)
    ensures RemoveId(a + b, id) == RemoveId(a, id) + RemoveId(b, id)
  {
    if a == [] {
      assert a + b == b;
    } else {
      var head := if a[0].id == id then [] else [a[0]];
      assert (a + b)[0] == a[0];
      assert (a + b)[1..] == a[1..] + b;
      DeleteKeepsOrder(a[1..], b, id);
      calc {
        RemoveId(a + b, id);
        head + RemoveId(a[1..] + b, id);
        head + (RemoveId(a[1..], id) + RemoveId(b, id));
        (head + RemoveId(a[1..], id)) + RemoveId(b, id);
        RemoveId(a, id) + RemoveId(b, id);
      }
    }
  }

  /** Deleting an id that is not tracked is a no-op. */
  lemma {:induction false} DeleteAbsentIsNoOp(s: seq<Bookmark>, id: Id)
    requires !ContainsId(s, id)
    ensures Apply(s, Delete(id)) == s
  {
    if s != [] {
      var t := s[1..];
      assert s[0].id != id;
      forall i | 0 <= i < |t| ensures t[i].id != id {
        assert t[i] == s[i + 1];
      }
      DeleteAbsentIsNoOp(t, id);
      calc {
        RemoveId(s, id);
        [s[0]] + RemoveId(t, id);
        [s[0]] + t;
        s;
      }
    }
  }

  lemma {:induction false} DeletePreservesDistinct(s: seq<Bookmark>, id: Id)
    requires DistinctIds(s)
    ensures DistinctIds(Apply(s, Delete(id)))
  {
    if s != [] {
      var t := s[1..];
      assert s == [s[0]] + t;
      DistinctCons(s[0], t);
      DeletePreservesDistinct(t, id);
      if s[0].id != id {
        var rt := RemoveId(t, id);
        forall i | 0 <= i < |rt| ensures rt[i].id != s[0].id {
          assert rt[i] in t;
        }
        DistinctCons(s[0], rt);
      }
    }
  }

  // ---------------------------------------------------------------------------
  // UPDATE

  /** An update keeps every position's id, so rows stay where they were. */
  lemma UpdateKeepsIds(s: seq<Bookmark>, row: Bookmark)
    ensures |Apply(s, Update(row))| == |s|
    ensures forall i :: 0 <= i < |s| ==> Apply(s, Update(row))[i].id == s[i].id
  {
  }

  /** An update for an id that is not tracked is a no-op. */
  lemma UpdateUntrackedIsNoOp(s: seq<Bookmark>, row: Bookmark)
    requires !ContainsId(s, row.id)
    ensures Apply(s, Update(row)) == s
  {
  }

  lemma UpdatePreservesDistinct(s: seq<Bookmark>, row: Bookmark)
    requires DistinctIds(s)
    ensures DistinctIds(Apply(s, Update(row)))
  {
  }

  // ---------------------------------------------------------------------------
  // All events

  /** An event type the handler does not recognise leaves the list unchanged. */
  lemma OtherIsNoOp(s: seq<Bookmark>)
    ensures Apply(s, Other) == s
  {
  }

  /** Every event, replayed, has no further effect: delivery at least once is harmless. */
  lemma ApplyIdempotent(s: seq<Bookmark>, e: ChangeEvent)
    ensures Apply(Apply(s, e), e) == Apply(s, e)
  {
    match e
    case Insert(row) =>
    case Delete(id) =>
      DeleteRemovesExactly(s, id);
      DeleteAbsentIsNoOp(Apply(s, e), id);
    case Update(row) =>
    case Other =>
  }

  /** No event introduces a duplicate id into a list that has none. */
  lemma ApplyPreservesDistinct(s: seq<Bookmark>, e: ChangeEvent)
    requires DistinctIds(s)
    ensures DistinctIds(Apply(s, e))
  {
    match e
    case Insert(row) => InsertPreservesDistinct(s, row);
    case Delete(id) => DeletePreservesDistinct(s, id);
    case Update(row) => UpdatePreservesDistinct(s, row);
    case Other =>
  }

  /** Events filtered to one user keep a list of that user's rows a list of that user's rows. */
  lemma ApplyPreservesOwner(s: seq<Bookmark>, e: ChangeEvent, owner: string)
    requires OwnedBy(s, owner) && EventOwnedBy(e, owner)
    ensures OwnedBy(Apply(s, e), owner)
  {
    match e
    case Insert(row) =>
    case Delete(id) =>
      var r := Apply(s, e);
      forall i | 0 <= i < |r| ensures r[i].userId == owner {
        assert r[i] in s;
      }
    case Update(row) =>
    case Other =>
  }
}
