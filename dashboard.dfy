/**
 * The state the dashboard page keeps and the handlers that overwrite it: the
 * initial fetch, the realtime event handler, and the add and delete requests.
 * The remote store, the realtime feed and the browser dialogs are outside the
 * model: what they return is passed in as a parameter.
 */
module Dashboard {
  import opened Wrappers
  import opened Reconciler

  /** What the bookmark query resolves to: its `data` (possibly null) or its `error`. */
  datatype FetchResult = Fetched(data: Option<seq<Bookmark>>) | FetchFailed(message: string)

  /** What an insert or delete request resolves to. */
  datatype WriteResult = WriteOk | WriteFailed(message: string)

  /** The row an add request asks the store to insert; the store assigns `id` and `created_at`. */
  datatype NewBookmark = NewBookmark(url: string, title: string, userId: string)

  /** The filter of a delete request: both the row's id and its owner must match. */
  datatype DeleteFilter = DeleteFilter(id: Id, userId: string)

  datatype AddOutcome = NotSignedIn | MissingFields | Added | AddFailed(message: string)

  datatype DeleteOutcome = Cancelled | Deleted | DeleteFailed(message: string)

  /**
   * The message of the error thrown when `user.id` is read while no user is
   * signed in (the wording of the V8 engine; other engines word it differently).
   */
  const NoUserMessage: string := "Cannot read properties of null (reading 'id')"

  /** A form field passes the `!url || !title` guard: present and not the empty string. */
  predicate Filled(field: Option<string>)
  {
    field.Some? && field.value != ""
  }

  /** The list after the initial load: a successful query replaces it, anything else leaves it. */
  function AfterFetch(prev: seq<Bookmark>, user: Option<string>, res: FetchResult): (r: seq<Bookmark>)
    ensures user.None? || res.FetchFailed? ==> r == prev
    ensures user.Some? && res.Fetched? && res.data.Some? ==> r == res.data.value
    ensures user.Some? && res.Fetched? && res.data.None? ==> r == []
  {
    if user.None? then prev
    else match res
      case FetchFailed(_) => prev
      case Fetched(None) => []
      case Fetched(Some(rows)) => rows
  }

  /** The insert an add request issues, if any: only for a signed-in user and two filled fields. */
  function AddRequest(user: Option<string>, url: Option<string>, title: Option<string>): (r: Option<NewBookmark>)
    ensures r.Some? <==> user.Some? && Filled(url) && Filled(title)
    ensures r.Some? ==> r.value.userId == user.value && r.value.url != "" && r.value.title != ""
    ensures r.Some? ==> Some(r.value.url) == url && Some(r.value.title) == title
  {
    if user.None? || !Filled(url) || !Filled(title) then None
    else Some(NewBookmark(url.value, title.value, user.value))
  }

  /**
   * The delete a confirmed request issues, if any. Without a signed-in user the
   * owner filter cannot be built (`user.id` of `null` throws before the query is
   * sent), so no request goes out.
   */
  function DeleteRequest(user: Option<string>, id: Id, confirmed: bool): (r: Option<DeleteFilter>)
    ensures r.Some? <==> confirmed && user.Some?
    ensures r.Some? ==> r.value.id == id && r.value.userId == user.value
  {
    if !confirmed || user.None? then None else Some(DeleteFilter(id, user.value))
  }

  class DashboardState {
    var records: seq<Bookmark>
    var isLoading: bool
    var isSubmitting: bool
    var user: Option<string>

    /** The page as first rendered: no rows, loading, nobody known yet. */
    constructor ()
      ensures records == [] && isLoading && !isSubmitting && user == None
    {
      records := [];
      isLoading := true;
      isSubmitting := false;
      user := None;
    }

    /**
     * The initial load: record the user, then — for a signed-in user — replace
     * the list with the query's rows; a failed query is only logged. Loading
     * ends on every path.
     */
    method LoadInitial(signedIn: Option<string>, res: FetchResult)
      modifies this
      ensures user == signedIn && !isLoading && isSubmitting == old(isSubmitting)
      ensures records == AfterFetch(old(records), signedIn, res)
      ensures signedIn.Some? && res.Fetched? && res.data.Some? ==> records == res.data.value
      ensures res.FetchFailed? ==> records == old(records)
      ensures signedIn.Some? ==>
                (old(OwnedBy(records, signedIn.value))
                   && (res.Fetched? && res.data.Some? ==> OwnedBy(res.data.value, signedIn.value))
                 ==> OwnedBy(records, signedIn.value))
    {
      user := signedIn;
      if signedIn.Some? {
        match res
        case FetchFailed(_) =>
        case Fetched(data) =>
          records := if data.Some? then data.value else [];
      }
      isLoading := false;
    }

    /** One realtime change event: the only path by which rows enter, change or leave the list. */
    method OnEvent(e: ChangeEvent)
      modifies this`records
      ensures records == Apply(old(records), e)
      ensures old(DistinctIds(records)) ==> DistinctIds(records)
      ensures user.Some? ==>
                (old(OwnedBy(records, user.value)) && EventOwnedBy(e, user.value) ==> OwnedBy(records, user.value))
    {
      if DistinctIds(records) {
        ApplyPreservesDistinct(records, e);
      }
      if user.Some? && OwnedBy(records, user.value) && EventOwnedBy(e, user.value) {
        ApplyPreservesOwner(records, e, user.value);
      }
      records := Apply(records, e);
    }

    /**
     * An add request: send the insert the form asks for and report how it
     * went. The list is left to the realtime feed; the submitting flag is
     * raised for the request and lowered once it settles.
     */
    method RequestAdd(url: Option<string>, title: Option<string>, write: WriteResult)
      returns (issued: Option<NewBookmark>, outcome: AddOutcome)
      modifies this`isSubmitting
      ensures issued == AddRequest(user, url, title)
      ensures records == old(records)
      ensures isSubmitting == if issued.Some? then false else old(isSubmitting)
      ensures user.None? ==> outcome == NotSignedIn
      ensures user.Some? && !(Filled(url) && Filled(title)) ==> outcome == MissingFields
      ensures issued.Some? ==> outcome == (if write.WriteOk? then Added else AddFailed(write.message))
    {
      if user.None? {
        return None, NotSignedIn;
      }
      if !Filled(url) || !Filled(title) {
        return None, MissingFields;
      }
      isSubmitting := true;
      issued := Some(NewBookmark(url.value, title.value, user.value));
      outcome := if write.WriteOk? then Added else AddFailed(write.message);
      isSubmitting := false;
    }

    /**
     * A delete request for the row `id`, after the user answered the
     * confirmation dialog with `confirmed`. The list is left to the realtime feed.
     */
    method RequestDelete(id: Id, confirmed: bool, write: WriteResult)
      returns (issued: Option<DeleteFilter>, outcome: DeleteOutcome)
      ensures issued == DeleteRequest(user, id, confirmed)
      ensures !confirmed ==> outcome == Cancelled
      ensures confirmed && user.None? ==> outcome == DeleteFailed(NoUserMessage)
      ensures issued.Some? ==> outcome == (if write.WriteOk? then Deleted else DeleteFailed(write.message))
    {
      if !confirmed {
        return None, Cancelled;
      }
      if user.None? {
        return None, DeleteFailed(NoUserMessage);
      }
      issued := Some(DeleteFilter(id, user.value));
      outcome := if write.WriteOk? then Deleted else DeleteFailed(write.message);
    }
  }

  /** A successful load discards whatever events were applied before it: the query's rows win. */
  lemma FetchReplacesEarlierEvents(prev: seq<Bookmark>, events: seq<ChangeEvent>, user: string, rows: seq<Bookmark>)
    ensures AfterFetch(ApplyAll(prev, events), Some(user), Fetched(Some(rows))) == rows
  {
  }

  /** Events applied in arrival order. */
  function ApplyAll(s: seq<Bookmark>, events: seq<ChangeEvent>): (r: seq<Bookmark>)
    ensures DistinctIds(s) ==> DistinctIds(r)
    decreases |events|
  {
    if events == [] then s
    else
      assert DistinctIds(s) ==> DistinctIds(Apply(s, events[0])) by {
        if DistinctIds(s) {
          ApplyPreservesDistinct(s, events[0]);
        }
      }
      ApplyAll(Apply(s, events[0]), events[1..])
  }

  /** Loading a snapshot without duplicate ids, with or without earlier events, leaves no duplicate. */
  lemma FetchThenEventsStayDistinct(prev: seq<Bookmark>, user: Option<string>, res: FetchResult, events: seq<ChangeEvent>)
    requires DistinctIds(prev)
    requires res.Fetched? && res.data.Some? ==> DistinctIds(res.data.value)
    ensures DistinctIds(ApplyAll(AfterFetch(prev, user, res), events))
  {
  }

  /** Every event of the sequence carries only rows of `owner`, as the channel's `user_id` filter delivers them. */
  predicate EventsOwnedBy(events: seq<ChangeEvent>, owner: string)
  {
    forall i :: 0 <= i < |events| ==> EventOwnedBy(events[i], owner)
  }

  /** Events filtered to one user, applied in arrival order, keep a list of that user's rows. */
  lemma {:induction false} ApplyAllPreservesOwner(s: seq<Bookmark>, events: seq<ChangeEvent>, owner: string)
    requires OwnedBy(s, owner) && EventsOwnedBy(events, owner)
    ensures OwnedBy(ApplyAll(s, events), owner)
    decreases |events|
  {
    if events != [] {
      ApplyPreservesOwner(s, events[0], owner);
      assert EventsOwnedBy(events[1..], owner) by {
        forall i | 0 <= i < |events[1..]| ensures EventOwnedBy(events[1..][i], owner) {
          assert events[1..][i] == events[i + 1];
        }
      }
      ApplyAllPreservesOwner(Apply(s, events[0]), events[1..], owner);
    }
  }

  /**
   * The query is filtered to the signed-in user: if its snapshot (or the list
   * it leaves in place) holds only that user's rows, so does the list after
   * the load and any filtered events that follow.
   */
  lemma FetchThenEventsStayOwned(prev: seq<Bookmark>, owner: string, res: FetchResult, events: seq<ChangeEvent>)
    requires OwnedBy(prev, owner)
    requires res.Fetched? && res.data.Some? ==> OwnedBy(res.data.value, owner)
    requires EventsOwnedBy(events, owner)
    ensures OwnedBy(ApplyAll(AfterFetch(prev, Some(owner), res), events), owner)
  {
    ApplyAllPreservesOwner(AfterFetch(prev, Some(owner), res), events, owner);
  }

  /**
   * A worked scenario: load rows 1 and 2 (newest first), then an insert of
   * row 3, then a delete of row 2.
   */
  lemma Scenario(u: string)
    ensures
      var row1 := Bookmark("1", "T1", u, "a.com", "A");
      var row2 := Bookmark("2", "T2", u, "b.com", "B");
      var row3 := Bookmark("3", "T3", u, "c.com", "C");
      var loaded := AfterFetch([], Some(u), Fetched(Some([row2, row1])));
      && loaded == [row2, row1]
      && Apply(loaded, Insert(row3)) == [row3, row2, row1]
      && Apply(Apply(loaded, Insert(row3)), Delete("2")) == [row3, row1]
  {
    var row1 := Bookmark("1", "T1", u, "a.com", "A");
    var row2 := Bookmark("2", "T2", u, "b.com", "B");
    var row3 := Bookmark("3", "T3", u, "c.com", "C");
    assert "3" != "2" && "3" != "1" && "2" != "1" by {
      assert "3"[0] != "2"[0] && "3"[0] != "1"[0] && "2"[0] != "1"[0];
    }
    assert !ContainsId([row2, row1], "3");
    assert RemoveId([row3, row2, row1], "2") == [row3] + RemoveId([row2, row1], "2");
    assert RemoveId([row2, row1], "2") == RemoveId([row1], "2");
    assert [row2, row1][1..] == [row1];
    assert RemoveId([row1], "2") == [row1] + RemoveId([], "2");
  }
}
