/** The history of one account: newest first, a page at a time, with the last id of a page as the cursor to the next. */
module History {
  import opened Prelude

  type Id = nat

  /** Reports by id, with the account each belongs to (none for anonymous ones). Ids only grow. */
  datatype Reports = Reports(owners: map<Id, Option<string>>, nextId: Id)

  predicate Owned(owners: map<Id, Option<string>>, user: string, id: Id) {
    id in owners && owners[id] == Some(user)
  }

  /** The account's report ids below hi, newest first. */
  function Below(owners: map<Id, Option<string>>, user: string, hi: Id): seq<Id> {
    if hi == 0 then []
    else if Owned(owners, user, hi - 1) then [hi - 1] + Below(owners, user, hi - 1)
    else Below(owners, user, hi - 1)
  }

  /** The account's ids below hi, all of them and no others, strictly descending. */
  ghost predicate Lists(r: seq<Id>, owners: map<Id, Option<string>>, user: string, hi: Id) {
    && (forall i :: 0 <= i < |r| ==> r[i] < hi && Owned(owners, user, r[i]))
    && (forall i, j :: 0 <= i < j < |r| ==> r[i] > r[j])
    && (forall id: Id :: Owned(owners, user, id) && id < hi ==> id in r)
  }

  lemma {:induction false} BelowIsDescending(owners: map<Id, Option<string>>, user: string, hi: Id)
    ensures Lists(Below(owners, user, hi), owners, user, hi)
  {
    if hi > 0 {
      var rest := Below(owners, user, hi - 1);
      BelowIsDescending(owners, user, hi - 1);
      if Owned(owners, user, hi - 1) {
        PrependKeeps(rest, owners, user, hi);
      }
    }
  }

  /** A report is in the list exactly when it is below the bound and belongs to the account. */
  lemma BelowOwns(owners: map<Id, Option<string>>, user: string, hi: Id, id: Id)
    ensures id in Below(owners, user, hi) <==> id < hi && id in owners && owners[id] == Some(user)
  {
    BelowIsDescending(owners, user, hi);
  }

  lemma PrependKeeps(rest: seq<Id>, owners: map<Id, Option<string>>, user: string, hi: Id)
    requires hi > 0 && Lists(rest, owners, user, hi - 1) && Owned(owners, user, hi - 1)
    ensures Lists([hi - 1] + rest, owners, user, hi)
  {
    var all := [hi - 1] + rest;
    assert forall i :: 1 <= i < |all| ==> all[i] == rest[i - 1];
    forall id: Id | Owned(owners, user, id) && id < hi ensures id in all {
      assert id == hi - 1 || id in rest;
    }
  }

  datatype Cursor = NoCursor | Before(id: Id) | Malformed

  /** `limit or default`, then clamped: a limit of zero is the default, a negative one is one. */
  function PageSize(limit: int, default: int, most: int): (size: nat)
    ensures size >= 1
  {
    Max(1, Min(if limit == 0 then default else limit, most))
  }

  /** A limit in range is taken as it is, one above it as the most, a negative one as one, and none or zero as the
      default. */
  lemma PageSizeIs(limit: int, default: int, most: int)
    ensures 1 <= limit <= most ==> PageSize(limit, default, most) == limit
    ensures 1 <= most < limit ==> PageSize(limit, default, most) == most
    ensures limit < 0 || most < 1 ==> PageSize(limit, default, most) == 1
    ensures default != 0 ==> PageSize(0, default, most) == PageSize(default, default, most)
  {}

  datatype Answer = BadCursor | Page(reports: seq<Id>, next: Option<Id>)

  function Bound(r: Reports, before: Cursor): Id
    requires !before.Malformed?
  {
    if before.Before? then before.id else r.nextId
  }

  /** One page: fetch one more than the page holds to learn whether there is more. */
  function List(r: Reports, user: string, size: nat, before: Cursor): Answer
    requires size >= 1
  {
    if before.Malformed? then BadCursor
    else
      var all := Below(r.owners, user, Bound(r, before));
      var documents := if |all| <= size + 1 then all else all[..size + 1];
      if |documents| > size then Page(documents[..size], Some(documents[size - 1]))
      else Page(documents, None)
  }

  /** A page is the front of what remains; the cursor, if any, names exactly the rest. */
  lemma PageSplits(r: Reports, user: string, size: nat, before: Cursor)
    requires size >= 1 && !before.Malformed?
    ensures var all := Below(r.owners, user, Bound(r, before));
            var page := List(r, user, size, before);
            && page.Page? && page.reports == all[..Min(size, |all|)]
            && (page.next.None? <==> |all| <= size)
            && (page.next.Some? ==>
                  && page.next.value < Bound(r, before)
                  && all == page.reports + Below(r.owners, user, page.next.value)
                  && |Below(r.owners, user, page.next.value)| < |all|)
  {
    var hi := Bound(r, before);
    var all := Below(r.owners, user, hi);
    if |all| > size {
      BelowAt(r.owners, user, hi, size - 1);
      assert all == all[..size] + all[size..];
    }
  }

  /** Cutting the list at one of its own ids. */
  lemma {:induction false} BelowAt(owners: map<Id, Option<string>>, user: string, hi: Id, k: nat)
    requires k < |Below(owners, user, hi)|
    ensures var all := Below(owners, user, hi);
            all[k] < hi && Below(owners, user, all[k]) == all[k + 1..]
  {
    if Owned(owners, user, hi - 1) {
      if k > 0 { BelowAt(owners, user, hi - 1, k - 1); }
    } else {
      BelowAt(owners, user, hi - 1, k);
    }
  }

  /** Reports that arrive later do not show below an earlier id. */
  lemma {:induction false} BelowStable(owners: map<Id, Option<string>>, owners': map<Id, Option<string>>,
                                       user: string, hi: Id)
    requires forall id :: id < hi ==> (id in owners <==> id in owners')
    requires forall id :: id < hi && id in owners ==> owners[id] == owners'[id]
    ensures Below(owners, user, hi) == Below(owners', user, hi)
  {
    if hi > 0 { BelowStable(owners, owners', user, hi - 1); }
  }

  /** One request of a walk: `collected` and what was below the cursor made up the list; with the page and what is below
      the next cursor they still do, although reports have arrived since. */
  lemma RequestAdvances(was: map<Id, Option<string>>, r: Reports, user: string, size: nat, cursor: Id,
                        all: seq<Id>, collected: seq<Id>)
    requires size >= 1 && all == collected + Below(was, user, cursor)
    requires forall id :: id < cursor ==> (id in was <==> id in r.owners)
    requires forall id :: id < cursor && id in was ==> was[id] == r.owners[id]
    ensures var page := List(r, user, size, Before(cursor));
            && page.Page?
            && (page.next.None? ==> all == collected + page.reports)
            && (page.next.Some? ==>
                  && page.next.value < cursor
                  && all == collected + page.reports + Below(r.owners, user, page.next.value)
                  && |Below(r.owners, user, page.next.value)| < |Below(was, user, cursor)|)
  {
    BelowStable(was, r.owners, user, cursor);
    PageSplits(r, user, size, Before(cursor));
  }

  /** The reports collection and the endpoint that reads it. */
  class ReportStore {
    var owners: map<Id, Option<string>>
    var nextId: Id

    ghost predicate Valid()
      reads this
    {
      forall id :: id in owners ==> id < nextId
    }

    ghost function Contents(): Reports
      reads this
    {
      Reports(owners, nextId)
    }

    constructor ()
      ensures Valid() && owners == map[]
    {
      owners := map[];
      nextId := 0;
    }

    method Insert(owner: Option<string>)
      requires Valid()
      modifies this
      ensures Valid() && nextId == old(nextId) + 1 && owners == old(owners)[old(nextId) := owner]
    {
      owners := owners[nextId := owner];
      nextId := nextId + 1;
    }

    method InsertAll(arrivals: seq<Option<string>>)
      requires Valid()
      modifies this
      ensures Valid() && nextId >= old(nextId)
      ensures forall id :: id < old(nextId) ==>
                (id in owners <==> id in old(owners)) && (id in owners ==> owners[id] == old(owners)[id])
    {
      for i := 0 to |arrivals|
        invariant Valid() && nextId >= old(nextId)
        invariant forall id :: id < old(nextId) ==>
                    (id in owners <==> id in old(owners)) && (id in owners ==> owners[id] == old(owners)[id])
      {
        Insert(arrivals[i]);
      }
    }

    /** The query, scanning ids downwards until the page and one more are found. */
    method ListHistory(user: string, limit: int, default: int, most: int, before: Cursor) returns (answer: Answer)
      ensures answer == List(Contents(), user, PageSize(limit, default, most), before)
    {
      if before.Malformed? {
        return BadCursor;
      }
      var pageSize := Max(1, Min(if limit == 0 then default else limit, most));
      var all := Below(owners, user, if before.Before? then before.id else nextId);
      var documents := if |all| <= pageSize + 1 then all else all[..pageSize + 1];
      var hasMore := |documents| > pageSize;
      documents := if hasMore then documents[..pageSize] else documents;
      answer := Page(documents, if hasMore && documents != [] then Some(documents[|documents| - 1]) else None);
    }

    /** A client that follows the cursor to its end, with any limit it likes on each request, while other reports arrive
        between the requests. It collects every report the account had at the start, once each, newest first. */
    method Walk(user: string, limits: nat -> int, arrivals: nat -> seq<Option<string>>, default: int, most: int)
        returns (collected: seq<Id>)
      requires Valid()
      modifies this
      ensures Valid()
      ensures collected == old(Below(owners, user, nextId))
    {
      var answer := ListHistory(user, limits(0), default, most, NoCursor);
      PageSplits(Contents(), user, PageSize(limits(0), default, most), NoCursor);
      collected := answer.reports;
      var cursor: Option<Id> := answer.next;
      var request := 1;
      ghost var all := Below(owners, user, nextId);
      while cursor.Some?
        invariant Valid() && old(nextId) <= nextId
        invariant forall id :: id < old(nextId) ==>
                    (id in owners <==> id in old(owners)) && (id in owners ==> owners[id] == old(owners)[id])
        invariant cursor.Some? ==> cursor.value < old(nextId)
        invariant all == collected + (if cursor.Some? then Below(owners, user, cursor.value) else [])
        decreases if cursor.Some? then |Below(owners, user, cursor.value)| + 1 else 0
      {
        ghost var earlier := owners;
        InsertAll(arrivals(request));
        var size := limits(request);
        answer := ListHistory(user, size, default, most, Before(cursor.value));
        RequestAdvances(earlier, Contents(), user, PageSize(size, default, most), cursor.value, all, collected);
        collected := collected + answer.reports;
        cursor := answer.next;
        request := request + 1;
      }
    }
  }
}
