/** The append-only event log as `store.ListEvents` pages it (`internal/store/events.go`): rows in id
    order, past a cursor, of one type when a type is given, and at most one page of them. */
module EventLog {

  const MAX_EVENT_LIST_LIMIT: nat := 200

  datatype Event<P> = Event(id: nat, kind: string, body: P)

  /** Ids are positive and grow along the log: what becomes visible later carries a larger id. */
  predicate Ordered<P>(log: seq<Event<P>>) {
    && (forall i :: 0 <= i < |log| ==> log[i].id > 0)
    && (forall i, j :: 0 <= i < j < |log| ==> log[i].id < log[j].id)
  }

  predicate Picks<P>(e: Event<P>, after: nat, kind: string) {
    (kind == "" || e.kind == kind) && (after == 0 || e.id > after)
  }

  /** Every event past the cursor, of the type. */
  function Matching<P>(log: seq<Event<P>>, after: nat, kind: string): seq<Event<P>> {
    if log == [] then []
    else
      var init, last := Matching(log[..|log| - 1], after, kind), log[|log| - 1];
      if Picks(last, after, kind) then init + [last] else init
  }

  function Page<T>(s: seq<T>, limit: nat): seq<T> {
    if |s| <= limit then s else s[..limit]
  }

  function Capped(limit: int): nat {
    if limit <= 0 || limit > MAX_EVENT_LIST_LIMIT then MAX_EVENT_LIST_LIMIT else limit
  }

  function ListEvents<P>(log: seq<Event<P>>, after: nat, kind: string, limit: int): seq<Event<P>> {
    Page(Matching(log, after, kind), Capped(limit))
  }

  /** The id of the last event, or the cursor when there is none. */
  function LastOr<P>(before: nat, events: seq<Event<P>>): nat {
    if events == [] then before else events[|events| - 1].id
  }

  lemma {:induction false} MatchingMembers<P>(log: seq<Event<P>>, after: nat, kind: string)
    ensures forall e: Event<P> :: e in Matching(log, after, kind) <==> e in log && Picks(e, after, kind)
  {
    if log != [] {
      MatchingMembers(log[..|log| - 1], after, kind);
      assert log == log[..|log| - 1] + [log[|log| - 1]];
    }
  }

  lemma {:induction false} MatchingOrdered<P>(log: seq<Event<P>>, after: nat, kind: string)
    requires Ordered(log)
    ensures Ordered(Matching(log, after, kind))
    ensures forall e: Event<P> :: e in Matching(log, after, kind) ==> e.id > after
  {
    MatchingMembers(log, after, kind);
    if log != [] {
      var init, last := log[..|log| - 1], log[|log| - 1];
      MatchingOrdered(init, after, kind);
      MatchingMembers(init, after, kind);
      forall e: Event<P> | e in Matching(init, after, kind)
        ensures e.id < last.id
      {
        assert Picks(e, after, kind) && e in init;
        var i :| 0 <= i < |init| && init[i] == e;
        assert log[i] == e;
      }
    }
  }

  /** A page is the first of the events of the type past the cursor: as many as were asked for, 200 at most and
      when nothing sensible was asked for. */
  lemma ListsExactly<P>(log: seq<Event<P>>, after: nat, kind: string, limit: int)
    requires Ordered(log)
    ensures var m := Matching(log, after, kind);
      && Ordered(m) && (forall e: Event<P> :: e in m <==> e in log && e.id > after && (kind == "" || e.kind == kind))
      && var n := if 0 < limit < 200 then limit else 200;
      ListEvents(log, after, kind, limit) == if |m| <= n then m else m[..n]
  {
    MatchingMembers(log, after, kind);
    MatchingOrdered(log, after, kind);
  }

  /** Moving the cursor to a later id drops exactly what is at or before it. */
  lemma {:induction false} MatchingSplits<P>(log: seq<Event<P>>, after: nat, mid: nat, kind: string)
    requires Ordered(log) && after <= mid
    ensures Matching(log, after, kind) == UpTo(log, after, mid, kind) + Matching(log, mid, kind)
  {
    if log != [] {
      var init, last := log[..|log| - 1], log[|log| - 1];
      MatchingSplits(init, after, mid, kind);
      if mid > 0 && last.id <= mid {
        assert forall i :: 0 <= i < |init| ==> log[i] == init[i];
        NonePast(init, mid, kind);
      }
    }
  }

  lemma {:induction false} NonePast<P>(log: seq<Event<P>>, mid: nat, kind: string)
    requires mid > 0 && forall i :: 0 <= i < |log| ==> log[i].id <= mid
    ensures Matching(log, mid, kind) == []
  {
    if log != [] { NonePast(log[..|log| - 1], mid, kind); }
  }

  /** The matching events with `after < id <= mid`. */
  function UpTo<P>(log: seq<Event<P>>, after: nat, mid: nat, kind: string): seq<Event<P>> {
    if log == [] then []
    else
      var init, last := UpTo(log[..|log| - 1], after, mid, kind), log[|log| - 1];
      if Picks(last, after, kind) && last.id <= mid then init + [last] else init
  }

  lemma {:induction false} UpToMembers<P>(log: seq<Event<P>>, after: nat, mid: nat, kind: string)
    ensures forall e: Event<P> :: e in UpTo(log, after, mid, kind) <==> e in log && Picks(e, after, kind) && e.id <= mid
  {
    if log != [] {
      UpToMembers(log[..|log| - 1], after, mid, kind);
      assert log == log[..|log| - 1] + [log[|log| - 1]];
    }
  }

  /** Reading on from the k-th event read gives exactly the rest. */
  lemma Resume<P>(log: seq<Event<P>>, after: nat, kind: string, k: nat)
    requires Ordered(log) && k <= |Matching(log, after, kind)|
    ensures Matching(log, LastOr(after, Matching(log, after, kind)[..k]), kind) == Matching(log, after, kind)[k..]
  {
    var all := Matching(log, after, kind);
    if k > 0 {
      var mid := all[k - 1].id;
      MatchingOrdered(log, after, kind);
      assert all[k - 1] in all;
      MatchingSplits(log, after, mid, kind);
      var head, tail := UpTo(log, after, mid, kind), Matching(log, mid, kind);
      UpToMembers(log, after, mid, kind);
      MatchingOrdered(log, mid, kind);
      forall e: Event<P> | e in head
        ensures e.id <= mid
      {
        assert Picks(e, after, kind);
      }
      SplitPoint(all, head, tail, k);
      assert LastOr(after, all[..k]) == mid;
    }
  }

  lemma SplitPoint<P>(all: seq<Event<P>>, head: seq<Event<P>>, tail: seq<Event<P>>, k: nat)
    requires Ordered(all) && 0 < k <= |all| && all == head + tail
    requires forall e: Event<P> :: e in head ==> e.id <= all[k - 1].id
    requires forall e: Event<P> :: e in tail ==> e.id > all[k - 1].id
    ensures tail == all[k..]
  {
    forall i | |head| <= i < |all|
      ensures all[i].id > all[k - 1].id
    {
      assert all[i] == tail[i - |head|];
    }
    forall i | 0 <= i < |head|
      ensures all[i].id <= all[k - 1].id
    {
      assert all[i] == head[i];
      assert head[i] in head;
    }
    assert k < |all| ==> all[k].id > all[k - 1].id;
    assert |head| == k;
  }

  /** Each log extends the one before it. */
  ghost predicate Growing<P>(logs: seq<seq<Event<P>>>) {
    && (forall i :: 0 <= i < |logs| ==> Ordered(logs[i]))
    && (forall i :: 0 < i < |logs| ==> logs[i - 1] <= logs[i])
  }

  lemma {:induction false} PrefixSeen<P>(a: seq<Event<P>>, b: seq<Event<P>>, after: nat, kind: string)
    requires a <= b
    ensures Matching(a, after, kind) <= Matching(b, after, kind)
    decreases |b| - |a|
  {
    if |a| < |b| {
      var c := a + [b[|a|]];
      PrefixSeen(c, b, after, kind);
    } else {
      assert a == b;
    }
  }
}
