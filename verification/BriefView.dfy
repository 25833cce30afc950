/** What the Morning Brief shows (`internal/api/morningbrief.go`), told on the events, the open state and the
    names of event types alone. */
module BriefView {
  import opened Text
  import opened EventLog
  import opened MorningBrief

  // ----- The three kinds of event

  predicate StoppedKind(kind: string) {
    || kind == "task.stopped" || kind == "task.abandoned" || kind == "lease.expired"
    || kind == "runtime.crashloop" || kind == "runtime.oom" || kind == "runtime.flux_failure"
  }

  predicate OutcomeKind(kind: string) {
    || kind == "wl:DocumentSubmitted" || kind == "wl:DocumentAccepted" || kind == "task.done" || kind == "task.reopened"
    || kind == "deliverable.created" || kind == "approval.decided" || kind == "crew.member_added"
    || kind == "crew.member_removed" || kind == "issue.promoted" || kind == "runtime.flux_recovery"
  }

  predicate KindIn(kind: string, tier: Tier) {
    match tier
    case Stopped => StoppedKind(kind)
    case Outcome => OutcomeKind(kind)
    case Routine => !StoppedKind(kind) && !OutcomeKind(kind)
  }

  lemma TierTold(kind: string, tier: Tier)
    ensures TierOf(kind) == tier <==> KindIn(kind, tier)
  {
  }

  // ----- One group

  /** The event is the project's and of the tier. */
  predicate Belongs(e: Entry, pid: string, tier: Tier) {
    pid != "" && e.body.project == pid && KindIn(e.kind, tier)
  }

  /** Exactly the project's events of the tier, in id order. */
  ghost predicate Lists(listed: seq<Entry>, events: seq<Entry>, pid: string, tier: Tier) {
    Ordered(listed) && forall e :: e in listed <==> e in events && Belongs(e, pid, tier)
  }

  function AllIn(events: seq<Entry>, pid: string, tier: Tier): set<Entry> {
    set e | e in events && Belongs(e, pid, tier)
  }

  lemma {:induction false} OfLists(events: seq<Entry>, pid: string, tier: Tier)
    requires Ordered(events)
    ensures Lists(Of(events, pid, tier), events, pid, tier)
    ensures |Of(events, pid, tier)| == |AllIn(events, pid, tier)|
  {
    if events == [] {
      assert AllIn(events, pid, tier) == {};
    } else {
      var init, last := events[..|events| - 1], events[|events| - 1];
      assert events == init + [last] && Ordered(init);
      OfLast(events, pid, tier);
      hide Lists, AllIn, Ordered, Of, Belongs;
      OfLists(init, pid, tier);
      ListsOn(Of(init, pid, tier), init, last, pid, tier);
      AllOn(init, last, pid, tier);
    }
  }

  lemma Later(init: seq<Entry>, last: Entry, e: Entry)
    requires Ordered(init + [last]) && e in init
    ensures e.id < last.id
  {
    var i :| 0 <= i < |init| && init[i] == e;
    assert (init + [last])[i] == e && (init + [last])[|init|] == last;
  }

  lemma ListsOn(listed: seq<Entry>, init: seq<Entry>, last: Entry, pid: string, tier: Tier)
    requires Lists(listed, init, pid, tier) && Ordered(init + [last])
    ensures Lists(if Belongs(last, pid, tier) then listed + [last] else listed, init + [last], pid, tier)
  {
    hide Belongs;
    assert (init + [last])[|init|] == last;
    forall i | 0 <= i < |listed|
      ensures listed[i].id < last.id
    {
      assert listed[i] in listed;
      Later(init, last, listed[i]);
    }
    OrderedOn(listed, last);
    hide Ordered;
    assert forall e :: e in init + [last] <==> e in init || e == last;
    assert forall e :: e in listed + [last] <==> e in listed || e == last;
  }

  lemma OrderedOn(listed: seq<Entry>, last: Entry)
    requires Ordered(listed) && last.id > 0 && forall i :: 0 <= i < |listed| ==> listed[i].id < last.id
    ensures Ordered(listed + [last])
  {
  }

  lemma AllOn(init: seq<Entry>, last: Entry, pid: string, tier: Tier)
    requires Ordered(init + [last])
    ensures |AllIn(init + [last], pid, tier)| == |AllIn(init, pid, tier)| + if Belongs(last, pid, tier) then 1 else 0
  {
    hide Belongs, Ordered;
    forall e | e in init
      ensures e.id < last.id
    {
      Later(init, last, e);
    }
    assert last !in AllIn(init, pid, tier);
    assert forall e :: e in init + [last] <==> e in init || e == last;
    assert AllIn(init + [last], pid, tier) == AllIn(init, pid, tier) + if Belongs(last, pid, tier) then {last} else {};
  }

  lemma OfLast(events: seq<Entry>, pid: string, tier: Tier)
    requires events != []
    ensures var init, last := events[..|events| - 1], events[|events| - 1];
      Of(events, pid, tier) == if Belongs(last, pid, tier) then Of(init, pid, tier) + [last] else Of(init, pid, tier)
  {
    TierTold(events[|events| - 1].kind, tier);
    hide TierOf, KindIn;
  }

  /** Approvals first, then one need for each assigned task. */
  predicate NeedsTold(x: Inputs, pid: string, needs: seq<Need>) {
    var waits := pid in x.awaiting && x.awaiting[pid] > 0;
    var work := if pid in x.ownedWork then x.ownedWork[pid] else [];
    var first := if waits then 1 else 0;
    && |needs| == first + |work|
    && (waits ==> needs[0] == Approvals(x.awaiting[pid]))
    && forall i :: 0 <= i < |work| ==> needs[first + i] == AssignedTo(work[i])
  }

  /** The group says exactly what there is to say of its project. */
  ghost predicate GroupTold(x: Inputs, g: Group) {
    && NeedsTold(x, g.project, g.needs)
    && Lists(g.outcomes, x.events, g.project, Outcome)
    && Lists(g.stopped, x.events, g.project, Stopped)
    && g.routine == |AllIn(x.events, g.project, Routine)|
  }

  lemma NeedsAreTold(x: Inputs, pid: string)
    ensures NeedsTold(x, pid, Needs(x, pid))
  {
  }

  lemma GroupIsTold(x: Inputs, pid: string)
    requires Ordered(x.events)
    ensures GroupTold(x, GroupOf(x, x.events, pid)) && GroupOf(x, x.events, pid).project == pid
  {
    OfLists(x.events, pid, Outcome);
    OfLists(x.events, pid, Stopped);
    OfLists(x.events, pid, Routine);
    hide Of, Lists, AllIn;
    NeedsAreTold(x, pid);
    hide Needs, NeedsTold;
  }

  /** There is something to say of the project. */
  ghost predicate HasNews(x: Inputs, pid: string) {
    || (pid in x.awaiting && x.awaiting[pid] > 0)
    || (pid in x.ownedWork && x.ownedWork[pid] != [])
    || (pid != "" && exists e :: e in x.events && e.body.project == pid)
  }

  lemma BlankExactly(x: Inputs, pid: string)
    requires Ordered(x.events)
    ensures Blank(GroupOf(x, x.events, pid)) <==> !HasNews(x, pid)
  {
    var g := GroupOf(x, x.events, pid);
    GroupIsTold(x, pid);
    forall e | e in x.events && pid != "" && e.body.project == pid
      ensures e in g.outcomes || e in g.stopped || e in AllIn(x.events, pid, Routine)
    {
    }
    if g.routine > 0 {
      var e :| e in AllIn(x.events, pid, Routine);
    }
    if g.outcomes != [] { assert g.outcomes[0] in g.outcomes; }
    if g.stopped != [] { assert g.stopped[0] in g.stopped; }
    hide KindIn;
  }

  // ----- The whole view

  /** `groups` are the groups of the projects at the growing places `from` of the order. */
  ghost predicate GroupsAt(x: Inputs, order: seq<string>, groups: seq<Group>, from: seq<nat>) {
    && |from| == |groups|
    && (forall i :: 0 <= i < |from| ==> from[i] < |order| && groups[i].project == order[from[i]] && GroupTold(x, groups[i]))
    && (forall i, j :: 0 <= i < j < |from| ==> from[i] < from[j])
    && (forall k: nat :: k < |order| ==> (k in from <==> HasNews(x, order[k])))
  }

  lemma {:induction false} GroupsTold(x: Inputs, order: seq<string>) returns (from: seq<nat>)
    requires Ordered(x.events)
    ensures GroupsAt(x, order, GroupsOf(x, order), from)
  {
    if order == [] {
      from := [];
    } else {
      hide GroupOf, Blank, HasNews, GroupTold, GroupsAt;
      var n := |order| - 1;
      from := GroupsTold(x, order[..n]);
      GroupIsTold(x, order[n]);
      BlankExactly(x, order[n]);
      GroupsOn(x, order, GroupsOf(x, order[..n]), from, GroupOf(x, x.events, order[n]));
      if HasNews(x, order[n]) { from := from + [n]; }
    }
  }

  lemma GroupsOn(x: Inputs, order: seq<string>, groups: seq<Group>, from: seq<nat>, g: Group)
    requires order != [] && GroupsAt(x, order[..|order| - 1], groups, from)
    requires GroupTold(x, g) && g.project == order[|order| - 1]
    ensures var n := |order| - 1;
      if HasNews(x, order[n]) then GroupsAt(x, order, groups + [g], from + [n]) else GroupsAt(x, order, groups, from)
  {
    hide HasNews, GroupTold;
    var n := |order| - 1;
    assert forall i :: 0 <= i < |from| ==> from[i] < n;
    assert n !in from;
    assert forall k: nat :: k < n ==> order[..n][k] == order[k];
  }

  /** The brief of any inputs: the cutoff is the last event fetched, and reviewing is offered exactly when that
      moves the boundary; a project of the order has a group exactly when there is something to say of it,
      in the order given; and each group says exactly that. */
  lemma BriefShows(x: Inputs) returns (from: seq<nat>)
    requires InputsOk(x)
    ensures var v := ViewOf(x);
      && v.shown == |x.events| && v.truncated == x.truncated
      && v.cutoff == (if x.events == [] then x.boundary else x.events[|x.events| - 1].id)
      && (forall e :: e in x.events ==> e.id <= v.cutoff)
      && (v.canReview <==> v.cutoff > x.boundary)
      && GroupsAt(x, x.order, v.groups, from)
  {
    hide GroupsAt;
    from := GroupsTold(x, x.order);
    forall e | e in x.events
      ensures e.id <= x.events[|x.events| - 1].id
    {
      var i :| 0 <= i < |x.events| && x.events[i] == e;
    }
  }

  // ----- The boundary

  lemma StepMoves(w: World, a: Action)
    ensures w.boundary <= Next(w, a).boundary && LastOr(0, w.log) <= LastOr(0, Next(w, a).log)
    ensures Next(w, a).boundary != w.boundary ==> a == Post(Next(w, a).boundary)
    ensures a.Post? && 0 < a.cutoff <= LastOr(0, w.log) ==> a.cutoff <= Next(w, a).boundary
  {
  }

  /** Over every run the boundary only moves forward, only to a value that was posted, and past every posted
      value that lies within the log. */
  lemma {:induction false} BoundaryIsPosted(w: World, actions: seq<Action>)
    ensures var b := Run(w, actions).boundary;
      && w.boundary <= b && (b == w.boundary || Post(b) in actions)
      && forall i :: 0 <= i < |actions| && actions[i].Post? && 0 < actions[i].cutoff <= LastOr(0, w.log) ==> actions[i].cutoff <= b
    decreases |actions|
  {
    hide Next;
    if actions != [] {
      StepMoves(w, actions[0]);
      BoundaryIsPosted(Next(w, actions[0]), actions[1..]);
      assert actions == [actions[0]] + actions[1..];
      assert forall i :: 0 < i < |actions| ==> actions[i] == actions[1..][i - 1];
    }
  }
}
