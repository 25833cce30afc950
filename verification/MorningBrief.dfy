/** The Morning Brief of `internal/api/morningbrief.go`: fetching what happened since the boundary, grouping
    it by project, and reviewing forward in steps. */
module MorningBrief {
  import opened Text
  import opened EventLog

  const MORNING_BRIEF_EVENT_CAP: nat := 2000

  /** `project` is what `morningBriefProject` attributes the event to, `""` when nothing. */
  datatype Body = Body(project: string)

  type Entry = Event<Body>

  // ----- Fetching

  /** Query `i` sees `logs[i]`. The result is the first cap-many events past `after` of the log the last
      query saw, and `truncated` says exactly whether that log holds more. */
  method BriefEventsSince(logs: seq<seq<Entry>>, after: nat) returns (events: seq<Entry>, truncated: bool, queries: nat)
    requires Growing(logs) && |logs| > MORNING_BRIEF_EVENT_CAP / MAX_EVENT_LIST_LIMIT
    ensures 0 < queries <= |logs|
    ensures var all := Matching(logs[queries - 1], after, "");
      events == (if |all| <= 2000 then all else all[..2000]) && (truncated <==> |all| > 2000)
  {
    hide Matching;
    events, queries := [], 0;
    var cursor := after;
    while |events| < MORNING_BRIEF_EVENT_CAP
      invariant |events| == queries * MAX_EVENT_LIST_LIMIT <= MORNING_BRIEF_EVENT_CAP
      invariant queries > 0 ==> events <= Matching(logs[queries - 1], after, "")
      invariant cursor == LastOr(after, events)
      decreases MORNING_BRIEF_EVENT_CAP - |events|
    {
      var limit := MORNING_BRIEF_EVENT_CAP - |events|;
      if limit > MAX_EVENT_LIST_LIMIT { limit := MAX_EVENT_LIST_LIMIT; }
      ghost var all := Matching(logs[queries], after, "");
      SeenSoFar(logs, queries, after, events);
      var page := ListEvents(logs[queries], cursor, "", limit);
      queries := queries + 1;
      if |page| == 0 {
        return events, false, queries;
      }
      events := events + page;
      cursor := page[|page| - 1].id;
      if |page| < limit {
        return events, false, queries;
      }
    }
    ghost var all := Matching(logs[queries], after, "");
    SeenSoFar(logs, queries, after, events);
    var more := ListEvents(logs[queries], cursor, "", 1);
    queries := queries + 1;
    truncated := |more| > 0;
    assert all == events + all[|events|..];
  }

  /** What has been read is a prefix of what the next query's log holds, and the cursor stands behind it. */
  lemma SeenSoFar(logs: seq<seq<Entry>>, q: nat, after: nat, events: seq<Entry>)
    requires Growing(logs) && q < |logs|
    requires q > 0 ==> events <= Matching(logs[q - 1], after, "")
    requires q == 0 ==> events == []
    ensures events <= Matching(logs[q], after, "")
    ensures Matching(logs[q], LastOr(after, events), "") == Matching(logs[q], after, "")[|events|..]
  {
    var all := Matching(logs[q], after, "");
    if q > 0 { PrefixSeen(logs[q - 1], logs[q], after, ""); }
    Resume(logs[q], after, "", |events|);
    assert all[..|events|] == events;
  }

  // ----- Reviewing forward

  /** What a fetch shows, and the cutoff the page offers for review. */
  function Shown(log: seq<Entry>, boundary: nat): seq<Entry> {
    Page(Matching(log, boundary, ""), MORNING_BRIEF_EVENT_CAP)
  }

  /** The events shown by rounds of fetching and reviewing what was shown; round `i` sees `logs[i]`. */
  function Rounds(logs: seq<seq<Entry>>, boundary: nat): seq<Entry>
    decreases |logs|
  {
    if logs == [] then []
    else
      var shown := Shown(logs[0], boundary);
      shown + Rounds(logs[1..], LastOr(boundary, shown))
  }

  /** The page of the last round. */
  function LastPage(logs: seq<seq<Entry>>, boundary: nat): seq<Entry>
    requires logs != []
    decreases |logs|
  {
    var shown := Shown(logs[0], boundary);
    if |logs| == 1 then shown else LastPage(logs[1..], LastOr(boundary, shown))
  }

  /** Fetch-and-review rounds over a growing log show each event past the boundary at most once, in order and
      without a gap: what was shown is a prefix of the matching log. Each round shows a full page of it or
      catches up, so the prefix covers at least that many pages of the log the first round saw, and all of
      the log when the last page is not full. */
  lemma {:induction false} RoundsShowAllOnce(logs: seq<seq<Entry>>, boundary: nat)
    requires Growing(logs) && logs != []
    ensures var shown, all := Rounds(logs, boundary), Matching(logs[|logs| - 1], boundary, "");
      && shown <= all
      && Page(Matching(logs[0], boundary, ""), |logs| * MORNING_BRIEF_EVENT_CAP) <= shown
      && (|LastPage(logs, boundary)| < MORNING_BRIEF_EVENT_CAP ==> shown == all)
    decreases |logs|
  {
    hide Matching;
    var n := |logs| - 1;
    var shown := Shown(logs[0], boundary);
    var first, all := Matching(logs[0], boundary, ""), Matching(logs[n], boundary, "");
    if n == 0 {
      assert Rounds(logs[1..], LastOr(boundary, shown)) == [];
      assert Rounds(logs, boundary) == shown;
    } else {
      var later := logs[1..];
      assert later[|later| - 1] == logs[n] && later[0] == logs[1];
      RoundsShowAllOnce(later, LastOr(boundary, shown));
      var rest := Rounds(later, LastOr(boundary, shown));
      assert Rounds(logs, boundary) == shown + rest;
      hide Rounds, LastPage;
      MatchingGrows(logs, boundary);
      AfterShown(logs[n], boundary, first, shown);
      PrefixSeen(logs[0], logs[1], boundary, "");
      AfterShown(logs[1], boundary, first, shown);
      var second := Matching(logs[1], boundary, "");
      RoundsReach(first, second, shown, rest, n * MORNING_BRIEF_EVENT_CAP);
      PrefixAfter(shown, rest, all);
    }
  }

  /** Reviewing a page leaves exactly the events after it. */
  lemma AfterShown(log: seq<Entry>, boundary: nat, first: seq<Entry>, shown: seq<Entry>)
    requires Ordered(log) && first <= Matching(log, boundary, "") && shown == Page(first, MORNING_BRIEF_EVENT_CAP)
    ensures |shown| <= |Matching(log, boundary, "")| && Matching(log, boundary, "")[..|shown|] == shown
    ensures Matching(log, LastOr(boundary, shown), "") == Matching(log, boundary, "")[|shown|..]
  {
    var all := Matching(log, boundary, "");
    assert all[..|first|] == first;
    assert all[..|shown|] == shown;
    Resume(log, boundary, "", |shown|);
  }

  lemma PrefixAfter(shown: seq<Entry>, rest: seq<Entry>, all: seq<Entry>)
    requires |shown| <= |all| && all[..|shown|] == shown && rest <= all[|shown|..]
    ensures shown + rest <= all && (rest == all[|shown|..] ==> shown + rest == all)
  {
    assert all == shown + all[|shown|..];
  }

  /** A full page, then at least `n` more of what was there, or everything. */
  lemma RoundsReach(first: seq<Entry>, second: seq<Entry>, shown: seq<Entry>, rest: seq<Entry>, n: nat)
    requires first <= second && shown == Page(first, MORNING_BRIEF_EVENT_CAP)
    requires |shown| <= |second| && Page(second[|shown|..], n) <= rest
    ensures Page(first, n + MORNING_BRIEF_EVENT_CAP) <= shown + rest
  {
    var want := Page(first, n + MORNING_BRIEF_EVENT_CAP);
    assert second[..|first|] == first;
    if |first| > MORNING_BRIEF_EVENT_CAP {
      assert want == shown + want[|shown|..];
      assert want[|shown|..] <= Page(second[|shown|..], n);
    }
  }

  lemma {:induction false} MatchingGrows(logs: seq<seq<Entry>>, boundary: nat)
    requires Growing(logs) && logs != []
    ensures Matching(logs[0], boundary, "") <= Matching(logs[|logs| - 1], boundary, "")
    decreases |logs|
  {
    var n := |logs| - 1;
    if n > 0 {
      MatchingGrows(logs[..n], boundary);
      PrefixSeen(logs[n - 1], logs[n], boundary, "");
    }
  }

  /** Open pages hold the cutoff they were shown with. */
  datatype World = World(log: seq<Entry>, boundary: nat, pages: seq<nat>, seen: set<Entry>)

  /** `Post` is any form submission: a page's own cutoff, or a made-up value. */
  datatype Action = Grow(e: Entry) | Fetch | Post(cutoff: int)

  function HorizonId(log: seq<Entry>): nat {
    LastOr(0, log)
  }

  function Next(w: World, a: Action): World {
    match a
    case Grow(e) => if HorizonId(w.log) < e.id then w.(log := w.log + [e]) else w
    case Fetch =>
      var shown := Shown(w.log, w.boundary);
      w.(pages := w.pages + [LastOr(w.boundary, shown)], seen := w.seen + set e | e in shown)
    case Post(cutoff) =>
      if cutoff <= 0 || cutoff > HorizonId(w.log) then w
      else w.(boundary := if cutoff > w.boundary then cutoff else w.boundary)
  }

  function Run(w: World, actions: seq<Action>): World
    decreases |actions|
  {
    if actions == [] then w else Run(Next(w, actions[0]), actions[1..])
  }

  /** Every event past `start` and up to `cutoff` has been on a page. */
  ghost predicate Covered(w: World, start: nat, cutoff: nat) {
    forall e: Entry :: e in w.log && start < e.id <= cutoff ==> e in w.seen
  }

  ghost predicate Inv(w: World, start: nat) {
    && Ordered(w.log) && start <= w.boundary && Covered(w, start, w.boundary)
    && w.boundary <= HorizonId(w.log)
    && forall i {:trigger w.pages[i]} :: 0 <= i < |w.pages| ==>
      w.pages[i] <= HorizonId(w.log) && Covered(w, start, w.pages[i])
  }

  /** Every posted cutoff came from a page shown before. */
  predicate Honest(w: World, actions: seq<Action>)
    decreases |actions|
  {
    actions == [] ||
    ((actions[0].Post? ==> actions[0].cutoff in w.pages) && Honest(Next(w, actions[0]), actions[1..]))
  }

  lemma FetchKeeps(w: World, start: nat)
    requires Inv(w, start)
    ensures Inv(Next(w, Fetch), start)
  {
    var shown, all := Shown(w.log, w.boundary), Matching(w.log, w.boundary, "");
    var w', cutoff := Next(w, Fetch), LastOr(w.boundary, shown);
    MatchingMembers(w.log, w.boundary, "");
    MatchingOrdered(w.log, w.boundary, "");
    forall e: Entry | e in w'.log && start < e.id <= cutoff
      ensures e in w'.seen
    {
      if e.id > w.boundary {
        assert Picks(e, w.boundary, "");
      }
    }
    if shown != [] {
      var last := shown[|shown| - 1];
      assert last in all && Picks(last, w.boundary, "");
    }
    forall i | 0 <= i < |w'.pages|
      ensures w'.pages[i] <= HorizonId(w'.log) && Covered(w', start, w'.pages[i])
    {
      if i < |w.pages| { assert w'.pages[i] == w.pages[i]; }
    }
  }

  /** As long as only cutoffs of shown pages are posted, in any order and from any stale page, the boundary
      never passes an event that was not on a page. */
  lemma NothingReviewedUnseen(log: seq<Entry>, start: nat, actions: seq<Action>)
    requires Ordered(log) && start <= HorizonId(log) && Honest(World(log, start, [], {}), actions)
    ensures var w := Run(World(log, start, [], {}), actions); start <= w.boundary && Covered(w, start, w.boundary)
  {
    RunKeeps(World(log, start, [], {}), start, actions);
  }

  lemma {:induction false} RunKeeps(w: World, start: nat, actions: seq<Action>)
    requires Inv(w, start) && Honest(w, actions)
    ensures Inv(Run(w, actions), start)
    decreases |actions|
  {
    if actions != [] {
      match actions[0] {
        case Grow(e) => 
        case Fetch => FetchKeeps(w, start);
        case Post(cutoff) => 
      }
      RunKeeps(Next(w, actions[0]), start, actions[1..]);
    }
  }

  // ----- Made-up cutoffs

  /** The largest cutoff a page offered, or the start. */
  function Offered(start: nat, pages: seq<nat>): nat {
    if pages == [] then start
    else
      var before, last := Offered(start, pages[..|pages| - 1]), pages[|pages| - 1];
      if last > before then last else before
  }

  lemma {:induction false} OfferedIsLargest(start: nat, pages: seq<nat>)
    ensures start <= Offered(start, pages) && forall i :: 0 <= i < |pages| ==> pages[i] <= Offered(start, pages)
    ensures Offered(start, pages) == start || Offered(start, pages) in pages
  {
    if pages != [] { OfferedIsLargest(start, pages[..|pages| - 1]); }
  }

  /** The handler's guard, and what it does not check: no recorded event lies past everything offered, up to
      the cutoff. */
  predicate Accepted(w: World, cutoff: int) {
    0 < cutoff <= HorizonId(w.log)
  }

  predicate Within(w: World, start: nat, cutoff: int) {
    forall i :: 0 <= i < |w.log| ==> !(Offered(start, w.pages) < w.log[i].id <= cutoff)
  }

  predicate Guarded(w: World, start: nat, a: Action) {
    a.Post? && Accepted(w, a.cutoff) ==> Within(w, start, a.cutoff)
  }

  predicate AllGuarded(w: World, start: nat, actions: seq<Action>)
    decreases |actions|
  {
    actions == [] || (Guarded(w, start, actions[0]) && AllGuarded(Next(w, actions[0]), start, actions[1..]))
  }

  /** While nothing was reviewed unseen: exactly the events up to what was offered have been on a page, and
      no recorded event lies between that and the boundary. */
  ghost predicate Clean(w: World, start: nat) {
    && Ordered(w.log) && start <= w.boundary <= HorizonId(w.log) && Offered(start, w.pages) <= HorizonId(w.log)
    && (forall e: Entry :: e in w.seen ==> start < e.id <= Offered(start, w.pages))
    && (forall e: Entry :: e in w.log && start < e.id <= Offered(start, w.pages) ==> e in w.seen)
    && (forall e: Entry :: e in w.log ==> !(Offered(start, w.pages) < e.id <= w.boundary))
  }

  /** An event was reviewed without having been on a page. */
  ghost predicate Missed(w: World, start: nat) {
    && Ordered(w.log) && start <= w.boundary <= HorizonId(w.log)
    && exists e: Entry :: e in w.log && start < e.id <= w.boundary && e !in w.seen
  }

  /** It never will be: fetches look past the boundary only. */
  lemma MissedForever(w: World, start: nat, a: Action)
    requires Missed(w, start)
    ensures Missed(Next(w, a), start)
  {
    var e: Entry :| e in w.log && start < e.id <= w.boundary && e !in w.seen;
    var w' := Next(w, a);
    if a.Fetch? {
      MatchingOrdered(w.log, w.boundary, "");
      assert e !in Shown(w.log, w.boundary);
    }
    assert e in w'.log && start < e.id <= w'.boundary && e !in w'.seen;
  }

  lemma CleanFetch(w: World, start: nat)
    requires Clean(w, start)
    ensures Clean(Next(w, Fetch), start)
  {
    var shown, all, w' := Shown(w.log, w.boundary), Matching(w.log, w.boundary, ""), Next(w, Fetch);
    var cutoff := LastOr(w.boundary, shown);
    MatchingMembers(w.log, w.boundary, "");
    MatchingOrdered(w.log, w.boundary, "");
    assert w'.pages[..|w.pages|] == w.pages;
    OfferedIsLargest(start, w.pages);
    ShownUpTo(w.log, w.boundary);
    forall e: Entry | e in w'.log && start < e.id <= Offered(start, w'.pages)
      ensures e in w'.seen
    {
      if e.id > Offered(start, w.pages) {
        assert e.id > w.boundary && Picks(e, w.boundary, "");
      }
    }
  }

  /** A page shows exactly the events past the boundary up to the cutoff it offers. */
  lemma ShownUpTo(log: seq<Entry>, boundary: nat)
    requires Ordered(log)
    ensures var shown, cutoff := Shown(log, boundary), LastOr(boundary, Shown(log, boundary));
      && boundary <= cutoff && (cutoff <= HorizonId(log) || cutoff == boundary)
      && (forall e: Entry :: e in shown ==> e in log && boundary < e.id <= cutoff)
      && (forall e: Entry :: e in log && boundary < e.id <= cutoff ==> e in shown)
  {
    var shown, all := Shown(log, boundary), Matching(log, boundary, "");
    MatchingMembers(log, boundary, "");
    MatchingOrdered(log, boundary, "");
    forall e: Entry | e in shown
      ensures e in log && boundary < e.id <= LastOr(boundary, shown)
    {
      assert e in all && Picks(e, boundary, "");
    }
    forall e: Entry | e in log && boundary < e.id <= LastOr(boundary, shown)
      ensures e in shown
    {
      assert Picks(e, boundary, "") && e in all;
      var i :| 0 <= i < |all| && all[i] == e;
    }
  }

  /** One post from a clean state: it covers exactly when no recorded event lies past everything offered, up
      to its cutoff, which the handler could check before it moves the boundary. */
  lemma PostCoversExactly(w: World, start: nat, cutoff: int)
    requires Clean(w, start)
    ensures var w' := Next(w, Post(cutoff));
      && (Covered(w', start, w'.boundary) <==> Guarded(w, start, Post(cutoff)))
      && (Guarded(w, start, Post(cutoff)) ==> Clean(w', start))
      && (!Guarded(w, start, Post(cutoff)) ==> Missed(w', start))
  {
    if Guarded(w, start, Post(cutoff)) {
      PostKeepsClean(w, start, cutoff);
      CleanCovers(Next(w, Post(cutoff)), start);
    } else {
      PostMisses(w, start, cutoff);
    }
  }

  lemma PostKeepsClean(w: World, start: nat, cutoff: int)
    requires Clean(w, start) && Guarded(w, start, Post(cutoff))
    ensures Clean(Next(w, Post(cutoff)), start)
  {
    var w', most := Next(w, Post(cutoff)), Offered(start, w.pages);
    assert w'.pages == w.pages && w'.log == w.log && w'.seen == w.seen;
    hide Offered, Ordered;
    forall e: Entry | e in w'.log
      ensures !(most < e.id <= w'.boundary)
    {
      var i :| 0 <= i < |w.log| && w.log[i] == e;
    }
  }

  lemma PostMisses(w: World, start: nat, cutoff: int)
    requires Clean(w, start) && !Guarded(w, start, Post(cutoff))
    ensures Missed(Next(w, Post(cutoff)), start)
    ensures !Covered(Next(w, Post(cutoff)), start, Next(w, Post(cutoff)).boundary)
  {
    var w', most := Next(w, Post(cutoff)), Offered(start, w.pages);
    OfferedIsLargest(start, w.pages);
    hide Offered, Ordered;
    var i :| 0 <= i < |w.log| && most < w.log[i].id <= cutoff;
    assert w.log[i] in w'.log && w.log[i] !in w'.seen;
  }

  /** Over every run of new events, fetches and posts of any value: everything reviewed was shown before
      exactly when no accepted post reached past a recorded event that no page had offered. */
  lemma ReviewedWasShownExactly(log: seq<Entry>, start: nat, actions: seq<Action>)
    requires Ordered(log) && start <= HorizonId(log)
    ensures var w0 := World(log, start, [], {});
      var w := Run(w0, actions);
      Covered(w, start, w.boundary) <==> AllGuarded(w0, start, actions)
  {
    CleanRuns(World(log, start, [], {}), start, actions);
  }

  lemma {:induction false} CleanRuns(w: World, start: nat, actions: seq<Action>)
    requires Clean(w, start)
    ensures var w' := Run(w, actions);
      && (AllGuarded(w, start, actions) ==> Clean(w', start) && Covered(w', start, w'.boundary))
      && (!AllGuarded(w, start, actions) ==> !Covered(w', start, w'.boundary))
    decreases |actions|
  {
    if actions == [] {
      CleanCovers(w, start);
    } else {
      hide Clean, Guarded, Covered, Missed;
      CleanStep(w, start, actions[0]);
      if Guarded(w, start, actions[0]) {
        CleanRuns(Next(w, actions[0]), start, actions[1..]);
      } else {
        MissedRuns(Next(w, actions[0]), start, actions[1..]);
      }
    }
  }

  lemma CleanCovers(w: World, start: nat)
    requires Clean(w, start)
    ensures Covered(w, start, w.boundary)
  {
  }

  lemma CleanStep(w: World, start: nat, a: Action)
    requires Clean(w, start)
    ensures Guarded(w, start, a) ==> Clean(Next(w, a), start)
    ensures !Guarded(w, start, a) ==> Missed(Next(w, a), start)
  {
    match a
    case Grow(e) => 
    case Fetch => CleanFetch(w, start);
    case Post(cutoff) => PostCoversExactly(w, start, cutoff);
  }

  lemma {:induction false} MissedRuns(w: World, start: nat, actions: seq<Action>)
    requires Missed(w, start)
    ensures !Covered(Run(w, actions), start, Run(w, actions).boundary)
    decreases |actions|
  {
    if actions != [] {
      MissedForever(w, start, actions[0]);
      MissedRuns(Next(w, actions[0]), start, actions[1..]);
    }
  }

  /** Nothing was ever fetched, and an event is reviewed. */
  lemma UnseenCanBeReviewed(e: Entry)
    requires e.id > 0
    ensures var w := Run(World([e], 0, [], {}), [Post(e.id)]); w.boundary == e.id && !Covered(w, 0, w.boundary)
  {
    var w0 := World([e], 0, [], {});
    var w := Next(w0, Post(e.id));
    assert [Post(e.id)][1..] == [] && Run(w0, [Post(e.id)]) == Run(w, []);
    assert e in w.log;
  }

  // ----- Grouping

  datatype Tier = Outcome | Stopped | Routine

  /** Unknown types are routine. */
  function TierOf(kind: string): Tier {
    if kind in ["task.stopped", "task.abandoned", "lease.expired", "runtime.crashloop", "runtime.oom",
                "runtime.flux_failure"] then Stopped
    else if kind in ["wl:DocumentSubmitted", "wl:DocumentAccepted", "task.done", "task.reopened",
                     "deliverable.created", "approval.decided", "crew.member_added", "crew.member_removed",
                     "issue.promoted", "runtime.flux_recovery"] then Outcome
    else Routine
  }

  datatype Need = Approvals(n: int) | AssignedTo(work: string)

  datatype Group = Group(project: string, needs: seq<Need>, outcomes: seq<Entry>, stopped: seq<Entry>, routine: nat)

  datatype View = View(cutoff: nat, canReview: bool, truncated: bool, shown: nat, groups: seq<Group>)

  datatype Inputs = Inputs(events: seq<Entry>, truncated: bool, boundary: nat, order: seq<string>,
                           awaiting: map<string, int>, ownedWork: map<string, seq<string>>)

  /** The project ids of the Home cards, each once. */
  predicate InputsOk(x: Inputs) {
    Ordered(x.events) && forall i, j :: 0 <= i < j < |x.order| ==> x.order[i] != x.order[j]
  }

  function Needs(x: Inputs, pid: string): seq<Need> {
    (if pid in x.awaiting && x.awaiting[pid] > 0 then [Approvals(x.awaiting[pid])] else []) +
    (if pid in x.ownedWork then WorkNeeds(x.ownedWork[pid]) else [])
  }

  function WorkNeeds(work: seq<string>): seq<Need> {
    seq(|work|, i requires 0 <= i < |work| => AssignedTo(work[i]))
  }

  predicate HasState(x: Inputs) {
    (exists pid :: pid in x.awaiting && x.awaiting[pid] > 0) || (exists pid :: pid in x.ownedWork && x.ownedWork[pid] != [])
  }

  /** The events of a project in one tier, in id order. */
  function Of(events: seq<Entry>, pid: string, tier: Tier): seq<Entry> {
    if events == [] then []
    else
      var init, last := Of(events[..|events| - 1], pid, tier), events[|events| - 1];
      if last.body.project == pid && pid != "" && TierOf(last.kind) == tier then init + [last] else init
  }

  function GroupOf(x: Inputs, events: seq<Entry>, pid: string): Group {
    Group(pid, Needs(x, pid), Of(events, pid, Outcome), Of(events, pid, Stopped), |Of(events, pid, Routine)|)
  }

  predicate Blank(g: Group) {
    g.needs == [] && g.outcomes == [] && g.stopped == [] && g.routine == 0
  }

  /** The groups in order, blank ones left out. */
  function GroupsOf(x: Inputs, order: seq<string>): seq<Group> {
    if order == [] then []
    else
      var init, last := GroupsOf(x, order[..|order| - 1]), GroupOf(x, x.events, order[|order| - 1]);
      if Blank(last) then init else init + [last]
  }

  function ViewOf(x: Inputs): View {
    var cutoff := LastOr(x.boundary, x.events);
    View(cutoff, cutoff > x.boundary, x.truncated, |x.events|, GroupsOf(x, x.order))
  }

  // ----- What the groups count

  function Counted(g: Group): nat {
    |g.outcomes| + |g.stopped| + g.routine
  }

  function CountedAll(groups: seq<Group>): nat {
    if groups == [] then 0 else CountedAll(groups[..|groups| - 1]) + Counted(groups[|groups| - 1])
  }

  /** The events attributed to one of the projects. */
  function AttributedTo(events: seq<Entry>, order: seq<string>): nat {
    if events == [] then 0
    else
      var pid := events[|events| - 1].body.project;
      AttributedTo(events[..|events| - 1], order) + if pid != "" && pid in order then 1 else 0
  }

  lemma {:induction false} CountedOnce(x: Inputs, events: seq<Entry>, pid: string)
    ensures Counted(GroupOf(x, events, pid)) == AttributedTo(events, [pid])
  {
    if events != [] { CountedOnce(x, events[..|events| - 1], pid); }
  }

  lemma {:induction false} AttributedSplit(events: seq<Entry>, order: seq<string>, pid: string)
    requires pid !in order
    ensures AttributedTo(events, order + [pid]) == AttributedTo(events, order) + AttributedTo(events, [pid])
  {
    if events != [] { AttributedSplit(events[..|events| - 1], order, pid); }
  }

  lemma {:induction false} NoneAttributed(events: seq<Entry>)
    ensures AttributedTo(events, []) == 0
  {
    if events != [] { NoneAttributed(events[..|events| - 1]); }
  }

  /** The groups of the brief count every event attributed to a listed project exactly once. */
  lemma {:induction false} BriefConserves(x: Inputs, order: seq<string>)
    requires forall i, j :: 0 <= i < j < |order| ==> order[i] != order[j]
    ensures CountedAll(GroupsOf(x, order)) == AttributedTo(x.events, order)
  {
    if order == [] {
      NoneAttributed(x.events);
    } else {
      var init, pid := order[..|order| - 1], order[|order| - 1];
      BriefConserves(x, init);
      AttributedSplit(x.events, init, pid);
      assert init + [pid] == order;
      CountedOnce(x, x.events, pid);
    }
  }

  // ----- The code itself

  function GroupAt(groups: map<string, Group>, pid: string): Group {
    if pid in groups then groups[pid] else Group(pid, [], [], [], 0)
  }

  method AnyState(x: Inputs) returns (hasState: bool)
    ensures hasState == HasState(x)
  {
    hasState := false;
    var todo := x.awaiting.Keys;
    while todo != {} && !hasState
      invariant todo <= x.awaiting.Keys
      invariant hasState ==> HasState(x)
      invariant !hasState ==> forall pid :: pid in x.awaiting && pid !in todo ==> x.awaiting[pid] <= 0
      decreases todo
    {
      var pid :| pid in todo;
      todo := todo - {pid};
      hasState := x.awaiting[pid] > 0;
    }
    if !hasState {
      todo := x.ownedWork.Keys;
      while todo != {} && !hasState
        invariant todo <= x.ownedWork.Keys
        invariant hasState ==> HasState(x)
        invariant !hasState ==> forall pid :: pid in x.awaiting ==> x.awaiting[pid] <= 0
        invariant !hasState ==> forall pid :: pid in x.ownedWork && pid !in todo ==> x.ownedWork[pid] == []
        decreases todo
      {
        var pid :| pid in todo;
        todo := todo - {pid};
        hasState := |x.ownedWork[pid]| > 0;
      }
    }
  }

  /** Nothing to show: no open state anywhere and no events. */
  method AssembleMorningBrief(x: Inputs) returns (view: Option<View>)
    requires InputsOk(x)
    ensures view == if HasState(x) || x.events != [] then Some(ViewOf(x)) else None
  {
    hide HasState, Needs, Of;
    var hasState := AnyState(x);
    if !hasState && |x.events| == 0 {
      return None;
    }
    var cutoff := x.boundary;
    if |x.events| > 0 { cutoff := x.events[|x.events| - 1].id; }
    var groups := NeedGroups(x);
    forall pid | pid in x.order
      ensures GroupAt(groups, pid) == GroupOf(x, x.events[..0], pid)
    {
      assert x.events[..0] == [];
      NoEventsGrouped(x, pid);
    }
    for i := 0 to |x.events|
      invariant forall pid :: pid in x.order ==> GroupAt(groups, pid) == GroupOf(x, x.events[..i], pid)
    {
      groups := AddEvent(x, groups, i);
    }
    assert x.events[..|x.events|] == x.events;
    var out: seq<Group> := [];
    for i := 0 to |x.order|
      invariant out == GroupsOf(x, x.order[..i])
    {
      var pid := x.order[i];
      assert x.order[..i + 1][..i] == x.order[..i];
      assert GroupAt(groups, pid) == GroupOf(x, x.events, pid);
      if pid !in groups || Blank(groups[pid]) { continue; }
      out := out + [groups[pid]];
    }
    assert x.order[..|x.order|] == x.order;
    return Some(View(cutoff, cutoff > x.boundary, x.truncated, |x.events|, out));
  }

  method NeedsOf(x: Inputs, pid: string) returns (needs: seq<Need>)
    ensures needs == Needs(x, pid)
  {
    needs := [];
    if pid in x.awaiting && x.awaiting[pid] > 0 {
      needs := [Approvals(x.awaiting[pid])];
    }
    if pid in x.ownedWork {
      ghost var before := needs;
      var work := x.ownedWork[pid];
      for j := 0 to |work|
        invariant needs == before + WorkNeeds(work[..j])
      {
        assert WorkNeeds(work[..j + 1]) == WorkNeeds(work[..j]) + [AssignedTo(work[j])];
        needs := needs + [AssignedTo(work[j])];
      }
      assert work[..|work|] == work;
    }
  }

  lemma NoEventsGrouped(x: Inputs, pid: string)
    ensures GroupOf(x, [], pid) == Group(pid, Needs(x, pid), [], [], 0)
  {
  }

  method NeedGroups(x: Inputs) returns (groups: map<string, Group>)
    requires InputsOk(x)
    ensures forall pid :: GroupAt(groups, pid) == Group(pid, if pid in x.order then Needs(x, pid) else [], [], [], 0)
  {
    hide Needs;
    groups := map[];
    for i := 0 to |x.order|
      invariant forall pid :: GroupAt(groups, pid) == Group(pid, if pid in x.order[..i] then Needs(x, pid) else [], [], [], 0)
    {
      var pid := x.order[i];
      assert pid !in x.order[..i];
      var needs := NeedsOf(x, pid);
      if needs != [] { groups := groups[pid := Group(pid, needs, [], [], 0)]; }
      assert x.order[..i + 1] == x.order[..i] + [pid];
    }
    assert x.order[..|x.order|] == x.order;
  }

  method AddEvent(x: Inputs, groups: map<string, Group>, i: nat) returns (groups': map<string, Group>)
    requires i < |x.events|
    requires forall pid :: pid in x.order ==> GroupAt(groups, pid) == GroupOf(x, x.events[..i], pid)
    ensures forall pid :: pid in x.order ==> GroupAt(groups', pid) == GroupOf(x, x.events[..i + 1], pid)
  {
    hide Needs, TierOf;
    var e := x.events[i];
    var pid := e.body.project;
    groups' := groups;
    assert x.events[..i + 1][..i] == x.events[..i] && x.events[..i + 1][i] == e;
    if pid == "" || pid !in x.order { return; }
    var g := GroupAt(groups, pid);
    match TierOf(e.kind)
    case Outcome => groups' := groups[pid := g.(outcomes := g.outcomes + [e])];
    case Stopped => groups' := groups[pid := g.(stopped := g.stopped + [e])];
    case Routine => groups' := groups[pid := g.(routine := g.routine + 1)];
  }
}
