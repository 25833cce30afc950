/** Which second transactions there are: GitHub deliveries as the webhook records, asks to apply and redelivers
    them (`internal/hooks/github.go`, `RecordEventThenApply` of `internal/store/events.go`), and the replayer
    (`internal/hooks/replay.go`), beside a progress stream that holds back before the unapplied ones. */
module Webhooks {
  import opened Text
  import opened EventLog
  import opened ProgressFrames

  /** `rows` is the unique key of GitHub events: the position of each delivery in the log. `asked` are the
      deliveries whose second transaction is still to commit or fail. */
  datatype Hooks = Hooks(w: World, rows: map<string, nat>, asked: set<string>)

  /** `mapped` is whether a project maps the delivery's repository at that time. */
  datatype Step =
    | Webhook(delivery: string, id: nat, kind: string, touch: Touch, at: int, mapped: bool)
    | Commit(delivery: string, touch: Touch)
    | Fail(delivery: string)
    | Replay(delivery: string, touch: Touch, mapped: bool)
    | Other(e: Entry)
    | Look

  /** An unmapped repository's delivery is recorded as ignored. */
  function KindOf(kind: string, mapped: bool): string {
    if mapped then kind else kind + ".ignored"
  }

  predicate Ignored(e: Entry) {
    |e.kind| >= 8 && e.kind[|e.kind| - 8..] == ".ignored"
  }

  function Arrived(s: Step): Entry
    requires s.Webhook?
  {
    Event(s.id, KindOf(s.kind, s.mapped), Body("github", false, s.at, s.touch))
  }

  /** The first transaction inserts a delivery that is new. */
  predicate Inserts(h: Hooks, s: Step) {
    s.Webhook? && s.delivery !in h.rows && LastOr(0, h.w.log) < s.id
  }

  /** The apply of a delivery's row: the kind is the type's and stays. */
  function ApplyOf(h: Hooks, delivery: string, touch: Touch): Option<Action> {
    if delivery in h.rows && h.rows[delivery] < |h.w.log|
    then Some(Apply(h.rows[delivery], touch.(kind := h.w.log[h.rows[delivery]].body.touch.kind)))
    else None
  }

  /** What a step does to the log or the stream. */
  function ActionOf(h: Hooks, s: Step): Option<Action> {
    match s
    case Webhook(_, _, _, _, _, _) => if Inserts(h, s) then Some(Grow(Arrived(s))) else None
    case Commit(delivery, touch) => if delivery in h.asked then ApplyOf(h, delivery, touch) else None
    case Fail(_) => None
    case Replay(delivery, touch, mapped) => if mapped then ApplyOf(h, delivery, touch) else None
    case Other(e) => if e.body.source != "github" then Some(Grow(e)) else None
    case Look => Some(Poll)
  }

  /** An apply is asked for by a delivery that is mapped now and whose row, however it was recorded, has not
      been applied yet. */
  predicate Asks(h: Hooks, s: Step) {
    && s.Webhook? && s.mapped
    && (Inserts(h, s)
        || (s.delivery in h.rows && h.rows[s.delivery] < |h.w.log| && !h.w.log[h.rows[s.delivery]].body.applied))
  }

  function Steps(h: Hooks, s: Step): Hooks {
    Hooks(if ActionOf(h, s).Some? then Next(h.w, ActionOf(h, s).value) else h.w,
          if Inserts(h, s) then h.rows[s.delivery := |h.w.log|] else h.rows,
          if Asks(h, s) then h.asked + {s.delivery}
          else if s.Commit? || s.Fail? then h.asked - {s.delivery}
          else h.asked)
  }

  function RunSteps(h: Hooks, steps: seq<Step>): Hooks
    decreases |steps|
  {
    if steps == [] then h else RunSteps(Steps(h, steps[0]), steps[1..])
  }

  /** Each delivery has its own row. */
  ghost predicate HooksOk(h: Hooks) {
    && (forall d :: d in h.rows ==> h.rows[d] < |h.w.log|)
    && (forall d, e :: d in h.rows && e in h.rows && h.rows[d] == h.rows[e] ==> d == e)
  }

  lemma NextLength(w: World, a: Action)
    ensures |Next(w, a).log| >= |w.log| && w.consumed <= Next(w, a).consumed
    ensures a.Grow? && LastOr(0, w.log) < a.e.id ==> Next(w, a).log == w.log + [a.e]
  {
    hide ListEvents, Ready;
  }

  lemma StepsKeep(h: Hooks, s: Step)
    requires HooksOk(h)
    ensures HooksOk(Steps(h, s)) && h.w.consumed <= Steps(h, s).w.consumed
    ensures forall d :: d in h.rows ==> d in Steps(h, s).rows && Steps(h, s).rows[d] == h.rows[d]
  {
    hide Next;
    if ActionOf(h, s).Some? { NextLength(h.w, ActionOf(h, s).value); }
  }

  // ----- When the stream moves on

  /** The delivery's apply runs: a second transaction that was asked for commits, or a replay while mapped. */
  predicate Frees(delivery: string, asked: bool, s: Step) {
    || (s.Commit? && s.delivery == delivery && asked)
    || (s.Replay? && s.delivery == delivery && s.mapped)
  }

  /** It is asked for by any delivery under its id while the repository is mapped. */
  predicate AskedAfter(delivery: string, asked: bool, s: Step) {
    match s
    case Webhook(d, _, _, _, _, mapped) => asked || (d == delivery && mapped)
    case Commit(d, _) => asked && d != delivery
    case Fail(d) => asked && d != delivery
    case _ => asked
  }

  predicate FreedAndLooked(delivery: string, asked: bool, steps: seq<Step>)
    decreases |steps|
  {
    steps != [] &&
    if Frees(delivery, asked, steps[0]) then Look in steps[1..]
    else FreedAndLooked(delivery, AskedAfter(delivery, asked, steps[0]), steps[1..])
  }

  /** The held delivery is next, and stays so. */
  lemma StuckHooks(h: Hooks, d: string, s: Step)
    requires HooksOk(h) && d in h.rows && StuckAt(h.w, h.rows[d]) && !Frees(d, d in h.asked, s)
    ensures var h' := Steps(h, s);
      && StuckAt(h'.w, h.rows[d]) && h'.w.consumed == h.w.consumed
      && (d in h'.asked <==> AskedAfter(d, d in h.asked, s))
  {
    assert !h.w.log[h.rows[d]].body.applied;
    hide StuckAt, Next;
    if ActionOf(h, s).Some? { StuckSteps(h.w, h.rows[d], ActionOf(h, s).value); }
  }

  lemma FreedHooks(h: Hooks, d: string, s: Step)
    requires HooksOk(h) && d in h.rows && StuckAt(h.w, h.rows[d]) && Frees(d, d in h.asked, s)
    ensures FreeAt(Steps(h, s).w) && Steps(h, s).w.consumed == h.w.consumed
  {
    StuckFreed(h.w, h.rows[d], ActionOf(h, s).value);
  }

  lemma FreeHooks(h: Hooks, s: Step)
    requires HooksOk(h) && FreeAt(h.w)
    ensures s.Look? ==> Steps(h, s).w.consumed != h.w.consumed
    ensures !s.Look? ==> FreeAt(Steps(h, s).w) && Steps(h, s).w.consumed == h.w.consumed
  {
    hide FreeAt, Next;
    if ActionOf(h, s).Some? { FreeSteps(h.w, ActionOf(h, s).value); }
  }

  lemma {:induction false} RunConsumes(h: Hooks, steps: seq<Step>)
    requires HooksOk(h)
    ensures h.w.consumed <= RunSteps(h, steps).w.consumed
    decreases |steps|
  {
    hide Steps, HooksOk;
    if steps != [] {
      StepsKeep(h, steps[0]);
      RunConsumes(Steps(h, steps[0]), steps[1..]);
    }
  }

  lemma {:induction false} FreeUntilLooked(h: Hooks, steps: seq<Step>)
    requires HooksOk(h) && FreeAt(h.w)
    ensures RunSteps(h, steps).w.consumed == h.w.consumed <==> Look !in steps
    decreases |steps|
  {
    hide Steps, FreeAt, HooksOk;
    if steps != [] {
      assert steps == [steps[0]] + steps[1..];
      FreeHooks(h, steps[0]);
      StepsKeep(h, steps[0]);
      if steps[0].Look? {
        RunConsumes(Steps(h, Look), steps[1..]);
      } else {
        FreeUntilLooked(Steps(h, steps[0]), steps[1..]);
      }
    }
  }

  /** With a held delivery next, the stream stands still exactly as long as no apply of it runs and the stream
      looks after that: no delivery under its id arrives while its repository is mapped and is then applied,
      and no replay runs while it is mapped. */
  lemma {:induction false} StandsStillUntilApplied(h: Hooks, d: string, steps: seq<Step>)
    requires HooksOk(h) && d in h.rows && StuckAt(h.w, h.rows[d])
    ensures RunSteps(h, steps).w.consumed == h.w.consumed <==> !FreedAndLooked(d, d in h.asked, steps)
    decreases |steps|
  {
    hide Steps, StuckAt, FreeAt, HooksOk, Frees, AskedAfter;
    if steps != [] {
      StepsKeep(h, steps[0]);
      if Frees(d, d in h.asked, steps[0]) {
        FreedHooks(h, d, steps[0]);
        FreeUntilLooked(Steps(h, steps[0]), steps[1..]);
      } else {
        StuckHooks(h, d, steps[0]);
        StandsStillUntilApplied(Steps(h, steps[0]), d, steps[1..]);
      }
    }
  }

  // ----- An ignored delivery

  /** Its repository is not mapped whenever it is delivered again or replayed. */
  predicate StaysUnmapped(d: string, steps: seq<Step>) {
    forall i :: 0 <= i < |steps| ==> !((steps[i].Webhook? || steps[i].Replay?) && steps[i].delivery == d && steps[i].mapped)
  }

  lemma {:induction false} NeverAsked(d: string, steps: seq<Step>)
    requires StaysUnmapped(d, steps)
    ensures !FreedAndLooked(d, false, steps)
    decreases |steps|
  {
    if steps != [] {
      assert forall i :: 0 <= i < |steps[1..]| ==> steps[1..][i] == steps[i + 1];
      NeverAsked(d, steps[1..]);
    }
  }

  /** As long as its repository stays unmapped, an ignored pr or ci delivery holds the stream: whatever else
      is recorded, applied, redelivered or replayed, nothing is consumed any more. */
  lemma UnmappedHolds(h: Hooks, d: string, steps: seq<Step>)
    requires HooksOk(h) && d in h.rows && StuckAt(h.w, h.rows[d]) && d !in h.asked && StaysUnmapped(d, steps)
    ensures RunSteps(h, steps).w.consumed == h.w.consumed
  {
    NeverAsked(d, steps);
    StandsStillUntilApplied(h, d, steps);
  }

  /** Once the repository is mapped, a redelivery frees it, whatever type the row was recorded with. */
  lemma MappedRedeliveryFrees(h: Hooks, again: Step, touch: Touch)
    requires HooksOk(h) && again.Webhook? && again.mapped
    requires again.delivery in h.rows && StuckAt(h.w, h.rows[again.delivery])
    ensures RunSteps(h, [again, Commit(again.delivery, touch), Look]).w.consumed != h.w.consumed
  {
    var d, steps := again.delivery, [again, Commit(again.delivery, touch), Look];
    assert steps[1..] == [Commit(d, touch), Look] && steps[1..][1..] == [Look];
    assert FreedAndLooked(d, true, steps[1..]);
    hide RunSteps, StuckAt, HooksOk;
    StandsStillUntilApplied(h, d, steps);
  }

  /** One ignored pull-request delivery is recorded, nothing has been asked for, and the stream is stuck. */
  lemma IgnoredSticks(d: string, id: nat, at: int)
    requires id > 0
    ensures var h := Steps(Hooks(World([], 0, []), map[], {}),
                           Webhook(d, id, "pull_request.opened", Touch("pr", "", [], 0, ""), at, false));
      && HooksOk(h) && d in h.rows && h.rows[d] == 0 && d !in h.asked
      && StuckAt(h.w, 0) && Ignored(h.w.log[0])
  {
    var kind := KindOf("pull_request.opened", false);
    var e := Event(id, kind, Body("github", false, at, Touch("pr", "", [], 0, "")));
    AloneInLog(e);
    assert kind[|kind| - 8..] == ".ignored";
    assert [] + [e] == [e];
  }
}
