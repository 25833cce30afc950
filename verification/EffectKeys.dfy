/** Effects recorded at most once under at-least-once delivery: the external ids of the document lifecycle
    subscriber (`internal/api/docwatch.go`) and the spec reconciler (`internal/api/gate.go`) on the event
    table's unique key. */
module EffectKeys {
  import opened Text

  // ----- External ids

  /** What a recorded effect is the effect of. Every one is recorded under the source "watcher". */
  datatype Identity =
    | OfRule(rule: string, event: nat)
    | OfNote(event: nat)
    | OfLink(task: string, ruleId: nat)

  function ExternalId(id: Identity): string {
    match id
    case OfRule(rule, event) => "doc-lifecycle:" + rule + ":" + Decimal(event)
    case OfNote(event) => "doc-lifecycle:note:" + Decimal(event)
    case OfLink(task, ruleId) => "spec-reconciler-" + task + "-" + Decimal(ruleId)
  }

  /** A separator that the last field cannot contain makes the split unique. */
  lemma LastFieldSplits(a: string, x: string, b: string, y: string, sep: char)
    requires a + [sep] + x == b + [sep] + y
    requires (forall i :: 0 <= i < |x| ==> x[i] != sep) && (forall i :: 0 <= i < |y| ==> y[i] != sep)
    ensures a == b && x == y
  {
    var s, t := a + [sep] + x, b + [sep] + y;
    assert s[|a|] == sep && t[|b|] == sep;
    assert forall i :: |b| < i < |t| ==> t[i] == y[i - |b| - 1];
    assert forall i :: |a| < i < |s| ==> s[i] == x[i - |a| - 1];
    assert |a| == |b|;
    assert s[..|a|] == a && t[..|b|] == b;
    assert s[|a| + 1..] == x && t[|b| + 1..] == y;
  }

  lemma NumberedInjective(a: string, m: nat, b: string, n: nat, sep: char)
    requires !IsDigit(sep) && a + [sep] + Decimal(m) == b + [sep] + Decimal(n)
    ensures a == b && m == n
  {
    DecimalDigits(m);
    DecimalDigits(n);
    LastFieldSplits(a, Decimal(m), b, Decimal(n), sep);
    DecimalInjective(m, n);
  }

  lemma RuleIdsInjective(r: string, e: nat, s: string, f: nat)
    requires ExternalId(OfRule(r, e)) == ExternalId(OfRule(s, f))
    ensures r == s && e == f
  {
    var a, b := "doc-lifecycle:" + r, "doc-lifecycle:" + s;
    NumberedInjective(a, e, b, f, ':');
    assert a[14..] == r && b[14..] == s;
  }

  lemma LinkIdsInjective(t: string, m: nat, u: string, n: nat)
    requires ExternalId(OfLink(t, m)) == ExternalId(OfLink(u, n))
    ensures t == u && m == n
  {
    var a, b := "spec-reconciler-" + t, "spec-reconciler-" + u;
    NumberedInjective(a, m, b, n, '-');
    assert a[16..] == t && b[16..] == u;
  }

  /** A note is written under the id a rule called "note" would use. */
  lemma NoteIsRule(e: nat)
    ensures ExternalId(OfNote(e)) == ExternalId(OfRule("note", e))
  {
    assert "doc-lifecycle:note:" == "doc-lifecycle:" + "note" + ":";
  }

  lemma SubscribersDisjoint(a: Identity, b: Identity)
    requires a.OfLink? && !b.OfLink?
    ensures ExternalId(a) != ExternalId(b)
  {
    assert ExternalId(a)[0] == 's' && ExternalId(b)[0] == 'd';
  }

  predicate NoRuleCalledNote(id: Identity) {
    id.OfRule? ==> id.rule != "note"
  }

  /** Two effects share an external id exactly when they are the same, or one is a note and the other the
      effect of a rule called "note" on the same event. */
  lemma ExternalIdsCollideExactly(a: Identity, b: Identity)
    ensures ExternalId(a) == ExternalId(b) <==>
      || a == b
      || (a.OfNote? && b == OfRule("note", a.event))
      || (b.OfNote? && a == OfRule("note", b.event))
  {
    if a.OfLink? != b.OfLink? {
      if a.OfLink? { SubscribersDisjoint(a, b); } else { SubscribersDisjoint(b, a); }
    } else if a.OfLink? {
      if ExternalId(a) == ExternalId(b) { LinkIdsInjective(a.task, a.ruleId, b.task, b.ruleId); }
    } else {
      var x := if a.OfNote? then OfRule("note", a.event) else a;
      var y := if b.OfNote? then OfRule("note", b.event) else b;
      NoteIsRule(a.event);
      NoteIsRule(b.event);
      if ExternalId(x) == ExternalId(y) { RuleIdsInjective(x.rule, x.event, y.rule, y.event); }
    }
  }

  lemma ExternalIdInjective(a: Identity, b: Identity)
    requires NoRuleCalledNote(a) && NoRuleCalledNote(b) && ExternalId(a) == ExternalId(b)
    ensures a == b
  {
    ExternalIdsCollideExactly(a, b);
  }

  // ----- The event table

  /** What was applied in the row's transaction. */
  datatype Effect = TaskMinted(kind: string) | ApprovalAwaited | EventNoted(task: string) | RuleGoverns

  datatype Row = Row(id: Identity, effect: Effect)

  /** `RolledBack`: the transaction did not commit. `Lost`: it committed, but its caller does not learn so. */
  datatype Fate = Done | RolledBack | Lost

  predicate NoneUnder(rows: seq<Row>, externalId: string) {
    forall i :: 0 <= i < |rows| ==> ExternalId(rows[i].id) != externalId
  }

  predicate Taken(rows: seq<Row>, id: Identity) {
    exists i :: 0 <= i < |rows| && ExternalId(rows[i].id) == ExternalId(id)
  }

  /** `store.RecordEvent`: a known external id inserts and applies nothing. */
  function RecordEvent(rows: seq<Row>, row: Row, fate: Fate): seq<Row> {
    if Taken(rows, row.id) || fate == RolledBack then rows else rows + [row]
  }

  // ----- The two handlers

  /** A decision of the lifecycle rules. */
  datatype Decision =
    | Mint(rule: string, kind: string)
    | Approve(rule: string)
    | Suppress(rule: string, noteTask: string)

  /** The row a decision records; a suppression without a task to note it on records nothing. */
  function RowOf(event: nat, d: Decision): Option<Row> {
    match d
    case Mint(rule, kind) => Some(Row(OfRule(rule, event), TaskMinted(kind)))
    case Approve(rule) => Some(Row(OfRule(rule, event), ApprovalAwaited))
    case Suppress(_, task) => if task == "" then None else Some(Row(OfNote(event), EventNoted(task)))
  }

  function AfterDecision(rows: seq<Row>, event: nat, d: Decision, fate: Fate): seq<Row> {
    if RowOf(event, d).None? then rows else RecordEvent(rows, RowOf(event, d).value, fate)
  }

  /** A decision that records nothing cannot fail. */
  predicate Succeeds(event: nat, d: Decision, fate: Fate) {
    RowOf(event, d).None? || fate == Done
  }

  /** The decisions in order, up to the first that fails; the event is then delivered again. */
  function AfterDoc(rows: seq<Row>, event: nat, decisions: seq<Decision>, fates: seq<Fate>): seq<Row>
    requires |fates| == |decisions|
    decreases |decisions|
  {
    if decisions == [] then rows
    else
      var next := AfterDecision(rows, event, decisions[0], fates[0]);
      if Succeeds(event, decisions[0], fates[0]) then AfterDoc(next, event, decisions[1..], fates[1..]) else next
  }

  /** A task whose plan already governs it gets no link, and no row. */
  function AfterReconcile(rows: seq<Row>, task: string, ruleId: nat, planned: bool, fate: Fate): seq<Row> {
    RecordEvent(rows, Row(OfLink(task, ruleId), RuleGoverns), if planned then RolledBack else fate)
  }

  /** One delivery. What the rules decide may differ between deliveries of one event: what is open changes. */
  datatype Delivery =
    | DocDelivery(event: nat, decisions: seq<Decision>, fates: seq<Fate>)
    | SpecDelivery(task: string, ruleId: nat, planned: bool, fate: Fate)

  predicate DeliveryOk(d: Delivery) {
    d.DocDelivery? ==>
      |d.fates| == |d.decisions| && forall i :: 0 <= i < |d.decisions| ==> d.decisions[i].rule != "note"
  }

  function After(rows: seq<Row>, d: Delivery): seq<Row>
    requires DeliveryOk(d)
  {
    match d
    case DocDelivery(event, decisions, fates) => AfterDoc(rows, event, decisions, fates)
    case SpecDelivery(task, ruleId, planned, fate) => AfterReconcile(rows, task, ruleId, planned, fate)
  }

  predicate RunOk(run: seq<Delivery>) {
    forall i :: 0 <= i < |run| ==> DeliveryOk(run[i])
  }

  function Run(rows: seq<Row>, run: seq<Delivery>): seq<Row>
    requires RunOk(run)
    decreases |run|
  {
    if run == [] then rows else Run(After(rows, run[0]), run[1..])
  }

  // ----- At most once

  /** The table's unique key, and no rule called "note". */
  predicate Keyed(rows: seq<Row>) {
    && (forall i :: 0 <= i < |rows| ==> NoRuleCalledNote(rows[i].id))
    && (forall i, j :: 0 <= i < j < |rows| ==> rows[i].id != rows[j].id)
  }

  predicate Has(rows: seq<Row>, id: Identity) {
    exists i :: 0 <= i < |rows| && rows[i].id == id
  }

  /** An external id is taken exactly when the very same effect was recorded: nothing is swallowed. */
  lemma TakenExactly(rows: seq<Row>, id: Identity)
    requires Keyed(rows) && NoRuleCalledNote(id)
    ensures Taken(rows, id) <==> Has(rows, id)
  {
    hide ExternalId;
    if Taken(rows, id) {
      var i :| 0 <= i < |rows| && ExternalId(rows[i].id) == ExternalId(id);
      ExternalIdInjective(rows[i].id, id);
    }
  }

  lemma RecordKeeps(rows: seq<Row>, row: Row, fate: Fate)
    requires Keyed(rows) && NoRuleCalledNote(row.id)
    ensures Keyed(RecordEvent(rows, row, fate)) && rows <= RecordEvent(rows, row, fate)
    ensures fate == Done ==> Has(RecordEvent(rows, row, fate), row.id)
  {
    hide Taken;
    TakenExactly(rows, row.id);
    var next := RecordEvent(rows, row, fate);
    if next != rows { assert next[|rows|] == row; }
  }

  lemma DecisionKeeps(rows: seq<Row>, event: nat, d: Decision, fate: Fate)
    requires Keyed(rows) && d.rule != "note"
    ensures var next := AfterDecision(rows, event, d, fate);
      && Keyed(next) && rows <= next
      && (fate == Done && RowOf(event, d).Some? ==> Has(next, RowOf(event, d).value.id))
  {
    hide Keyed, Has, RecordEvent;
    if RowOf(event, d).Some? { RecordKeeps(rows, RowOf(event, d).value, fate); }
  }

  lemma HasMore(rows: seq<Row>, more: seq<Row>, id: Identity)
    requires rows <= more && Has(rows, id)
    ensures Has(more, id)
  {
    var i :| 0 <= i < |rows| && rows[i].id == id;
    assert more[i] == rows[i];
  }

  lemma {:induction false} DocKeeps(rows: seq<Row>, event: nat, decisions: seq<Decision>, fates: seq<Fate>)
    requires |fates| == |decisions| && Keyed(rows)
    requires forall i :: 0 <= i < |decisions| ==> decisions[i].rule != "note"
    ensures var next := AfterDoc(rows, event, decisions, fates); Keyed(next) && rows <= next
    decreases |decisions|
  {
    hide Keyed, Has, RowOf, AfterDecision;
    if decisions != [] {
      var next := AfterDecision(rows, event, decisions[0], fates[0]);
      DecisionKeeps(rows, event, decisions[0], fates[0]);
      if Succeeds(event, decisions[0], fates[0]) {
        DocKeeps(next, event, decisions[1..], fates[1..]);
      }
    }
  }

  lemma DeliveryKeeps(rows: seq<Row>, d: Delivery)
    requires Keyed(rows) && DeliveryOk(d)
    ensures Keyed(After(rows, d)) && rows <= After(rows, d)
  {
    hide Keyed, RecordEvent, AfterDoc;
    match d
    case DocDelivery(event, decisions, fates) => DocKeeps(rows, event, decisions, fates);
    case SpecDelivery(task, ruleId, planned, fate) =>
      RecordKeeps(rows, Row(OfLink(task, ruleId), RuleGoverns), if planned then RolledBack else fate);
  }

  /** However events are delivered, redelivered, reordered and cut off, each (rule, event) has at most one
      effect, each event at most one note, each (task, rule) at most one link, and nothing recorded is lost. */
  lemma {:induction false} EffectsAtMostOnce(rows: seq<Row>, run: seq<Delivery>)
    requires Keyed(rows) && RunOk(run)
    ensures Keyed(Run(rows, run)) && rows <= Run(rows, run)
    decreases |run|
  {
    hide Keyed, After;
    if run != [] {
      DeliveryKeeps(rows, run[0]);
      EffectsAtMostOnce(After(rows, run[0]), run[1..]);
    }
  }

  // ----- What an acknowledged delivery leaves

  function Dones(n: nat): seq<Fate> {
    seq(n, _ => Done)
  }

  /** The decisions of a delivery in which nothing failed. */
  function Handled(rows: seq<Row>, event: nat, decisions: seq<Decision>): seq<Row> {
    AfterDoc(rows, event, decisions, Dones(|decisions|))
  }

  /** Another effect is recorded under the row's id. */
  predicate Rival(rows: seq<Row>, row: Row) {
    exists i :: 0 <= i < |rows| && rows[i].id == row.id && rows[i].effect != row.effect
  }

  lemma {:induction false} HandledSplit(rows: seq<Row>, event: nat, a: seq<Decision>, b: seq<Decision>)
    ensures Handled(rows, event, a + b) == Handled(Handled(rows, event, a), event, b)
    decreases |a|
  {
    if a == [] {
      assert a + b == b;
    } else {
      var next := AfterDecision(rows, event, a[0], Done);
      assert (a + b)[0] == a[0] && (a + b)[1..] == a[1..] + b;
      assert Dones(|a + b|)[1..] == Dones(|a[1..] + b|) && Dones(|a|)[1..] == Dones(|a[1..]|);
      HandledSplit(next, event, a[1..], b);
    }
  }

  lemma HandledOne(rows: seq<Row>, event: nat, d: Decision)
    ensures Handled(rows, event, [d]) == AfterDecision(rows, event, d, Done)
  {
    hide AfterDecision;
    var next := AfterDecision(rows, event, d, Done);
    assert [d][1..] == [] && Dones(1)[0] == Done && Dones(1)[1..] == [];
    assert AfterDoc(next, event, [], []) == next;
    assert AfterDoc(rows, event, [d], Dones(1)) == next;
  }

  lemma NothingKeyed()
    ensures Keyed([])
  {
  }

  lemma HandledKeeps(rows: seq<Row>, event: nat, decisions: seq<Decision>)
    requires Keyed(rows) && forall i :: 0 <= i < |decisions| ==> decisions[i].rule != "note"
    ensures Keyed(Handled(rows, event, decisions)) && rows <= Handled(rows, event, decisions)
  {
    DocKeeps(rows, event, decisions, Dones(|decisions|));
  }

  /** Recording a row leaves it in the table exactly when its id was not taken by another effect, and nothing
      recorded later changes that. */
  lemma RecordCarriesExactly(rows: seq<Row>, row: Row, more: seq<Row>)
    requires Keyed(rows) && NoRuleCalledNote(row.id)
    requires RecordEvent(rows, row, Done) <= more && Keyed(more)
    ensures row in more <==> !Rival(rows, row)
  {
    RecordKeeps(rows, row, Done);
    var next := RecordEvent(rows, row, Done);
    TakenExactly(rows, row.id);
    hide Taken, NoRuleCalledNote, RecordEvent;
    if Rival(rows, row) {
      var i :| 0 <= i < |rows| && rows[i].id == row.id && rows[i].effect != row.effect;
      assert more[i] == next[i] == rows[i];
      assert forall j :: 0 <= j < |more| && j != i ==> more[j].id != more[i].id;
    } else {
      var i :| 0 <= i < |next| && next[i].id == row.id;
      assert more[i] == next[i];
      RecordedRow(rows, row, i);
    }
  }

  lemma RecordedRow(rows: seq<Row>, row: Row, i: nat)
    requires !Rival(rows, row) && i < |RecordEvent(rows, row, Done)| && RecordEvent(rows, row, Done)[i].id == row.id
    ensures RecordEvent(rows, row, Done)[i] == row
  {
  }

  /** Once a delivery of an event has been handled without error, the table carries each effect it decided
      on, whatever is delivered later, exactly when the id was not taken by another effect before that
      decision; and it carries it once. */
  lemma AckedCarriesExactly(run: seq<Delivery>, event: nat, decisions: seq<Decision>, later: seq<Delivery>, i: nat)
    requires RunOk(run) && RunOk(later) && i < |decisions| && RowOf(event, decisions[i]).Some?
    requires forall k :: 0 <= k < |decisions| ==> decisions[k].rule != "note"
    ensures var row := RowOf(event, decisions[i]).value;
      var final := Run(Handled(Run([], run), event, decisions), later);
      && Keyed(final)
      && (row in final <==> !Rival(Handled(Run([], run), event, decisions[..i]), row))
  {
    NothingKeyed();
    var before, row := Run([], run), RowOf(event, decisions[i]).value;
    var early := Handled(before, event, decisions[..i]);
    assert NoRuleCalledNote(row.id);
    EffectsAtMostOnce([], run);
    hide Keyed, RowOf, AfterDecision, RecordEvent, Rival, After, Handled, NoRuleCalledNote, Run;
    var next := HandledAround(before, event, decisions, i);
    HandledKeeps(before, event, decisions[..i]);
    EffectsAtMostOnce(Handled(before, event, decisions), later);
    RecordCarriesExactly(early, row, Run(Handled(before, event, decisions), later));
  }

  /** Decision `i` records its row on what the earlier ones left, and the later ones add to that. */
  lemma HandledAround(before: seq<Row>, event: nat, decisions: seq<Decision>, i: nat) returns (next: seq<Row>)
    requires Keyed(before) && i < |decisions| && RowOf(event, decisions[i]).Some?
    requires forall k :: 0 <= k < |decisions| ==> decisions[k].rule != "note"
    ensures next == RecordEvent(Handled(before, event, decisions[..i]), RowOf(event, decisions[i]).value, Done)
    ensures next <= Handled(before, event, decisions) && Keyed(Handled(before, event, decisions))
  {
    var early, rest := Handled(before, event, decisions[..i]), [decisions[i]] + decisions[i + 1..];
    next := AfterDecision(early, event, decisions[i], Done);
    hide Keyed, RowOf, AfterDecision, RecordEvent, Handled;
    HandledKeeps(before, event, decisions[..i]);
    HandledOne(early, event, decisions[i]);
    assert decisions == decisions[..i] + rest;
    HandledSplit(before, event, decisions[..i], rest);
    HandledSplit(early, event, [decisions[i]], decisions[i + 1..]);
    HandledKeeps(early, event, [decisions[i]]);
    HandledKeeps(next, event, decisions[i + 1..]);
  }

  /** Two suppressions in one delivery: the second task gets no note. */
  lemma SecondNoteSwallowed(event: nat, a: string, b: string, t: string, u: string)
    requires t != "" && u != "" && t != u
    ensures var rows := Handled([], event, [Suppress(a, t), Suppress(b, u)]);
      rows == [Row(OfNote(event), EventNoted(t))] && Row(OfNote(event), EventNoted(u)) !in rows
  {
    hide ExternalId;
    assert [Suppress(a, t), Suppress(b, u)] == [Suppress(a, t)] + [Suppress(b, u)];
    HandledSplit([], event, [Suppress(a, t)], [Suppress(b, u)]);
    HandledOne([], event, Suppress(a, t));
    var rows := Handled([], event, [Suppress(a, t)]);
    assert rows == [Row(OfNote(event), EventNoted(t))];
    HandledOne(rows, event, Suppress(b, u));
    assert rows[0].id == OfNote(event) && Taken(rows, OfNote(event));
  }

  // ----- The rules

  /** The events the rules act on (`internal/watcher`). */
  datatype DocEvent = Submitted | Accepted(spec: bool) | Patched(substantive: bool) | WentStale | Other

  /** What is open on the document when the delivery is handled. */
  datatype Guards = Guards(review: string, design: string, approval: bool)

  function Evaluate(kind: DocEvent, g: Guards): seq<Decision> {
    match kind
    case Submitted =>
      [if g.review == "" then Mint("review-on-submit", "review") else Suppress("review-on-submit", ""),
       if g.approval then Suppress("approval-on-submit", "") else Approve("approval-on-submit")]
    case Accepted(spec) =>
      if !spec then []
      else [if g.design != "" then Suppress("plan-on-accept", g.design) else Mint("plan-on-accept", "design")]
    case Patched(substantive) =>
      if !substantive then []
      else [if g.review != "" then Suppress("review-on-patch", "") else Mint("review-on-patch", "review")]
    case WentStale =>
      [if g.design != "" then Suppress("groom-on-stale", g.design) else Mint("groom-on-stale", "design")]
    case Other => []
  }

  /** What each rule does when it is not suppressed. */
  function EffectOf(rule: string): Effect {
    if rule == "approval-on-submit" then ApprovalAwaited
    else if rule == "review-on-submit" || rule == "review-on-patch" then TaskMinted("review")
    else TaskMinted("design")
  }

  predicate ByRule(d: Decision) {
    match d
    case Mint(rule, kind) => EffectOf(rule) == TaskMinted(kind)
    case Approve(rule) => EffectOf(rule) == ApprovalAwaited
    case Suppress(_, _) => true
  }

  predicate AllByRule(decisions: seq<Decision>) {
    forall i :: 0 <= i < |decisions| ==> ByRule(decisions[i]) && decisions[i].rule != "note"
  }

  lemma EvaluatedByRule(kind: DocEvent, g: Guards)
    ensures AllByRule(Evaluate(kind, g))
  {
  }

  predicate RunByRule(run: seq<Delivery>) {
    RunOk(run) && forall i :: 0 <= i < |run| ==> run[i].DocDelivery? ==> AllByRule(run[i].decisions)
  }

  predicate RowsByRule(rows: seq<Row>) {
    forall i :: 0 <= i < |rows| && rows[i].id.OfRule? ==> rows[i].effect == EffectOf(rows[i].id.rule)
  }

  lemma {:induction false} DocByRule(rows: seq<Row>, event: nat, decisions: seq<Decision>, fates: seq<Fate>)
    requires |fates| == |decisions| && RowsByRule(rows) && AllByRule(decisions)
    ensures RowsByRule(AfterDoc(rows, event, decisions, fates))
    decreases |decisions|
  {
    hide EffectOf, Taken;
    if decisions != [] {
      assert ByRule(decisions[0]);
      assert RowsByRule(AfterDecision(rows, event, decisions[0], fates[0]));
      DocByRule(AfterDecision(rows, event, decisions[0], fates[0]), event, decisions[1..], fates[1..]);
    }
  }

  lemma {:induction false} RunsByRule(rows: seq<Row>, run: seq<Delivery>)
    requires RowsByRule(rows) && RunByRule(run)
    ensures RowsByRule(Run(rows, run))
    decreases |run|
  {
    hide EffectOf, Taken, AfterDoc, AllByRule;
    if run != [] {
      if run[0].DocDelivery? {
        assert AllByRule(run[0].decisions);
        DocByRule(rows, run[0].event, run[0].decisions, run[0].fates);
      }
      assert RunByRule(run[1..]) by { assert forall i :: 0 <= i < |run[1..]| ==> run[1..][i] == run[i + 1]; }
      RunsByRule(After(rows, run[0]), run[1..]);
    }
  }

  /** With the rules deciding, an acknowledged mint or approval is always carried, exactly once; only a note
      can lose its id to another effect, the note on another task. */
  lemma AckedMintCarried(run: seq<Delivery>, event: nat, decisions: seq<Decision>, later: seq<Delivery>, i: nat)
    requires RunByRule(run) && RunByRule(later) && AllByRule(decisions) && i < |decisions| && !decisions[i].Suppress?
    ensures var final := Run(Handled(Run([], run), event, decisions), later);
      Keyed(final) && RowOf(event, decisions[i]).value in final
  {
    var row, before := RowOf(event, decisions[i]).value, Run([], run);
    AckedCarriesExactly(run, event, decisions, later, i);
    RunsByRule([], run);
    DocByRule(before, event, decisions[..i], Dones(|decisions[..i]|));
    assert ByRule(decisions[i]);
    hide AfterDoc, EffectOf, Run;
  }

  predicate Decides(event: nat, decisions: seq<Decision>, id: Identity) {
    exists i :: 0 <= i < |decisions| && RowOf(event, decisions[i]).Some? && RowOf(event, decisions[i]).value.id == id
  }

  /** A delivery handled without error records something exactly when it decides on an id not recorded yet. */
  lemma {:induction false} RecordsExactly(rows: seq<Row>, event: nat, decisions: seq<Decision>)
    requires Keyed(rows) && forall i :: 0 <= i < |decisions| ==> decisions[i].rule != "note"
    ensures Handled(rows, event, decisions) != rows <==> exists id :: Decides(event, decisions, id) && !Has(rows, id)
    ensures forall id :: Has(Handled(rows, event, decisions), id) <==> Has(rows, id) || Decides(event, decisions, id)
    decreases |decisions|
  {
    hide Keyed, AfterDecision;
    if decisions == [] {
      assert Handled(rows, event, decisions) == rows;
    } else {
      var d, rest := decisions[0], decisions[1..];
      assert decisions == [d] + rest;
      HandledSplit(rows, event, [d], rest);
      HandledOne(rows, event, d);
      var next := AfterDecision(rows, event, d, Done);
      HandledKeeps(rows, event, [d]);
      RecordsExactly(next, event, rest);
      HandledKeeps(next, event, rest);
      DecisionRecords(rows, event, d);
      DecidesFirst(event, d, rest);
      hide Decides, Has, RowOf, Handled;
      RecordsThen(rows, next, event, d, rest);
    }
  }

  lemma DecidesFirst(event: nat, d: Decision, rest: seq<Decision>)
    ensures forall id :: Decides(event, [d] + rest, id) <==> Decides(event, [d], id) || Decides(event, rest, id)
  {
    forall id
      ensures Decides(event, [d] + rest, id) <==> Decides(event, [d], id) || Decides(event, rest, id)
    {
      var all := [d] + rest;
      if Decides(event, all, id) {
        var i :| 0 <= i < |all| && RowOf(event, all[i]).Some? && RowOf(event, all[i]).value.id == id;
        if i == 0 { assert [d][0] == d; } else { assert rest[i - 1] == all[i]; }
      }
      if Decides(event, [d], id) { assert all[0] == d; }
      if Decides(event, rest, id) {
        var i :| 0 <= i < |rest| && RowOf(event, rest[i]).Some? && RowOf(event, rest[i]).value.id == id;
        assert all[i + 1] == rest[i];
      }
    }
  }

  lemma DecisionRecords(rows: seq<Row>, event: nat, d: Decision)
    requires Keyed(rows) && d.rule != "note"
    ensures var next := AfterDecision(rows, event, d, Done);
      && (next != rows <==> exists id :: Decides(event, [d], id) && !Has(rows, id))
      && forall id :: Has(next, id) <==> Has(rows, id) || Decides(event, [d], id)
  {
    hide ExternalId;
    var next := AfterDecision(rows, event, d, Done);
    if RowOf(event, d).Some? {
      var row := RowOf(event, d).value;
      TakenExactly(rows, row.id);
      assert [d][0] == d && Decides(event, [d], row.id);
      hide Keyed, Taken;
      if !Has(rows, row.id) {
        assert next == rows + [row] && next[|rows|] == row;
        forall id
          ensures Has(next, id) <==> Has(rows, id) || id == row.id
        {
          if Has(rows, id) { HasMore(rows, next, id); }
        }
      }
    }
  }

  lemma RecordsThen(rows: seq<Row>, next: seq<Row>, event: nat, d: Decision, rest: seq<Decision>)
    requires rows <= next <= Handled(next, event, rest)
    requires Handled(next, event, rest) != next <==> exists id :: Decides(event, rest, id) && !Has(next, id)
    requires next != rows <==> exists id :: Decides(event, [d], id) && !Has(rows, id)
    requires forall id :: Has(next, id) <==> Has(rows, id) || Decides(event, [d], id)
    requires forall id :: Decides(event, [d] + rest, id) <==> Decides(event, [d], id) || Decides(event, rest, id)
    ensures Handled(next, event, rest) != rows <==> exists id :: Decides(event, [d] + rest, id) && !Has(rows, id)
  {
    hide Decides, Has, Handled;
  }

  predicate NothingOf(rows: seq<Row>, event: nat) {
    forall i :: 0 <= i < |rows| && !rows[i].id.OfLink? ==> rows[i].id.event != event
  }

  /** Something opened or closed between the deliveries that lets the rules decide on a new effect. */
  predicate DecidesAnew(kind: DocEvent, g: Guards, again: Guards) {
    match kind
    case Submitted => (g.review != "" && again.review == "") || (g.approval && !again.approval)
    case Accepted(spec) => spec && (g.design == "") != (again.design == "")
    case Patched(substantive) => substantive && g.review != "" && again.review == ""
    case WentStale => (g.design == "") != (again.design == "")
    case Other => false
  }

  /** An event handled once and delivered again records something new exactly when a guard changed in
      between: a review or approval has closed, or a design task has opened or closed. */
  lemma RedeliveryRecordsExactly(rows: seq<Row>, event: nat, kind: DocEvent, g: Guards, again: Guards)
    requires Keyed(rows) && NothingOf(rows, event)
    ensures var once := Handled(rows, event, Evaluate(kind, g));
      Handled(once, event, Evaluate(kind, again)) != once <==> DecidesAnew(kind, g, again)
  {
    var first, second := Evaluate(kind, g), Evaluate(kind, again);
    RecordsExactly(rows, event, first);
    HandledKeeps(rows, event, first);
    RecordsExactly(Handled(rows, event, first), event, second);
    forall id | Decides(event, second, id)
      ensures !Has(rows, id)
    {
      assert !id.OfLink? && id.event == event;
    }
    NewDecision(event, kind, g, again);
    hide Handled, Decides, Has, Evaluate, DecidesAnew;
  }

  lemma NewDecision(event: nat, kind: DocEvent, g: Guards, again: Guards)
    ensures DecidesAnew(kind, g, again) <==>
      exists id :: Decides(event, Evaluate(kind, again), id) && !Decides(event, Evaluate(kind, g), id)
  {
    var first, second := Evaluate(kind, g), Evaluate(kind, again);
    if DecidesAnew(kind, g, again) {
      var i := if kind.Submitted? && !(g.review != "" && again.review == "") then 1 else 0;
      var id := RowOf(event, second[i]).value.id;
      assert Decides(event, second, id) && !Decides(event, first, id);
    } else {
      forall id | Decides(event, second, id)
        ensures Decides(event, first, id)
      {
        var i :| 0 <= i < |second| && RowOf(event, second[i]).Some? && RowOf(event, second[i]).value.id == id;
        assert RowOf(event, first[i]).Some? && RowOf(event, first[i]).value.id == id;
      }
    }
  }

  /** An acceptance noted on one open task; delivered again when another is open, it is not noted on that. */
  lemma NoteSwallowedOnRedelivery(event: nat, t: string, u: string)
    requires t != "" && u != "" && t != u
    ensures var once := Handled([], event, Evaluate(Accepted(true), Guards("", t, false)));
      && once == [Row(OfNote(event), EventNoted(t))] && Row(OfNote(event), EventNoted(u)) !in once
      && Handled(once, event, Evaluate(Accepted(true), Guards("", u, false))) == once
  {
    hide ExternalId;
    HandledOne([], event, Suppress("plan-on-accept", t));
    var once := Handled([], event, [Suppress("plan-on-accept", t)]);
    assert once == [Row(OfNote(event), EventNoted(t))];
    HandledOne(once, event, Suppress("plan-on-accept", u));
    assert once[0].id == OfNote(event) && Taken(once, OfNote(event));
  }

  /** An acceptance mints a planning task; delivered again while that task is open, it is noted on the task. */
  lemma AcceptanceNotedOnItsOwnTask(event: nat, minted: string)
    requires minted != ""
    ensures var once := Handled([], event, Evaluate(Accepted(true), Guards("", "", false)));
      && once == [Row(OfRule("plan-on-accept", event), TaskMinted("design"))]
      && Handled(once, event, Evaluate(Accepted(true), Guards("", minted, false)))
          == once + [Row(OfNote(event), EventNoted(minted))]
  {
    hide ExternalId;
    HandledOne([], event, Mint("plan-on-accept", "design"));
    var once := Handled([], event, [Mint("plan-on-accept", "design")]);
    assert once == [Row(OfRule("plan-on-accept", event), TaskMinted("design"))];
    HandledOne(once, event, Suppress("plan-on-accept", minted));
    ExternalIdsCollideExactly(once[0].id, OfNote(event));
    assert !Taken(once, OfNote(event));
  }

  /** With a rule called "note" an effect can be swallowed: the note of another rule takes its id. */
  lemma NoteSwallows(event: nat, task: string, kind: string, other: string)
    requires task != ""
    ensures var rows := AfterDecision([], event, Suppress(other, task), Done);
      AfterDecision(rows, event, Mint("note", kind), Done) == rows && !Has(rows, OfRule("note", event))
  {
    NoteIsRule(event);
    hide ExternalId;
    var rows := AfterDecision([], event, Suppress(other, task), Done);
    assert rows == [Row(OfNote(event), EventNoted(task))];
    assert ExternalId(rows[0].id) == ExternalId(OfRule("note", event));
  }

  // ----- The code itself

  class Watcher {
    var rows: seq<Row>

    constructor ()
      ensures rows == []
    {
      rows := [];
    }

    method Record(row: Row, fate: Fate) returns (ok: bool, inserted: bool)
      modifies this
      ensures rows == RecordEvent(old(rows), row, fate)
      ensures ok == (fate == Done) && (ok ==> inserted == !Taken(old(rows), row.id))
    {
      inserted := true;
      for i := 0 to |rows|
        invariant inserted == !exists k :: 0 <= k < i && ExternalId(rows[k].id) == ExternalId(row.id)
      {
        if ExternalId(rows[i].id) == ExternalId(row.id) { inserted := false; }
      }
      if inserted && fate != RolledBack {
        rows := rows + [row];
      }
      ok := fate == Done;
    }

    method HandleDocLifecycle(event: nat, decisions: seq<Decision>, fates: seq<Fate>) returns (ok: bool)
      requires |fates| == |decisions|
      modifies this
      ensures rows == AfterDoc(old(rows), event, decisions, fates)
      ensures ok <==> forall i :: 0 <= i < |decisions| ==> Succeeds(event, decisions[i], fates[i])
    {
      hide RecordEvent;
      ok := true;
      for i := 0 to |decisions|
        invariant AfterDoc(old(rows), event, decisions, fates) == AfterDoc(rows, event, decisions[i..], fates[i..])
        invariant ok && forall k :: 0 <= k < i ==> Succeeds(event, decisions[k], fates[k])
      {
        assert decisions[i..][1..] == decisions[i + 1..] && fates[i..][1..] == fates[i + 1..];
        ok := PerformDocAction(event, decisions[i], fates[i]);
        if !ok { return; }
      }
    }

    method PerformDocAction(event: nat, d: Decision, fate: Fate) returns (ok: bool)
      modifies this
      ensures rows == AfterDecision(old(rows), event, d, fate) && ok == Succeeds(event, d, fate)
    {
      var inserted: bool;
      match d
      case Suppress(_, task) =>
        if task == "" { return true; }
        ok, inserted := Record(Row(OfNote(event), EventNoted(task)), fate);
      case Approve(rule) =>
        ok, inserted := Record(Row(OfRule(rule, event), ApprovalAwaited), fate);
      case Mint(rule, kind) =>
        ok, inserted := Record(Row(OfRule(rule, event), TaskMinted(kind)), fate);
    }

    method HandleSpecReconcile(task: string, ruleId: nat, planned: bool, fate: Fate) returns (linked: bool)
      modifies this
      ensures rows == AfterReconcile(old(rows), task, ruleId, planned, fate)
      ensures linked <==> !planned && fate == Done && NoneUnder(old(rows), "spec-reconciler-" + task + "-" + Decimal(ruleId))
      ensures rows == if !planned && fate != RolledBack && NoneUnder(old(rows), "spec-reconciler-" + task + "-" + Decimal(ruleId))
                      then old(rows) + [Row(OfLink(task, ruleId), RuleGoverns)] else old(rows)
    {
      var ok, inserted := Record(Row(OfLink(task, ruleId), RuleGoverns), if planned then RolledBack else fate);
      linked := ok && inserted;
    }
  }
}
