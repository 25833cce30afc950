/** What each document event and each spec trailer leaves in the event table, row by row
    (`internal/watcher/doclifecycle.go`, `internal/api/docwatch.go`, `internal/api/gate.go`). */
module EffectRules {
  import opened Text
  import opened EffectKeys

  // ----- The first delivery of a document event

  /** A submission mints a review task unless one is open, and asks for an approval unless one is awaited; an
      accepted spec and a stale document mint a design task, or are noted on the open one; a substantive patch
      mints a review task unless one is open; nothing else leaves anything. */
  function FirstRows(event: nat, kind: DocEvent, g: Guards): seq<Row> {
    match kind
    case Submitted =>
      (if g.review == "" then [Row(OfRule("review-on-submit", event), TaskMinted("review"))] else []) +
      (if !g.approval then [Row(OfRule("approval-on-submit", event), ApprovalAwaited)] else [])
    case Accepted(spec) =>
      if !spec then []
      else if g.design == "" then [Row(OfRule("plan-on-accept", event), TaskMinted("design"))]
      else [Row(OfNote(event), EventNoted(g.design))]
    case Patched(substantive) =>
      if substantive && g.review == "" then [Row(OfRule("review-on-patch", event), TaskMinted("review"))] else []
    case WentStale =>
      if g.design == "" then [Row(OfRule("groom-on-stale", event), TaskMinted("design"))]
      else [Row(OfNote(event), EventNoted(g.design))]
    case Other => []
  }

  lemma OneRecorded(rows: seq<Row>, event: nat, d: Decision)
    requires Keyed(rows) && d.rule != "note" && (RowOf(event, d).Some? ==> !Has(rows, RowOf(event, d).value.id))
    ensures AfterDecision(rows, event, d, Done) == match RowOf(event, d) case Some(row) => rows + [row] case None => rows
  {
    if RowOf(event, d).Some? { TakenExactly(rows, RowOf(event, d).value.id); }
    hide Keyed, Taken, Has;
  }

  lemma NoneHas(rows: seq<Row>, event: nat, id: Identity)
    requires NothingOf(rows, event) && !id.OfLink? && id.event == event
    ensures !Has(rows, id)
  {
  }

  lemma HandledTwo(rows: seq<Row>, event: nat, d: Decision, e: Decision)
    ensures Handled(rows, event, [d, e]) == AfterDecision(AfterDecision(rows, event, d, Done), event, e, Done)
  {
    hide AfterDecision;
    HandledSplit(rows, event, [d], [e]);
    assert [d] + [e] == [d, e];
    HandledOne(rows, event, d);
    HandledOne(AfterDecision(rows, event, d, Done), event, e);
  }

  lemma SubmittedFirst(rows: seq<Row>, event: nat, g: Guards)
    requires Keyed(rows) && NothingOf(rows, event)
    ensures Handled(rows, event, Evaluate(Submitted, g)) == rows + FirstRows(event, Submitted, g)
  {
    var ds := Evaluate(Submitted, g);
    assert ds == [ds[0], ds[1]];
    HandledTwo(rows, event, ds[0], ds[1]);
    NoneHas(rows, event, OfRule("review-on-submit", event));
    NoneHas(rows, event, OfRule("approval-on-submit", event));
    OneRecorded(rows, event, ds[0]);
    var next := AfterDecision(rows, event, ds[0], Done);
    DecisionKeeps(rows, event, ds[0], Done);
    assert !Has(next, OfRule("approval-on-submit", event));
    OneRecorded(next, event, ds[1]);
  }

  lemma OthersFirst(rows: seq<Row>, event: nat, kind: DocEvent, g: Guards)
    requires Keyed(rows) && NothingOf(rows, event) && !kind.Submitted?
    ensures Handled(rows, event, Evaluate(kind, g)) == rows + FirstRows(event, kind, g)
  {
    var ds := Evaluate(kind, g);
    assert |ds| <= 1;
    if |ds| == 1 {
      assert ds == [ds[0]];
      HandledOne(rows, event, ds[0]);
      if RowOf(event, ds[0]).Some? { NoneHas(rows, event, RowOf(event, ds[0]).value.id); }
      OneRecorded(rows, event, ds[0]);
    } else {
      assert ds == [] && rows + [] == rows;
      NothingHandled(rows, event);
    }
  }

  lemma NothingHandled(rows: seq<Row>, event: nat)
    ensures Handled(rows, event, []) == rows
  {
  }

  /** The first delivery of any event, handled without error, adds exactly its rows, in order. */
  lemma FirstDelivery(rows: seq<Row>, event: nat, kind: DocEvent, g: Guards)
    requires Keyed(rows) && NothingOf(rows, event)
    ensures Handled(rows, event, Evaluate(kind, g)) == rows + FirstRows(event, kind, g)
  {
    hide Handled, Evaluate, FirstRows, Keyed, NothingOf;
    if kind.Submitted? { SubmittedFirst(rows, event, g); } else { OthersFirst(rows, event, kind, g); }
  }

  // ----- A delivery that fails

  /** The decision has something to record, and its transaction did not commit, or its caller did not learn so. */
  predicate Fails(d: Decision, fate: Fate) {
    fate != Done && (d.Mint? || d.Approve? || (d.Suppress? && d.noteTask != ""))
  }

  lemma NotFailed(rows: seq<Row>, event: nat, d: Decision, fate: Fate)
    requires !Fails(d, fate)
    ensures Succeeds(event, d, fate) && AfterDecision(rows, event, d, fate) == AfterDecision(rows, event, d, Done)
  {
  }

  /** Decisions are carried out up to the first that fails, and none after it. */
  lemma {:induction false} StopsAtFailure(rows: seq<Row>, event: nat, decisions: seq<Decision>, fates: seq<Fate>, k: nat)
    requires |fates| == |decisions| && k <= |decisions|
    requires forall i :: 0 <= i < k ==> !Fails(decisions[i], fates[i])
    requires k < |decisions| ==> Fails(decisions[k], fates[k])
    ensures var done := Handled(rows, event, decisions[..k]);
      AfterDoc(rows, event, decisions, fates) ==
        if k == |decisions| then done else AfterDecision(done, event, decisions[k], fates[k])
    decreases |decisions|
  {
    if decisions == [] {
      assert decisions[..k] == [];
    } else if k == 0 {
      assert decisions[..0] == [];
      NothingHandled(rows, event);
      hide AfterDecision, Handled;
    } else {
      var d, rest := decisions[0], decisions[1..];
      var next := AfterDecision(rows, event, d, fates[0]);
      NotFailed(rows, event, d, fates[0]);
      hide AfterDecision, Fails, Succeeds, Handled;
      StopsAtFailure(next, event, rest, fates[1..], k - 1);
      assert decisions[..k] == [d] + rest[..k - 1];
      HandledSplit(rows, event, [d], rest[..k - 1]);
      HandledOne(rows, event, d);
    }
  }

  // ----- Spec trailers

  /** A trailer links its task to its rule exactly when no plan governs the task, the link is not there yet and
      the transaction commits; nothing else changes. */
  lemma ReconcilesExactly(rows: seq<Row>, task: string, ruleId: nat, planned: bool, fate: Fate)
    ensures AfterReconcile(rows, task, ruleId, planned, fate) ==
      if planned || fate == RolledBack || (exists i :: 0 <= i < |rows| && rows[i].id == OfLink(task, ruleId)) then rows
      else rows + [Row(OfLink(task, ruleId), RuleGoverns)]
  {
    forall i | 0 <= i < |rows|
      ensures ExternalId(rows[i].id) == ExternalId(OfLink(task, ruleId)) <==> rows[i].id == OfLink(task, ruleId)
    {
      ExternalIdsCollideExactly(rows[i].id, OfLink(task, ruleId));
    }
    hide ExternalId;
  }
}
