/**
 What happens when the same operation comes by two routes: from a tablet and in the site's feed.  Each route applies a
 name at most once, but neither asks the other.
 */
module EchoLaws {
  import opened Wrappers
  import opened Registrations
  import opened RowMerge
  import opened Transitions
  import opened Operations
  import opened FeedLog
  import opened Tables
  import opened SiteFeed
  import opened SiteFeedLaws
  import opened SiteSync

  /** An action the site's journal knows changes nothing when it comes again. */
  lemma {:induction false} KnownActionChangesNothing(d: Desk, action: FeedAction)
    requires action.actionId in d.siteActions && ApplyAction(d, action).Ok?
    ensures ApplyAction(d, action).value.desk == d
  {
  }

  /** The row the change names already stands as its merge. */
  predicate HoldsMerge(d: Desk, ch: FeedChange) {
    var row := FindRow(d, ch.registrationId).value;
    var merged := MergeChange(row, ch);
    merged.Ok? && BareSide(merged.value) == BareSide(row)
  }

  predicate SameRowNow(d: Desk, e: Desk, id: string) {
    RowNow(LocalRows(e.rows), id) == RowNow(LocalRows(d.rows), id)
  }

  lemma {:induction false} MergedRowNow(d: Desk, ch: FeedChange, actionId: string)
    requires PlanOne(d, ch, actionId, None).Ok?
    ensures var row := RowMerged(d, ch, actionId, None);
            (if row.Some? && !row.value.deleted then Some(Bare(row.value.value)) else None) ==
            BareSide(MergeChange(FindRow(d, ch.registrationId).value, ch).value)
  {
  }

  lemma {:induction false} FoundRowNow(d: Desk, id: string)
    ensures RowNow(LocalRows(d.rows), id) == BareSide(FindRow(d, id).value)
  {
  }

  /** Applying an action here moves the rows exactly when some named row does not hold its merge yet. */
  lemma {:induction false} ChangesMoveRowsExactly(d: Desk, action: FeedAction)
    requires NamedChanges(action.changes) && DistinctRows(action.changes) && Named(d) && ApplyChanges(d, action, None).Ok?
    ensures var a := ApplyChanges(d, action, None).value;
            LocalRows(a.desk.rows) == LocalRows(d.rows) <==>
            a.application.Review? || forall i :: 0 <= i < |action.changes| ==> HoldsMerge(d, action.changes[i])
  {
    AllRowsOrNone(d, action, None);
    var a := ApplyChanges(d, action, None).value;
    if a.application.AppliedHere? {
      forall i | 0 <= i < |action.changes|
        ensures SameRowNow(d, a.desk, action.changes[i].registrationId) <==> HoldsMerge(d, action.changes[i])
      {
        OneRowMoves(d, a.desk, action, i);
      }
      if forall i :: 0 <= i < |action.changes| ==> HoldsMerge(d, action.changes[i]) {
        forall id ensures RowNow(LocalRows(a.desk.rows), id) == RowNow(LocalRows(d.rows), id) {
          LocalRowAt(a.desk.rows, id);
          LocalRowAt(d.rows, id);
          if ChangesName(action.changes, id) {
            var i :| 0 <= i < |action.changes| && action.changes[i].registrationId == id;
            assert HoldsMerge(d, action.changes[i]);
          }
        }
        SameEverywhere(LocalRows(a.desk.rows), LocalRows(d.rows));
      }
    }
  }

  lemma {:induction false} OneRowMoves(d: Desk, e: Desk, action: FeedAction, i: nat)
    requires i < |action.changes| && PlanOne(d, action.changes[i], action.actionId, None).Ok?
    requires At(e.rows, action.changes[i].registrationId) == RowMerged(d, action.changes[i], action.actionId, None)
    ensures SameRowNow(d, e, action.changes[i].registrationId) <==> HoldsMerge(d, action.changes[i])
    ensures RowNow(LocalRows(e.rows), action.changes[i].registrationId) ==
            BareSide(MergeChange(FindRow(d, action.changes[i].registrationId).value, action.changes[i]).value)
  {
    LocalRowAt(e.rows, action.changes[i].registrationId);
    MergedRowNow(d, action.changes[i], action.actionId);
    FoundRowNow(d, action.changes[i].registrationId);
  }

  /**
   The echo of an operation in the site's feed, whatever became of it here before: it leaves the rows as they are
   exactly when it goes to review or every row it names holds its merge already.
   */
  lemma {:induction false} EchoMovesRowsExactly(d: Desk, action: FeedAction)
    requires ApplyNew(d, action).Ok? && action.outcome.Applied? && !IsResolution(action)
    requires NamedChanges(action.changes) && DistinctRows(action.changes) && Named(d) && SiteNamed(d)
    ensures var a := ApplyNew(d, action).value;
            LocalRows(a.desk.rows) == LocalRows(d.rows) <==>
            a.application.Review? || forall i :: 0 <= i < |action.changes| ==> HoldsMerge(d, action.changes[i])
  {
    NewActionKeepsRows(d, action);
    ChangesMoveRowsExactly(d, action);
  }

  /** Every named row stands at the action's before-image: the action was undone here, or never made. */
  predicate AtBefore(d: Desk, changes: seq<FeedChange>) {
    forall i :: 0 <= i < |changes| ==>
      changes[i].before.Some? && changes[i].after.Some? &&
      BareSide(FindRow(d, changes[i].registrationId).value) == BareSide(changes[i].before)
  }

  /** So an operation that was applied here and then undone is made once more when the site's feed brings it. */
  lemma {:induction false} UndoneEchoReapplies(d: Desk, action: FeedAction)
    requires ApplyNew(d, action).Ok? && action.outcome.Applied? && !IsResolution(action)
    requires NamedChanges(action.changes) && DistinctRows(action.changes) && Named(d) && SiteNamed(d)
    requires AtBefore(d, action.changes) && HeadsFit(d, action)
    ensures ApplyNew(d, action).value.application.AppliedHere?
    ensures forall i :: 0 <= i < |action.changes| ==>
              RowNow(LocalRows(ApplyNew(d, action).value.desk.rows), action.changes[i].registrationId) ==
              BareSide(action.changes[i].after)
  {
    NewActionKeepsRows(d, action);
    AllRowsOrNone(d, action, None);
    forall i | 0 <= i < |action.changes|
      ensures PlanOne(d, action.changes[i], action.actionId, None).Ok?
      ensures BareSide(MergeChange(FindRow(d, action.changes[i].registrationId).value, action.changes[i]).value) ==
              BareSide(action.changes[i].after)
    {
      assert action.changes[i] in action.changes;
      BeforeTakesAfter(d, action.changes[i], action.actionId);
    }
    forall i | 0 <= i < |action.changes|
      ensures RowNow(LocalRows(ApplyNew(d, action).value.desk.rows), action.changes[i].registrationId) ==
              BareSide(action.changes[i].after)
    {
      OneRowMoves(d, ApplyChanges(d, action, None).value.desk, action, i);
    }
  }

  lemma {:induction false} BeforeTakesAfter(d: Desk, ch: FeedChange, actionId: string)
    requires ch.before.Some? && ch.after.Some? && BareSide(FindRow(d, ch.registrationId).value) == BareSide(ch.before)
    requires |HeadsAfter(FindRow(d, ch.registrationId).heads, actionId, None)| <= 64
    ensures PlanOne(d, ch, actionId, None).Ok?
    ensures BareSide(MergeChange(FindRow(d, ch.registrationId).value, ch).value) == BareSide(ch.after)
  {
    MergeOnBase(ch.before.value, ch.after.value, FindRow(d, ch.registrationId).value.value);
  }

  /** A page never decides an operation that waits here: its record stays as it is, for the tablet to send again. */
  lemma {:induction false} WaitingOutlivesSite(d: Desk, action: FeedAction, id: string)
    requires ApplyAction(d, action).Ok? && id in d.operations && SiteNamed(d) && NamedChanges(action.changes)
    ensures id in ApplyAction(d, action).value.desk.operations &&
            ApplyAction(d, action).value.desk.operations[id] == d.operations[id]
  {
    if action.actionId !in d.siteActions {
      HereIsLocal(d, action);
      var a := ApplyHere(d, action).value;
      SettleFollowsSite(a.desk, action, a.application, a.code);
    }
  }

  // One such store.

  function Packet(issued: bool): Registration {
    Registration("row", "event", "race", "", "", None, false, issued, "registered", None, false)
  }

  /** A tablet's note that the packet was handed out. */
  function Handed(): Operation {
    Operation(1, "handed", "scope", "base", "tablet", 1, 0, "actor", None,
              Command(CommandType.Issue, "row", "", "", "", "", None, map[], None, None, None, "", "", [], []),
              [Base("row", [])], [Change("row", Packet(false), Packet(true))])
  }

  function HandedChange(): FeedChange {
    FeedChange("row", Some(Packet(false)), Some(Packet(true)))
  }

  /** The site's word that it took the note over. */
  function Echo(): FeedAction {
    FeedAction("handed", OperationAction, 1, "tablet", Applied, None, Some(Handed()), [HandedChange()])
  }

  /** The note was applied here and published, and then the packet was taken back. */
  function TakenBack(): Desk {
    Desk("event", {"event"}, {"race"}, Scope("scope", "base", 0),
         map["row" := Row(Packet(false), ["back"], false)], map["row" := Member(None, "", false, false)], {}, {},
         map["handed" := OperationRecord(Handed(), "event", Applied, None)],
         Feed([Entry("handed", 1, OperationAction, "tablet", Some("handed"), Applied, None, [HandedChange()])], [], 1, 1),
         map[], map["row" := SiteRow(Packet(false), false)], map[], 0)
  }

  lemma {:induction false} EchoPlan()
    ensures PlanOne(TakenBack(), HandedChange(), "handed", None) ==
            Ok(Plan("row", true, true, Some(Packet(true)), HeadsAfter(["back"], "handed", None)))
  {
    var found := FindRow(TakenBack(), "row");
    assert found.known && found.heads == ["back"] && found.value == Some(Packet(false));
    MergeOnBase(Packet(false), Packet(true), Packet(false));
    HeadsOfTwo();
  }

  lemma {:induction false} EchoChanges()
    ensures var d := TakenBack(); var a := ApplyChanges(d, Echo(), None);
            a.Ok? && a.value.application.AppliedHere? && a.value.code.None? && a.value.desk == d.(rows := a.value.desk.rows, members := a.value.desk.members)
    ensures ApplyChanges(TakenBack(), Echo(), None).value.desk.rows.Keys == {"row"}
    ensures ApplyChanges(TakenBack(), Echo(), None).value.desk.rows["row"].value == Packet(true)
  {
    var d, ch := TakenBack(), HandedChange();
    EchoPlan();
    var plan := PlanOne(d, ch, "handed", None).value;
    OneIsAll(d, ch, "handed", plan);
    assert WritePlan(d, plan).Ok?;
  }

  lemma {:induction false} OneIsAll(d: Desk, ch: FeedChange, actionId: string, plan: Plan)
    requires PlanOne(d, ch, actionId, None) == Ok(plan)
    ensures PlanAll(d, [ch], actionId, None) == Ok([plan]) && WritePlans(d, [plan]) == WritePlan(d, plan)
  {
    assert [ch][..|[ch]| - 1] == [] && [plan][..|[plan]| - 1] == [];
    assert PlanAll(d, [], actionId, None) == Ok([]) && WritePlans(d, []) == Ok(d);
    assert [] + [plan] == [plan];
  }

  lemma {:induction false} HeadsOfTwo()
    ensures |HeadsAfter(["back"], "handed", None)| == 2
  {
    assert ["back"] + ["handed"] == ["back", "handed"];
    assert ["back", "handed"][..1] == ["back"] && ["back"][..0] == [];
    assert UniqueHeads([]) == [] && UniqueHeads(["back"]) == Insert("back", []);
    assert UniqueHeads(["back", "handed"]) == Insert("handed", ["back"]);
  }

  lemma {:induction false} SiteTakesEcho(d: Desk)
    requires d == TakenBack().(rows := d.rows, members := d.members)
    ensures Settle(d, Echo(), AppliedHere, None).Ok?
    ensures Journal(Settle(d, Echo(), AppliedHere, None).value, Echo(), AppliedHere, None).Ok?
    ensures Journal(Settle(d, Echo(), AppliedHere, None).value, Echo(), AppliedHere, None).value.rows == d.rows
    ensures Journal(Settle(d, Echo(), AppliedHere, None).value, Echo(), AppliedHere, None).value.operations == d.operations
  {
    assert [HandedChange()][..|[HandedChange()]| - 1] == [] && AdvanceBaseline(d, []) == Ok(d);
    assert AdvanceBaseline(d, [HandedChange()]) == PutSite(d, Packet(true), false);
  }

  lemma {:induction false} EchoFits()
    ensures BaselineMatches(TakenBack(), Echo().changes)
  {
    forall ch | ch in Echo().changes ensures BaselineHolds(TakenBack(), ch) {
      assert ch == HandedChange();
    }
  }

  /** A new action that fits is applied here, settled and put into the journal. */
  lemma {:induction false} NewByParts(d: Desk, action: FeedAction, a: Landed, settled: Desk, done: Desk)
    requires action.actionId !in d.siteActions && !IsResolution(action) && action.outcome.Applied?
    requires action.operation.Some? && action.actionId in d.operations && d.operations[action.actionId].operation == action.operation.value
    requires BaselineMatches(d, action.changes) && ApplyChanges(d, action, None) == Ok(a)
    requires Settle(a.desk, action, a.application, a.code) == Ok(settled)
    requires Journal(settled, action, a.application, a.code) == Ok(done)
    ensures ApplyAction(d, action) == Ok(Landed(done, a.application, a.code))
  {
  }

  /** One name changes a row twice: applied for the tablet, undone, and applied again for the site. */
  lemma {:induction false} EchoReapplies()
    ensures var d := TakenBack();
            d.operations["handed"].outcome.Applied? && d.rows["row"].value == Packet(false) &&
            ApplyAction(d, Echo()).Ok? &&
            var e := ApplyAction(d, Echo()).value.desk; "row" in e.rows && e.rows["row"].value == Packet(true)
  {
    EchoChanges();
    var a := ApplyChanges(TakenBack(), Echo(), None).value;
    SiteTakesEcho(a.desk);
    EchoFits();
    var settled := Settle(a.desk, Echo(), AppliedHere, None).value;
    NewByParts(TakenBack(), Echo(), a, settled, Journal(settled, Echo(), AppliedHere, None).value);
  }
}
