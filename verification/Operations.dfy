/** Logical operations: how events correlate, which operations are open, and how
    the set of open operations changes as events are appended. */
module Operations {
  import opened Model

  datatype Operation = Operation(eventType: string, key: string, value: string)

  const PHASE := "phase"
  const CHANGE_ID := "change_id"
  const DEPLOY_ID := "deploy_id"

  /** The identifier tag that correlates an event; a non-empty change_id wins. */
  function Identifier(tags: Tags): Option<(string, string)> {
    if Tag(tags, CHANGE_ID) != "" then Some((CHANGE_ID, Tag(tags, CHANGE_ID)))
    else if Tag(tags, DEPLOY_ID) != "" then Some((DEPLOY_ID, Tag(tags, DEPLOY_ID)))
    else None
  }

  function OperationOf(e: Event): Option<Operation> {
    match Identifier(e.tags)
    case None => None
    case Some((key, value)) => Some(Operation(e.eventType, key, value))
  }

  predicate HasPhase(e: Event, phase: string) {
    e.TopLevel() && PHASE in e.tags && e.tags[PHASE] == phase
  }

  predicate Starts(e: Event, op: Operation) {
    HasPhase(e, "start") && OperationOf(e) == Some(op)
  }

  predicate Ends(e: Event, op: Operation) {
    HasPhase(e, "end") && OperationOf(e) == Some(op)
  }

  ghost predicate Ended(events: set<Event>, op: Operation) {
    exists e :: e in events && Ends(e, op)
  }

  ghost predicate Open(events: set<Event>, op: Operation) {
    (exists e :: e in events && Starts(e, op)) && !Ended(events, op)
  }

  /** The start that represents an open operation: its least start by (timestamp, id). */
  ghost predicate Represented(events: set<Event>, e: Event, op: Operation) {
    && e in events
    && Starts(e, op)
    && !Ended(events, op)
    && forall other :: other in events && Starts(other, op) && other != e ==> OldestFirst(e, other)
  }

  ghost predicate Representative(events: set<Event>, e: Event) {
    OperationOf(e).Some? && Represented(events, e, OperationOf(e).value)
  }

  /** The unfiltered Current view. */
  ghost function Current(events: set<Event>): set<Event> {
    set e | e in events && Representative(events, e)
  }

  /** operationIdentity: the Go side of correlation. */
  function OperationIdentity(event: Option<Event>): Option<(string, string)> {
    if event.None? || event.value.parentId != "" || Tag(event.value.tags, PHASE) != "start" then None
    else
      var changeId := Tag(event.value.tags, CHANGE_ID);
      if changeId != "" then Some((CHANGE_ID, changeId))
      else
        var deployId := Tag(event.value.tags, DEPLOY_ID);
        if deployId != "" then Some((DEPLOY_ID, deployId)) else None
  }

  lemma IdentityStarts(e: Event, op: Operation)
    ensures OperationIdentity(Some(e)) == Some((op.key, op.value)) && op.eventType == e.eventType <==> Starts(e, op)
    ensures Starts(e, op) ==> op.value != "" && (op.key == CHANGE_ID || op.key == DEPLOY_ID)
  {
  }

  // ----- One representative per open operation

  /** The least start among finitely many. */
  lemma {:induction false} LeastStart(starts: set<Event>) returns (least: Event)
    requires starts != {} && UniqueIds(starts)
    ensures least in starts
    ensures forall other :: other in starts && other != least ==> OldestFirst(least, other)
    decreases starts
  {
    EventOrders(starts);
    least :| least in starts;
    if starts != {least} {
      var smaller := LeastStart(starts - {least});
      if OldestFirst(smaller, least) {
        least := smaller;
      } else {
        assert OldestFirst(least, smaller);
      }
    }
  }

  /** Every open operation has exactly one row in Current, and no other operation has any. */
  lemma OneRowPerOpenOperation(events: set<Event>, op: Operation)
    requires UniqueIds(events)
    ensures Open(events, op) <==> exists e :: Represented(events, e, op)
    ensures forall a, b :: Represented(events, a, op) && Represented(events, b, op) ==> a == b
  {
    if Open(events, op) {
      var starts := set e | e in events && Starts(e, op);
      var some :| some in events && Starts(some, op);
      assert some in starts;
      var least := LeastStart(starts);
      assert Represented(events, least, op);
    }
    EventOrders(events);
    forall a, b | Represented(events, a, op) && Represented(events, b, op) ensures a == b {
      assert OldestFirst(a, b) && OldestFirst(b, a) ==> OldestFirst(a, a);
    }
  }

  // ----- Append locality

  /** Appending an event can change the representative of its own operation only. */
  lemma AppendIsLocal(events: set<Event>, added: Event, op: Operation, e: Event)
    requires OperationOf(added) != Some(op) || !added.TopLevel()
    ensures Represented(events + {added}, e, op) <==> Represented(events, e, op)
  {
    assert !Starts(added, op) && !Ends(added, op);
    assert Ended(events + {added}, op) <==> Ended(events, op);
  }

  /** Events outside the lifecycle leave the whole view unchanged. */
  lemma AppendOutsideLifecycle(events: set<Event>, added: Event)
    requires OperationOf(added).None? || !added.TopLevel()
    ensures Current(events + {added}) == Current(events)
  {
    forall e ensures e in Current(events + {added}) <==> e in Current(events) {
      if OperationOf(e).Some? {
        AppendIsLocal(events, added, OperationOf(e).value, e);
      }
    }
  }

  /** Appending an end removes its operation's row and nothing else, whether or not it was open. */
  lemma AppendEnd(events: set<Event>, end: Event, op: Operation)
    requires Ends(end, op)
    ensures Current(events + {end}) == Current(events) - set e | e in Current(events) && OperationOf(e) == Some(op)
  {
    assert end in events + {end};
    assert Ended(events + {end}, op);
    forall e ensures e in Current(events + {end}) <==> e in Current(events) && OperationOf(e) != Some(op) {
      if OperationOf(e).Some? && OperationOf(e) != Some(op) {
        AppendIsLocal(events, end, OperationOf(e).value, e);
      }
    }
  }

  /** Appending a start changes at most its own operation's row: it enters when
      the operation has no end and no earlier start. */
  lemma AppendStart(events: set<Event>, start: Event, op: Operation)
    requires Starts(start, op) && start !in events && UniqueIds(events + {start})
    ensures start in Current(events + {start}) <==>
              !Ended(events, op) && forall other :: other in events && Starts(other, op) ==> OldestFirst(start, other)
    ensures forall e :: OperationOf(e) != Some(op) ==> (e in Current(events + {start}) <==> e in Current(events))
  {
    assert Ended(events + {start}, op) <==> Ended(events, op);
    forall e | OperationOf(e) != Some(op) ensures e in Current(events + {start}) <==> e in Current(events) {
      if OperationOf(e).Some? {
        AppendIsLocal(events, start, OperationOf(e).value, e);
      }
    }
  }

  /** Once an operation has ended, no later event, however dated, brings it back. */
  lemma EndedForever(events: set<Event>, later: set<Event>, op: Operation)
    requires events <= later && Ended(events, op)
    ensures Ended(later, op) && !Open(later, op)
    ensures forall e :: e in Current(later) ==> OperationOf(e) != Some(op)
  {
    var end :| end in events && Ends(end, op);
    assert end in later;
  }

  // ----- The closing event

  /** The tags of the end event built from a start: its own, with the identifier kept and the phase set. */
  function EndTags(tags: Tags, key: string, value: string): Tags {
    tags[key := value][PHASE := "end"]
  }

  /** The start's tags, all of them, with the phase set to end. */
  ghost predicate KeepsTags(tags: Tags, start: Tags) {
    && tags.Keys == start.Keys
    && "phase" in tags && tags["phase"] == "end"
    && forall key :: key in start && key != "phase" ==> tags[key] == start[key]
  }

  /** The code's clone-and-overwrite keeps every tag of a start: the identifier it
      writes is the one already there. */
  lemma EndTagsKeepTags(start: Event, op: Operation)
    requires Starts(start, op)
    ensures KeepsTags(EndTags(start.tags, op.key, op.value), start.tags)
  {
  }

  /** An end carrying a start's tags closes that start's own operation, for
      every stored start, whatever its other tags. */
  lemma CloseIsExact(start: Event, op: Operation, end: Event)
    requires Starts(start, op)
    requires end.parentId == "" && end.eventType == start.eventType && KeepsTags(end.tags, start.tags)
    ensures Ends(end, op)
  {
    assert Tag(end.tags, CHANGE_ID) == Tag(start.tags, CHANGE_ID);
    assert Tag(end.tags, DEPLOY_ID) == Tag(start.tags, DEPLOY_ID);
  }

  /** Appending the closing event removes exactly the operation's row from Current. */
  lemma CloseRemovesExactlyOneRow(events: set<Event>, start: Event, op: Operation, end: Event) returns (row: Event)
    requires UniqueIds(events) && start in events && Starts(start, op) && Open(events, op)
    requires end.parentId == "" && end.eventType == start.eventType && KeepsTags(end.tags, start.tags)
    ensures row in Current(events) && OperationOf(row) == Some(op)
    ensures Current(events + {end}) == Current(events) - {row}
  {
    CloseIsExact(start, op, end);
    OneRowPerOpenOperation(events, op);
    row :| Represented(events, row, op);
    AppendEnd(events, end, op);
    forall e | e in Current(events) && OperationOf(e) == Some(op) ensures e == row {
      assert Represented(events, e, op);
    }
  }
}
