/** Concurrent toggles of one annotation alternate, and the derived flag counts
    them modulo two. */
module Toggles {
  import opened AnnotationReaders
  import opened Model
  import opened Ordering
  import opened Policy
  import opened Where
  import opened Writers
  import opened WriterSteps
  import opened WriterTheorems

  /** The committed transitions of a pair on a parent, in commit order. */
  function Transitions(log: Log, parent: string, pair: Pair): seq<Row> {
    Filter(log, (row: Row) => Transition(row.event, parent, pair))
  }

  ghost function NextType(log: Log, parent: string, pair: Pair): string {
    if Active(log, parent, pair) then pair.inactive else pair.active
  }

  /** No create writes this pair on this parent: all its transitions come from toggles. */
  ghost predicate OnlyToggles(clients: seq<Client>, parent: string, pair: Pair) {
    && parent != ""
    && (pair == STAR || pair == ALERT)
    && forall c :: c in clients && c.job.CreateJob? && c.job.request.parentId == parent ==>
         c.job.request.eventType != pair.active && c.job.request.eventType != pair.inactive
  }

  // ----- What an append does to the flag

  lemma AppendOther(log: Log, row: Row, parent: string, pair: Pair)
    requires !Transition(row.event, parent, pair)
    ensures Active(log + [row], parent, pair) <==> Active(log, parent, pair)
    ensures Transitions(log + [row], parent, pair) == Transitions(log, parent, pair)
  {
    FilterAppend(log, row, (r: Row) => Transition(r.event, parent, pair));
    if Active(log, parent, pair) {
      var latest :| latest in log && Transition(latest.event, parent, pair) && latest.event.eventType == pair.active
        && forall newer :: newer in log && Transition(newer.event, parent, pair) ==> newer.sequence <= latest.sequence;
      assert latest in log + [row];
    }
    if Active(log + [row], parent, pair) {
      var latest :| latest in log + [row] && Transition(latest.event, parent, pair) && latest.event.eventType == pair.active
        && forall newer :: newer in log + [row] && Transition(newer.event, parent, pair) ==> newer.sequence <= latest.sequence;
      assert latest in log;
      forall newer | newer in log && Transition(newer.event, parent, pair) ensures newer.sequence <= latest.sequence {
        assert newer in log + [row];
      }
    }
  }

  /** The new row carries a larger sequence number than every stored transition of the pair. */
  ghost predicate Newest(log: Log, row: Row, parent: string, pair: Pair) {
    forall r :: r in log && Transition(r.event, parent, pair) ==> r.sequence < row.sequence
  }

  lemma AppendTransition(log: Log, row: Row, parent: string, pair: Pair)
    requires Transition(row.event, parent, pair) && Newest(log, row, parent, pair) && pair.active != pair.inactive
    ensures Active(log + [row], parent, pair) <==> row.event.eventType == pair.active
    ensures Transitions(log + [row], parent, pair) == Transitions(log, parent, pair) + [row]
  {
    FilterAppend(log, row, (r: Row) => Transition(r.event, parent, pair));
    assert row in log + [row];
  }

  /** A toggle of one annotation leaves every other flag, of this or any other event, as it was. */
  lemma ToggleTouchesOneFlag(log: Log, row: Row, parent: string, pair: Pair, otherParent: string, otherPair: Pair)
    requires Transition(row.event, parent, pair) && (pair == STAR || pair == ALERT) && (otherPair == STAR || otherPair == ALERT)
    requires (otherParent, otherPair) != (parent, pair)
    ensures Active(log + [row], otherParent, otherPair) <==> Active(log, otherParent, otherPair)
  {
    AppendOther(log, row, otherParent, otherPair);
  }

  // ----- The invariant of one pair

  /** A toggle that has read the latest transition still agrees with the log it will commit to. */
  ghost predicate PairReady(log: Log, parent: string, pair: Pair, c: Client) {
    && (c.job.ToggleJob? && c.job.parent == parent && c.job.pair == pair && c.pc.InsertingTransition? ==>
          c.pc.eventType == NextType(log, parent, pair))
    && (c.pc.Committing? && Transition(c.pc.row.event, parent, pair) ==>
          c.pc.row.event.eventType == NextType(log, parent, pair) && Newest(log, c.pc.row, parent, pair))
  }

  ghost predicate PairInv(s: State, parent: string, pair: Pair) {
    forall c :: c in s.clients ==> PairReady(s.log, parent, pair, c)
  }

  /** Only a toggle of this very pair can have a transition of it in flight. */
  lemma InFlightIsToggle(digest: string -> string, s: State, c: Client, parent: string, pair: Pair)
    requires Inv(digest, s) && OnlyToggles(s.clients, parent, pair) && c in s.clients
    requires HasRow(c.pc) && Transition(c.pc.row.event, parent, pair)
    ensures c.job.ToggleJob? && c.job.parent == parent && c.job.pair == pair
  {
    hide LogOk, PendingDistinct, KeysExclusive, LocksExclusive, RowOk, ParentOk, Normalized, ValidatePhaseTags, ValidateClassificationTags;
    assert PcOk(digest, s.log, c.job, c.pc);
    assert Produces(digest, s.log, c.job, c.pc.row.event);
  }

  /** The acting client is ready again after its step. */
  lemma ActorReady(digest: string -> string, s: State, i: nat, choice: Choice, s': State, parent: string, pair: Pair)
    requires Inv(digest, s) && StepOf(digest, s, i, choice, s')
    requires OnlyToggles(s.clients, parent, pair) && PairInv(s, parent, pair)
    ensures PairReady(s'.log, parent, pair, s'.clients[i])
  {
    hide PendingDistinct, KeysExclusive, LocksExclusive, Active, ColumnsStorable, AttachmentsStorable, Fresh, WellFormed,
      ValidateCreateRequest, RowOk, LatestTransition;
    var c, c' := s.clients[i], s'.clients[i];
    assert c in s.clients && PcOk(digest, s.log, c.job, c.pc);
    if c.pc.ReadingLatest? {
      IndexesOf(s.log);
      LatestDecides(s.log, parent, pair);
    }
    if c'.pc.Committing? && Transition(c'.pc.row.event, parent, pair) {
      if HasRow(c.pc) {
        assert c.pc.row == c'.pc.row;
        InFlightIsToggle(digest, s, c, parent, pair);
      } else {
        assert c.pc.InsertingTransition? && c'.pc.row.sequence == s.next;
        assert c'.pc.row.event.eventType == c.pc.eventType;
      }
    }
  }

  lemma ReadyAfterOther(log: Log, row: Row, c: Client, parent: string, pair: Pair)
    requires PairReady(log, parent, pair, c) && !Transition(row.event, parent, pair)
    ensures PairReady(log + [row], parent, pair, c)
  {
    hide Active;
    AppendOther(log, row, parent, pair);
  }

  /** A client without the parent's lock has no reading of the pair to keep current. */
  lemma ReadyWithoutLock(digest: string -> string, s: State, c: Client, log: Log, parent: string, pair: Pair)
    requires Inv(digest, s) && c in s.clients && OnlyToggles(s.clients, parent, pair) && !HoldsUpdate(c, parent)
    ensures PairReady(log, parent, pair, c)
  {
    hide Inv, OnlyToggles, NextType, Newest;
    if c.pc.Committing? && Transition(c.pc.row.event, parent, pair) {
      InFlightIsToggle(digest, s, c, parent, pair);
    }
  }

  /** A client that holds the parent's lock keeps its reading current while others step. */
  lemma BystanderReady(digest: string -> string, s: State, i: nat, choice: Choice, s': State, j: nat, parent: string, pair: Pair)
    requires Inv(digest, s) && StepOf(digest, s, i, choice, s') && j < |s.clients| && j != i
    requires OnlyToggles(s.clients, parent, pair) && PairInv(s, parent, pair)
    ensures PairReady(s'.log, parent, pair, s'.clients[j])
  {
    hide Act, PcOk, LogOk, PendingDistinct, KeysExclusive, JobAllowed, Active, PairReady, OnlyToggles;
    var c := s.clients[j];
    assert c in s.clients && s'.clients[j] == c;
    var effect := Act(digest, s, i, choice);
    RowEvolution(digest, s, i, choice);
    if effect.commit.Some? {
      var row := effect.commit.value;
      if Transition(row.event, parent, pair) {
        assert s.clients[i] in s.clients && s.clients[i].pc == Committing(row);
        InFlightIsToggle(digest, s, s.clients[i], parent, pair);
        assert HoldsUpdate(s.clients[i], parent);
        ReadyWithoutLock(digest, s, c, s'.log, parent, pair);
      } else {
        ReadyAfterOther(s.log, row, c, parent, pair);
      }
    }
  }

  lemma StepKeepsPair(digest: string -> string, s: State, i: nat, choice: Choice, s': State, parent: string, pair: Pair)
    requires Inv(digest, s) && StepOf(digest, s, i, choice, s')
    requires OnlyToggles(s.clients, parent, pair) && PairInv(s, parent, pair)
    ensures PairInv(s', parent, pair)
  {
    ActorReady(digest, s, i, choice, s', parent, pair);
    hide Inv, PairReady, OnlyToggles;
    forall c | c in s'.clients ensures PairReady(s'.log, parent, pair, c) {
      var j :| 0 <= j < |s'.clients| && s'.clients[j] == c;
      if j != i {
        BystanderReady(digest, s, i, choice, s', j, parent, pair);
      }
    }
  }

  // ----- Alternation

  /** The transitions appended during a run: opposite types in turn, starting
      with the one that changes the initial flag, in ingest_sequence order and
      after every transition stored before the run. */
  ghost predicate Alternates(initial: Log, added: seq<Row>, parent: string, pair: Pair) {
    && (forall m :: 0 <= m < |added| ==>
          added[m].event.eventType == if Active(initial, parent, pair) == (m % 2 == 0) then pair.inactive else pair.active)
    && (forall m, n :: 0 <= m < n < |added| ==> added[m].sequence < added[n].sequence)
    && (forall m, r :: 0 <= m < |added| && r in Transitions(initial, parent, pair) ==> r.sequence < added[m].sequence)
  }

  ghost predicate Counted(initial: Log, log: Log, added: seq<Row>, parent: string, pair: Pair) {
    && Transitions(log, parent, pair) == Transitions(initial, parent, pair) + added
    && Alternates(initial, added, parent, pair)
    && (Active(log, parent, pair) <==> (Active(initial, parent, pair) != (|added| % 2 == 1)))
  }

  lemma AlternatesLonger(initial: Log, added: seq<Row>, row: Row, parent: string, pair: Pair)
    requires Alternates(initial, added, parent, pair)
    requires row.event.eventType == if Active(initial, parent, pair) == (|added| % 2 == 0) then pair.inactive else pair.active
    requires forall r :: r in Transitions(initial, parent, pair) + added ==> r.sequence < row.sequence
    ensures Alternates(initial, added + [row], parent, pair)
  {
    hide Active, Transitions;
    var before := Transitions(initial, parent, pair);
    forall m | 0 <= m < |added| ensures added[m].sequence < row.sequence {
      assert added[m] in before + added;
    }
    forall r | r in before ensures r.sequence < row.sequence {
      assert r in before + added;
    }
  }

  lemma CountTransition(initial: Log, log: Log, added: seq<Row>, row: Row, parent: string, pair: Pair)
    requires Counted(initial, log, added, parent, pair) && pair.active != pair.inactive
    requires Transition(row.event, parent, pair) && row.event.eventType == NextType(log, parent, pair) && Newest(log, row, parent, pair)
    ensures Counted(initial, log + [row], added + [row], parent, pair)
  {
    hide Active, Alternates;
    AppendTransition(log, row, parent, pair);
    var before := Transitions(initial, parent, pair);
    assert before + (added + [row]) == before + added + [row];
    forall r | r in before + added ensures r.sequence < row.sequence {
      assert r in Transitions(log, parent, pair);
    }
    AlternatesLonger(initial, added, row, parent, pair);
  }

  lemma CountCommit(initial: Log, log: Log, added: seq<Row>, row: Row, parent: string, pair: Pair) returns (added': seq<Row>)
    requires Counted(initial, log, added, parent, pair) && pair.active != pair.inactive
    requires Transition(row.event, parent, pair) ==> row.event.eventType == NextType(log, parent, pair) && Newest(log, row, parent, pair)
    ensures Counted(initial, log + [row], added', parent, pair)
  {
    hide Active;
    if Transition(row.event, parent, pair) {
      CountTransition(initial, log, added, row, parent, pair);
      added' := added + [row];
    } else {
      AppendOther(log, row, parent, pair);
      added' := added;
    }
  }

  /** In every run whose transitions of a pair on a parent all come from
      toggles, they strictly alternate in ingest_sequence order, and after n
      commits the derived flag is the initial flag flipped n times. */
  lemma {:induction false} TogglesAlternate(digest: string -> string, states: seq<State>, k: nat, parent: string, pair: Pair)
    returns (added: seq<Row>)
    requires Run(digest, states) && k < |states| && OnlyToggles(states[0].clients, parent, pair)
    ensures Counted(states[0].log, states[k].log, added, parent, pair)
    ensures PairInv(states[k], parent, pair)
    decreases k
  {
    hide Inv, Active, Counted, PairReady, Act;
    RunInvariant(digest, states, k, k);
    if k == 0 {
      added := [];
      CountNone(states[0].log, parent, pair);
      forall c | c in states[0].clients ensures PairReady(states[0].log, parent, pair, c) {
        InitialReady(digest, states[0], c, parent, pair);
      }
    } else {
      added := TogglesAlternate(digest, states, k - 1, parent, pair);
      var s, s' := states[k - 1], states[k];
      RunInvariant(digest, states, k - 1, k - 1);
      SameJobs(digest, states, k - 1, parent, pair);
      assert Step(digest, s, s');
      var i: nat, choice :| StepOf(digest, s, i, choice, s');
      StepKeepsPair(digest, s, i, choice, s', parent, pair);
      RowEvolution(digest, s, i, choice);
      var effect := Act(digest, s, i, choice);
      if effect.commit.Some? {
        CommitIsReady(s, i, effect.commit.value, parent, pair);
        added := CountCommit(states[0].log, s.log, added, effect.commit.value, parent, pair);
      }
    }
  }

  lemma CountNone(log: Log, parent: string, pair: Pair)
    ensures Counted(log, log, [], parent, pair)
  {
  }

  lemma InitialReady(digest: string -> string, s: State, c: Client, parent: string, pair: Pair)
    requires Initial(digest, s) && c in s.clients
    ensures PairReady(s.log, parent, pair, c)
  {
  }

  lemma CommitIsReady(s: State, i: nat, row: Row, parent: string, pair: Pair)
    requires i < |s.clients| && s.clients[i].pc == Committing(row) && PairInv(s, parent, pair)
    ensures Transition(row.event, parent, pair) ==> row.event.eventType == NextType(s.log, parent, pair) && Newest(s.log, row, parent, pair)
  {
    assert s.clients[i] in s.clients;
  }

  lemma SameJobs(digest: string -> string, states: seq<State>, k: nat, parent: string, pair: Pair)
    requires Run(digest, states) && k < |states| && OnlyToggles(states[0].clients, parent, pair)
    ensures OnlyToggles(states[k].clients, parent, pair)
  {
    hide Run, Inv;
    RunInvariant(digest, states, 0, k);
    forall c | c in states[k].clients && c.job.CreateJob? && c.job.request.parentId == parent
      ensures c.job.request.eventType != pair.active && c.job.request.eventType != pair.inactive
    {
      var i :| 0 <= i < |states[k].clients| && states[k].clients[i] == c;
      assert states[0].clients[i] in states[0].clients;
    }
  }

  /** The same, read off the logs before and after: the flag is the initial
      flag XOR (number of committed toggles is odd). */
  lemma FlagCountsToggles(digest: string -> string, states: seq<State>, k: nat, parent: string, pair: Pair)
    requires Run(digest, states) && k < |states| && OnlyToggles(states[0].clients, parent, pair)
    ensures var before, after := Transitions(states[0].log, parent, pair), Transitions(states[k].log, parent, pair);
      && before <= after
      && Alternates(states[0].log, after[|before|..], parent, pair)
      && (Active(states[k].log, parent, pair) <==> (Active(states[0].log, parent, pair) != ((|after| - |before|) % 2 == 1)))
  {
    hide Run, Active, Alternates, OnlyToggles, PairInv;
    var added := TogglesAlternate(digest, states, k, parent, pair);
    assert added == Transitions(states[k].log, parent, pair)[|Transitions(states[0].log, parent, pair)|..];
  }
}
