/** Point lookups on the log and the external identifier of a closing event. */
module Lookup {
  import opened Model
  import opened Operations
  import opened Text

  /** GetByID. */
  function FindById(log: Log, id: string): (r: Option<Event>)
    ensures r.Some? ==> r.value in Events(log) && r.value.id == id
    ensures r.None? ==> forall row :: row in log ==> row.event.id != id
  {
    if log == [] then None else if log[0].event.id == id then Some(log[0].event) else FindById(log[1..], id)
  }

  /** GetByExternalID. */
  function FindByExternalId(log: Log, externalId: string): (r: Option<Event>)
    ensures r.Some? ==> r.value in Events(log) && r.value.externalId == externalId
    ensures r.None? ==> forall row :: row in log ==> row.event.externalId != externalId
  {
    if log == [] then None else if log[0].event.externalId == externalId then Some(log[0].event) else FindByExternalId(log[1..], externalId)
  }

  /** What was found stays found as the log grows. */
  lemma {:induction false} FoundForever(log: Log, more: Log, id: string)
    ensures FindById(log, id).Some? ==> FindById(log + more, id) == FindById(log, id)
    ensures FindByExternalId(log, id).Some? ==> FindByExternalId(log + more, id) == FindByExternalId(log, id)
  {
    if log != [] {
      assert (log + more)[1..] == log[1..] + more;
      FoundForever(log[1..], more, id);
    }
  }

  lemma FindUnique(log: Log, e: Event)
    requires UniqueIds(Events(log)) && e in Events(log)
    ensures FindById(log, e.id) == Some(e)
  {
    var row :| row in log && row.event == e;
  }

  lemma SameExternalId(log: Log, a: Event, b: Event)
    requires DistinctExternalIds(log) && a in Events(log) && b in Events(log)
    requires a.externalId == b.externalId != ""
    ensures a == b
  {
    var i :| 0 <= i < |log| && log[i].event == a;
    var j :| 0 <= j < |log| && log[j].event == b;
    assert !(i < j) && !(j < i);
  }

  // ----- operationCloseExternalID

  const CLOSE_PREFIX := "pcr:close:"

  /** An injective digest stands for SHA-256 in hexadecimal. */
  ghost predicate Injective(digest: string -> string) {
    forall a, b :: digest(a) == digest(b) ==> a == b
  }

  function Payload(op: Operation): string {
    op.eventType + [NUL] + (op.key + [NUL] + op.value)
  }

  function CloseId(digest: string -> string, op: Operation): string {
    CLOSE_PREFIX + digest(Payload(op))
  }

  predicate IsCloseText(externalId: string) {
    CLOSE_PREFIX <= externalId
  }

  predicate CleanOperation(op: Operation) {
    NUL !in op.eventType && NUL !in op.key
  }

  lemma CloseIdIsCloseText(digest: string -> string, op: Operation)
    ensures IsCloseText(CloseId(digest, op))
  {
  }

  /** NUL separators keep the payload unambiguous, so two operations share a
      closing identifier only when they are the same operation. */
  lemma CloseIdInjective(digest: string -> string, a: Operation, b: Operation)
    requires Injective(digest) && CleanOperation(a) && CleanOperation(b)
    requires CloseId(digest, a) == CloseId(digest, b)
    ensures a == b
  {
    assert digest(Payload(a)) == CloseId(digest, a)[|CLOSE_PREFIX|..];
    assert digest(Payload(b)) == CloseId(digest, b)[|CLOSE_PREFIX|..];
    assert Payload(a) == Payload(b);
    CutAtFirst(a.eventType, a.key + [NUL] + a.value, NUL);
    CutAtFirst(b.eventType, b.key + [NUL] + b.value, NUL);
    CutAtFirst(a.key, a.value, NUL);
    CutAtFirst(b.key, b.value, NUL);
  }

  /** The operation a stored event starts, if it is a correlated top-level start. */
  function Target(log: Log, eventId: string): (r: Option<Operation>)
    ensures r.Some? ==> FindById(log, eventId).Some? && Starts(FindById(log, eventId).value, r.value)
  {
    var start := FindById(log, eventId);
    var identity := OperationIdentity(start);
    if identity.None? then None else Some(Operation(start.value.eventType, identity.value.0, identity.value.1))
  }
}
