/** What the stored events say, field by field: the event of a create, of a toggle
    and of a close. */
module Contents {
  import opened Model
  import opened Operations
  import opened Policy
  import opened Text

  ghost predicate By(e: Event, user: UserIdentity) {
    e.user.name == user.name && e.user.provider == user.provider && e.user.subject == user.subject
  }

  /** The event a create stores: the request's own fields, its time or the clock's, to the second. */
  ghost predicate CreatedFrom(e: Event, request: Request, now: int) {
    && e.externalId == request.externalId && e.parentId == request.parentId && By(e, request.user)
    && e.description == request.description && e.longDescription == request.longDescription && e.links == request.links
    && (request.timestamp.None? ==> e.timestamp == CanonicalTime(now))
    && (request.timestamp.Some? ==> e.timestamp == CanonicalTime(request.timestamp.value))
    && e.createdAt == CanonicalTime(now)
  }

  /** The event a toggle stores under its parent, described by the word of its transition. */
  ghost predicate TransitionBy(e: Event, parent: string, pair: Pair, user: UserIdentity, now: int) {
    && e.parentId == parent && By(e, user)
    && (e.eventType == pair.active || e.eventType == pair.inactive)
    && e.externalId == "" && e.tags == map[] && e.links == [] && e.longDescription == ""
    && e.timestamp == CanonicalTime(now) && e.createdAt == CanonicalTime(now)
    && (e.eventType == "star" ==> e.description == "starred")
    && (e.eventType == "unstar" ==> e.description == "unstarred")
    && (e.eventType == "alert" ==> e.description == "alert opened")
    && (e.eventType == "clear-alert" ==> e.description == "alert cleared")
  }

  /** The closing identifier, spelled out. */
  ghost predicate ClosingIdentifier(externalId: string, digest: string -> string, op: Operation) {
    externalId == "pcr:close:" + digest(op.eventType + "\0" + op.key + "\0" + op.value)
  }

  /** What a close asks the create path for: the start's type and tags with the phase
      set to end, the closer, and the description given or derived from the start's. */
  ghost predicate Closes(request: Request, digest: string -> string, start: Event, op: Operation, user: UserIdentity, description: string) {
    && request.parentId == "" && request.timestamp.None? && request.linksValid && request.links == [] && request.longDescription == ""
    && request.user == user && request.eventType == start.eventType
    && ClosingIdentifier(request.externalId, digest, op)
    && KeepsTags(request.tags, start.tags)
    && (TrimSpace(description) == "" ==> request.description == start.description + " completed")
    && (TrimSpace(description) != "" ==> request.description == TrimSpace(description))
  }

  /** The event a close stores. */
  ghost predicate EndOf(e: Event, digest: string -> string, start: Event, op: Operation, user: UserIdentity, description: string, now: int) {
    && e.parentId == "" && e.links == [] && e.longDescription == ""
    && By(e, user) && e.eventType == start.eventType
    && ClosingIdentifier(e.externalId, digest, op)
    && KeepsTags(e.tags, start.tags)
    && (TrimSpace(description) == "" ==> e.description == start.description + " completed")
    && (TrimSpace(description) != "" ==> e.description == TrimSpace(description))
    && e.timestamp == CanonicalTime(now) && e.createdAt == CanonicalTime(now)
  }

  lemma EndFromRequest(e: Event, request: Request, digest: string -> string, start: Event, op: Operation, user: UserIdentity,
                       description: string, now: int)
    requires Closes(request, digest, start, op, user, description)
    requires CreatedFrom(e, request, now) && e.eventType == request.eventType && e.tags == request.tags
    ensures EndOf(e, digest, start, op, user, description, now)
  {
  }
}
