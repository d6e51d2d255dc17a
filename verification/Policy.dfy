/** Validation of create requests and the tag policy for new events. */
module Policy {
  import opened Model
  import opened Operations
  import opened Text

  /** linksValid is the verdict of validateLinks, which Go's net/url decides. */
  datatype Request = Request(
    parentId: string,
    externalId: string,
    user: UserIdentity,
    timestamp: Option<int>,
    eventType: string,
    description: string,
    longDescription: string,
    links: seq<EventLink>,
    linksValid: bool,
    tags: Tags)

  datatype TagError =
    | MaintenanceNeedsLifecycle | PhaseNotStartOrEnd | PhaseNeedsIdentifier | IdentifierNeedsPhase
    | UnknownSeverity | UnknownScope

  datatype RequestError = UserNameRequired | EventTypeRequired | InvalidTags(reason: TagError) | InvalidLink

  datatype Result<+T, +E> = Ok(value: T) | Err(error: E)

  const MAINTENANCE := "maintenance"
  const TRIMMED_KEYS := [PHASE, CHANGE_ID, DEPLOY_ID, "team", "severity", "scope"]

  function TrimmedValue(key: string, value: string): string {
    if key in TRIMMED_KEYS then TrimSpace(value) else value
  }

  /** The canonical value of a tag under the policy. */
  function CanonicalValue(key: string, value: string): string {
    if key == "severity" || key == "scope" then ToLower(TrimSpace(value)) else TrimmedValue(key, value)
  }

  function Normalized(tags: Tags): Tags {
    map key | key in tags :: CanonicalValue(key, tags[key])
  }

  lemma TrimmedTwice(value: string)
    ensures TrimSpace(TrimSpace(value)) == TrimSpace(value)
  {
  }

  /** Trims the values of the given keys, those that are present. */
  method TrimTags(input: Tags, keys: seq<string>) returns (tags: Tags)
    ensures tags == map key | key in input :: if key in keys then TrimSpace(input[key]) else input[key]
  {
    hide TrimSpace;
    tags := input;
    for i := 0 to |keys|
      invariant tags.Keys == input.Keys
      invariant forall key :: key in tags ==> tags[key] == if key in keys[..i] then TrimSpace(input[key]) else input[key]
    {
      var key := keys[i];
      assert keys[..i + 1] == keys[..i] + [key];
      if key in tags {
        TrimmedTwice(input[key]);
        tags := tags[key := TrimSpace(tags[key])];
      }
    }
    assert keys[..|keys|] == keys;
  }

  /** The canonical form is the trimmed one with two values in lower case. */
  lemma NormalizedFromTrimmed(input: Tags, trimmed: Tags)
    requires trimmed == map key | key in input :: TrimmedValue(key, input[key])
    ensures Normalized(input) == map key | key in trimmed :: if key == "severity" || key == "scope" then ToLower(trimmed[key]) else trimmed[key]
  {
    hide TrimSpace, ToLower;
    assert TRIMMED_KEYS[4] == "severity" && TRIMMED_KEYS[5] == "scope";
  }

  /** The four phase and team keys trimmed, severity and scope in lower case as
      well, and every other key as it was. */
  predicate CanonicalTags(input: Tags, tags: Tags) {
    && tags.Keys == input.Keys
    && (forall key :: key in tags && key in {"phase", "change_id", "deploy_id", "team"} ==> tags[key] == TrimSpace(input[key]))
    && (forall key :: key in tags && key in {"severity", "scope"} ==> tags[key] == ToLower(TrimSpace(input[key])))
    && (forall key :: key in tags && key !in {"phase", "change_id", "deploy_id", "team", "severity", "scope"} ==> tags[key] == input[key])
  }

  lemma NormalizedIsCanonical(input: Tags)
    ensures CanonicalTags(input, Normalized(input))
  {
    hide TrimSpace, ToLower;
    var keys := TRIMMED_KEYS;
    assert keys[0] == "phase" && keys[1] == "change_id" && keys[2] == "deploy_id" && keys[3] == "team" && keys[4] == "severity" && keys[5] == "scope";
    assert |"phase"| == 5 && |"change_id"| == 9 && |"deploy_id"| == 9 && |"team"| == 4 && |"severity"| == 8 && |"scope"| == 5;
    assert "phase"[0] != "scope"[0];
  }

  /** normalizeEventTags: the clone it fills holds every tag in canonical form. */
  method NormalizeEventTags(input: Tags) returns (tags: Tags)
    ensures tags == Normalized(input)
    ensures CanonicalTags(input, tags)
  {
    hide TrimSpace, ToLower, CanonicalTags;
    tags := TrimTags(input, TRIMMED_KEYS);
    assert tags == map key | key in input :: TrimmedValue(key, input[key]);
    hide TrimmedValue, CanonicalValue, Normalized;
    NormalizedFromTrimmed(input, tags);
    if "severity" in tags {
      tags := tags["severity" := ToLower(tags["severity"])];
    }
    if "scope" in tags {
      tags := tags["scope" := ToLower(tags["scope"])];
    }
    NormalizedIsCanonical(input);
  }

  lemma CanonicalValueIsFixed(key: string, value: string)
    ensures CanonicalValue(key, CanonicalValue(key, value)) == CanonicalValue(key, value)
  {
    LowerKeepsTrimmed(TrimSpace(value));
    LowerIsIdempotent(TrimSpace(value));
  }

  /** Normalizing twice is normalizing once. */
  lemma NormalizationIsIdempotent(tags: Tags)
    ensures Normalized(Normalized(tags)) == Normalized(tags)
  {
    forall key | key in tags ensures Normalized(Normalized(tags))[key] == Normalized(tags)[key] {
      CanonicalValueIsFixed(key, tags[key]);
    }
  }

  function ValidatePhaseTags(eventType: string, tags: Tags): Option<TagError> {
    var phase := Tag(tags, PHASE);
    var hasPhase := PHASE in tags;
    var hasIdentifier := Tag(tags, CHANGE_ID) != "" || Tag(tags, DEPLOY_ID) != "";
    var hasIdentifierTag := CHANGE_ID in tags || DEPLOY_ID in tags;
    var validPhase := phase == "start" || phase == "end";
    if eventType == MAINTENANCE && (!hasPhase || !validPhase || !hasIdentifier) then Some(MaintenanceNeedsLifecycle)
    else if hasPhase && !validPhase then Some(PhaseNotStartOrEnd)
    else if hasPhase && !hasIdentifier then Some(PhaseNeedsIdentifier)
    else if !hasPhase && hasIdentifierTag then Some(IdentifierNeedsPhase)
    else None
  }

  function ValidateClassificationTags(tags: Tags): Option<TagError> {
    if "severity" in tags && ToLower(tags["severity"]) !in ["sev0", "sev1", "sev2", "sev3"] then Some(UnknownSeverity)
    else if "scope" in tags && ToLower(tags["scope"]) !in ["service", "system", "site"] then Some(UnknownScope)
    else None
  }

  /** The event type and tags a request is stored with, or why it is rejected. */
  function ValidateCreateRequest(req: Request, enforceTagPolicy: bool): Result<(string, Tags), RequestError> {
    if req.user.name == "" then Err(UserNameRequired)
    else if req.eventType == "" then Err(EventTypeRequired)
    else if enforceTagPolicy then
      var eventType := if ToLower(TrimSpace(req.eventType)) == MAINTENANCE then MAINTENANCE else req.eventType;
      var tags := Normalized(req.tags);
      var phaseError := ValidatePhaseTags(eventType, tags);
      var tagError := if phaseError.Some? then phaseError else ValidateClassificationTags(tags);
      if tagError.Some? then Err(InvalidTags(tagError.value))
      else if !req.linksValid then Err(InvalidLink)
      else Ok((eventType, tags))
    else if !req.linksValid then Err(InvalidLink)
    else Ok((req.eventType, req.tags))
  }

  predicate OutsideLifecycle(tags: Tags) {
    PHASE !in tags && CHANGE_ID !in tags && DEPLOY_ID !in tags
  }

  /** The phase rules accept exactly the events outside the lifecycle that are
      not maintenance, and the correlated events with an exact phase. */
  lemma PhaseRulesExactly(eventType: string, tags: Tags)
    ensures ValidatePhaseTags(eventType, tags).None? <==>
              || (OutsideLifecycle(tags) && eventType != MAINTENANCE)
              || (PHASE in tags && (tags[PHASE] == "start" || tags[PHASE] == "end") && Identifier(tags).Some?)
  {
  }

  /** A classification accepted under the policy is stored as one of the exact
      lower-case values that the filters of the Current view compare with. */
  lemma AcceptedClassification(req: Request, eventType: string, tags: Tags)
    requires ValidateCreateRequest(req, true) == Ok((eventType, tags))
    ensures "severity" in tags ==> tags["severity"] in ["sev0", "sev1", "sev2", "sev3"]
    ensures "scope" in tags ==> tags["scope"] in ["service", "system", "site"]
  {
    hide ValidatePhaseTags, ToLower, TrimSpace;
    if "severity" in tags {
      LowerIsIdempotent(TrimSpace(req.tags["severity"]));
    }
    if "scope" in tags {
      LowerIsIdempotent(TrimSpace(req.tags["scope"]));
    }
  }

  /** Which phase rule a rejected event breaks. */
  lemma PhaseReason(eventType: string, tags: Tags)
    ensures var reason, maintenance := ValidatePhaseTags(eventType, tags), eventType == "maintenance";
      var exact := "phase" in tags && (tags["phase"] == "start" || tags["phase"] == "end");
      && (reason == Some(MaintenanceNeedsLifecycle) <==> maintenance && !(exact && Identifier(tags).Some?))
      && (reason == Some(PhaseNotStartOrEnd) <==> !maintenance && "phase" in tags && !exact)
      && (reason == Some(PhaseNeedsIdentifier) <==> !maintenance && exact && Identifier(tags).None?)
      && (reason == Some(IdentifierNeedsPhase) <==> !maintenance && "phase" !in tags && ("change_id" in tags || "deploy_id" in tags))
  {
  }

  /** The classifications that pass, and which of the two a rejected one breaks. */
  lemma ClassificationRulesExactly(tags: Tags)
    ensures var severity := "severity" in tags ==> ToLower(tags["severity"]) in ["sev0", "sev1", "sev2", "sev3"];
      var scope := "scope" in tags ==> ToLower(tags["scope"]) in ["service", "system", "site"];
      && (ValidateClassificationTags(tags).None? <==> severity && scope)
      && (ValidateClassificationTags(tags) == Some(UnknownSeverity) <==> !severity)
      && (ValidateClassificationTags(tags) == Some(UnknownScope) <==> severity && !scope)
  {
  }

  /** A request passes without the policy exactly with a user, a type and valid links,
      and then keeps its type and tags. */
  lemma UnenforcedExactly(req: Request)
    ensures ValidateCreateRequest(req, false).Ok? <==> req.user.name != "" && req.eventType != "" && req.linksValid
    ensures ValidateCreateRequest(req, false).Ok? ==> ValidateCreateRequest(req, false).value == (req.eventType, req.tags)
  {
  }

  /** Under the policy it must also meet the tag rules with its normalized tags; the
      type is stored as given, but for the spellings of maintenance. */
  lemma EnforcedExactly(req: Request)
    ensures var eventType := if ToLower(TrimSpace(req.eventType)) == "maintenance" then "maintenance" else req.eventType;
      var rules := ValidatePhaseTags(eventType, Normalized(req.tags)).None? && ValidateClassificationTags(Normalized(req.tags)).None?;
      && (ValidateCreateRequest(req, true).Ok? <==> req.user.name != "" && req.eventType != "" && rules && req.linksValid)
      && (ValidateCreateRequest(req, true).Ok? ==> ValidateCreateRequest(req, true).value == (eventType, Normalized(req.tags)))
  {
    hide ValidatePhaseTags, ValidateClassificationTags, Normalized, ToLower, TrimSpace;
  }

  /** The first rule a rejected request breaks: the user, the type, the tags, the links. */
  lemma RejectionReason(req: Request, enforce: bool)
    requires ValidateCreateRequest(req, enforce).Err?
    ensures var error := ValidateCreateRequest(req, enforce).error;
      && (error == UserNameRequired <==> req.user.name == "")
      && (error == EventTypeRequired <==> req.user.name != "" && req.eventType == "")
      && (error == InvalidLink ==> !req.linksValid)
      && (error.InvalidTags? ==> enforce)
      && (req.user.name != "" && req.eventType != "" && req.linksValid ==> error.InvalidTags?)
  {
    hide ValidatePhaseTags, ValidateClassificationTags, Normalized, ToLower, TrimSpace;
  }

  /** A top-level event accepted under the policy either carries no lifecycle
      tag or is correlated; a maintenance event is always correlated. */
  lemma AcceptedEventsCorrelate(req: Request, e: Event)
    requires ValidateCreateRequest(req, true) == Ok((e.eventType, e.tags))
    requires e.TopLevel()
    ensures OutsideLifecycle(e.tags) || ((HasPhase(e, "start") || HasPhase(e, "end")) && OperationOf(e).Some?)
    ensures e.eventType == MAINTENANCE ==> OperationOf(e).Some? && !OutsideLifecycle(e.tags)
    ensures ToLower(TrimSpace(req.eventType)) == MAINTENANCE ==> e.eventType == MAINTENANCE
    ensures Normalized(e.tags) == e.tags
  {
    PhaseRulesExactly(e.eventType, e.tags);
    NormalizationIsIdempotent(req.tags);
  }

  /** An accepted top-level start is missing from the unfiltered Current only
      because its operation has an end or an earlier start. */
  lemma AcceptedStartIsVisible(events: set<Event>, req: Request, e: Event)
    requires UniqueIds(events) && e in events && e.TopLevel()
    requires ValidateCreateRequest(req, true) == Ok((e.eventType, e.tags))
    requires PHASE in e.tags && e.tags[PHASE] == "start"
    ensures OperationOf(e).Some?
    ensures var op := OperationOf(e).value;
      e in Current(events) <==> !Ended(events, op) && !exists other :: other in events && Starts(other, op) && OldestFirst(other, e)
  {
    AcceptedEventsCorrelate(req, e);
    EventOrders(events);
    var op := OperationOf(e).value;
    forall other | other in events && Starts(other, op) && other != e ensures OldestFirst(e, other) || OldestFirst(other, e) {
    }
    forall other ensures !(OldestFirst(e, other) && OldestFirst(other, e)) {
      assert OldestFirst(e, other) && OldestFirst(other, e) ==> OldestFirst(e, e);
    }
  }
}
