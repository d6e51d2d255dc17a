/** The dashboard's filter links: query values are parsed into filters, filters
    are printed back into query values, and tag links edit the tag filter. */
module Dashboard {
  import opened Model
  import opened Ordering
  import opened Text

  /** The query parameters the dashboard knows; every other name is kept apart. */
  datatype Field =
    | ViewField | AlertedField | TeamField | ForTeamField | ScopeField | SeverityField
    | RangeField | StartAfterField | StartBeforeField | TypeField | UserField | TagField
    | LimitField | OffsetField | OtherField(name: string)

  /** url.Values. */
  type Query = map<Field, seq<string>>

  function Values(q: Query, field: Field): seq<string> {
    if field in q then q[field] else []
  }

  function Get(q: Query, field: Field): string {
    var values := Values(q, field);
    if values == [] then "" else values[0]
  }

  /** url.Values.Get. */
  lemma GetIsFirst(q: Query, field: Field, value: string, more: seq<string>)
    ensures Get(q[field := [value] + more], field) == value
    ensures field !in q || q[field] == [] ==> Get(q, field) == ""
  {
  }

  function Set(q: Query, field: Field, value: string): Query {
    q[field := [value]]
  }

  function Add(q: Query, field: Field, value: string): Query {
    q[field := Values(q, field) + [value]]
  }

  function Del(q: Query, field: Field): Query {
    q - {field}
  }

  datatype View = CurrentView | SiteView | HistoryView | AlertsView

  datatype Filters = Filters(
    view: View,
    team: string,
    range: string,
    startAfter: string,
    startBefore: string,
    eventType: string,
    userName: string,
    alerted: bool,
    tags: seq<string>,
    scopes: seq<string>,
    severities: seq<string>)

  // ----- Parsing

  function ViewName(view: View): string {
    match view
    case CurrentView => "current"
    case SiteView => "site"
    case HistoryView => "history"
    case AlertsView => "alerts"
  }

  /** dashboardView. */
  function ViewOf(q: Query): View {
    var view := Get(q, ViewField);
    if view == "current" then CurrentView
    else if view == "site" then SiteView
    else if view == "history" then HistoryView
    else if view == "alerts" then AlertsView
    else if view == "" && Get(q, AlertedField) == "true" then AlertsView
    else HistoryView
  }

  predicate Listing(view: View) {
    view == HistoryView || view == AlertsView
  }

  function NormalValue(value: string): string {
    ToLower(TrimSpace(value))
  }

  /** normalizeCurrentValues. */
  function NormalValues(values: seq<string>): seq<string> {
    if values == [] then []
    else (if NormalValue(values[0]) == "" then [] else [NormalValue(values[0])]) + NormalValues(values[1..])
  }

  /** The key of a well-formed key:value entry. */
  function TagKeyOf(entry: string): Option<string> {
    var (key, value, found) := Cut(entry, ':');
    if !found || key == "" then None else Some(key)
  }

  predicate WellFormedTag(entry: string) {
    TagKeyOf(entry).Some?
  }

  function PutTag(tags: Tags, entry: string): Tags {
    var (key, value, found) := Cut(entry, ':');
    if !found || key == "" then tags else tags[key := value]
  }

  /** The tag filter a list of entries stands for: later entries win. */
  function TagMap(entries: seq<string>): Tags {
    if entries == [] then map[] else PutTag(TagMap(entries[..|entries| - 1]), entries[|entries| - 1])
  }

  function TagsOf(q: Query): Tags {
    if Listing(ViewOf(q)) then TagMap(Values(q, TagField)) else map[]
  }

  function OwnTeam(q: Query): string {
    var team := TrimSpace(Get(q, TeamField));
    if team == "" then TrimSpace(Get(q, ForTeamField)) else team
  }

  /** What parseDashboardRequest reads out of a query for the form. */
  function FiltersOf(q: Query): Filters {
    var view := ViewOf(q);
    var list := Listing(view);
    var range := if list then RangeOf(q) else "";
    Filters(
      view,
      if Tag(TagsOf(q), "team") != "" then Tag(TagsOf(q), "team") else OwnTeam(q),
      range,
      if range == "custom" then Get(q, StartAfterField) else "",
      if range == "custom" then Get(q, StartBeforeField) else "",
      TrimSpace(Get(q, TypeField)),
      if list then Get(q, UserField) else "",
      view == AlertsView,
      if list then Filter(Values(q, TagField), WellFormedTag) else [],
      NormalValues(Values(q, ScopeField)),
      NormalValues(Values(q, SeverityField)))
  }

  lemma ParseTagsStep(entries: seq<string>, i: nat)
    requires i < |entries|
    ensures TagMap(entries[..i + 1]) == PutTag(TagMap(entries[..i]), entries[i])
    ensures WellFormedTag(entries[i]) ==> Filter(entries[..i + 1], WellFormedTag) == Filter(entries[..i], WellFormedTag) + [entries[i]]
    ensures !WellFormedTag(entries[i]) ==> Filter(entries[..i + 1], WellFormedTag) == Filter(entries[..i], WellFormedTag)
  {
    hide WellFormedTag, Filter, PutTag, TagMap;
    assert entries[..i + 1] == entries[..i] + [entries[i]];
    TagMapAppend(entries[..i], entries[i]);
    FilterAppend(entries[..i], entries[i], WellFormedTag);
  }

  /** The view a request asks for, in all its spellings. */
  lemma ViewExactly(q: Query)
    ensures ViewOf(q) == CurrentView <==> Get(q, ViewField) == "current"
    ensures ViewOf(q) == SiteView <==> Get(q, ViewField) == "site"
    ensures ViewOf(q) == AlertsView <==> Get(q, ViewField) == "alerts" || (Get(q, ViewField) == "" && Get(q, AlertedField) == "true")
    ensures Get(q, ViewField) == "history" ==> ViewOf(q) == HistoryView
  {
    hide Get;
    var view := Get(q, ViewField);
    assert |"current"| == 7 && |"site"| == 4 && |"history"| == 7 && |"alerts"| == 6 && "current"[0] != "history"[0];
  }

  /** The settings read from a request: the team parameter before for_team, the given
      range or 24 hours, and the user and range only in the listing views. */
  lemma SettingsExactly(q: Query)
    ensures var f, list := FiltersOf(q), ViewOf(q) == HistoryView || ViewOf(q) == AlertsView;
      && (!list ==> f.team == if TrimSpace(Get(q, TeamField)) != "" then TrimSpace(Get(q, TeamField)) else TrimSpace(Get(q, ForTeamField)))
      && (list && Tag(TagsOf(q), "team") != "" ==> f.team == Tag(TagsOf(q), "team"))
      && (list && Tag(TagsOf(q), "team") == "" ==>
            f.team == if TrimSpace(Get(q, TeamField)) != "" then TrimSpace(Get(q, TeamField)) else TrimSpace(Get(q, ForTeamField)))
      && (list ==> f.range == (if Get(q, RangeField) == "" then "24h" else Get(q, RangeField)) && f.userName == Get(q, UserField))
      && (!list ==> f.range == "" && f.userName == "" && f.tags == [])
      && (f.alerted <==> ViewOf(q) == AlertsView)
      && f.eventType == TrimSpace(Get(q, TypeField))
      && f.scopes == NormalValues(Values(q, ScopeField)) && f.severities == NormalValues(Values(q, SeverityField))
      && (f.range == "custom" ==> f.startAfter == Get(q, StartAfterField) && f.startBefore == Get(q, StartBeforeField))
      && (f.range != "custom" ==> f.startAfter == "" && f.startBefore == "")
  {
    hide TrimSpace, Get, ViewOf, TagMap, NormalValues, WellFormedTag, Filter;
    NoTeamTag();
  }

  predicate NonEmpty(value: string) {
    value != ""
  }

  /** The kept values are the given ones, trimmed and in lower case, without the empty ones. */
  lemma {:induction false} NormalValuesExactly(values: seq<string>, lowered: seq<string>)
    requires |lowered| == |values| && forall i :: 0 <= i < |values| ==> lowered[i] == ToLower(TrimSpace(values[i]))
    ensures NormalValues(values) == Filter(lowered, NonEmpty)
  {
    hide ToLower, TrimSpace;
    if values != [] {
      NormalValuesExactly(values[1..], lowered[1..]);
    }
  }

  method ParseTags(q: Query, filters: Filters) returns (tags: Tags, filters': Filters)
    requires filters.tags == []
    ensures tags == TagMap(Values(q, TagField))
    ensures filters' == filters.(tags := Filter(Values(q, TagField), WellFormedTag))
  {
    hide Filter, TagMap, Cut;
    tags := map[];
    filters' := filters;
    var tagValues := Values(q, TagField);
    NoTags();
    FilterNothing();
    assert tagValues[..0] == [];
    for i := 0 to |tagValues|
      invariant tags == TagMap(tagValues[..i])
      invariant filters' == filters.(tags := Filter(tagValues[..i], WellFormedTag))
    {
      ParseTagsStep(tagValues, i);
      var (key, value, found) := Cut(tagValues[i], ':');
      if !found || key == "" {
        continue;
      }
      tags := tags[key := value];
      filters' := filters'.(tags := filters'.tags + [tagValues[i]]);
    }
    assert tagValues[..|tagValues|] == tagValues;
  }

  function KeptValue(value: string): seq<string> {
    if value == "" then [] else [value]
  }

  lemma NormalValuesStep(values: seq<string>, i: nat, result: seq<string>)
    requires i < |values|
    ensures result + NormalValues(values[i..]) == (result + KeptValue(NormalValue(values[i]))) + NormalValues(values[i + 1..])
  {
    hide NormalValue;
    assert values[i..][1..] == values[i + 1..];
  }

  method NormalizeCurrentValues(values: seq<string>) returns (result: seq<string>)
    ensures result == NormalValues(values)
  {
    result := [];
    for i := 0 to |values|
      invariant result + NormalValues(values[i..]) == NormalValues(values)
    {
      hide NormalValue, NormalValues;
      NormalValuesStep(values, i, result);
      var value := NormalValue(values[i]);
      if value != "" {
        result := result + [value];
      } else {
        assert result + KeptValue(value) == result;
      }
    }
  }

  predicate IsQuick(range: string) {
    range == "5m" || range == "30m" || range == "1h" || range == "24h"
  }

  function QuickRange(range: string): int
    requires IsQuick(range)
  {
    if range == "5m" then 300 * SECOND else if range == "30m" then 1800 * SECOND else if range == "1h" then 3600 * SECOND else 86400 * SECOND
  }

  function RangeOf(q: Query): string {
    if Get(q, RangeField) == "" then "24h" else Get(q, RangeField)
  }

  /** The time window a range asks for: a preset looks back from now, a custom range
      has the bounds that parse, and an unknown range has none. */
  ghost predicate Window(range: string, from: string, until: string, after: Option<int>, before: Option<int>,
                         now: int, parseTime: string -> Option<int>)
  {
    if range == "5m" then after == Some(now - 5 * 60 * SECOND) && before == None
    else if range == "30m" then after == Some(now - 30 * 60 * SECOND) && before == None
    else if range == "1h" then after == Some(now - 60 * 60 * SECOND) && before == None
    else if range == "24h" then after == Some(now - 24 * 60 * 60 * SECOND) && before == None
    else if range == "custom" then
      && after == (if from == "" then None else parseTime(from))
      && before == (if until == "" then None else parseTime(until))
    else after == None && before == None
  }

  const DAY: int := 86400 * SECOND

  /** The last 24 hours are shown exactly for an empty range, for "24h", and for a
      custom range whose own bounds parse to them. */
  lemma LastDayExactly(q: Query, from: string, until: string, after: Option<int>, before: Option<int>,
                       now: int, parseTime: string -> Option<int>)
    requires Window(RangeOf(q), from, until, after, before, now, parseTime)
    ensures after == Some(now - DAY) && before == None <==>
              || Get(q, RangeField) == ""
              || Get(q, RangeField) == "24h"
              || (Get(q, RangeField) == "custom"
                  && from != "" && parseTime(from) == Some(now - DAY)
                  && (until == "" || parseTime(until) == None))
  {
    hide Get;
    var given := Get(q, RangeField);
    assert |"5m"| == 2 && |"30m"| == 3 && |"1h"| == 2 && |"24h"| == 3 && |"custom"| == 6 && |""| == 0;
    assert "1h"[0] != "5m"[0] && "30m"[0] != "24h"[0];
  }

  /** The fallback to 24 hours promised for a range that is "unset or unrecognized"
      is met exactly when it is unset: an unrecognized one has no bounds at all. */
  lemma FallbackOnlyWhenUnset(q: Query, from: string, until: string, after: Option<int>, before: Option<int>,
                              now: int, parseTime: string -> Option<int>)
    requires Window(RangeOf(q), from, until, after, before, now, parseTime)
    requires !IsQuick(Get(q, RangeField)) && Get(q, RangeField) != "custom"
    ensures after == Some(now - DAY) && before == None <==> Get(q, RangeField) == ""
    ensures Get(q, RangeField) != "" ==> after == None && before == None
  {
    LastDayExactly(q, from, until, after, before, now, parseTime);
  }

  /** A request for which the promise fails. */
  lemma UnrecognizedRangeHasNoBounds(q: Query, after: Option<int>, before: Option<int>, now: int, parseTime: string -> Option<int>)
    requires q == map[RangeField := ["7d"]]
    requires Window(RangeOf(q), "", "", after, before, now, parseTime)
    ensures Listing(ViewOf(q)) && after == None && before == None
  {
    var given := Get(q, RangeField);
    assert given == "7d" && |"7d"| == 2 && "7d"[0] != "5m"[0] && "7d"[0] != "1h"[0] && |"30m"| == 3 && |"24h"| == 3 && |"custom"| == 6;
  }

  /** parseDashboardRange. parseTime is Go's time.Parse. */
  method ParseRange(q: Query, now: int, parseTime: string -> Option<int>, params: ListParams, filters: Filters)
    returns (params': ListParams, filters': Filters)
    requires params.startAfter == None && params.startBefore == None && filters.startAfter == "" && filters.startBefore == ""
    ensures filters' == filters.(range := RangeOf(q),
                                 startAfter := if RangeOf(q) == "custom" then Get(q, StartAfterField) else "",
                                 startBefore := if RangeOf(q) == "custom" then Get(q, StartBeforeField) else "")
    ensures params' == params.(startAfter := params'.startAfter, startBefore := params'.startBefore)
    ensures Window(RangeOf(q), filters'.startAfter, filters'.startBefore, params'.startAfter, params'.startBefore, now, parseTime)
  {
    var range := RangeOf(q);
    params', filters' := params, filters.(range := range);
    if IsQuick(range) {
      return params'.(startAfter := Some(now - QuickRange(range))), filters';
    }
    if range != "custom" {
      return;
    }
    var v := Get(q, StartAfterField);
    if v != "" {
      filters' := filters'.(startAfter := v);
      params' := params'.(startAfter := parseTime(v));
    }
    v := Get(q, StartBeforeField);
    if v != "" {
      filters' := filters'.(startBefore := v);
      params' := params'.(startBefore := parseTime(v));
    }
  }

  /** The list parameters and the form filters describe the same query. */
  ghost predicate SameQuery(params: ListParams, filters: Filters, tags: Tags) {
    && params.topLevel && params.parentId == "" && params.around == None && params.window == None && params.tags == tags
    && params.eventType == filters.eventType && params.userName == filters.userName && params.alertedOnly == filters.alerted
  }

  /** parseDashboardRequest, without limit and offset. */
  method ParseDashboardRequest(q: Query, now: int, parseTime: string -> Option<int>) returns (params: ListParams, filters: Filters)
    ensures filters == FiltersOf(q)
    ensures SameQuery(params, filters, TagsOf(q))
    ensures Listing(filters.view) ==>
              Window(filters.range, filters.startAfter, filters.startBefore, params.startAfter, params.startBefore, now, parseTime)
    ensures !Listing(filters.view) ==> params.startAfter == None && params.startBefore == None
  {
    hide TrimSpace, Get, Values, ViewOf, TagMap, Window, NormalValues, WellFormedTag, Filter, Tag, OwnTeam;
    params := ListParams("", None, None, None, None, "", "", true, false, map[], 0, 0);
    var scopes := NormalizeCurrentValues(Values(q, ScopeField));
    var severities := NormalizeCurrentValues(Values(q, SeverityField));
    filters := Filters(ViewOf(q), OwnTeam(q), "", "", "", "", "", false, [], scopes, severities);
    var list := Listing(filters.view);
    if list {
      params, filters := ParseRange(q, now, parseTime, params, filters);
    }
    if filters.view == AlertsView {
      filters := filters.(alerted := true);
      params := params.(alertedOnly := true);
    }
    var eventType := TrimSpace(Get(q, TypeField));
    filters := filters.(eventType := eventType);
    params := params.(eventType := eventType);
    if list {
      var user := Get(q, UserField);
      filters := filters.(userName := user);
      params := params.(userName := user);
      var tags;
      tags, filters := ParseTags(q, filters);
      params := params.(tags := tags);
      if Tag(tags, "team") != "" {
        filters := filters.(team := Tag(tags, "team"));
      }
    } else {
      NoTeamTag();
    }
  }

  lemma NoTeamTag()
    ensures Tag(map[], "team") == ""
  {
  }

  // ----- Printing

  function Single(value: string): seq<string> {
    if value == "" then [] else [value]
  }

  /** Every other parameter of a request: none of them is ever reflected into a link. */
  predicate Unprinted(field: Field) {
    field !in {ViewField, TeamField, RangeField, StartAfterField, StartBeforeField, TypeField, UserField,
               ScopeField, SeverityField, TagField}
  }

  ghost predicate OnlyFilters(q: Query) {
    forall field :: Unprinted(field) ==> Values(q, field) == []
  }

  /** The query carries exactly the filters' values under their own names and nothing else. */
  ghost predicate Printed(q: Query, f: Filters) {
    && Values(q, ViewField) == [ViewName(f.view)]
    && Values(q, TeamField) == Single(f.team)
    && Values(q, RangeField) == Single(f.range)
    && Values(q, StartAfterField) == Single(f.startAfter)
    && Values(q, StartBeforeField) == Single(f.startBefore)
    && Values(q, TypeField) == Single(f.eventType)
    && Values(q, UserField) == Single(f.userName)
    && Values(q, ScopeField) == f.scopes
    && Values(q, SeverityField) == f.severities
    && Values(q, TagField) == f.tags
    && OnlyFilters(q)
  }

  /** What the parser sees of the printed values: only the first of each single-valued parameter. */
  ghost predicate Carries(q: Query, f: Filters) {
    && Get(q, ViewField) == ViewName(f.view)
    && Get(q, TeamField) == f.team
    && Get(q, RangeField) == f.range
    && Get(q, StartAfterField) == f.startAfter
    && Get(q, StartBeforeField) == f.startBefore
    && Get(q, TypeField) == f.eventType
    && Get(q, UserField) == f.userName
    && Values(q, ScopeField) == f.scopes
    && Values(q, SeverityField) == f.severities
    && Values(q, TagField) == f.tags
    && OnlyFilters(q)
  }

  method AddAll(q: Query, field: Field, values: seq<string>) returns (q': Query)
    ensures Values(q', field) == Values(q, field) + values
    ensures forall other :: other != field ==> Values(q', other) == Values(q, other)
  {
    q' := q;
    for i := 0 to |values|
      invariant Values(q', field) == Values(q, field) + values[..i]
      invariant forall other :: other != field ==> Values(q', other) == Values(q, other)
    {
      assert values[..i + 1] == values[..i] + [values[i]];
      q' := Add(q', field, values[i]);
    }
    assert values[..|values|] == values;
  }

  method SetUnlessEmpty(q: Query, field: Field, value: string) returns (q': Query)
    requires Values(q, field) == []
    ensures Values(q', field) == Single(value)
    ensures forall other :: other != field ==> Values(q', other) == Values(q, other)
  {
    q' := if value != "" then Set(q, field, value) else q;
  }

  /** dashboardFilterQuery: the single-valued parameters first, then the lists. */
  method FilterQuery(f: Filters) returns (q: Query)
    ensures Printed(q, f)
  {
    hide Values, ViewName, Single;
    q := Settings(f);
    q := AddLists(q, f.scopes, f.severities, f.tags);
  }

  method Settings(f: Filters) returns (q: Query)
    ensures Values(q, ViewField) == [ViewName(f.view)]
    ensures Values(q, TeamField) == Single(f.team)
    ensures Values(q, RangeField) == Single(f.range)
    ensures Values(q, StartAfterField) == Single(f.startAfter)
    ensures Values(q, StartBeforeField) == Single(f.startBefore)
    ensures Values(q, TypeField) == Single(f.eventType)
    ensures Values(q, UserField) == Single(f.userName)
    ensures Values(q, ScopeField) == [] && Values(q, SeverityField) == [] && Values(q, TagField) == []
    ensures OnlyFilters(q)
  {
    hide Values, ViewName, Single;
    q := Context(f);
    q := SetUnlessEmpty(q, StartAfterField, f.startAfter);
    q := SetUnlessEmpty(q, StartBeforeField, f.startBefore);
    q := SetUnlessEmpty(q, TypeField, f.eventType);
    q := SetUnlessEmpty(q, UserField, f.userName);
  }

  method Context(f: Filters) returns (q: Query)
    ensures Values(q, ViewField) == [ViewName(f.view)] && Values(q, TeamField) == Single(f.team) && Values(q, RangeField) == Single(f.range)
    ensures forall field :: field !in {ViewField, TeamField, RangeField} ==> Values(q, field) == []
  {
    hide Values, ViewName, Single;
    q := ViewOnly(f.view);
    q := SetUnlessEmpty(q, TeamField, f.team);
    q := SetUnlessEmpty(q, RangeField, f.range);
  }

  method AddLists(q: Query, scopes: seq<string>, severities: seq<string>, tags: seq<string>) returns (q': Query)
    requires Values(q, ScopeField) == [] && Values(q, SeverityField) == [] && Values(q, TagField) == []
    ensures Values(q', ScopeField) == scopes && Values(q', SeverityField) == severities && Values(q', TagField) == tags
    ensures forall other :: other !in {ScopeField, SeverityField, TagField} ==> Values(q', other) == Values(q, other)
    ensures OnlyFilters(q) ==> OnlyFilters(q')
  {
    hide Values;
    q' := AddAll(q, ScopeField, scopes);
    q' := AddAll(q', SeverityField, severities);
    q' := AddAll(q', TagField, tags);
  }

  method ViewOnly(view: View) returns (q: Query)
    ensures Values(q, ViewField) == [ViewName(view)]
    ensures forall other :: other != ViewField ==> Values(q, other) == []
  {
    q := Set(map[], ViewField, ViewName(view));
  }

  // ----- Round trip

  lemma PrintedCarries(q: Query, f: Filters)
    requires Printed(q, f)
    ensures Carries(q, f)
  {
  }

  lemma ViewRoundTrip(view: View, q: Query)
    requires Get(q, ViewField) == ViewName(view)
    ensures ViewOf(q) == view
  {
  }

  lemma NormalValueIsFixed(value: string)
    ensures NormalValue(NormalValue(value)) == NormalValue(value)
  {
    LowerKeepsTrimmed(TrimSpace(value));
    LowerIsIdempotent(TrimSpace(value));
  }

  lemma {:induction false} NormalValuesAreFixed(values: seq<string>)
    ensures NormalValues(NormalValues(values)) == NormalValues(values)
  {
    hide NormalValue;
    if values != [] {
      NormalValuesAreFixed(values[1..]);
      NormalValueIsFixed(values[0]);
      var v, rest := NormalValue(values[0]), NormalValues(values[1..]);
      assert ([v] + rest)[1..] == rest;
      assert [] + rest == rest;
    }
  }

  lemma {:induction false} FilterIsFixed(entries: seq<string>)
    ensures Filter(Filter(entries, WellFormedTag), WellFormedTag) == Filter(entries, WellFormedTag)
  {
    hide WellFormedTag;
    if entries != [] {
      FilterIsFixed(entries[1..]);
      var rest := Filter(entries[1..], WellFormedTag);
      assert ([entries[0]] + rest)[1..] == rest;
      assert [] + rest == rest;
    }
  }

  lemma {:induction false} TagMapAppend(entries: seq<string>, entry: string)
    ensures TagMap(entries + [entry]) == PutTag(TagMap(entries), entry)
  {
    hide PutTag;
    assert (entries + [entry])[..|entries|] == entries;
  }

  lemma MalformedPutsNothing(tags: Tags, entry: string)
    ensures !WellFormedTag(entry) ==> PutTag(tags, entry) == tags
  {
  }

  /** Malformed entries do not contribute to the tag filter. */
  lemma {:induction false} TagMapOfWellFormed(entries: seq<string>)
    ensures TagMap(Filter(entries, WellFormedTag)) == TagMap(entries)
  {
    hide WellFormedTag, PutTag, Filter;
    if entries != [] {
      var init, last := entries[..|entries| - 1], entries[|entries| - 1];
      assert entries == init + [last];
      TagMapOfWellFormed(init);
      FilterAppend(init, last, WellFormedTag);
      TagMapAppend(Filter(init, WellFormedTag), last);
      MalformedPutsNothing(TagMap(init), last);
      assert Filter(init, WellFormedTag) + [] == Filter(init, WellFormedTag);
    } else {
      assert Filter(entries, WellFormedTag) == [] by { FilterNothing(); }
    }
  }

  lemma FilterNothing()
    ensures Filter([], WellFormedTag) == []
  {
  }

  lemma TrimIsFixed(value: string)
    ensures TrimSpace(TrimSpace(value)) == TrimSpace(value)
  {
  }

  lemma OwnTeamIsTrimmed(q: Query)
    ensures TrimSpace(OwnTeam(q)) == OwnTeam(q)
  {
  }

  lemma OwnTeamOf(q: Query, team: string)
    requires Get(q, TeamField) == team && Get(q, ForTeamField) == ""
    ensures OwnTeam(q) == TrimSpace(team)
  {
  }

  lemma NoForTeam(q: Query)
    requires OnlyFilters(q)
    ensures Get(q, ForTeamField) == ""
  {
    assert Unprinted(ForTeamField);
  }

  /** The team shown for a tag filter and a team parameter: a nonempty team tag wins. */
  function TeamFor(tags: Tags, team: string): string {
    if Tag(tags, "team") != "" then Tag(tags, "team") else TrimSpace(team)
  }

  /** Parsing a query that carries some filters' values, with new team and tag
      values, changes nothing but the team and the tags. */
  lemma ParsedAgain(q: Query, carrier: Query, team: string, entries: seq<string>)
    requires Carries(carrier, FiltersOf(q).(team := team, tags := entries))
    requires !Listing(ViewOf(q)) ==> entries == []
    ensures FiltersOf(carrier) ==
            FiltersOf(q).(team := TeamFor(TagsOf(carrier), team), tags := Filter(entries, WellFormedTag))
    ensures TagsOf(carrier) == TagMap(entries)
  {
    hide TrimSpace, Get, Values, ViewOf, ViewName, NormalValues, WellFormedTag, Filter, Tag, OwnTeam, OnlyFilters;
    var f := FiltersOf(q);
    NoForTeam(carrier);
    ViewRoundTrip(f.view, carrier);
    NormalValuesAreFixed(Values(q, ScopeField));
    NormalValuesAreFixed(Values(q, SeverityField));
    TrimIsFixed(Get(q, TypeField));
    OwnTeamOf(carrier, team);
    FilterNothing();
    assert TagsOf(carrier) == TagMap(entries);
  }

  /** Parsing the query printed from any parsed filters gives back the same
      filters and the same tag filter. */
  lemma FilterQueryRoundTrip(q: Query, printed: Query)
    requires Printed(printed, FiltersOf(q))
    ensures FiltersOf(printed) == FiltersOf(q)
    ensures TagsOf(printed) == TagsOf(q)
  {
    hide TrimSpace, Get, Values, ViewOf, ViewName, TagMap, NormalValues, WellFormedTag, Filter, Tag, OwnTeam, Single, Printed, Carries;
    var f := FiltersOf(q);
    PrintedCarries(printed, f);
    ParsedAgain(q, printed, f.team, f.tags);
    ParsedTags(q);
    FilterIsFixed(Values(q, TagField));
    FilterNothing();
    ParsedTeamIsFixed(q);
  }

  /** The kept entries stand for the whole tag filter. */
  lemma ParsedTags(q: Query)
    ensures TagMap(FiltersOf(q).tags) == TagsOf(q)
  {
    hide Get, Values, ViewOf, NormalValues, WellFormedTag, Filter, Tag, OwnTeam, TrimSpace;
    TagMapOfWellFormed(Values(q, TagField));
  }

  lemma ParsedTeamIsFixed(q: Query)
    ensures TeamFor(TagsOf(q), FiltersOf(q).team) == FiltersOf(q).team
  {
    hide Get, Values, ViewOf, NormalValues, WellFormedTag, Filter, Tag, TagMap;
    OwnTeamIsTrimmed(q);
  }

  /** A tag entry is a nonempty key without colons, a colon, and any value. */
  ghost predicate Gives(entry: string, key: string, value: string) {
    key != "" && ':' !in key && entry == key + ":" + value
  }

  lemma EntryGives(entry: string) returns (key: string, value: string)
    ensures WellFormedTag(entry) ==> Gives(entry, key, value)
    ensures !WellFormedTag(entry) ==> forall key, value :: !Gives(entry, key, value)
    ensures forall tags :: PutTag(tags, entry) == if WellFormedTag(entry) then tags[key := value] else tags
  {
    var cut := Cut(entry, ':');
    key, value := cut.0, cut.1;
    forall key, value | Gives(entry, key, value) ensures WellFormedTag(entry) {
      LinkEntry(map[], key, value);
    }
  }

  lemma OneGiven(entry: string, key: string, value: string, key': string, value': string)
    requires Gives(entry, key, value) && Gives(entry, key', value')
    ensures key == key' && value == value'
  {
    CutAtFirst(key, value, ':');
    CutAtFirst(key', value', ':');
    assert key + ":" + value == key + [':'] + value && key' + ":" + value' == key' + [':'] + value';
  }

  /** The tag filter holds a value for a key exactly when some entry gives it and no
      later entry gives the key: malformed entries are skipped and later ones win. */
  lemma {:induction false} LastEntryWins(entries: seq<string>, key: string, value: string)
    ensures key in TagMap(entries) && TagMap(entries)[key] == value <==> exists i :: LastToGive(entries, i, key, value)
  {
    hide PutTag, TagMap, WellFormedTag, Gives;
    if entries == [] {
      NoTags();
    } else {
      var init, last := entries[..|entries| - 1], entries[|entries| - 1];
      assert entries == init + [last];
      LastEntryWins(init, key, value);
      TagMapAppend(init, last);
      var key', value' := EntryGives(last);
      LastIndex(init, last, key, value);
      forall v | Gives(last, key, v) ensures key == key' && v == value' {
        OneGiven(last, key, v, key', value');
      }
    }
  }

  ghost predicate LastToGive(entries: seq<string>, i: int, key: string, value: string) {
    && 0 <= i < |entries| && Gives(entries[i], key, value)
    && forall j, v :: i < j < |entries| ==> !Gives(entries[j], key, v)
  }

  lemma LastIndex(init: seq<string>, last: string, key: string, value: string)
    ensures (exists i :: LastToGive(init + [last], i, key, value)) <==>
              Gives(last, key, value) || ((forall v :: !Gives(last, key, v)) && exists i :: LastToGive(init, i, key, value))
  {
    hide Gives;
    var entries := init + [last];
    assert entries[|init|] == last && forall j :: 0 <= j < |init| ==> entries[j] == init[j];
    if Gives(last, key, value) {
      assert LastToGive(entries, |init|, key, value);
    }
    if i :| LastToGive(init, i, key, value) {
      assert (forall v :: !Gives(last, key, v)) ==> LastToGive(entries, i, key, value);
    }
    if i :| LastToGive(entries, i, key, value) {
      assert i < |init| ==> LastToGive(init, i, key, value);
    }
  }

  // ----- Tag links

  /** Removing a tag clears the team exactly when it is the tag of the team shown. */
  lemma ClearsTeamExactly(f: Filters, removed: string)
    ensures ClearsTeam(f, removed) <==> removed == "team:" + f.team
  {
    assert "team:" + f.team == "team" + [':'] + f.team;
    CutAtFirst("team", f.team, ':');
    hide Cut;
  }

  /** A new value for a key drops exactly the entries of that key and the malformed ones. */
  lemma HasOtherKeyExactly(entry: string, key: string)
    ensures HasOtherKey(entry, key) <==> ':' in entry && (':' in key || !(key + ":" <= entry))
  {
    hide Cut;
    if ':' !in key && key + ":" <= entry {
      var rest := entry[|key| + 1..];
      assert entry == key + [':'] + rest;
      CutAtFirst(key, rest, ':');
    }
    var (existing, value, found) := Cut(entry, ':');
    if found && existing == key {
      assert entry[..|key| + 1] == key + ":";
    }
  }

  predicate HasOtherKey(entry: string, key: string) {
    var (existing, value, found) := Cut(entry, ':');
    found && existing != key
  }

  function OtherKey(key: string): string -> bool {
    entry => HasOtherKey(entry, key)
  }

  function OtherEntry(removed: string): string -> bool {
    entry => entry != removed
  }

  /** The filters a tag link asks for: one value for the key, and for the team its context too. */
  function Selecting(f: Filters, key: string, value: string): Filters {
    f.(team := if key == "team" then value else f.team,
       tags := Filter(f.tags, OtherKey(key)) + [key + ":" + value])
  }

  /** Whether removing this tag also clears the team context it established. */
  predicate ClearsTeam(f: Filters, removed: string) {
    var (key, value, found) := Cut(removed, ':');
    found && key == "team" && f.team == value
  }

  /** The filters a remove link asks for. */
  function Removing(f: Filters, removed: string): Filters {
    f.(team := if ClearsTeam(f, removed) then "" else f.team, tags := Filter(f.tags, OtherEntry(removed)))
  }

  /** The two queries hold the same values outside the tag parameter. */
  ghost predicate SameOutsideTags(q: Query, q': Query) {
    forall field :: field != TagField ==> Values(q', field) == Values(q, field)
  }

  method KeepOtherKeys(q: Query, entries: seq<string>, key: string) returns (q': Query)
    ensures Values(q', TagField) == Filter(entries, OtherKey(key))
    ensures SameOutsideTags(q, q')
  {
    hide Filter, Cut;
    q' := Del(q, TagField);
    ghost var keep := OtherKey(key);
    assert entries[..0] == [] && Filter(entries[..0], keep) == [];
    for i := 0 to |entries|
      invariant Values(q', TagField) == Filter(entries[..i], keep)
      invariant SameOutsideTags(q, q')
    {
      assert entries[..i + 1] == entries[..i] + [entries[i]];
      FilterAppend(entries[..i], entries[i], keep);
      var (existingKey, _, ok) := Cut(entries[i], ':');
      if ok && existingKey != key {
        q' := Add(q', TagField, entries[i]);
      }
    }
    assert entries[..|entries|] == entries;
  }

  method KeepOtherEntries(q: Query, entries: seq<string>, removed: string) returns (q': Query)
    ensures Values(q', TagField) == Filter(entries, OtherEntry(removed))
    ensures SameOutsideTags(q, q')
  {
    hide Filter;
    q' := Del(q, TagField);
    ghost var keep := OtherEntry(removed);
    assert entries[..0] == [] && Filter(entries[..0], keep) == [];
    for i := 0 to |entries|
      invariant Values(q', TagField) == Filter(entries[..i], keep)
      invariant SameOutsideTags(q, q')
    {
      assert entries[..i + 1] == entries[..i] + [entries[i]];
      FilterAppend(entries[..i], entries[i], keep);
      if entries[i] != removed {
        q' := Add(q', TagField, entries[i]);
      }
    }
    assert entries[..|entries|] == entries;
  }

  lemma CarriesTags(q: Query, f: Filters, q': Query, entries: seq<string>)
    requires Carries(q, f) && SameOutsideTags(q, q') && Values(q', TagField) == entries
    ensures Carries(q', f.(tags := entries))
  {
    hide Values, ViewName;
  }

  lemma CarriesTeam(q: Query, f: Filters, team: string)
    requires Carries(q, f)
    ensures Carries(Set(q, TeamField, team), f.(team := team))
    ensures Carries(Del(q, TeamField), f.(team := ""))
  {
    var changed, deleted := Set(q, TeamField, team), Del(q, TeamField);
    assert forall field :: field != TeamField ==> Values(changed, field) == Values(q, field) == Values(deleted, field);
    assert Get(changed, TeamField) == team && Get(deleted, TeamField) == "";
    SameFirst(q, f, changed, team);
    SameFirst(q, f, deleted, "");
  }

  lemma SameFirst(q: Query, f: Filters, q': Query, team: string)
    requires Carries(q, f) && Get(q', TeamField) == team
    requires forall field :: field != TeamField ==> Values(q', field) == Values(q, field)
    ensures Carries(q', f.(team := team))
  {
    hide Values, ViewName;
  }

  /** dashboardTagFilterURL. */
  method TagFilterQuery(f: Filters, key: string, value: string) returns (q: Query)
    ensures Carries(q, Selecting(f, key, value))
  {
    hide Carries, Printed, SameOutsideTags, Filter, OtherKey, Values, Add;
    var printed := FilterQuery(f);
    PrintedCarries(printed, f);
    var kept := KeepOtherKeys(printed, f.tags, key);
    q := Add(kept, TagField, key + ":" + value);
    AddedTag(printed, kept, key + ":" + value);
    ghost var entries := Filter(f.tags, OtherKey(key)) + [key + ":" + value];
    CarriesTags(printed, f, q, entries);
    if key == "team" {
      CarriesTeam(q, f.(tags := entries), value);
      q := Set(q, TeamField, value);
    }
  }

  lemma AddedTag(q: Query, kept: Query, entry: string)
    requires SameOutsideTags(q, kept)
    ensures SameOutsideTags(q, Add(kept, TagField, entry))
    ensures Values(Add(kept, TagField, entry), TagField) == Values(kept, TagField) + [entry]
  {
  }

  /** dashboardTagRemoveURL. */
  method TagRemoveQuery(f: Filters, removed: string) returns (q: Query)
    ensures Carries(q, Removing(f, removed))
  {
    hide Carries, Printed, SameOutsideTags, Filter, Cut, OtherEntry, Values;
    var printed := FilterQuery(f);
    PrintedCarries(printed, f);
    q := KeepOtherEntries(printed, f.tags, removed);
    ghost var entries := Filter(f.tags, OtherEntry(removed));
    CarriesTags(printed, f, q, entries);
    var (key, value, ok) := Cut(removed, ':');
    if ok && key == "team" && f.team == value {
      CarriesTeam(q, f.(tags := entries), "");
      q := Del(q, TeamField);
    }
  }

  // ----- What following a link does

  lemma PutOther(tags: Tags, tags': Tags, entry: string, key: string)
    requires tags' == tags - {key} && WellFormedTag(entry)
    ensures HasOtherKey(entry, key) ==> PutTag(tags', entry) == PutTag(tags, entry) - {key}
    ensures !HasOtherKey(entry, key) ==> tags' == PutTag(tags, entry) - {key}
  {
  }

  /** Dropping every entry of a key removes exactly that key from the tag filter. */
  lemma {:induction false} TagMapWithoutKey(entries: seq<string>, key: string)
    requires forall entry :: entry in entries ==> WellFormedTag(entry)
    ensures TagMap(Filter(entries, OtherKey(key))) == TagMap(entries) - {key}
  {
    hide WellFormedTag, PutTag, Filter, HasOtherKey, TagMap, TagKeyOf;
    if entries != [] {
      var init, last := entries[..|entries| - 1], entries[|entries| - 1];
      assert entries == init + [last];
      assert last in entries;
      TagMapWithoutKey(init, key);
      FilterAppend(init, last, OtherKey(key));
      var kept := Filter(init, OtherKey(key));
      TagMapAppend(init, last);
      TagMapAppend(kept, last);
      PutOther(TagMap(init), TagMap(kept), last, key);
      assert kept + [] == kept;
    } else {
      NothingToFilter(OtherKey(key));
      NoTags();
      assert entries == [];
    }
  }

  lemma NoTags()
    ensures TagMap([]) == map[]
  {
  }

  lemma NothingToFilter(keep: string -> bool)
    ensures Filter([], keep) == []
  {
  }

  lemma LinkEntry(tags: Tags, key: string, value: string)
    requires key != "" && ':' !in key
    ensures WellFormedTag(key + ":" + value)
    ensures PutTag(tags, key + ":" + value) == tags[key := value]
  {
    assert key + ":" + value == key + [':'] + value;
    CutAtFirst(key, value, ':');
  }

  /** Following a tag link sets exactly that key in the tag filter and keeps every
      other tag and every other setting; a team tag also becomes the team shown. */
  lemma TagLinkSetsOneTag(q: Query, link: Query, key: string, value: string)
    requires Listing(ViewOf(q)) && key != "" && ':' !in key
    requires Carries(link, Selecting(FiltersOf(q), key, value))
    ensures TagsOf(link) == TagsOf(q)[key := value]
    ensures FiltersOf(link) == Selecting(FiltersOf(q), key, value)
  {
    hide TrimSpace, Get, Values, ViewOf, ViewName, TagMap, NormalValues, WellFormedTag, PutTag, Filter, OwnTeam, Carries;
    var f := FiltersOf(q);
    var entry := key + ":" + value;
    var kept := Filter(f.tags, OtherKey(key));
    var team := if key == "team" then value else f.team;
    ParsedAgain(q, link, team, kept + [entry]);
    TagMapWithoutKey(f.tags, key);
    ParsedTags(q);
    TagMapAppend(kept, entry);
    LinkEntry(TagMap(kept), key, value);
    FilterKeepsAll(kept + [entry], WellFormedTag);
    assert TagsOf(link) == (TagsOf(q) - {key})[key := value] == TagsOf(q)[key := value];
    ParsedTeamIsFixed(q);
    TeamAfterLink(TagsOf(q), f.team, key, value);
  }

  lemma TeamAfterLink(tags: Tags, team: string, key: string, value: string)
    requires TeamFor(tags, team) == team
    ensures TeamFor(tags[key := value], if key == "team" then value else team) == (if key == "team" then value else team)
  {
  }

  /** Following a remove link leaves exactly the map of the remaining tags and every
      other setting; the team shown is a remaining team tag, nothing if the removed
      tag established it, and otherwise the team as before. */
  lemma RemoveLinkLeavesRemainingTags(q: Query, link: Query, removed: string)
    requires Listing(ViewOf(q))
    requires Carries(link, Removing(FiltersOf(q), removed))
    ensures TagsOf(link) == TagMap(Filter(FiltersOf(q).tags, OtherEntry(removed)))
    ensures var asked := Removing(FiltersOf(q), removed);
      FiltersOf(link) == asked.(team := TeamFor(TagsOf(link), asked.team))
  {
    hide TrimSpace, Get, Values, ViewOf, ViewName, TagMap, NormalValues, WellFormedTag, PutTag, Filter, OwnTeam, Carries, TeamFor;
    var f := FiltersOf(q);
    var kept := Filter(f.tags, OtherEntry(removed));
    ParsedAgain(q, link, if ClearsTeam(f, removed) then "" else f.team, kept);
    FilterKeepsAll(kept, WellFormedTag);
  }

  lemma {:induction false} FilterOthersAgain(entries: seq<string>, key: string, value: string)
    requires ':' !in key
    ensures Filter(Filter(entries, OtherKey(key)) + [key + ":" + value], OtherEntry(key + ":" + value))
            == Filter(entries, OtherKey(key))
  {
    var entry := key + ":" + value;
    var kept := Filter(entries, OtherKey(key));
    FilterAppend(kept, entry, OtherEntry(entry));
    assert entry == key + [':'] + value;
    CutAtFirst(key, value, ':');
    FilterKeepsAll(kept, OtherEntry(entry));
  }

  /** Removing the tag a link has just set takes back exactly that key. */
  lemma RemoveUndoesFilter(q: Query, link: Query, undone: Query, key: string, value: string)
    requires Listing(ViewOf(q)) && key != "" && ':' !in key
    requires Carries(link, Selecting(FiltersOf(q), key, value))
    requires Carries(undone, Removing(FiltersOf(link), key + ":" + value))
    ensures TagsOf(undone) == TagsOf(q) - {key}
  {
    hide Carries, TagMap, Filter, FiltersOf, TagsOf;
    var f := FiltersOf(q);
    TagLinkSetsOneTag(q, link, key, value);
    LinkKeepsView(q, link);
    RemoveLinkLeavesRemainingTags(link, undone, key + ":" + value);
    FilterOthersAgain(f.tags, key, value);
    ParsedEntries(q);
    TagMapWithoutKey(f.tags, key);
    ParsedTags(q);
  }

  lemma LinkKeepsView(q: Query, link: Query)
    requires FiltersOf(link).view == FiltersOf(q).view
    ensures ViewOf(link) == ViewOf(q)
  {
  }

  lemma ParsedEntries(q: Query)
    ensures forall entry :: entry in FiltersOf(q).tags ==> WellFormedTag(entry)
  {
    hide WellFormedTag;
  }

  lemma LastEntryKey(tags: Tags, entry: string, key: string)
    ensures key in PutTag(tags, entry) <==> key in tags || TagKeyOf(entry) == Some(key)
  {
  }

  /** A key is in the tag filter exactly when some entry gives it. */
  lemma {:induction false} GivenKeys(entries: seq<string>, key: string)
    ensures key in TagMap(entries) <==> exists entry :: entry in entries && TagKeyOf(entry) == Some(key)
  {
    hide PutTag, TagKeyOf, TagMap;
    if entries == [] {
      NoTags();
    } else {
      var init, last := entries[..|entries| - 1], entries[|entries| - 1];
      assert entries == init + [last];
      GivenKeys(init, key);
      TagMapAppend(init, last);
      LastEntryKey(TagMap(init), last, key);
    }
  }

  /** Following a remove link removes a key exactly when no other entry gives it. */
  lemma RemovalRemovesKeyExactly(q: Query, link: Query, removed: string, key: string)
    requires Listing(ViewOf(q))
    requires Carries(link, Removing(FiltersOf(q), removed))
    ensures key !in TagsOf(link) <==>
            forall entry :: entry in FiltersOf(q).tags && entry != removed ==> TagKeyOf(entry) != Some(key)
  {
    hide TagKeyOf, TagMap, FiltersOf, TagsOf, Carries, Removing;
    RemoveLinkLeavesRemainingTags(q, link, removed);
    GivenKeys(Filter(FiltersOf(q).tags, OtherEntry(removed)), key);
  }

  lemma TwoValues(key: string, earlier: string, later: string)
    requires key != "" && ':' !in key && earlier != later
    ensures var first, second := key + ":" + earlier, key + ":" + later;
      && WellFormedTag(first) && WellFormedTag(second) && first != second
      && TagMap([first]) == map[key := earlier]
      && TagMap([first, second]) == map[key := later]
  {
    hide Cut, TagMap, PutTag, WellFormedTag;
    var first, second := key + ":" + earlier, key + ":" + later;
    NoTags();
    LinkEntry(map[], key, earlier);
    LinkEntry(map[key := earlier], key, later);
    TagMapAppend([], first);
    TagMapAppend([first], second);
    assert [] + [first] == [first] && [first] + [second] == [first, second];
    assert first[|key| + 1..] == earlier && second[|key| + 1..] == later;
  }

  /** So a remove link need not remove its key: after key:earlier and key:later were
      both asked for, removing the later one brings the earlier value back. */
  lemma RemovalRevealsAnEarlierValue(q: Query, link: Query, key: string, earlier: string, later: string)
    requires key != "" && ':' !in key && earlier != later
    requires Listing(ViewOf(q)) && Values(q, TagField) == [key + ":" + earlier, key + ":" + later]
    requires Carries(link, Removing(FiltersOf(q), key + ":" + later))
    ensures TagsOf(q) == map[key := later]
    ensures TagsOf(link) == map[key := earlier]
  {
    hide TagMap, Filter, Carries, Removing, FiltersOf, TagsOf, Values, ViewOf, WellFormedTag;
    var first, second := key + ":" + earlier, key + ":" + later;
    TwoValues(key, earlier, later);
    TwoEntries(q, first, second);
    RemoveLinkLeavesRemainingTags(q, link, second);
    KeepsFirst(first, second);
  }

  lemma TwoEntries(q: Query, first: string, second: string)
    requires Listing(ViewOf(q)) && Values(q, TagField) == [first, second]
    requires WellFormedTag(first) && WellFormedTag(second)
    ensures FiltersOf(q).tags == [first, second] && TagsOf(q) == TagMap([first, second])
  {
    hide WellFormedTag, TagMap, Get, ViewOf;
    FilterKeepsAll([first, second], WellFormedTag);
  }

  lemma KeepsFirst(first: string, second: string)
    requires first != second
    ensures Filter([first, second], OtherEntry(second)) == [first]
  {
    hide Filter;
    NothingToFilter(OtherEntry(second));
    assert [] + [first] == [first] && [first] + [second] == [first, second];
    FilterAppend([], first, OtherEntry(second));
    FilterAppend([first], second, OtherEntry(second));
    assert [first] + [] == [first];
  }
}
