/** Which component lists are accepted: exactly those of the right length whose
    components are each acceptable alone and have different ids. In particular an
    observation with the least evidence is accepted, whatever the order. */
module Acceptance {
  import opened Counting
  import opened Wrappers
  import opened SensitiveNames
  import opened StatusPolicy
  import opened Sanitizer
  import opened Observations
  import opened StoredForm

  /** The set of ids seen so far matters only in that it must not contain the component's own. */
  ghost predicate SeenOnlyExcludes(visit: Visitor) {
    forall item, seen :: ExcludesSeen(visit, item, seen)
  }

  predicate ExcludesSeen(visit: Visitor, item: Json, seen: set<string>) {
    var alone, one := visit(item, {}), visit(item, seen);
    && (one.Ok? <==> alone.Ok? && alone.value.id !in seen)
    && (one.Ok? ==> one == alone)
  }

  lemma {:induction false} ComponentVisitorOnlyExcludes(observedAt: string)
    ensures SeenOnlyExcludes(ComponentVisitor(observedAt))
  {
    forall item, seen
      ensures ExcludesSeen(ComponentVisitor(observedAt), item, seen)
    {
      OnlyExcludes(item, observedAt, seen);
    }
  }

  lemma {:induction false} OnlyExcludes(item: Json, observedAt: string, seen: set<string>)
    ensures var alone, one := SanitizeComponent(item, observedAt, {}), SanitizeComponent(item, observedAt, seen);
            && (one.Ok? <==> alone.Ok? && alone.value.id !in seen)
            && (one.Ok? ==> one == alone)
  {
  }

  /** Every item is acceptable alone, with an id that was not seen before. */
  ghost predicate AcceptableAlone(items: seq<Json>, seen: set<string>, visit: Visitor) {
    forall i :: 0 <= i < |items| ==> visit(items[i], {}).Ok? && visit(items[i], {}).value.id !in seen
  }

  ghost predicate DifferentIds(items: seq<Json>, visit: Visitor) {
    forall i, j :: 0 <= i < j < |items| && visit(items[i], {}).Ok? && visit(items[j], {}).Ok? ==>
      visit(items[i], {}).value.id != visit(items[j], {}).value.id
  }

  lemma {:induction false} VisitAcceptsExactly(items: seq<Json>, seen: set<string>, visit: Visitor)
    requires SeenOnlyExcludes(visit)
    ensures VisitAll(items, seen, visit).Ok? <==> AcceptableAlone(items, seen, visit) && DifferentIds(items, visit)
    ensures VisitAll(items, seen, visit).Ok? ==>
              && |VisitAll(items, seen, visit).value| == |items|
              && forall i :: 0 <= i < |items| ==> visit(items[i], {}) == Ok(VisitAll(items, seen, visit).value[i])
    decreases |items|
  {
    if items != [] {
      assert ExcludesSeen(visit, items[0], seen);
      if visit(items[0], seen).Ok? {
        var id := visit(items[0], {}).value.id;
        VisitAcceptsExactly(items[1..], seen + {id}, visit);
        HeadAndTail(items, seen, visit, id);
      }
    }
  }

  lemma {:induction false} HeadAndTail(items: seq<Json>, seen: set<string>, visit: Visitor, id: string)
    requires items != [] && visit(items[0], {}).Ok? && visit(items[0], {}).value.id == id && id !in seen
    ensures AcceptableAlone(items, seen, visit) && DifferentIds(items, visit) <==>
            AcceptableAlone(items[1..], seen + {id}, visit) && DifferentIds(items[1..], visit)
  {
    var tail := items[1..];
    if AcceptableAlone(items, seen, visit) && DifferentIds(items, visit) {
      forall i | 0 <= i < |tail|
        ensures visit(tail[i], {}).Ok? && visit(tail[i], {}).value.id !in seen + {id}
      {
        assert tail[i] == items[i + 1];
      }
      forall i, j | 0 <= i < j < |tail| && visit(tail[i], {}).Ok? && visit(tail[j], {}).Ok?
        ensures visit(tail[i], {}).value.id != visit(tail[j], {}).value.id
      {
        assert tail[i] == items[i + 1] && tail[j] == items[j + 1];
      }
    }
    if AcceptableAlone(tail, seen + {id}, visit) && DifferentIds(tail, visit) {
      forall i | 0 <= i < |items|
        ensures visit(items[i], {}).Ok? && visit(items[i], {}).value.id !in seen
      {
        if i > 0 { assert items[i] == tail[i - 1]; }
      }
      forall i, j | 0 <= i < j < |items|
        ensures visit(items[i], {}).value.id != visit(items[j], {}).value.id
      {
        assert items[j] == tail[j - 1];
        if i > 0 { assert items[i] == tail[i - 1]; }
      }
    }
  }

  lemma {:induction false} IdsDiffer(components: seq<Component>, items: seq<Json>, visit: Visitor)
    requires |components| == |items| && DifferentIds(items, visit)
    requires forall i :: 0 <= i < |items| ==> visit(items[i], {}) == Ok(components[i])
    ensures |SetOf(Ids(components))| == |items|
  {
    IdsAreOfComponents(components);
    forall i, j | 0 <= i < j < |components|
      ensures Ids(components)[i] != Ids(components)[j]
    {
      assert visit(items[i], {}) == Ok(components[i]) && visit(items[j], {}) == Ok(components[j]);
    }
    DistinctCount(Ids(components));
  }

  /** A component list is accepted exactly if it has as many components as the
      registry, each acceptable alone, with different ids. */
  lemma {:induction false} RegistryAcceptedExactly(items: seq<Json>, observedAt: string)
    ensures SanitizeRegistry(Some(Arr(items)), observedAt).Ok? <==>
            && |items| == |COMPONENT_IDS|
            && AcceptableAlone(items, {}, ComponentVisitor(observedAt))
            && DifferentIds(items, ComponentVisitor(observedAt))
  {
    var visit := ComponentVisitor(observedAt);
    ComponentVisitorOnlyExcludes(observedAt);
    VisitAcceptsExactly(items, {}, visit);
    if VisitAll(items, {}, visit).Ok? {
      IdsDiffer(VisitAll(items, {}, visit).value, items, visit);
    }
  }

  // ----- observations with the least evidence -----

  function BareEvidence(): Json {
    Obj([Authority, Summary], map[Authority := Str(AUTHORITY), Summary := Str("-")])
  }

  function BareItem(id: string, status: string, observedAt: string): Json {
    ItemJson(id, status, observedAt, BareEvidence())
  }

  function BareRelease(version: string): Json {
    Obj([Product, Version], map[Product := Str(PRODUCT), Version := Str(version)])
  }

  function BareHealth(): Json {
    Obj([Status, ExitCode, Summary], map[Status := Str("ok"), ExitCode := Null, Summary := Str("-")])
  }

  function BareObservation(
      observedAt: string, sourceId: string, bootIdHash: string, version: string, items: seq<Json>): Json {
    Obj([Schema, ObservedAt, SourceId, BootIdHash, Release, Health, Components],
        map[Schema := Str(OBSERVATION_SCHEMA), ObservedAt := Str(observedAt), SourceId := Str(sourceId),
            BootIdHash := Str(bootIdHash), Release := BareRelease(version), Health := BareHealth(),
            Components := Arr(items)])
  }

  lemma {:induction false} BareEvidenceAccepted(policy: ComponentPolicy, status: string)
    ensures SanitizeEvidence(Some(BareEvidence()), policy, status).Some?
  {
    var e := EvidenceRecord(None, None, None, None, None, None, None, "");
    assert ReadEvidence(BareEvidence(), policy) == Some(e);
  }

  lemma {:induction false} RegisteredIdIsShort(id: string)
    requires id in COMPONENT_IDS
    ensures 1 <= |id| <= 80
  {
  }

  lemma {:induction false} BareItemAccepted(id: string, status: string, observedAt: string)
    requires id in COMPONENT_IDS && status in COMPONENT_STATUS
    ensures SanitizeComponent(BareItem(id, status, observedAt), observedAt, {}).Ok?
    ensures SanitizeComponent(BareItem(id, status, observedAt), observedAt, {}).value.id == id
  {
    var evidence := BareEvidence();
    RegisteredIdIsShort(id);
    BareEvidenceAccepted(PolicyOf(id), status);
    ItemAccepted(id, status, observedAt, evidence, SanitizeEvidence(Some(evidence), PolicyOf(id), status).value);
  }

  lemma {:induction false} ItemAccepted(
      id: string, status: string, observedAt: string, evidence: Json, e: EvidenceRecord)
    requires id in COMPONENT_IDS && 1 <= |id| <= 80 && status in COMPONENT_STATUS
    requires SanitizeEvidence(Some(evidence), PolicyOf(id), status) == Some(e)
    ensures SanitizeComponent(ItemJson(id, status, observedAt, evidence), observedAt, {}) ==
              Ok(Component(id, status, e))
  {
    ItemFields(id, status, observedAt, evidence);
    ComponentAccepted(ItemJson(id, status, observedAt, evidence), observedAt, {}, Component(id, status, e));
  }

  function BareItems(ids: seq<string>, statuses: seq<string>, observedAt: string): seq<Json>
    requires |ids| == |statuses|
  {
    seq(|ids|, i requires 0 <= i < |ids| => BareItem(ids[i], statuses[i], observedAt))
  }

  lemma {:induction false} BareItemsAccepted(
      ids: seq<string>, statuses: seq<string>, observedAt: string, registry: seq<string>)
    requires registry == COMPONENT_IDS && |ids| == |statuses| == |registry|
    requires forall i, j :: 0 <= i < j < |ids| ==> ids[i] != ids[j]
    requires forall i :: 0 <= i < |ids| ==> ids[i] in registry && statuses[i] in COMPONENT_STATUS
    ensures SanitizeRegistry(Some(Arr(BareItems(ids, statuses, observedAt))), observedAt).Ok?
  {
    var items, visit := BareItems(ids, statuses, observedAt), ComponentVisitor(observedAt);
    forall i | 0 <= i < |items|
      ensures visit(items[i], {}).Ok? && visit(items[i], {}).value.id == ids[i]
    {
      BareItemAccepted(ids[i], statuses[i], observedAt);
    }
    RegistryAcceptedExactly(items, observedAt);
  }

  lemma {:induction false} BareItemIsClean(id: string, status: string, observedAt: string)
    ensures Clean(BareItem(id, status, observedAt))
  {
    IdIsClean();
    StatusIsClean();
    ObservedAtIsClean();
    EvidenceIsClean();
    AuthorityIsClean();
    SummaryIsClean();
    assert Clean(BareEvidence());
  }

  lemma {:induction false} BareReleaseIsClean(version: string)
    ensures Clean(BareRelease(version))
  {
    ProductIsClean();
    VersionIsClean();
  }

  lemma {:induction false} BareHealthIsClean()
    ensures Clean(BareHealth())
  {
    StatusIsClean();
    ExitCodeIsClean();
    SummaryIsClean();
  }

  lemma {:induction false} ObservationNamesAreClean()
    ensures forall k :: k in OBSERVATION_KEYS ==> !IsSensitiveKey(k)
  {
    SchemaIsClean();
    ObservedAtIsClean();
    SourceIdIsClean();
    BootIdHashIsClean();
    ReleaseIsClean();
    HealthIsClean();
    ComponentsIsClean();
  }

  lemma {:induction false} BareObservationIsClean(
      observedAt: string, sourceId: string, bootIdHash: string, version: string, items: seq<Json>)
    requires forall i :: 0 <= i < |items| ==> Clean(items[i])
    ensures Clean(BareObservation(observedAt, sourceId, bootIdHash, version, items))
  {
    ObservationNamesAreClean();
    BareReleaseIsClean(version);
    BareHealthIsClean();
    assert Clean(Arr(items));
  }

  lemma {:induction false} BareReleaseAccepted(version: string)
    requires RequireToken(Some(Str(version)), 128).Some?
    ensures SanitizeRelease(Some(BareRelease(version))) ==
              Ok(ReleaseRecord(version, None, None, None, None, None, None))
  {
    ReleaseMeansParts(BareRelease(version), ReleaseRecord(version, None, None, None, None, None, None));
  }

  lemma {:induction false} BareHealthAccepted()
    ensures SanitizeHealth(Some(BareHealth())).Ok?
  {
  }

  lemma {:induction false} BareFields(
      observedAt: string, sourceId: string, bootIdHash: string, version: string, items: seq<Json>)
    ensures var raw := BareObservation(observedAt, sourceId, bootIdHash, version, items);
            && HasOnly(raw, OBSERVATION_KEYS)
            && Prop(raw, Schema) == Some(Str(OBSERVATION_SCHEMA)) && Prop(raw, ObservedAt) == Some(Str(observedAt))
            && Prop(raw, SourceId) == Some(Str(sourceId)) && Prop(raw, BootIdHash) == Some(Str(bootIdHash))
            && Prop(raw, Release) == Some(BareRelease(version)) && Prop(raw, Health) == Some(BareHealth())
            && Prop(raw, Components) == Some(Arr(items))
  {
  }

  lemma {:induction false} TextsRead(
      clock: Clock, raw: Json, time: int, observedAt: string, sourceId: string, bootIdHash: string)
    requires && Prop(raw, ObservedAt) == Some(Str(observedAt))
             && 1 <= |observedAt| <= 64
             && clock(observedAt) == Some(time)
    requires Prop(raw, SourceId) == Some(Str(sourceId)) && Prop(raw, BootIdHash) == Some(Str(bootIdHash))
    requires LowerHex(sourceId, 64) && LowerHex(bootIdHash, 64)
    ensures ReadTime(clock, raw) == Some(time)
    ensures RequireHash(Prop(raw, SourceId)) == Some(sourceId) && RequireHash(Prop(raw, BootIdHash)) == Some(bootIdHash)
  {
  }

  /** An observation whose parts are acceptable is accepted. */
  lemma {:induction false} PartsAccepted(clock: Clock, raw: Json, time: int, release: ReleaseRecord,
                                         health: HealthRecord, components: seq<Component>,
                      observedAt: string, sourceId: string, bootIdHash: string)
    requires raw.Obj? && Clean(raw) && HasOnly(raw, OBSERVATION_KEYS)
    requires Prop(raw, Schema) == Some(Str(OBSERVATION_SCHEMA)) && Prop(raw, ObservedAt) == Some(Str(observedAt))
    requires Prop(raw, SourceId) == Some(Str(sourceId)) && Prop(raw, BootIdHash) == Some(Str(bootIdHash))
    requires 1 <= |observedAt| <= 64 && clock(observedAt) == Some(time)
    requires LowerHex(sourceId, 64) && LowerHex(bootIdHash, 64)
    requires SanitizeRelease(Prop(raw, Release)) == Ok(release)
    requires SanitizeHealth(Prop(raw, Health)) == Ok(health)
    requires SanitizeRegistry(Prop(raw, Components), observedAt) == Ok(components)
    ensures Validate(clock, raw, time) ==
              Ok(Sanitized(time, Observation(observedAt, sourceId, bootIdHash, release, health, components)))
  {
    var v := Sanitized(time, Observation(observedAt, sourceId, bootIdHash, release, health, components));
    TextsRead(clock, raw, time, observedAt, sourceId, bootIdHash);
    assert ObservationParts(clock, raw, v);
    ValidateMeansParts(clock, raw, time, v);
  }

  lemma {:induction false} BareObservationAccepted(clock: Clock, observedAt: string, time: int, sourceId: string,
                                                   bootIdHash: string, version: string,
                                items: seq<Json>, components: seq<Component>)
    requires forall i :: 0 <= i < |items| ==> Clean(items[i])
    requires SanitizeRegistry(Some(Arr(items)), observedAt) == Ok(components)
    requires 1 <= |observedAt| <= 64 && clock(observedAt) == Some(time)
    requires LowerHex(sourceId, 64) && LowerHex(bootIdHash, 64) && RequireToken(Some(Str(version)), 128).Some?
    ensures Validate(clock, BareObservation(observedAt, sourceId, bootIdHash, version, items), time).Ok?
  {
    BareObservationIsClean(observedAt, sourceId, bootIdHash, version, items);
    BareFields(observedAt, sourceId, bootIdHash, version, items);
    BareReleaseAccepted(version);
    BareHealthAccepted();
    PartsAccepted(clock, BareObservation(observedAt, sourceId, bootIdHash, version, items), time,
                  ReleaseRecord(version, None, None, None, None, None, None), SanitizeHealth(Some(BareHealth())).value,
                  components,
                  observedAt, sourceId, bootIdHash);
  }

  /** The other half of the registry rule: in whatever order the registered ids come,
      and whatever their statuses, an observation of them is accepted. */
  lemma {:induction false} AnyOrderIsAccepted(clock: Clock, observedAt: string, time: int, sourceId: string,
                                              bootIdHash: string, version: string,
                           ids: seq<string>, statuses: seq<string>, registry: seq<string>)
    requires registry == COMPONENT_IDS && |ids| == |statuses| == |registry|
    requires forall i, j :: 0 <= i < j < |ids| ==> ids[i] != ids[j]
    requires forall i :: 0 <= i < |ids| ==> ids[i] in registry && statuses[i] in COMPONENT_STATUS
    requires 1 <= |observedAt| <= 64 && clock(observedAt) == Some(time)
    requires LowerHex(sourceId, 64) && LowerHex(bootIdHash, 64) && RequireToken(Some(Str(version)), 128).Some?
    ensures Validate(clock, BareObservation(observedAt, sourceId, bootIdHash, version,
                                            BareItems(ids, statuses, observedAt)), time).Ok?
  {
    var items := BareItems(ids, statuses, observedAt);
    BareItemsAccepted(ids, statuses, observedAt, registry);
    forall i | 0 <= i < |items|
      ensures Clean(items[i])
    {
      BareItemIsClean(ids[i], statuses[i], observedAt);
    }
    BareObservationAccepted(clock, observedAt, time, sourceId, bootIdHash, version, items,
                            SanitizeRegistry(Some(Arr(items)), observedAt).value);
  }
}
