/** No accepted and no published observation names anything sensitive, at any depth. */
module Privacy {
  import opened Wrappers
  import opened SensitiveNames
  import opened StatusPolicy
  import opened Sanitizer
  import opened Observations
  import opened StoredForm
  import opened LegacyRandomx
  import opened RoundTrip

  ghost predicate NamesNothingSensitive(j: Json) {
    forall k :: Occurs(j, k) ==> !IsSensitiveKey(k)
  }

  /** An observation accepted in the present form names nothing sensitive anywhere. */
  lemma {:induction false} AcceptedNamesNothingSensitive(clock: Clock, raw: Json, requestTimestamp: int, v: Sanitized)
    requires Validate(clock, raw, requestTimestamp) == Ok(v)
    ensures NamesNothingSensitive(raw)
  {
    ValidateMeansParts(clock, raw, requestTimestamp, v);
    CleanMeansNothingSensitiveOccurs(raw);
  }

  // ----- the names of legacy evidence -----

  lemma {:induction false} ConditionResultLetters()
    ensures LacksAll("conditionResult", "pjwkyha")
  {
    LowerLacks("condition", "condition", "pjwkyha");
    LowerLacks("Result", "result", "pjwkyha");
    LacksBoth("condition", "Result", "pjwkyha");
    assert "condition" + "Result" == "conditionResult";
  }

  lemma {:induction false} ConditionResultIsPlain()
    ensures Plain("conditionResult")
  {
  }

  lemma {:induction false} ConditionResultIsApart()
    ensures Apart("conditionResult", 's', 'e')
  {
    var name := "conditionResult";
    forall i | 0 <= i < |name| - 1 && LowerCase(name[i]) == 's'
      ensures LowerCase(name[i + 1]) != 'e'
    {
      assert i == 11;
    }
  }

  /** All letters of "secret" occur in this name, but not in that order. */
  lemma {:induction false} ConditionResultIsClean()
    ensures !IsSensitiveKey(CONDITION_RESULT)
  {
    ConditionResultLetters();
    ConditionResultIsPlain();
    ConditionResultIsApart();
    forall t | t in SENSITIVE_EXACT || t in SENSITIVE_TOKENS
      ensures t == "secret" || Hits("pjwkyha", t)
    {
      if t in SENSITIVE_EXACT { ExactNamesHit("pjwkyha", t); } else { MostTokensHit("pjwkyha", t, "secret"); }
    }
    CleanBut(CONDITION_RESULT, "conditionResult", "pjwkyha", "secret");
  }

  lemma {:induction false} UnitIsClean()
    ensures !IsSensitiveKey(Unit)
  {
    LowerLacks("unit", "unit", "pjwkyhc");
    LackingIsClean(Unit, "unit", "pjwkyhc");
  }

  lemma {:induction false} ActiveStateIsClean()
    ensures !IsSensitiveKey(ActiveState)
  {
    LowerLacks("active", "active", "pjwkyhrn");
    LowerLacks("State", "state", "pjwkyhrn");
    LacksBoth("active", "State", "pjwkyhrn");
    assert "active" + "State" == "activeState";
    LackingIsClean(ActiveState, "activeState", "pjwkyhrn");
  }

  lemma {:induction false} SubStateIsClean()
    ensures !IsSensitiveKey(SubState)
  {
    LowerLacks("subState", "substate", "pjwkyhcn");
    LackingIsClean(SubState, "subState", "pjwkyhcn");
  }

  lemma {:induction false} ResultIsClean()
    ensures !IsSensitiveKey(ResultKey)
  {
    LowerLacks("result", "result", "pjwkyhc");
    LackingIsClean(ResultKey, "result", "pjwkyhc");
  }

  lemma {:induction false} UnitFileStateIsClean()
    ensures !IsSensitiveKey(UNIT_FILE_STATE)
  {
    LowerLacks("unitFile", "unitfile", "pjwkyhc");
    LowerLacks("State", "state", "pjwkyhc");
    LacksBoth("unitFile", "State", "pjwkyhc");
    assert "unitFile" + "State" == "unitFileState";
    LackingIsClean(UNIT_FILE_STATE, "unitFileState", "pjwkyhc");
  }

  lemma {:induction false} LegacyFactsWithin(p: Option<Json>, facts: Json)
    requires ReadLegacyFacts(p) == Some(facts)
    ensures KeysWithin(facts, PUBLISHABLE)
  {
    ConditionResultIsClean();
    UnitFileStateIsClean();
  }

  lemma {:induction false} LegacyKeysWithin(k: Key)
    requires k in {Unit, ActiveState, SubState, ResultKey}
    ensures k in PUBLISHABLE
  {
    UnitIsClean();
    ActiveStateIsClean();
    SubStateIsClean();
    ResultIsClean();
  }

  lemma {:induction false} ReadLegacyParts(evidence: Json, e: EvidenceRecord)
    requires ReadLegacy(evidence) == Some(e)
    ensures e.schema.None? && e.outcome.None? && e.facts.Some?
    ensures ReadLegacyFacts(Prop(evidence, Facts)) == e.facts
  {
  }

  lemma {:induction false} LegacyFieldWithin(evidence: Json, e: EvidenceRecord, k: Key)
    requires ReadLegacy(evidence) == Some(e)
    requires Authority in PUBLISHABLE && Summary in PUBLISHABLE && Facts in PUBLISHABLE
    requires k in EVIDENCE_KEYS && EvidenceField(e, k).Some?
    ensures k in PUBLISHABLE && KeysWithin(EvidenceField(e, k).value, PUBLISHABLE)
  {
    ReadLegacyParts(evidence, e);
    if k == Facts {
      LegacyFactsWithin(Prop(evidence, Facts), e.facts.value);
    } else if k in {Unit, ActiveState, SubState, ResultKey} {
      LegacyKeysWithin(k);
    }
  }

  /** Legacy evidence in storage has only names that may be published. */
  lemma {:induction false} LegacyEvidenceWithin(evidence: Json, e: EvidenceRecord)
    requires ReadLegacy(evidence) == Some(e)
    requires Authority in PUBLISHABLE && Summary in PUBLISHABLE && Facts in PUBLISHABLE
    ensures KeysWithin(EvidenceJson(e), PUBLISHABLE)
  {
    forall k | k in EVIDENCE_KEYS && EvidenceField(e, k).Some?
      ensures k in PUBLISHABLE && KeysWithin(EvidenceField(e, k).value, PUBLISHABLE)
    {
      LegacyFieldWithin(evidence, e, k);
    }
  }

  // ----- what is published -----

  /** The item stored for the RandomX component, with its legacy evidence, has only names that may be published. */
  lemma {:induction false} LegacyItemWithin(
      item: Json, observedAt: string, ids: set<string>, c: Component, e: EvidenceRecord)
    requires SanitizeComponent(item, observedAt, ids) == Ok(c) && KeysWithin(item, PUBLISHABLE)
    requires KeysWithin(EvidenceJson(e), PUBLISHABLE)
    ensures KeysWithin(ComponentJson(c.(evidence := e), observedAt), PUBLISHABLE)
  {
    ComponentParts(item, observedAt, ids, c);
    ItemWithin(item, c.id, c.status, observedAt, EvidenceJson(e), PUBLISHABLE);
  }

  lemma {:induction false} StandInNames(item: Json, outcome: string)
    requires item.Obj? && KeysWithin(WithEvidence(item, StandIn(outcome)), PUBLISHABLE)
    ensures Authority in PUBLISHABLE && Summary in PUBLISHABLE && Facts in PUBLISHABLE
  {
    var whole := WithEvidence(item, StandIn(outcome));
    assert KeysWithin(whole.fields[Evidence], PUBLISHABLE);
  }

  /** The item whose evidence is the stand-in, stored with its own evidence. */
  lemma {:induction false} StandInWithin(
      n: Json, observedAt: string, accepted: seq<Component>, i: nat, e: EvidenceRecord)
    requires Prop(n, Components).Some? && Prop(n, Components).value.Arr? && KeysWithin(n, PUBLISHABLE)
    requires SanitizeRegistry(Prop(n, Components), observedAt) == Ok(accepted) && i < |accepted|
    requires KeysWithin(EvidenceJson(e), PUBLISHABLE)
    ensures KeysWithin(ComponentJson(accepted[i].(evidence := e), observedAt), PUBLISHABLE)
  {
    var ids := AcceptedItem(Prop(n, Components), observedAt, accepted, i);
    ItemsKeepKeys(n, PUBLISHABLE, i);
    LegacyItemWithin(Prop(n, Components).value.items[i], observedAt, ids, accepted[i], e);
  }

  ghost predicate AllWithin(items: seq<Json>, allowed: iset<Key>) {
    forall k :: 0 <= k < |items| ==> KeysWithin(items[k], allowed)
  }

  /** The stored items of an observation accepted in legacy form. */
  lemma {:induction false} LegacyItemsWithin(
      n: Json, observedAt: string, accepted: seq<Component>, i: nat, e: EvidenceRecord, items: seq<Json>)
    requires Prop(n, Components).Some? && Prop(n, Components).value.Arr? && KeysWithin(n, PUBLISHABLE)
    requires SanitizeRegistry(Prop(n, Components), observedAt) == Ok(accepted) && i < |accepted|
    requires items == ComponentsJson(accepted[i := accepted[i].(evidence := e)], observedAt)
    requires KeysWithin(EvidenceJson(e), PUBLISHABLE)
    ensures AllWithin(items, PUBLISHABLE)
  {
    forall k | 0 <= k < |items|
      ensures KeysWithin(items[k], PUBLISHABLE)
    {
      if k == i {
        StandInWithin(n, observedAt, accepted, i, e);
        assert items[k] == ComponentJson(accepted[i].(evidence := e), observedAt);
      } else {
        StoredComponent(n, observedAt, accepted, k);
        assert items[k] == ComponentJson(accepted[k], observedAt);
      }
    }
  }

  lemma {:induction false} LegacyPublishedWithin(clock: Clock, raw: Json, requestTimestamp: int, v: Sanitized)
    requires LegacyPosition(raw).Some? && ValidateAny(clock, raw, requestTimestamp) == Ok(v)
    ensures KeysWithin(ToJson(v.observation), PUBLISHABLE)
  {
    var i, evidence, e, v1 := LegacyDecomposes(clock, raw, requestTimestamp, v);
    var n := Normalized(raw, i);
    RegistryOf(clock, n, requestTimestamp, v1);
    ItemsKeepKeys(n, PUBLISHABLE, i);
    var item := Prop(raw, Components).value.items[i];
    StandInNames(item, OutcomeForStatus(Prop(item, Status)));
    LegacyEvidenceWithin(evidence, e);
    var components := v.observation.components;
    LegacyItemsWithin(n, v1.observation.observedAt, v1.observation.components, i, e,
                      ComponentsJson(components, v1.observation.observedAt));
    ValidateMeansParts(clock, n, requestTimestamp, v1);
    PublishableReleaseNames();
    StoredWithin(clock, n, v1, ComponentsJson(components, v1.observation.observedAt), PUBLISHABLE);
    assert ToJson(v.observation) ==
             ObservationJson(v1.observation, ComponentsJson(components, v1.observation.observedAt));
  }

  /** In either form, what is stored and published of an accepted observation names
      nothing sensitive at any depth. */
  lemma {:induction false} PublishedNamesNothingSensitive(clock: Clock, raw: Json, requestTimestamp: int, v: Sanitized)
    requires ValidateAny(clock, raw, requestTimestamp) == Ok(v)
    ensures NamesNothingSensitive(ToJson(v.observation))
  {
    if LegacyPosition(raw).Some? {
      LegacyPublishedWithin(clock, raw, requestTimestamp, v);
      CleanIsKeysWithin(ToJson(v.observation));
      CleanMeansNothingSensitiveOccurs(ToJson(v.observation));
    } else {
      ModernReadsBack(clock, raw, requestTimestamp, v);
      AcceptedNamesNothingSensitive(clock, ToJson(v.observation), v.observedUnix, v);
    }
  }
}
