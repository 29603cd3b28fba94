/** The clock allowance of the nonce table is exact: one second beyond it, a signed
    request that passes every check is accepted twice. */
module Replay {
  import opened Acceptance
  import opened LegacyRandomx
  import opened Observations
  import opened Sanitizer
  import opened StatusPolicy
  import opened StatusStore
  import opened StoredForm
  import opened Wrappers

  datatype Listed = Listed(id: string, status: string)

  /** What an observation with the least evidence is made of. */
  datatype Bare = Bare(sourceId: string, bootIdHash: string, version: string, components: seq<Listed>)

  function BareIds(o: Bare): seq<string> {
    seq(|o.components|, i requires 0 <= i < |o.components| => o.components[i].id)
  }

  function BareStatuses(o: Bare): seq<string> {
    seq(|o.components|, i requires 0 <= i < |o.components| => o.components[i].status)
  }

  /** Every registered component once, with a known status. */
  ghost predicate WellFormed(o: Bare, registry: seq<string>) {
    && registry == COMPONENT_IDS && |o.components| == |registry|
    && (forall i, j :: 0 <= i < j < |o.components| ==> o.components[i].id != o.components[j].id)
    && (forall i :: 0 <= i < |o.components| ==>
          o.components[i].id in registry && o.components[i].status in COMPONENT_STATUS)
    && LowerHex(o.sourceId, 64) && LowerHex(o.bootIdHash, 64) && RequireToken(Some(Str(o.version)), 128).Some?
  }

  function Raw(o: Bare, observedAt: string): Json {
    BareObservation(observedAt, o.sourceId, o.bootIdHash, o.version, BareItems(BareIds(o), BareStatuses(o), observedAt))
  }

  /** The signed request that carries the observation, made when it was observed. */
  function Signed(o: Bare, observedAt: string, time: int, nonce: string): Submission {
    Submission(Raw(o, observedAt), Some(time), nonce, true, true)
  }

  lemma {:induction false} BareHasNoUnit()
    ensures Prop(BareEvidence(), Unit).None?
  {
  }

  lemma {:induction false} BareIsNotLegacy(o: Bare, observedAt: string)
    ensures LegacyPosition(Raw(o, observedAt)).None?
  {
    var items := BareItems(BareIds(o), BareStatuses(o), observedAt);
    BareFields(observedAt, o.sourceId, o.bootIdHash, o.version, items);
    BareHasNoUnit();
    if LegacyPosition(Raw(o, observedAt)).Some? {
      PositionsAreExact(items);
      var i := LegacyPosition(Raw(o, observedAt)).value;
      assert i in RandomxPositions(items);
    }
  }

  lemma {:induction false} BareIsAccepted(clock: Clock, o: Bare, observedAt: string, time: int, registry: seq<string>)
    requires WellFormed(o, registry) && 1 <= |observedAt| <= 64 && clock(observedAt) == Some(time)
    ensures ValidateAny(clock, Raw(o, observedAt), time).Ok?
    ensures RequireHash(Prop(Raw(o, observedAt), SourceId)) == Some(o.sourceId)
  {
    AnyOrderIsAccepted(clock, observedAt, time, o.sourceId, o.bootIdHash, o.version, BareIds(o), BareStatuses(o),
                       registry);
    BareIsNotLegacy(o, observedAt);
    BareFields(observedAt, o.sourceId, o.bootIdHash, o.version, BareItems(BareIds(o), BareStatuses(o), observedAt));
  }

  /** Every such request is admitted within the allowed skew of its time. */
  lemma {:induction false} BareIsAdmitted(
      clock: Clock, sources: set<string>, o: Bare, observedAt: string, time: int, nonce: string, now: int,
      content: Sanitized)
    requires o.sourceId in sources && LowerHex(nonce, 32) && Distance(now, time) <= MAX_CLOCK_SKEW
    requires RequireHash(Prop(Raw(o, observedAt), SourceId)) == Some(o.sourceId)
    requires ValidateAny(clock, Raw(o, observedAt), time) == Ok(content)
    ensures Admit(clock, sources, Signed(o, observedAt, time, nonce), now) == Ok(Batch(now, time, nonce, content))
  {
  }

  /** A signed request, a later one, and the first again, served by clocks that disagree by
      one second more than allowed: all three are admitted and accepted. */
  lemma {:induction false} SignedRequestIsAcceptedTwice(clock: Clock, sources: set<string>, o: Bare, observedAt: string,
                                                        laterAt: string, t: int,
                                    nonce: string, other: string, registry: seq<string>)
    returns (first: Batch, second: Batch, again: Batch)
    requires && WellFormed(o, registry)
             && o.sourceId in sources
             && LowerHex(nonce, 32)
             && LowerHex(other, 32)
             && nonce != other
    requires 1 <= |observedAt| <= 64 && clock(observedAt) == Some(t)
    requires 1 <= |laterAt| <= 64 && clock(laterAt) == Some(t + 2 * MAX_CLOCK_SKEW + 1)
    ensures Admit(clock, sources, Signed(o, observedAt, t, nonce), t) == Ok(first)
    ensures Admit(clock, sources, Signed(o, laterAt, t + 2 * MAX_CLOCK_SKEW + 1, other),
                  t + 2 * MAX_CLOCK_SKEW + 1) == Ok(second)
    ensures Admit(clock, sources, Signed(o, observedAt, t, nonce), t + MAX_CLOCK_SKEW) == Ok(again)
    ensures again.now == second.now - MAX_CLOCK_SKEW - 1
    ensures && AcceptedAt([first, second, again], 0)
            && AcceptedAt([first, second, again], 1)
            && AcceptedAt([first, second, again], 2)
  {
    var late := t + 2 * MAX_CLOCK_SKEW + 1;
    BareIsAccepted(clock, o, observedAt, t, registry);
    BareIsAccepted(clock, o, laterAt, late, registry);
    var content := ValidateAny(clock, Raw(o, observedAt), t).value;
    var later := ValidateAny(clock, Raw(o, laterAt), late).value;
    BareIsAdmitted(clock, sources, o, observedAt, t, nonce, t, content);
    BareIsAdmitted(clock, sources, o, laterAt, late, other, late, later);
    BareIsAdmitted(clock, sources, o, observedAt, t, nonce, t + MAX_CLOCK_SKEW, content);
    first, second, again :=
      Batch(t, t, nonce, content), Batch(late, late, other, later), Batch(t + MAX_CLOCK_SKEW, t, nonce, content);
    ReplayBeyondTheAllowance(t, nonce, other, content, later);
  }

  /** Three requests to an empty service; each is answered as its batch is judged. */
  method ServeThree(clock: Clock, sources: set<string>, a: Submission, b: Submission, c: Submission, atA: int, atB: int,
                    atC: int,
                    ghost first: Batch, ghost second: Batch, ghost third: Batch)
    returns (x: Result<Sanitized, Refusal>, y: Result<Sanitized, Refusal>, z: Result<Sanitized, Refusal>)
    requires && Admit(clock, sources, a, atA) == Ok(first)
             && Admit(clock, sources, b, atB) == Ok(second)
             && Admit(clock, sources, c, atC) == Ok(third)
    ensures x == if AcceptedAt([first, second, third], 0) then Ok(first.sanitized) else Err(ReplayDetected)
    ensures y == if AcceptedAt([first, second, third], 1) then Ok(second.sanitized) else Err(ReplayDetected)
    ensures z == if AcceptedAt([first, second, third], 2) then Ok(third.sanitized) else Err(ReplayDetected)
  {
    TablesOfThree(first, second, third);
    var database := new Database();
    x := database.AcceptObservation(clock, sources, a, atA);
    y := database.AcceptObservation(clock, sources, b, atB);
    z := database.AcceptObservation(clock, sources, c, atC);
  }

  /** The same as a run of the service: the repeated request is answered as a new one. */
  method AcceptTwice(clock: Clock, sources: set<string>, o: Bare, observedAt: string, laterAt: string, t: int,
                     nonce: string, other: string, ghost registry: seq<string>)
    returns (first: Result<Sanitized, Refusal>, again: Result<Sanitized, Refusal>)
    requires && WellFormed(o, registry)
             && o.sourceId in sources
             && LowerHex(nonce, 32)
             && LowerHex(other, 32)
             && nonce != other
    requires 1 <= |observedAt| <= 64 && clock(observedAt) == Some(t)
    requires 1 <= |laterAt| <= 64 && clock(laterAt) == Some(t + 2 * MAX_CLOCK_SKEW + 1)
    ensures first.Ok? && again.Ok?
  {
    var late := t + 2 * MAX_CLOCK_SKEW + 1;
    ghost var a, b, c :=
      SignedRequestIsAcceptedTwice(clock, sources, o, observedAt, laterAt, t, nonce, other, registry);
    var second;
    first, second, again := ServeThree(clock, sources, Signed(o, observedAt, t, nonce), Signed(o, laterAt, late, other),
                                       Signed(o, observedAt, t, nonce),
                                       t, late, t + MAX_CLOCK_SKEW, a, b, c);
  }

  lemma {:induction false} TablesOfThree(a: Batch, b: Batch, c: Batch)
    ensures AcceptedAt([a, b, c], 0) <==> Accepts(EMPTY, a)
    ensures AcceptedAt([a, b, c], 1) <==> Accepts(Store(EMPTY, a), b)
    ensures AcceptedAt([a, b, c], 2) <==> Accepts(Store(Store(EMPTY, a), b), c)
  {
    var batches := [a, b, c];
    VerdictAt(batches, 0);
    VerdictAt(batches, 1);
    VerdictAt(batches, 2);
    AfterOneMore(batches, 0);
    AfterOneMore(batches, 1);
  }
}
