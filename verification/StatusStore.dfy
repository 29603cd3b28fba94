/** The signed ingest: admission of submissions, the nonce table, the latest-row
    table, and what holds over every sequence of batches. */
module StatusStore {
  import opened Wrappers
  import opened StatusPolicy
  import opened Sanitizer
  import opened Observations
  import opened StoredForm
  import opened LegacyRandomx

  const NONCE_TTL := 600

  // ----- admission -----

  /** A request after transport checks. `timestamp` is `None` if the header is
      malformed; `wellSigned` tells whether the signature header has the right
      form, and `authentic` whether it verifies. */
  datatype Submission = Submission(raw: Json, timestamp: Option<int>, nonce: string, wellSigned: bool, authentic: bool)

  datatype Refusal =
    | Rejected(reason: Rejection)
    | UnknownSource
    | InvalidTimestamp
    | InvalidNonce
    | InvalidSignature
    | ClockSkew
    | SignatureMismatch
    | ReplayDetected

  datatype Batch = Batch(now: int, timestamp: int, nonce: string, sanitized: Sanitized)

  /** Check a submission at time `now`; the result is what is to be stored. */
  function Admit(clock: Clock, sources: set<string>, submission: Submission, now: int): Result<Batch, Refusal> {
    var sourceId := if submission.raw.Obj? then RequireHash(Prop(submission.raw, SourceId)) else None;
    if sourceId.None? then Err(Rejected(InvalidObservation))
    else if sourceId.value !in sources then Err(UnknownSource)
    else if submission.timestamp.None? then Err(InvalidTimestamp)
    else if !LowerHex(submission.nonce, 32) then Err(InvalidNonce)
    else if !submission.wellSigned then Err(InvalidSignature)
    else if Distance(now, submission.timestamp.value) > MAX_CLOCK_SKEW then Err(ClockSkew)
    else if !submission.authentic then Err(SignatureMismatch)
    else
      match ValidateAny(clock, submission.raw, submission.timestamp.value)
      case Err(reason) => Err(Rejected(reason))
      case Ok(sanitized) => Ok(Batch(now, submission.timestamp.value, submission.nonce, sanitized))
  }

  // ----- the tables -----

  datatype NonceRow = NonceRow(timestamp: int, sourceId: string, expiresAt: int)

  datatype Row = Row(
    observedAt: string,
    observedUnix: int,
    receivedUnix: int,
    releaseVersion: string,
    buildCommit: Option<string>,
    overallStatus: string,
    payload: Json)

  datatype Tables = Tables(nonces: map<string, NonceRow>, rows: map<string, Row>)

  const EMPTY := Tables(map[], map[])

  function Source(b: Batch): string {
    b.sanitized.observation.sourceId
  }

  function Observed(b: Batch): int {
    b.sanitized.observedUnix
  }

  function RowOf(b: Batch): Row {
    var o := b.sanitized.observation;
    Row(o.observedAt, b.sanitized.observedUnix, b.now, o.release.version, o.release.buildCommit, Worst(o.components),
        ToJson(o))
  }

  function Purged(nonces: map<string, NonceRow>, now: int): map<string, NonceRow> {
    map n | n in nonces && nonces[n].expiresAt >= now :: nonces[n]
  }

  predicate Accepts(t: Tables, b: Batch) {
    b.nonce !in Purged(t.nonces, b.now)
  }

  /** One transaction: all of it, or nothing if the nonce is already there. */
  function Store(t: Tables, b: Batch): Tables {
    if !Accepts(t, b) then t
    else
      Tables(Purged(t.nonces, b.now)[b.nonce := NonceRow(b.timestamp, Source(b), b.timestamp + NONCE_TTL)],
             if Source(b) in t.rows && Observed(b) < t.rows[Source(b)].observedUnix then t.rows
             else t.rows[Source(b) := RowOf(b)])
  }

  class Database {
    var nonces: map<string, NonceRow>
    var rows: map<string, Row>

    function View(): Tables
      reads this
    {
      Tables(nonces, rows)
    }

    constructor ()
      ensures View() == EMPTY
    {
      nonces, rows := map[], map[];
    }

    /** The three statements of an ingest transaction; a repeated nonce rolls all of them back. */
    method StoreObservation(timestamp: int, nonce: string, sanitized: Sanitized, now: int) returns (stored: bool)
      modifies this
      ensures stored <==> Accepts(old(View()), Batch(now, timestamp, nonce, sanitized))
      ensures View() == Store(old(View()), Batch(now, timestamp, nonce, sanitized))
    {
      var o := sanitized.observation;
      var overallStatus := WorstComponentStatus(o.components);
      var kept := map n | n in nonces && nonces[n].expiresAt >= now :: nonces[n];
      if nonce in kept {
        return false;
      }
      nonces := kept[nonce := NonceRow(timestamp, o.sourceId, timestamp + NONCE_TTL)];
      var row := Row(o.observedAt, sanitized.observedUnix, now, o.release.version, o.release.buildCommit, overallStatus,
                     ToJson(o));
      if o.sourceId !in rows {
        rows := rows[o.sourceId := row];
      } else if row.observedUnix >= rows[o.sourceId].observedUnix {
        rows := rows[o.sourceId := row];
      }
      return true;
    }

    /** One request: checked, sanitized and stored, or refused without any change. */
    method AcceptObservation(clock: Clock, sources: set<string>, submission: Submission, now: int)
      returns (response: Result<Sanitized, Refusal>)
      modifies this
      ensures var admitted := Admit(clock, sources, submission, now);
              match admitted
              case Err(refusal) => response == Err(refusal) && View() == old(View())
              case Ok(batch) =>
                && View() == Store(old(View()), batch)
                && response == if Accepts(old(View()), batch) then Ok(batch.sanitized) else Err(ReplayDetected)
    {
      var admitted := Admit(clock, sources, submission, now);
      if admitted.Err? {
        return Err(admitted.error);
      }
      var batch := admitted.value;
      var stored := StoreObservation(batch.timestamp, batch.nonce, batch.sanitized, now);
      return if stored then Ok(batch.sanitized) else Err(ReplayDetected);
    }
  }

  // ----- runs -----

  /** What admission guarantees about a batch. */
  ghost predicate Genuine(clock: Clock, b: Batch) {
    && Distance(b.now, b.timestamp) <= MAX_CLOCK_SKEW
    && exists raw :: ValidateAny(clock, raw, b.timestamp) == Ok(b.sanitized)
  }

  lemma {:induction false} AdmittedIsGenuine(
      clock: Clock, sources: set<string>, submission: Submission, now: int, b: Batch)
    requires Admit(clock, sources, submission, now) == Ok(b)
    ensures Genuine(clock, b) && b.now == now
    ensures LowerHex(b.nonce, 32) && Source(b) in sources
  {
    assert ValidateAny(clock, submission.raw, b.timestamp) == Ok(b.sanitized);
    AcceptedKeepsSource(clock, submission.raw, b.timestamp, b.sanitized);
  }

  /** Sanitizing keeps the source the request was admitted for, and the times agree. */
  lemma {:induction false} AcceptedKeepsSource(clock: Clock, raw: Json, requestTimestamp: int, v: Sanitized)
    requires ValidateAny(clock, raw, requestTimestamp) == Ok(v)
    ensures RequireHash(Prop(raw, SourceId)) == Some(v.observation.sourceId)
    ensures Distance(v.observedUnix, requestTimestamp) <= MAX_CLOCK_SKEW
  {
    if LegacyPosition(raw).Some? {
      var i := LegacyPosition(raw).value;
      LegacyPositionIsRandomx(raw);
      var copy := Normalized(raw, i);
      assert Prop(copy, SourceId) == Prop(raw, SourceId);
      ValidateMeansParts(clock, copy, requestTimestamp, Validate(clock, copy, requestTimestamp).value);
    } else {
      ValidateMeansParts(clock, raw, requestTimestamp, v);
    }
  }

  /** The three times of a batch are within the allowed skew of the signed one. */
  predicate Timely(b: Batch) {
    Distance(b.now, b.timestamp) <= MAX_CLOCK_SKEW && Distance(Observed(b), b.timestamp) <= MAX_CLOCK_SKEW
  }

  /** Admission lets only timely batches in, so every run of admitted batches is timely. */
  lemma {:induction false} GenuineIsTimely(clock: Clock, b: Batch)
    requires Genuine(clock, b)
    ensures Timely(b)
  {
    var raw :| ValidateAny(clock, raw, b.timestamp) == Ok(b.sanitized);
    AcceptedKeepsSource(clock, raw, b.timestamp, b.sanitized);
  }

  predicate AllTimely(batches: seq<Batch>) {
    forall i :: 0 <= i < |batches| ==> Timely(batches[i])
  }

  ghost predicate AllGenuine(clock: Clock, batches: seq<Batch>) {
    forall i :: 0 <= i < |batches| ==> Genuine(clock, batches[i])
  }

  /** The tables after a sequence of batches on an empty database. */
  function After(batches: seq<Batch>): Tables {
    if batches == [] then EMPTY else Store(After(batches[..|batches| - 1]), batches[|batches| - 1])
  }

  /** Which batches of a run are accepted. */
  function Verdicts(batches: seq<Batch>): (verdicts: seq<bool>)
    ensures |verdicts| == |batches|
  {
    if batches == [] then []
    else
      var n := |batches| - 1;
      Verdicts(batches[..n]) + [Accepts(After(batches[..n]), batches[n])]
  }

  predicate AcceptedAt(batches: seq<Batch>, i: nat)
    requires i < |batches|
  {
    Verdicts(batches)[i]
  }

  lemma {:induction false} VerdictsOfPrefix(batches: seq<Batch>, n: nat)
    requires n <= |batches|
    ensures Verdicts(batches[..n]) == Verdicts(batches)[..n]
    decreases |batches|
  {
    if n < |batches| {
      var shorter := batches[..|batches| - 1];
      VerdictsOfPrefix(shorter, n);
      assert shorter[..n] == batches[..n];
    } else {
      assert batches[..n] == batches;
    }
  }

  lemma {:induction false} VerdictAt(batches: seq<Batch>, i: nat)
    requires i < |batches|
    ensures AcceptedAt(batches, i) <==> Accepts(After(batches[..i]), batches[i])
  {
    VerdictsOfPrefix(batches, i + 1);
    assert batches[..i + 1][..i] == batches[..i];
  }

  lemma {:induction false} AfterOneMore(batches: seq<Batch>, k: nat)
    requires k < |batches|
    ensures After(batches[..k + 1]) == Store(After(batches[..k]), batches[k])
  {
    assert batches[..k + 1][..k] == batches[..k];
  }

  // ----- replay -----

  /** No batch's clock is more than the allowed skew behind an earlier batch's clock. */
  ghost predicate ClocksAgree(batches: seq<Batch>) {
    forall i, j :: 0 <= i < j < |batches| ==> batches[j].now >= batches[i].now - MAX_CLOCK_SKEW
  }

  /** The nonce is recorded with the expiry of the given request. */
  ghost predicate Remembers(t: Tables, b: Batch) {
    b.nonce in t.nonces && t.nonces[b.nonce].expiresAt == b.timestamp + NONCE_TTL
  }

  lemma {:induction false} StoreRemembers(t: Tables, b: Batch, c: Batch)
    requires Remembers(t, b) && c.now <= b.timestamp + NONCE_TTL
    ensures Remembers(Store(t, c), b)
  {
    assert b.nonce in Purged(t.nonces, c.now);
  }

  /** An accepted nonce stays recorded while no batch's clock passes its expiry. */
  lemma {:induction false} NonceIsRemembered(batches: seq<Batch>, i: nat, k: nat)
    requires i < k <= |batches| && AcceptedAt(batches, i)
    requires forall m :: i < m < k ==> batches[m].now <= batches[i].timestamp + NONCE_TTL
    ensures Remembers(After(batches[..k]), batches[i])
    decreases k
  {
    AfterOneMore(batches, k - 1);
    if i < k - 1 {
      NonceIsRemembered(batches, i, k - 1);
      StoreRemembers(After(batches[..k - 1]), batches[i], batches[k - 1]);
    } else {
      VerdictAt(batches, i);
    }
  }

  /** Replay safety over unbounded runs: no pair of timestamp and nonce is accepted twice. */
  lemma {:induction false} NoReplay(batches: seq<Batch>, i: nat, j: nat)
    requires AllTimely(batches) && ClocksAgree(batches)
    requires i < j < |batches|
    requires AcceptedAt(batches, i) && AcceptedAt(batches, j)
    ensures batches[i].timestamp != batches[j].timestamp || batches[i].nonce != batches[j].nonce
  {
    if batches[i].timestamp == batches[j].timestamp && batches[i].nonce == batches[j].nonce {
      assert Timely(batches[j]);
      NonceIsRemembered(batches, i, j);
      VerdictAt(batches, j);
      assert false;
    }
  }

  /** The nonce of batch `i` is not accepted again before batch `k`. */
  ghost predicate LastUse(batches: seq<Batch>, i: nat, k: nat)
    requires i < k <= |batches|
  {
    && AcceptedAt(batches, i)
    && forall m :: i < m < k && batches[m].nonce == batches[i].nonce ==> !AcceptedAt(batches, m)
  }

  /** The clock of `c` is past the expiry of the nonce of `b`. */
  predicate Expires(b: Batch, c: Batch) {
    c.now > b.timestamp + NONCE_TTL
  }

  /** An accepted batch between `i` and `k` has a clock past the expiry of batch `i`. */
  ghost predicate Outlived(batches: seq<Batch>, i: nat, k: nat)
    requires i < k <= |batches|
  {
    exists m :: i < m < k && AcceptedAt(batches, m) && Expires(batches[i], batches[m])
  }

  /** What the tables hold of the nonce of an accepted batch, which may have been outlived. */
  ghost predicate RemembersUnless(outlived: bool, t: Tables, b: Batch) {
    if outlived then b.nonce !in t.nonces else Remembers(t, b)
  }

  lemma {:induction false} StoreForgets(outlived: bool, t: Tables, b: Batch, c: Batch)
    requires RemembersUnless(outlived, t, b) && (Accepts(t, c) ==> c.nonce != b.nonce)
    ensures RemembersUnless(outlived || (Accepts(t, c) && Expires(b, c)), Store(t, c), b)
  {
    if !outlived && !Expires(b, c) {
      StoreRemembers(t, b, c);
    }
  }

  lemma {:induction false} OutlivedOneMore(batches: seq<Batch>, i: nat, k: nat)
    requires i < k < |batches|
    ensures Outlived(batches, i, k + 1) <==>
            Outlived(batches, i, k) || (AcceptedAt(batches, k) && Expires(batches[i], batches[k]))
  {
    if Outlived(batches, i, k + 1) && !Outlived(batches, i, k) {
      var m :| i < m < k + 1 && AcceptedAt(batches, m) && Expires(batches[i], batches[m]);
      assert m == k;
    }
  }

  /** A nonce is dropped exactly by the first accepted batch whose clock is past its expiry. */
  lemma {:induction false} ForgottenExactly(batches: seq<Batch>, i: nat, k: nat)
    requires i < k <= |batches| && LastUse(batches, i, k)
    ensures RemembersUnless(Outlived(batches, i, k), After(batches[..k]), batches[i])
    decreases k
  {
    var n := k - 1;
    AfterOneMore(batches, n);
    VerdictAt(batches, n);
    if i < n {
      ForgottenExactly(batches, i, n);
      OutlivedOneMore(batches, i, n);
      StoreForgets(Outlived(batches, i, n), After(batches[..n]), batches[i], batches[n]);
    }
  }

  /** When a nonce is accepted again, exactly: its own clock or that of an accepted batch
      since its last use is past the expiry it had then. */
  lemma {:induction false} NonceReusedExactly(batches: seq<Batch>, i: nat, j: nat)
    requires i < j < |batches| && LastUse(batches, i, j) && batches[j].nonce == batches[i].nonce
    ensures AcceptedAt(batches, j) <==>
            Outlived(batches, i, j) || Expires(batches[i], batches[j])
  {
    ForgottenExactly(batches, i, j);
    VerdictAt(batches, j);
  }

  /** When a signed request is accepted again, exactly: a batch accepted since then has a
      clock past the expiry of its nonce. */
  lemma {:induction false} ReplayedExactly(batches: seq<Batch>, i: nat, j: nat)
    requires AllTimely(batches) && i < j < |batches| && LastUse(batches, i, j)
    requires batches[j].nonce == batches[i].nonce && batches[j].timestamp == batches[i].timestamp
    ensures AcceptedAt(batches, j) <==> Outlived(batches, i, j)
  {
    assert Timely(batches[j]);
    NonceReusedExactly(batches, i, j);
  }

  /** The allowance is exact: with clocks that disagree by one second more, a
      signed request can be accepted twice. */
  lemma {:induction false} ReplayBeyondTheAllowance(
      t: int, nonce: string, other: string, first: Sanitized, second: Sanitized)
    requires nonce != other
    ensures var late := t + 2 * MAX_CLOCK_SKEW + 1;
            var batches := [Batch(t, t, nonce, first), Batch(late, late, other, second),
                            Batch(t + MAX_CLOCK_SKEW, t, nonce, first)];
            && batches[2].now == batches[1].now - MAX_CLOCK_SKEW - 1
            && (forall k :: 0 <= k < 3 ==> Distance(batches[k].now, batches[k].timestamp) <= MAX_CLOCK_SKEW)
            && AcceptedAt(batches, 0) && AcceptedAt(batches, 1) && AcceptedAt(batches, 2)
  {
    var late := t + 2 * MAX_CLOCK_SKEW + 1;
    var batches :=
      [Batch(t, t, nonce, first), Batch(late, late, other, second), Batch(t + MAX_CLOCK_SKEW, t, nonce, first)];
    AfterOneMore(batches, 0);
    AfterOneMore(batches, 1);
    VerdictAt(batches, 0);
    VerdictAt(batches, 1);
    VerdictAt(batches, 2);
    assert nonce !in After(batches[..2]).nonces;
  }

  // ----- the latest-row table -----

  predicate Counts(batches: seq<Batch>, source: string, i: nat)
    requires i < |batches|
  {
    AcceptedAt(batches, i) && Source(batches[i]) == source
  }

  /** `i` is the last to arrive among the accepted batches of a source whose observation time is greatest. */
  ghost predicate IsLatest(batches: seq<Batch>, source: string, i: nat) {
    && i < |batches|
    && Counts(batches, source, i)
    && forall j: nat :: j < |batches| && Counts(batches, source, j) ==>
         Observed(batches[j]) < Observed(batches[i]) || (Observed(batches[j]) == Observed(batches[i]) && j <= i)
  }

  lemma {:induction false} CountsInPrefix(batches: seq<Batch>, source: string, n: nat, j: nat)
    requires j < n <= |batches|
    ensures Counts(batches[..n], source, j) <==> Counts(batches, source, j)
  {
    VerdictsOfPrefix(batches, n);
  }

  /** Whether storing `b` sets the row of `source`. */
  predicate Sets(t: Tables, b: Batch, source: string) {
    Accepts(t, b) && Source(b) == source && (source in t.rows ==> Observed(b) >= t.rows[source].observedUnix)
  }

  lemma {:induction false} RowAfterStore(t: Tables, b: Batch, source: string)
    ensures Sets(t, b, source) ==> source in Store(t, b).rows && Store(t, b).rows[source] == RowOf(b)
    ensures !Sets(t, b, source) ==>
              && (source in Store(t, b).rows <==> source in t.rows)
              && (source in t.rows ==> Store(t, b).rows[source] == t.rows[source])
  {
  }

  lemma {:induction false} LatestAfterOneMore(batches: seq<Batch>, source: string, n: nat, i: nat)
    requires |batches| == n + 1 && IsLatest(batches[..n], source, i)
    ensures Counts(batches, source, n) && Observed(batches[n]) >= Observed(batches[i]) ==> IsLatest(batches, source, n)
    ensures !(Counts(batches, source, n) && Observed(batches[n]) >= Observed(batches[i])) ==>
              IsLatest(batches, source, i)
  {
    forall j: nat | j < n
      ensures Counts(batches[..n], source, j) <==> Counts(batches, source, j)
    {
      CountsInPrefix(batches, source, n, j);
    }
  }

  lemma {:induction false} FirstIsLatest(batches: seq<Batch>, source: string, n: nat)
    requires |batches| == n + 1 && Counts(batches, source, n)
    requires forall j: nat :: j < n ==> !Counts(batches[..n], source, j)
    ensures IsLatest(batches, source, n)
  {
    forall j: nat | j < n
      ensures !Counts(batches, source, j)
    {
      CountsInPrefix(batches, source, n, j);
    }
  }

  /** `source` has a row exactly if one of its batches was accepted. */
  ghost predicate RowMatchesHistory(batches: seq<Batch>, source: string) {
    source in After(batches).rows <==> exists j: nat :: j < |batches| && Counts(batches, source, j)
  }

  lemma {:induction false} HistoryAfterOneMore(batches: seq<Batch>, source: string, n: nat)
    requires |batches| == n + 1 && RowMatchesHistory(batches[..n], source)
    ensures RowMatchesHistory(batches, source)
  {
    assert batches[..n + 1] == batches;
    AfterOneMore(batches, n);
    RowAfterStore(After(batches[..n]), batches[n], source);
    VerdictAt(batches, n);
    assert Sets(After(batches[..n]), batches[n], source) ==> Counts(batches, source, n);
    forall j: nat | j < n
      ensures Counts(batches[..n], source, j) <==> Counts(batches, source, j)
    {
      CountsInPrefix(batches, source, n, j);
    }
    if source in After(batches[..n]).rows {
      var j: nat :| j < n && Counts(batches[..n], source, j);
      assert Counts(batches, source, j);
    }
  }

  /** The table refines the history: a source has a row exactly if one of its
      batches was accepted, and the row is that of the latest one. */
  lemma {:induction false} RowIsLatest(batches: seq<Batch>, source: string) returns (i: nat)
    ensures RowMatchesHistory(batches, source)
    ensures source in After(batches).rows ==>
              IsLatest(batches, source, i) && After(batches).rows[source] == RowOf(batches[i])
    decreases |batches|
  {
    i := 0;
    if batches != [] {
      var n := |batches| - 1;
      var before := After(batches[..n]);
      i := RowIsLatest(batches[..n], source);
      HistoryAfterOneMore(batches, source, n);
      assert batches[..n + 1] == batches;
      AfterOneMore(batches, n);
      RowAfterStore(before, batches[n], source);
      VerdictAt(batches, n);
      if source in before.rows {
        LatestAfterOneMore(batches, source, n, i);
      } else if Counts(batches, source, n) {
        FirstIsLatest(batches, source, n);
      }
      if Sets(before, batches[n], source) {
        i := n;
      }
    }
  }

  lemma {:induction false} StoreNeverGoesBack(t: Tables, b: Batch, source: string)
    requires source in t.rows
    ensures source in Store(t, b).rows && t.rows[source].observedUnix <= Store(t, b).rows[source].observedUnix
  {
    RowAfterStore(t, b, source);
  }

  /** A row's observation time never goes back, and a row never disappears. */
  lemma {:induction false} RowsNeverGoBack(batches: seq<Batch>, source: string, i: nat, j: nat)
    requires i <= j <= |batches|
    requires source in After(batches[..i]).rows
    ensures source in After(batches[..j]).rows
    ensures After(batches[..i]).rows[source].observedUnix <= After(batches[..j]).rows[source].observedUnix
    decreases j
  {
    if i < j {
      RowsNeverGoBack(batches, source, i, j - 1);
      AfterOneMore(batches, j - 1);
      StoreNeverGoesBack(After(batches[..j - 1]), batches[j - 1], source);
    }
  }

  /** Observation and arrival of a stored row are at most twice the skew apart. */
  lemma {:induction false} RowIsFresh(batches: seq<Batch>, source: string)
    requires AllTimely(batches) && source in After(batches).rows
    ensures var row := After(batches).rows[source];
            Distance(row.observedUnix, row.receivedUnix) <= 2 * MAX_CLOCK_SKEW
  {
    var i := RowIsLatest(batches, source);
    assert Timely(batches[i]);
  }

  /** No source can be blocked for long by a row from the future: an accepted
      observation made 600 seconds after the row arrived, or arriving 1200 seconds
      after it, replaces the row. */
  lemma {:induction false} LaterObservationReplaces(batches: seq<Batch>, b: Batch)
    requires AllTimely(batches) && Timely(b) && Accepts(After(batches), b)
    requires Source(b) in After(batches).rows
    requires var row := After(batches).rows[Source(b)];
             Observed(b) >= row.receivedUnix + 2 * MAX_CLOCK_SKEW || b.now >= row.receivedUnix + 4 * MAX_CLOCK_SKEW
    ensures After(batches + [b]).rows[Source(b)] == RowOf(b)
  {
    RowIsFresh(batches, Source(b));
    assert (batches + [b])[..|batches|] == batches;
  }
}
