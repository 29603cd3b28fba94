/** The public read: parsing stored rows again, and its consistency with ingest. */
module StatusRead {
  import opened Wrappers
  import opened StatusPolicy
  import opened Sanitizer
  import opened Observations
  import opened StoredForm
  import opened LegacyRandomx
  import opened RoundTrip
  import opened StatusStore

  const PUBLIC_NODE_LIMIT := 32

  datatype Connection = Live | Stale | Offline

  datatype Node = Node(
    nodeId: string,
    connection: Connection,
    ageSeconds: nat,
    systemState: string,
    observation: Observation,
    receivedUnix: int)

  datatype PublicStatus = PublicStatus(nodeCount: nat, totalNodeCount: nat, truncated: bool, nodes: seq<Node>)

  /** The stored observation, if its payload still validates and belongs to its row. */
  function ParseStored(clock: Clock, source: string, row: Row): Option<Observation> {
    if Prop(row.payload, Schema) != Some(Str(OBSERVATION_SCHEMA)) then None
    else
      var observed := ReadTime(clock, row.payload);
      if observed.None? then None
      else
        match ValidateAny(clock, row.payload, observed.value)
        case Err(_) => None
        case Ok(v) => if v.observation.sourceId == source then Some(v.observation) else None
  }

  function Age(receivedUnix: int, now: int): nat {
    if now > receivedUnix then now - receivedUnix else 0
  }

  function ConnectionOf(age: nat): Connection {
    if age <= 90 then Live else if age <= 300 then Stale else Offline
  }

  function PublicNode(clock: Clock, source: string, row: Row, now: int): Option<Node> {
    match ParseStored(clock, source, row)
    case None => None
    case Some(o) =>
      var age := Age(row.receivedUnix, now);
      Some(Node(if |source| > 12 then source[..12] else source, ConnectionOf(age), age, Worst(o.components), o,
                row.receivedUnix))
  }

  /** A row as selected, with its key. */
  datatype Entry = Entry(source: string, row: Row)

  function Publisher(clock: Clock, now: int): Entry -> Option<Node> {
    (entry: Entry) => PublicNode(clock, entry.source, entry.row, now)
  }

  /** Map, then keep what is there. */
  function FilterMap<A, B>(f: A -> Option<B>, items: seq<A>): seq<B> {
    if items == [] then []
    else
      var n := |items| - 1;
      var last := f(items[n]);
      FilterMap(f, items[..n]) + if last.Some? then [last.value] else []
  }

  /** Map the selected rows to nodes and drop those that do not parse. */
  function Nodes(clock: Clock, selected: seq<Entry>, now: int): seq<Node> {
    FilterMap(Publisher(clock, now), selected)
  }

  function ReadPublicStatus(clock: Clock, selected: seq<Entry>, total: nat, now: int): PublicStatus {
    var nodes := Nodes(clock, selected, now);
    PublicStatus(|nodes|, total, total > |nodes|, nodes)
  }

  /** What the row query returns: at most the limit of rows, latest received first. */
  ghost predicate Selects(rows: map<string, Row>, selected: seq<Entry>) {
    && |selected| == (if |rows| < PUBLIC_NODE_LIMIT then |rows| else PUBLIC_NODE_LIMIT)
    && (forall i :: 0 <= i < |selected| ==> selected[i].source in rows && rows[selected[i].source] == selected[i].row)
    && (forall i, j :: 0 <= i < j < |selected| ==>
          selected[i].source != selected[j].source && selected[i].row.receivedUnix >= selected[j].row.receivedUnix)
    && (forall source, i :: source in rows && 0 <= i < |selected| && Entry(source, rows[source]) !in selected ==>
          rows[source].receivedUnix <= selected[i].row.receivedUnix)
  }

  // ----- consistency -----

  /** A row written by ingest parses back to exactly the observation that was accepted. */
  lemma {:induction false} StoredRowParses(clock: Clock, b: Batch)
    requires Genuine(clock, b)
    ensures ParseStored(clock, Source(b), RowOf(b)) == Some(b.sanitized.observation)
  {
    var raw :| ValidateAny(clock, raw, b.timestamp) == Ok(b.sanitized);
    var o := b.sanitized.observation;
    StoredObservationReadsBack(clock, raw, b.timestamp, b.sanitized);
    ObservationFields(o, ComponentsJson(o.components, o.observedAt));
    AcceptedKeepsTime(clock, ToJson(o), b.sanitized.observedUnix, b.sanitized);
  }

  /** The time of an accepted observation is the one its own text gives. */
  lemma {:induction false} AcceptedKeepsTime(clock: Clock, raw: Json, requestTimestamp: int, v: Sanitized)
    requires ValidateAny(clock, raw, requestTimestamp) == Ok(v)
    ensures ReadTime(clock, raw) == Some(v.observedUnix)
  {
    if LegacyPosition(raw).Some? {
      var i := LegacyPosition(raw).value;
      LegacyPositionIsRandomx(raw);
      var copy := Normalized(raw, i);
      assert Prop(copy, ObservedAt) == Prop(raw, ObservedAt);
      ValidateMeansParts(clock, copy, requestTimestamp, Validate(clock, copy, requestTimestamp).value);
    } else {
      ValidateMeansParts(clock, raw, requestTimestamp, v);
    }
  }

  /** The node published for a stored batch. */
  function NodeOf(b: Batch, now: int): Node {
    var age := Age(b.now, now);
    Node(if |Source(b)| > 12 then Source(b)[..12] else Source(b), ConnectionOf(age), age,
         RowOf(b).overallStatus, b.sanitized.observation, b.now)
  }

  /** A selected row that ingest wrote. */
  ghost predicate Ingested(clock: Clock, entry: Entry) {
    exists b :: Genuine(clock, b) && entry == Entry(Source(b), RowOf(b))
  }

  lemma {:induction false} RowsAreIngested(clock: Clock, batches: seq<Batch>, source: string)
    requires AllGenuine(clock, batches) && source in After(batches).rows
    ensures Ingested(clock, Entry(source, After(batches).rows[source]))
  {
    var i := RowIsLatest(batches, source);
    assert Genuine(clock, batches[i]);
  }

  /** The node shows the row's own overall status and the observation exactly as accepted. */
  ghost predicate Published(clock: Clock, entry: Entry, node: Node, now: int) {
    exists b :: Genuine(clock, b) && entry == Entry(Source(b), RowOf(b)) && node == NodeOf(b, now)
  }

  lemma {:induction false} EntryIsPublished(clock: Clock, entry: Entry, now: int) returns (node: Node)
    requires Ingested(clock, entry)
    ensures PublicNode(clock, entry.source, entry.row, now) == Some(node)
    ensures Published(clock, entry, node, now)
  {
    var b :| Genuine(clock, b) && entry == Entry(Source(b), RowOf(b));
    StoredRowParses(clock, b);
    node := NodeOf(b, now);
  }

  lemma {:induction false} FilterMapKeepsAll<A, B>(f: A -> Option<B>, items: seq<A>)
    requires forall i :: 0 <= i < |items| ==> f(items[i]).Some?
    ensures |FilterMap(f, items)| == |items|
    ensures forall i :: 0 <= i < |items| ==> f(items[i]) == Some(FilterMap(f, items)[i])
  {
    if items != [] {
      FilterMapKeepsAll(f, items[..|items| - 1]);
    }
  }

  /** A read publishes one node for every selected row, in order. */
  ghost predicate PublishesAll(clock: Clock, selected: seq<Entry>, nodes: seq<Node>, now: int) {
    |nodes| == |selected| && forall i :: 0 <= i < |selected| ==> Published(clock, selected[i], nodes[i], now)
  }

  lemma {:induction false} NoRowIsDropped(clock: Clock, selected: seq<Entry>, now: int)
    requires forall i :: 0 <= i < |selected| ==> Ingested(clock, selected[i])
    ensures PublishesAll(clock, selected, Nodes(clock, selected, now), now)
  {
    var f := Publisher(clock, now);
    forall i | 0 <= i < |selected|
      ensures f(selected[i]).Some? && Published(clock, selected[i], f(selected[i]).value, now)
    {
      var node := EntryIsPublished(clock, selected[i], now);
    }
    FilterMapKeepsAll(f, selected);
  }

  /** Ingest-to-read consistency: in every state ingest can reach, a read drops no
      row, so the counts are exact and the list is marked truncated exactly if
      there are more sources than the limit. */
  lemma {:induction false} ReadIsConsistent(clock: Clock, batches: seq<Batch>, selected: seq<Entry>, now: int)
    requires AllGenuine(clock, batches)
    requires Selects(After(batches).rows, selected)
    ensures var total := |After(batches).rows|;
            var status := ReadPublicStatus(clock, selected, total, now);
            && status.nodeCount == |status.nodes| == |selected|
            && status.nodeCount == (if total < PUBLIC_NODE_LIMIT then total else PUBLIC_NODE_LIMIT)
            && (status.truncated <==> total > PUBLIC_NODE_LIMIT)
            && PublishesAll(clock, selected, status.nodes, now)
  {
    forall i | 0 <= i < |selected|
      ensures Ingested(clock, selected[i])
    {
      RowsAreIngested(clock, batches, selected[i].source);
    }
    NoRowIsDropped(clock, selected, now);
  }
}
