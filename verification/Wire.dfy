/**
 Entries on the wire: the client's and the server's conversions
 (internal/client/repository/skeeper/client.go and internal/skeeper/pkg/models/models.go), and the
 column arrays of the upsert statement. A uuid's text is either the text of an id or unparseable.
 */
module Wire {
  import opened Basics
  import opened Crypto
  import opened Entries

  datatype UuidText = Text(id: Uuid) | Garbled(text: string)

  /** A protobuf Entry; a nil timestamp is None. */
  datatype WireEntry = WireEntry(
    uuid: UuidText,
    typ: string,
    dek: Blob,
    payload: Blob,
    meta: Blob,
    version: int,
    deleted: bool,
    updatedAt: Option<Time>)

  datatype WireError = InvalidUuid

  function ParseUuid(t: UuidText): Result<Uuid, WireError> {
    match t
    case Text(id) => Ok(id)
    case Garbled(_) => Err(InvalidUuid)
  }

  function ToWire(e: Entry): WireEntry {
    WireEntry(Text(e.uuid), e.typ, e.dek, e.payload, e.meta, e.version, e.deleted, Some(e.updatedAt))
  }

  function FromWire(w: WireEntry): Result<Entry, WireError> {
    match ParseUuid(w.uuid)
    case Err(e) => Err(e)
    case Ok(id) =>
      Ok(Entry(id, w.typ, w.dek, w.payload, w.meta, w.version, w.deleted, w.updatedAt.GetOr(ZERO_TIME)))
  }

  /** The wire entry stands for the entry, field by field; a nil timestamp is January 1 of year 1. */
  ghost predicate StandsFor(w: WireEntry, e: Entry) {
    && w.uuid == Text(e.uuid) && w.typ == e.typ && w.dek == e.dek && w.payload == e.payload && w.meta == e.meta
    && w.version == e.version && w.deleted == e.deleted
    && match w.updatedAt
       case Some(t) => e.updatedAt == t
       case None => e.updatedAt == -62_135_596_800_000_000_000
  }

  /** `es` is the list the wire entries stand for, one for one. */
  ghost predicate DecodesTo(ws: seq<WireEntry>, es: seq<Entry>) {
    |ws| == |es| && forall i | 0 <= i < |ws| :: StandsFor(ws[i], es[i])
  }

  method EncodeAll(es: seq<Entry>) returns (ws: seq<WireEntry>)
    ensures DecodesTo(ws, es) && forall i | 0 <= i < |ws| :: ws[i].updatedAt.Some?
  {
    ws := [];
    for i := 0 to |es|
      invariant |ws| == i && forall j | 0 <= j < i :: StandsFor(ws[j], es[j]) && ws[j].updatedAt.Some?
    {
      ws := ws + [ToWire(es[i])];
    }
  }

  /** All entries decode, or one bad uuid rejects the whole list. */
  method DecodeAll(ws: seq<WireEntry>) returns (r: Result<seq<Entry>, WireError>)
    ensures r.Err? <==> exists i :: 0 <= i < |ws| && ws[i].uuid.Garbled?
    ensures r.Ok? ==> DecodesTo(ws, r.value)
  {
    var es: seq<Entry> := [];
    for i := 0 to |ws|
      invariant |es| == i && forall j | 0 <= j < i :: StandsFor(ws[j], es[j])
    {
      match FromWire(ws[i])
      case Err(e) => return Err(e);
      case Ok(e) => es := es + [e];
    }
    return Ok(es);
  }

  method EncodeIds(ids: seq<Uuid>) returns (texts: seq<UuidText>)
    ensures |texts| == |ids| && forall i | 0 <= i < |ids| :: texts[i] == Text(ids[i])
  {
    texts := [];
    for i := 0 to |ids|
      invariant |texts| == i && forall j | 0 <= j < i :: texts[j] == Text(ids[j])
    {
      texts := texts + [Text(ids[i])];
    }
  }

  method DecodeIds(texts: seq<UuidText>) returns (r: Result<seq<Uuid>, WireError>)
    ensures r.Err? <==> exists i :: 0 <= i < |texts| && texts[i].Garbled?
    ensures r.Ok? ==> |r.value| == |texts| && forall i | 0 <= i < |texts| :: texts[i] == Text(r.value[i])
  {
    var ids: seq<Uuid> := [];
    for i := 0 to |texts|
      invariant |ids| == i && forall j | 0 <= j < i :: texts[j] == Text(ids[j])
    {
      match ParseUuid(texts[i])
      case Err(e) => return Err(e);
      case Ok(id) => ids := ids + [id];
    }
    return Ok(ids);
  }

  /** Decoding is determined: a list of wire entries decodes to at most one list of entries. */
  lemma DecodingIsFunctional(ws: seq<WireEntry>, a: seq<Entry>, b: seq<Entry>)
    requires DecodesTo(ws, a) && DecodesTo(ws, b)
    ensures a == b
  {
    forall i | 0 <= i < |ws|
      ensures a[i] == b[i]
    {
      assert StandsFor(ws[i], a[i]) && StandsFor(ws[i], b[i]);
    }
  }

  // ----- Column arrays -----

  /** The nine parallel arrays bound to the upsert statement. */
  datatype Columns = Columns(
    uuids: seq<Uuid>,
    userIds: seq<UserId>,
    types: seq<string>,
    deks: seq<Blob>,
    payloads: seq<Blob>,
    metas: seq<Blob>,
    versions: seq<int>,
    deleted: seq<bool>,
    updatedAt: seq<Time>)

  predicate Rectangular(c: Columns) {
    |c.uuids| == |c.userIds| == |c.types| == |c.deks| == |c.payloads| == |c.metas| == |c.versions| == |c.deleted|
        == |c.updatedAt|
  }

  /** Row `i` of UNNEST over the arrays. */
  function UnnestRow(c: Columns, i: nat): (UserId, Entry)
    requires Rectangular(c) && i < |c.uuids|
  {
    (c.userIds[i],
     Entry(c.uuids[i], c.types[i], c.deks[i], c.payloads[i], c.metas[i], c.versions[i], c.deleted[i], c.updatedAt[i]))
  }

  /** The arrays carry the user's entries and nothing else. */
  ghost predicate Carries(c: Columns, user: UserId, entries: seq<Entry>) {
    && Rectangular(c) && |c.uuids| == |entries|
    && forall i | 0 <= i < |entries| :: UnnestRow(c, i) == (user, entries[i])
  }
}
