/** Pagination cursors: a JSON body in base64url, signed for BaoStock and the live providers and
    bound to dataset and query fingerprint in clear text for the fixtures. JSON text and the
    keyed digest are library calls, so they are parameters here. */
module CursorCodec {
  import opened Base64Url
  import opened Json
  import opened Prelude

  // INVALID_CURSOR, PROVIDER_CURSOR_INVALID, SNAPSHOT_CHANGED, INVALID_PAGINATION,
  // SCHEMA_DRIFT, UNSUPPORTED_CAPABILITY, and the ValueError of an encoder.
  datatype Failure =
    InvalidCursor | CursorRejected | SnapshotChanged | InvalidPagination | SchemaDrift | Unsupported | OutOfRange

  const MAX_CURSOR_OFFSET := 100_000

  // ---- Libraries ------------------------------------------------------------------------------

  datatype Wire = Wire(
    dumps: seq<Field> -> seq<Byte>,
    loads: seq<Byte> -> Option<Json>,
    mac: seq<Byte> -> seq<Byte>)
  {
    // What JSON text promises: an object of scalars is read back with the same fields. Their
    // order is the writer's business.
    ghost predicate Faithful() {
      forall fields :: IsFlat(fields) ==> ReadsBack(fields)
    }

    ghost predicate ReadsBack(fields: seq<Field>) {
      && loads(dumps(fields)).Some?
      && loads(dumps(fields)).value.Obj?
      && forall key :: Get(loads(dumps(fields)).value.fields, key) == Get(fields, key)
    }
  }

  ghost predicate IsFlat(fields: seq<Field>) {
    && (forall f <- fields :: f.value.Null? || f.value.Bool? || f.value.Int? || f.value.Str?)
    && forall i, j | 0 <= i < j < |fields| :: fields[i].key != fields[j].key
  }

  // The text before and after the first separator, if there is one.
  function Cut(s: string, sep: char): (cut: Option<(string, string)>)
    ensures cut.None? <==> sep !in s
    ensures cut.Some? ==> s == cut.value.0 + [sep] + cut.value.1 && sep !in cut.value.0
  {
    if s == "" then None
    else if s[0] == sep then Some(("", s[1..]))
    else
      match Cut(s[1..], sep)
      case None => None
      case Some((before, after)) => Some(([s[0]] + before, after))
  }

  lemma {:induction false} CutAtTheSeparator(before: string, sep: char, after: string)
    requires sep !in before
    ensures Cut(before + [sep] + after, sep) == Some((before, after))
  {
    var s := before + [sep] + after;
    if before == "" {
      assert s[1..] == after;
    } else {
      CutAtTheSeparator(before[1..], sep, after);
      assert s[1..] == before[1..] + [sep] + after;
      assert [before[0]] + before[1..] == before;
    }
  }

  function Optional(text: Option<string>): Json {
    match text case None => Null case Some(s) => Str(s)
  }

  // A parsed value that the decoders take for the written one: Python counts booleans as numbers.
  ghost predicate ReadAs(got: Option<Json>, written: Json) {
    || got == Some(written)
    || (got == Some(Bool(true)) && written == Int(1))
    || (got == Some(Bool(false)) && written == Int(0))
  }

  // ---- The signed envelope --------------------------------------------------------------------

  datatype Sealed = Sealed(version: string, body: seq<Byte>, signature: seq<Byte>, payload: seq<Field>)

  function Seal(wire: Wire, version: string, payload: seq<Field>): string {
    var body := wire.dumps(payload);
    version + "." + (Encode(body) + "." + Encode(wire.mac(body)))
  }

  // cursor.split(".", maxsplit=2), both decodings and the parse.
  function Unseal(wire: Wire, cursor: string): (got: Result<Sealed, Failure>)
    ensures got.Ok? ==> wire.loads(got.value.body) == Some(Obj(got.value.payload))
    ensures got.Err? ==> got.error == InvalidCursor
  {
    match Cut(cursor, '.')
    case None => Err(InvalidCursor)
    case Some((version, rest)) =>
      match Cut(rest, '.')
      case None => Err(InvalidCursor)
      case Some((encodedBody, encodedSignature)) =>
        match (Decode(encodedBody), Decode(encodedSignature))
        case (Some(body), Some(signature)) =>
          (match wire.loads(body)
           case Some(Obj(payload)) => Ok(Sealed(version, body, signature, payload))
           case _ => Err(InvalidCursor))
        case _ => Err(InvalidCursor)
  }

  lemma {:induction false} SealedIsUnsealed(wire: Wire, version: string, payload: seq<Field>)
    requires wire.Faithful() && IsFlat(payload) && '.' !in version
    ensures Unseal(wire, Seal(wire, version, payload)).Ok?
    ensures var got := Unseal(wire, Seal(wire, version, payload)).value;
            && got.version == version
            && got.body == wire.dumps(payload)
            && got.signature == wire.mac(got.body)
            && forall key :: Get(got.payload, key) == Get(payload, key)
  {
    var body := wire.dumps(payload);
    assert wire.ReadsBack(payload);
    RoundTrip(body);
    RoundTrip(wire.mac(body));
    EncodeIsPlain(body);
    var tail := Encode(body) + "." + Encode(wire.mac(body));
    CutAtTheSeparator(version, '.', tail);
    CutAtTheSeparator(Encode(body), '.', Encode(wire.mac(body)));
  }

  // ---- BaoStock cursors -----------------------------------------------------------------------

  datatype BaoStockCursor = BaoStockCursor(offset: nat, lastBarId: Option<string>, watermark: Option<string>)

  // What an encoder call was given.
  datatype Issue = Issue(fingerprint: string, offset: int, lastBarId: string, watermark: string)

  function BaoStockBody(issue: Issue): seq<Field> {
    [Field("fingerprint", Str(issue.fingerprint)), Field("last_bar_id", Str(issue.lastBarId)),
     Field("offset", Int(issue.offset)), Field("source_watermark", Str(issue.watermark)), Field("version", Int(1))]
  }

  function EncodeBaoStock(wire: Wire, issue: Issue): Result<string, Failure> {
    if issue.offset < 0 || issue.offset > MAX_CURSOR_OFFSET then Err(OutOfRange)
    else Ok(Seal(wire, "baostock-v1", BaoStockBody(issue)))
  }

  function AcceptBaoStock(wire: Wire, got: Sealed, fingerprint: string): Result<BaoStockCursor, Failure> {
    var offset := AsInt(Get(got.payload, "offset"));
    var lastBarId := AsText(Get(got.payload, "last_bar_id"));
    var watermark := AsText(Get(got.payload, "source_watermark"));
    if || got.version != "baostock-v1"
       || got.signature != wire.mac(got.body)
       || !EqualsOne(Get(got.payload, "version"))
       || Get(got.payload, "fingerprint") != Some(Str(fingerprint))
       || offset.None? || offset.value < 0 || offset.value > MAX_CURSOR_OFFSET
       || lastBarId.None? || watermark.None?
    then Err(InvalidCursor)
    else Ok(BaoStockCursor(offset.value, lastBarId, watermark))
  }

  function DecodeBaoStock(wire: Wire, cursor: Option<string>, fingerprint: string)
    : Result<BaoStockCursor, Failure>
  {
    match cursor
    case None => Ok(BaoStockCursor(0, None, None))
    case Some(text) =>
      match Unseal(wire, text)
      case Err(e) => Err(e)
      case Ok(got) => AcceptBaoStock(wire, got, fingerprint)
  }

  lemma {:induction false} BaoStockFields(issue: Issue)
    ensures var body := BaoStockBody(issue);
            && IsFlat(body)
            && Get(body, "offset") == Some(Int(issue.offset))
            && Get(body, "last_bar_id") == Some(Str(issue.lastBarId))
            && Get(body, "source_watermark") == Some(Str(issue.watermark))
            && Get(body, "version") == Some(Int(1))
            && Get(body, "fingerprint") == Some(Str(issue.fingerprint))
  {
    var body := BaoStockBody(issue);
    GetFinds(body);
    assert Found(body, 0) && Found(body, 1) && Found(body, 2) && Found(body, 3) && Found(body, 4);
  }

  lemma {:induction false} SealedIssueIsAccepted(wire: Wire, got: Sealed, issue: Issue, fingerprint: string)
    requires got.version == "baostock-v1" && got.signature == wire.mac(got.body)
    requires 0 <= issue.offset <= MAX_CURSOR_OFFSET
    requires forall key :: Get(got.payload, key) == Get(BaoStockBody(issue), key)
    ensures AcceptBaoStock(wire, got, fingerprint)
         == if fingerprint == issue.fingerprint
            then Ok(BaoStockCursor(issue.offset, Some(issue.lastBarId), Some(issue.watermark)))
            else Err(InvalidCursor)
  {
    BaoStockFields(issue);
  }

  // What an accepted version field holds: Python calls true and 1.0 equal to 1.
  ghost predicate IsOne(value: Option<Json>) {
    ReadAs(value, Int(1)) || value == Some(Float(1.0))
  }

  // The decoder accepts exactly the signed bodies an encoder call could have written for this query.
  lemma {:induction false} BaoStockAcceptsExactly(
      wire: Wire, got: Sealed, fingerprint: string, offset: nat, lastBarId: string, watermark: string)
    ensures AcceptBaoStock(wire, got, fingerprint) == Ok(BaoStockCursor(offset, Some(lastBarId), Some(watermark)))
       <==> && got.version == "baostock-v1" && got.signature == wire.mac(got.body) && offset <= 100_000
            && IsOne(Get(got.payload, "version"))
            && Get(got.payload, "fingerprint") == Some(Str(fingerprint))
            && ReadAs(Get(got.payload, "offset"), Int(offset))
            && Get(got.payload, "last_bar_id") == Some(Str(lastBarId))
            && Get(got.payload, "source_watermark") == Some(Str(watermark))
    ensures var accepted := AcceptBaoStock(wire, got, fingerprint);
            if accepted.Ok? then accepted.value.lastBarId.Some? && accepted.value.watermark.Some?
            else accepted.error == InvalidCursor
  {}

  // Decoding gives back every field under the same fingerprint and refuses every other one;
  // encoding itself fails exactly outside the offset range.
  lemma {:induction false} BaoStockRoundTrip(wire: Wire, issue: Issue, fingerprint: string)
    requires wire.Faithful()
    ensures EncodeBaoStock(wire, issue).Ok? <==> 0 <= issue.offset <= MAX_CURSOR_OFFSET
    ensures EncodeBaoStock(wire, issue).Ok? ==>
              DecodeBaoStock(wire, Some(EncodeBaoStock(wire, issue).value), fingerprint)
              == if fingerprint == issue.fingerprint
                 then Ok(BaoStockCursor(issue.offset, Some(issue.lastBarId), Some(issue.watermark)))
                 else Err(InvalidCursor)
  {
    BaoStockFields(issue);
    SealedIsUnsealed(wire, "baostock-v1", BaoStockBody(issue));
    if 0 <= issue.offset <= MAX_CURSOR_OFFSET {
      var unsealed := Unseal(wire, Seal(wire, "baostock-v1", BaoStockBody(issue))).value;
      SealedIssueIsAccepted(wire, unsealed, issue, fingerprint);
    }
  }

  // No signature under this provider's key exists for a body the provider did not encode.
  ghost predicate NoForgery(wire: Wire, cursor: string, issued: set<Issue>) {
    Unseal(wire, cursor).Ok? && Unseal(wire, cursor).value.signature == wire.mac(Unseal(wire, cursor).value.body)
    ==> exists issue <- issued :: Unseal(wire, cursor).value.body == wire.dumps(BaoStockBody(issue))
  }

  lemma {:induction false} IssuedBodyIsAccepted(wire: Wire, got: Sealed, fingerprint: string, issue: Issue)
    requires wire.Faithful() && wire.loads(got.body) == Some(Obj(got.payload))
    requires got.body == wire.dumps(BaoStockBody(issue))
    requires AcceptBaoStock(wire, got, fingerprint).Ok?
    ensures issue.fingerprint == fingerprint && issue.offset >= 0
    ensures AcceptBaoStock(wire, got, fingerprint)
         == Ok(BaoStockCursor(issue.offset, Some(issue.lastBarId), Some(issue.watermark)))
  {
    BaoStockFields(issue);
    assert wire.ReadsBack(BaoStockBody(issue));
  }

  // However the cursor text is spelled, an accepted one stands for a position that was handed
  // out for this very query.
  lemma {:induction false} AcceptedWasIssued(wire: Wire, cursor: string, fingerprint: string, issued: set<Issue>)
    returns (issue: Issue)
    requires wire.Faithful() && NoForgery(wire, cursor, issued)
    requires DecodeBaoStock(wire, Some(cursor), fingerprint).Ok?
    ensures issue in issued && issue.fingerprint == fingerprint && issue.offset >= 0
    ensures DecodeBaoStock(wire, Some(cursor), fingerprint)
         == Ok(BaoStockCursor(issue.offset, Some(issue.lastBarId), Some(issue.watermark)))
  {
    var got := Unseal(wire, cursor).value;
    issue :| issue in issued && got.body == wire.dumps(BaoStockBody(issue));
    IssuedBodyIsAccepted(wire, got, fingerprint, issue);
  }

  // ---- Cursors of the live providers ----------------------------------------------------------

  datatype LiveCursor = LiveCursor(
    offset: nat, lastRecordKey: Option<string>, snapshotAt: Option<string>, snapshotWatermark: Option<string>)

  function LiveBody(fingerprint: string, offset: int, snapshotAt: string, snapshotWatermark: string,
                    lastRecordKey: Option<string>): seq<Field> {
    [Field("fingerprint", Str(fingerprint)), Field("last_record_key", Optional(lastRecordKey)),
     Field("offset", Int(offset)), Field("snapshot_at", Str(snapshotAt)),
     Field("snapshot_watermark", Str(snapshotWatermark)), Field("version", Int(1))]
  }

  function EncodeLive(wire: Wire, fingerprint: string, offset: int, snapshotAt: string, snapshotWatermark: string,
                      lastRecordKey: Option<string>): Result<string, Failure> {
    if offset < 0 || offset > MAX_CURSOR_OFFSET then Err(OutOfRange)
    else Ok(Seal(wire, "live-v1", LiveBody(fingerprint, offset, snapshotAt, snapshotWatermark, lastRecordKey)))
  }

  function AcceptLive(wire: Wire, got: Sealed, fingerprint: string): Result<LiveCursor, Failure> {
    var offset := AsInt(Get(got.payload, "offset"));
    var key := Get(got.payload, "last_record_key");
    var snapshotAt := AsText(Get(got.payload, "snapshot_at"));
    var snapshotWatermark := AsText(Get(got.payload, "snapshot_watermark"));
    if || got.version != "live-v1"
       || got.signature != wire.mac(got.body)
       || !EqualsOne(Get(got.payload, "version"))
       || Get(got.payload, "fingerprint") != Some(Str(fingerprint))
       || offset.None? || offset.value < 0 || offset.value > MAX_CURSOR_OFFSET
       || (key.Some? && !key.value.Null? && !key.value.Str?)
       || snapshotAt.None? || snapshotWatermark.None?
    then Err(InvalidCursor)
    else Ok(LiveCursor(offset.value, AsText(key), snapshotAt, snapshotWatermark))
  }

  function DecodeLive(wire: Wire, cursor: Option<string>, fingerprint: string): Result<LiveCursor, Failure> {
    match cursor
    case None => Ok(LiveCursor(0, None, None, None))
    case Some(text) =>
      match Unseal(wire, text)
      case Err(e) => Err(e)
      case Ok(got) => AcceptLive(wire, got, fingerprint)
  }

  lemma {:induction false} LiveFields(fingerprint: string, offset: int, snapshotAt: string, snapshotWatermark: string,
                   lastRecordKey: Option<string>)
    ensures var body := LiveBody(fingerprint, offset, snapshotAt, snapshotWatermark, lastRecordKey);
            && IsFlat(body)
            && Get(body, "fingerprint") == Some(Str(fingerprint))
            && Get(body, "last_record_key") == Some(Optional(lastRecordKey))
            && Get(body, "offset") == Some(Int(offset))
            && Get(body, "snapshot_at") == Some(Str(snapshotAt))
            && Get(body, "snapshot_watermark") == Some(Str(snapshotWatermark))
            && Get(body, "version") == Some(Int(1))
  {
    var body := LiveBody(fingerprint, offset, snapshotAt, snapshotWatermark, lastRecordKey);
    GetFinds(body);
    assert Found(body, 0) && Found(body, 1) && Found(body, 2) && Found(body, 3) && Found(body, 4) && Found(body, 5);
  }

  lemma {:induction false} SealedLiveIsAccepted(
      wire: Wire, got: Sealed, encodedFor: string, offset: int, snapshotAt: string, snapshotWatermark: string,
      lastRecordKey: Option<string>, fingerprint: string)
    requires got.version == "live-v1" && got.signature == wire.mac(got.body) && 0 <= offset <= MAX_CURSOR_OFFSET
    requires forall key ::
               Get(got.payload, key)
               == Get(LiveBody(encodedFor, offset, snapshotAt, snapshotWatermark, lastRecordKey), key)
    ensures AcceptLive(wire, got, fingerprint)
         == if fingerprint == encodedFor
            then Ok(LiveCursor(offset, lastRecordKey, Some(snapshotAt), Some(snapshotWatermark)))
            else Err(InvalidCursor)
  {
    LiveFields(encodedFor, offset, snapshotAt, snapshotWatermark, lastRecordKey);
  }

  // The last record key alone may be missing.
  lemma {:induction false} LiveAcceptsExactly(
      wire: Wire, got: Sealed, fingerprint: string, offset: nat, key: Option<string>, snapshotAt: string,
      watermark: string)
    ensures AcceptLive(wire, got, fingerprint) == Ok(LiveCursor(offset, key, Some(snapshotAt), Some(watermark)))
       <==> && got.version == "live-v1" && got.signature == wire.mac(got.body) && offset <= 100_000
            && IsOne(Get(got.payload, "version"))
            && Get(got.payload, "fingerprint") == Some(Str(fingerprint))
            && ReadAs(Get(got.payload, "offset"), Int(offset))
            && (Get(got.payload, "last_record_key") == Some(Optional(key))
                || (key.None? && Get(got.payload, "last_record_key").None?))
            && Get(got.payload, "snapshot_at") == Some(Str(snapshotAt))
            && Get(got.payload, "snapshot_watermark") == Some(Str(watermark))
    ensures var accepted := AcceptLive(wire, got, fingerprint);
            if accepted.Ok? then accepted.value.snapshotAt.Some? && accepted.value.snapshotWatermark.Some?
            else accepted.error == InvalidCursor
  {}

  lemma {:induction false} LiveRoundTrip(
      wire: Wire, encodedFor: string, offset: int, snapshotAt: string, snapshotWatermark: string,
      lastRecordKey: Option<string>, fingerprint: string)
    requires wire.Faithful()
    ensures var cursor := EncodeLive(wire, encodedFor, offset, snapshotAt, snapshotWatermark, lastRecordKey);
            && (cursor.Ok? <==> 0 <= offset <= MAX_CURSOR_OFFSET)
            && (cursor.Ok? ==>
                  DecodeLive(wire, Some(cursor.value), fingerprint)
                  == if fingerprint == encodedFor
                     then Ok(LiveCursor(offset, lastRecordKey, Some(snapshotAt), Some(snapshotWatermark)))
                     else Err(InvalidCursor))
  {
    var body := LiveBody(encodedFor, offset, snapshotAt, snapshotWatermark, lastRecordKey);
    LiveFields(encodedFor, offset, snapshotAt, snapshotWatermark, lastRecordKey);
    SealedIsUnsealed(wire, "live-v1", body);
    if 0 <= offset <= MAX_CURSOR_OFFSET {
      SealedLiveIsAccepted(wire, Unseal(wire, Seal(wire, "live-v1", body)).value, encodedFor, offset, snapshotAt,
                           snapshotWatermark, lastRecordKey, fingerprint);
    }
  }

  // A cursor of one signed family is refused by the other, even under one key and fingerprint.
  lemma {:induction false} FamiliesDoNotMix(
      wire: Wire, issue: Issue, snapshotAt: string, key: Option<string>, fingerprint: string)
    requires wire.Faithful() && 0 <= issue.offset <= MAX_CURSOR_OFFSET
    ensures DecodeLive(wire, Some(EncodeBaoStock(wire, issue).value), fingerprint) == Err(InvalidCursor)
    ensures DecodeBaoStock(
              wire, Some(EncodeLive(wire, issue.fingerprint, issue.offset, snapshotAt, issue.watermark, key).value),
              fingerprint)
            == Err(InvalidCursor)
  {
    BaoStockFields(issue);
    SealedIsUnsealed(wire, "baostock-v1", BaoStockBody(issue));
    LiveFields(issue.fingerprint, issue.offset, snapshotAt, issue.watermark, key);
    SealedIsUnsealed(wire, "live-v1", LiveBody(issue.fingerprint, issue.offset, snapshotAt, issue.watermark, key));
  }

  // ---- Fixture cursors ------------------------------------------------------------------------

  datatype FixtureCursor = FixtureCursor(
    rawCursor: Option<string>, offset: nat, emptyPages: nat, snapshotAt: Option<string>,
    snapshotWatermark: Option<string>, lastRecordKey: Option<string>)

  const FIXTURE_KEYS := {"raw_cursor", "offset", "empty_pages", "snapshot_at", "snapshot_watermark", "last_record_key"}

  function FixtureBody(c: FixtureCursor): seq<Field> {
    [Field("empty_pages", Int(c.emptyPages)), Field("last_record_key", Optional(c.lastRecordKey)),
     Field("offset", Int(c.offset)), Field("raw_cursor", Optional(c.rawCursor)),
     Field("snapshot_at", Optional(c.snapshotAt)), Field("snapshot_watermark", Optional(c.snapshotWatermark))]
  }

  function EncodeFixture(wire: Wire, dataset: string, cursor: FixtureCursor, fingerprint: string): string {
    "fixture-v1" + ":" + (dataset + ":" + (fingerprint + ":" + Encode(wire.dumps(FixtureBody(cursor)))))
  }

  // None, or a string that is not empty; anything else is SCHEMA_DRIFT.
  predicate NoneOrText(value: Option<Json>) {
    value == Some(Null) || (value.Some? && value.value.Str? && value.value.text != "")
  }

  function ReadFixtureBody(payload: seq<Field>): Result<FixtureCursor, Failure> {
    var raw := Get(payload, "raw_cursor");
    var offset := AsInt(Get(payload, "offset"));
    var emptyPages := AsInt(Get(payload, "empty_pages"));
    var at := Get(payload, "snapshot_at");
    var watermark := Get(payload, "snapshot_watermark");
    var last := Get(payload, "last_record_key");
    if (exists f <- payload :: f.key !in FIXTURE_KEYS) || (exists key <- FIXTURE_KEYS :: Get(payload, key).None?)
    then Err(SchemaDrift)
    else if !NoneOrText(raw) || offset.None? then Err(SchemaDrift)
    else if offset.value < 0 then Err(CursorRejected)
    else if emptyPages.None? then Err(SchemaDrift)
    else if emptyPages.value < 0 then Err(CursorRejected)
    else if !NoneOrText(at) || !NoneOrText(watermark) || !NoneOrText(last) then Err(SchemaDrift)
    else Ok(FixtureCursor(AsText(raw), offset.value, emptyPages.value, AsText(at), AsText(watermark), AsText(last)))
  }

  datatype FixtureText = FixtureText(version: string, dataset: string, fingerprint: string, payload: string)

  // cursor.split(":", maxsplit=3)
  function SplitFixture(text: string): Option<FixtureText> {
    match Cut(text, ':')
    case None => None
    case Some((version, afterVersion)) =>
      match Cut(afterVersion, ':')
      case None => None
      case Some((dataset, afterDataset)) =>
        match Cut(afterDataset, ':')
        case None => None
        case Some((fingerprint, payload)) => Some(FixtureText(version, dataset, fingerprint, payload))
  }

  function DecodeFixture(wire: Wire, cursor: Option<string>, dataset: string, fingerprint: string)
    : Result<FixtureCursor, Failure>
  {
    match cursor
    case None => Ok(FixtureCursor(None, 0, 0, None, None, None))
    case Some(text) =>
      match SplitFixture(text)
      case None => Err(CursorRejected)
      case Some(parts) =>
        if parts.version != "fixture-v1" || parts.dataset != dataset || parts.fingerprint != fingerprint then
          Err(CursorRejected)
        else
          match Decode(parts.payload)
          case None => Err(CursorRejected)
          case Some(body) =>
            match wire.loads(body)
            case None => Err(CursorRejected)
            case Some(Obj(payload)) => ReadFixtureBody(payload)
            case Some(_) => Err(SchemaDrift)
  }

  lemma {:induction false} FixtureFields(c: FixtureCursor)
    ensures var body := FixtureBody(c);
            && IsFlat(body)
            && Get(body, "empty_pages") == Some(Int(c.emptyPages))
            && Get(body, "last_record_key") == Some(Optional(c.lastRecordKey))
            && Get(body, "offset") == Some(Int(c.offset))
            && Get(body, "raw_cursor") == Some(Optional(c.rawCursor))
            && Get(body, "snapshot_at") == Some(Optional(c.snapshotAt))
            && Get(body, "snapshot_watermark") == Some(Optional(c.snapshotWatermark))
    ensures forall key :: key !in FIXTURE_KEYS ==> Get(FixtureBody(c), key).None?
  {
    var body := FixtureBody(c);
    GetFinds(body);
    assert Found(body, 0) && Found(body, 1) && Found(body, 2) && Found(body, 3) && Found(body, 4) && Found(body, 5);
  }

  // The texts a fixture puts into a cursor are record ids, cursors and times, never "".
  ghost predicate Encodable(c: FixtureCursor) {
    && c.rawCursor != Some("") && c.snapshotAt != Some("")
    && c.snapshotWatermark != Some("") && c.lastRecordKey != Some("")
  }

  lemma {:induction false} FixtureTextSplits(dataset: string, fingerprint: string, payload: string)
    requires ':' !in dataset && ':' !in fingerprint
    ensures SplitFixture("fixture-v1" + ":" + (dataset + ":" + (fingerprint + ":" + payload)))
         == Some(FixtureText("fixture-v1", dataset, fingerprint, payload))
  {
    CutAtTheSeparator("fixture-v1", ':', dataset + ":" + (fingerprint + ":" + payload));
    CutAtTheSeparator(dataset, ':', fingerprint + ":" + payload);
    CutAtTheSeparator(fingerprint, ':', payload);
  }

  lemma {:induction false} FixtureBodyIsRead(c: FixtureCursor, got: seq<Field>)
    requires Encodable(c) && forall key :: Get(got, key) == Get(FixtureBody(c), key)
    ensures ReadFixtureBody(got) == Ok(c)
  {
    FixtureFields(c);
    forall f | f in got ensures f.key in FIXTURE_KEYS {
      FieldIsFound(got, f);
      assert Get(FixtureBody(c), f.key).Some?;
    }
  }

  // A fixture body is read as a cursor exactly if it has the fields of that cursor and no others.
  lemma {:induction false} FixtureReadsExactly(got: seq<Field>, c: FixtureCursor)
    ensures ReadFixtureBody(got) == Ok(c)
       <==> && Encodable(c) && (forall f <- got :: f.key in FIXTURE_KEYS)
            && ReadAs(Get(got, "offset"), Int(c.offset)) && ReadAs(Get(got, "empty_pages"), Int(c.emptyPages))
            && Get(got, "raw_cursor") == Some(Optional(c.rawCursor))
            && Get(got, "snapshot_at") == Some(Optional(c.snapshotAt))
            && Get(got, "snapshot_watermark") == Some(Optional(c.snapshotWatermark))
            && Get(got, "last_record_key") == Some(Optional(c.lastRecordKey))
  {}

  // A complete body of numbers and texts is drift unless only a negative number is wrong with it.
  lemma {:induction false} NegativeNumbersAreRejected(got: seq<Field>)
    requires AsInt(Get(got, "offset")).Some? && AsInt(Get(got, "empty_pages")).Some?
    requires (forall f <- got :: f.key in FIXTURE_KEYS) && (forall key <- FIXTURE_KEYS :: Get(got, key).Some?)
    requires NoneOrText(Get(got, "raw_cursor"))
    ensures AsInt(Get(got, "offset")).value < 0 || AsInt(Get(got, "empty_pages")).value < 0
       <==> ReadFixtureBody(got) == Err(CursorRejected)
  {}

  // The decoder gives back every field for the dataset and query it was encoded for, and refuses
  // the cursor for any other. Neither text may contain the separator.
  lemma {:induction false} FixtureRoundTrip(wire: Wire, c: FixtureCursor, encodedDataset: string, encodedFor: string,
                         dataset: string, fingerprint: string)
    requires wire.Faithful() && Encodable(c)
    requires ':' !in encodedDataset && ':' !in encodedFor
    ensures DecodeFixture(wire, Some(EncodeFixture(wire, encodedDataset, c, encodedFor)), dataset, fingerprint)
         == if dataset == encodedDataset && fingerprint == encodedFor then Ok(c) else Err(CursorRejected)
  {
    var body := FixtureBody(c);
    FixtureFields(c);
    assert wire.ReadsBack(body);
    RoundTrip(wire.dumps(body));
    FixtureTextSplits(encodedDataset, encodedFor, Encode(wire.dumps(body)));
    FixtureBodyIsRead(c, wire.loads(wire.dumps(body)).value.fields);
  }
}
