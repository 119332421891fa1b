/**
 * The `POST /api/parse-receipt` handler: its checks in order, the clean-up
 * of the model's reply, and the coercion of the parsed JSON into the receipt
 * update and the item rows it writes. Database, auth and the AI service are
 * abstract outcomes; `JSON.parse` and `parseFloat` are parameters.
 */
module ParseReceipt {
  import opened Wrappers
  import opened ParseCleanup

  // ---------------------------------------------------------------------------
  // JSON values and JavaScript coercions

  /** A parsed JSON value; an object keeps its members in text order. */
  datatype Json =
    | JNull
    | JBool(b: bool)
    | JNumber(n: real)
    | JString(s: string)
    | JArray(elems: seq<Json>)
    | JObject(members: seq<(string, Json)>)

  /** JavaScript truthiness of a property read, `None` being `undefined`. */
  predicate Truthy(v: Option<Json>)
  {
    match v
    case None => false
    case Some(j) =>
      match j
      case JNull => false
      case JBool(b) => b
      case JNumber(n) => n != 0.0
      case JString(s) => s != ""
      case JArray(_) => true
      case JObject(_) => true
  }

  /** The value of the last member named `key`, as `JSON.parse` keeps the last duplicate. */
  function LastMember(members: seq<(string, Json)>, key: string): Option<Json>
  {
    if |members| == 0 then None
    else if members[|members| - 1].0 == key then Some(members[|members| - 1].1)
    else LastMember(members[..|members| - 1], key)
  }

  /** A member is found exactly when one has the name, and it is the last one with it. */
  lemma {:induction false} LastMemberFound(members: seq<(string, Json)>, key: string)
    ensures var r := LastMember(members, key);
      && (r.Some? <==> exists i :: 0 <= i < |members| && members[i].0 == key)
      && (r.Some? ==>
            exists i :: (0 <= i < |members| && members[i] == (key, r.value)
                         && forall k :: i < k < |members| ==> members[k].0 != key))
  {
    if |members| > 0 && members[|members| - 1].0 != key {
      var init := members[..|members| - 1];
      LastMemberFound(init, key);
      if LastMember(init, key).Some? {
        var i :| 0 <= i < |init| && init[i] == (key, LastMember(init, key).value)
          && forall k :: i < k < |init| ==> init[k].0 != key;
        assert members[i] == init[i];
      } else {
        assert forall i :: 0 <= i < |init| ==> members[i] == init[i];
      }
    }
  }

  /** `v.key` for a value that is not null: only objects have members. */
  function Get(v: Json, key: string): (r: Option<Json>)
    ensures !v.JObject? ==> r == None
  {
    if v.JObject? then LastMember(v.members, key) else None
  }

  /** `v || fallback` */
  function OrElse(v: Option<Json>, fallback: Json): (r: Json)
    ensures Truthy(v) ==> r == v.value
    ensures !Truthy(v) ==> r == fallback
  {
    if Truthy(v) then v.value else fallback
  }

  /** `parseFloat(v)`; `None` is NaN. */
  type FloatParser = Option<Json> -> Option<real>

  /** `parseFloat(v) || fallback`: NaN and 0 both give way to the fallback. */
  function NumberOr(parseFloat: FloatParser, v: Option<Json>, fallback: real): (r: real)
    ensures parseFloat(v).Some? && parseFloat(v).value != 0.0 ==> r == parseFloat(v).value
    ensures parseFloat(v) == None || parseFloat(v) == Some(0.0) ==> r == fallback
  {
    match parseFloat(v)
    case Some(x) => if x != 0.0 then x else fallback
    case None => fallback
  }

  // ---------------------------------------------------------------------------
  // Coercion of the parsed reply

  /** The `receipts` update. `raw_text` holds `raw` serialised. */
  datatype ReceiptUpdate = ReceiptUpdate(store_name: Json, purchase_date: Json, total_amount: Json, raw: Json)

  /** One `receipt_items` row. */
  datatype ItemRow = ItemRow(
    receipt_id: Json,
    item_name: Json,
    receipt_text: Json,
    brand: Json,
    generic_name: Json,
    variant: Json,
    quantity: real,
    unit_price: real,
    total_price: real,
    was_on_sale: bool,
    category: Json)

  /** The receipt update; `today` is the current date as `YYYY-MM-DD`. */
  function ReceiptUpdateOf(parsed: Json, today: string): (u: ReceiptUpdate)
    ensures Truthy(Get(parsed, "store_name")) ==> u.store_name == Get(parsed, "store_name").value
    ensures !Truthy(Get(parsed, "store_name")) ==> u.store_name == JString("Unknown")
    ensures Truthy(Get(parsed, "purchase_date")) ==> u.purchase_date == Get(parsed, "purchase_date").value
    ensures !Truthy(Get(parsed, "purchase_date")) ==> u.purchase_date == JString(today)
    ensures Truthy(Get(parsed, "total_amount")) ==> u.total_amount == Get(parsed, "total_amount").value
    ensures !Truthy(Get(parsed, "total_amount")) ==> u.total_amount == JNumber(0.0)
    ensures u.raw == parsed
  {
    ReceiptUpdate(
      OrElse(Get(parsed, "store_name"), JString("Unknown")),
      OrElse(Get(parsed, "purchase_date"), JString(today)),
      OrElse(Get(parsed, "total_amount"), JNumber(0.0)),
      parsed)
  }

  /** The row for one item of the reply, which must not be `null`. */
  function ItemRowOf(receiptId: Json, item: Json, parseFloat: FloatParser): ItemRow
  {
    ItemRow(
      receiptId,
      OrElse(Get(item, "item_name"), JString("Unknown Item")),
      OrElse(Get(item, "receipt_text"), JNull),
      OrElse(Get(item, "brand"), JNull),
      OrElse(Get(item, "generic_name"), JNull),
      OrElse(Get(item, "variant"), JNull),
      NumberOr(parseFloat, Get(item, "quantity"), 1.0),
      NumberOr(parseFloat, Get(item, "unit_price"), 0.0),
      NumberOr(parseFloat, Get(item, "total_price"), 0.0),
      Truthy(Get(item, "was_on_sale")),
      OrElse(Get(item, "category"), JString("other")))
  }

  /**
   * The defaults of the item coercion: a missing name becomes 'Unknown Item',
   * a missing category 'other', a missing brand `null`; the quantity is never
   * 0 and the prices are the parsed number or 0.
   */
  lemma ItemRowDefaults(receiptId: Json, item: Json, parseFloat: FloatParser)
    ensures var row := ItemRowOf(receiptId, item, parseFloat);
      && row.receipt_id == receiptId
      && (!Truthy(Get(item, "item_name")) ==> row.item_name == JString("Unknown Item"))
      && (Truthy(Get(item, "item_name")) ==> row.item_name == Get(item, "item_name").value)
      && (!Truthy(Get(item, "brand")) ==> row.brand == JNull)
      && (!Truthy(Get(item, "category")) ==> row.category == JString("other"))
      && row.quantity != 0.0
      && (var q := parseFloat(Get(item, "quantity")); q.Some? && q.value != 0.0 ==> row.quantity == q.value)
      && (var q := parseFloat(Get(item, "quantity")); q.None? || q == Some(0.0) ==> row.quantity == 1.0)
      && (var u := parseFloat(Get(item, "unit_price")); u.None? || u == Some(0.0) ==> row.unit_price == 0.0)
      && (var t := parseFloat(Get(item, "total_price")); t.None? || t == Some(0.0) ==> row.total_price == 0.0)
      && (row.unit_price == 0.0 || Some(row.unit_price) == parseFloat(Get(item, "unit_price")))
      && (row.total_price == 0.0 || Some(row.total_price) == parseFloat(Get(item, "total_price")))
      && (row.was_on_sale <==> Truthy(Get(item, "was_on_sale")))
  {
  }

  /** The rows for all items, one per item and in the same order. */
  function ItemRowsOf(receiptId: Json, items: seq<Json>, parseFloat: FloatParser): (rows: seq<ItemRow>)
    ensures |rows| == |items|
    ensures forall i :: 0 <= i < |items| ==> rows[i] == ItemRowOf(receiptId, items[i], parseFloat)
  {
    seq(|items|, i requires 0 <= i < |items| => ItemRowOf(receiptId, items[i], parseFloat))
  }

  // ---------------------------------------------------------------------------
  // The handler

  /** What `request.json()` gives: a thrown error, or the body. */
  datatype RequestBody = Unreadable(message: string) | Body(json: Json)

  /** The receipt lookup: a query error, no row, or the row's `image_url`. */
  datatype Lookup = QueryError | NoRow | Row(image_url: Option<Json>)

  /** The AI call: a thrown error (or no choice), or the first choice's content. */
  datatype Reply = Failed(message: string) | Answer(content: Option<string>)

  /** The outcomes of the services the handler awaits, in call order. */
  datatype Services = Services(
    signedIn: bool,
    receipt: Lookup,
    ai: Reply,
    parseJson: string -> Option<Json>,
    updateFails: bool,
    insertFails: bool,
    today: string,
    parseFloat: FloatParser,
    typeErrorMessage: string)

  datatype Payload =
    | ErrorBody(error: string)
    | ParseFailure(error: string, details: string)
    | Success(data: Json, message: string)

  datatype Response = Response(status: nat, payload: Payload)

  /** A database write the handler issues. */
  datatype Effect =
    | DeleteItems(receiptId: Json)
    | UpdateReceipt(receiptId: Json, update: ReceiptUpdate)
    | InsertItems(rows: seq<ItemRow>)

  const ParseFailureMessage: string := "Failed to parse AI response. The AI returned invalid JSON."

  /** The outer `catch`: `error.message || 'Failed to parse receipt'`. */
  function Thrown(message: string): (r: Response)
    ensures r.status == 500 && r.payload.ErrorBody?
    ensures r.payload.error != ""
    ensures message != "" ==> r.payload.error == message
  {
    Response(500, ErrorBody(if message == "" then "Failed to parse receipt" else message))
  }

  /** `content.substring(0, 500)` */
  function Details(content: string): (d: string)
    ensures |d| <= 500 && d <= content
    ensures |content| <= 500 ==> d == content
  {
    if |content| <= 500 then content else content[..500]
  }

  /** The `{ receiptId }` destructuring: it throws on a `null` body. */
  function ReceiptIdOf(body: Json): Option<Json>
  {
    Get(body, "receiptId")
  }

  /** The ordered writes: a delete, then an update, then an insert, each optional from the end. */
  predicate WritesInOrder(effects: seq<Effect>)
  {
    |effects| <= 3
    && (|effects| >= 1 ==> effects[0].DeleteItems?)
    && (|effects| >= 2 ==> effects[1].UpdateReceipt?)
    && (|effects| >= 3 ==> effects[2].InsertItems?)
  }

  /** The four checks before any write passed for this request. */
  predicate ChecksPass(request: RequestBody, env: Services)
  {
    request.Body? && request.json != JNull && Truthy(ReceiptIdOf(request.json))
    && env.signedIn && env.receipt.Row? && Truthy(env.receipt.image_url)
  }

  /** The reply was read, cleaned and parsed to a value with an `items` array. */
  predicate ReplyUsable(env: Services)
  {
    env.ai.Answer? && Truthy(OptionString(env.ai.content))
    && var parsed := env.parseJson(CleanContent(env.ai.content.value));
    parsed.Some? && HasItems(parsed.value)
  }

  /** A nullable string as a JSON value, for its truthiness. */
  function OptionString(s: Option<string>): (r: Option<Json>)
    ensures Truthy(r) <==> s.Some? && s.value != ""
  {
    match s
    case None => None
    case Some(t) => Some(JString(t))
  }

  /** The tail of the handler, from the AI reply on; the delete was already issued. */
  function AfterDelete(receiptId: Json, env: Services): (o: (Response, seq<Effect>))
    ensures |o.1| <= 2
    ensures |o.1| >= 1 ==> ReplyUsable(env) && o.1[0].UpdateReceipt? && o.1[0].receiptId == receiptId
    ensures |o.1| == 2 ==> o.1[1].InsertItems? && !env.updateFails
    ensures o.0.status == 200 ==> |o.1| >= 1
  {
    match env.ai
    case Failed(message) => (Thrown(message), [])
    case Answer(content) =>
      if content.None? || content.value == "" then (Response(500, ErrorBody("No response from AI")), [])
      else
        match env.parseJson(CleanContent(content.value))
        case None => (Response(500, ParseFailure(ParseFailureMessage, Details(content.value))), [])
        case Some(parsed) => Store(receiptId, parsed, env)
  }

  /** The value has an `items` array (and so is not `null`). */
  predicate HasItems(parsed: Json)
  {
    parsed != JNull && Truthy(Get(parsed, "items")) && Get(parsed, "items").value.JArray?
  }

  /** The handler from the parsed reply on: validation, update, insert. */
  function Store(receiptId: Json, parsed: Json, env: Services): (o: (Response, seq<Effect>))
    ensures |o.1| <= 2
    ensures |o.1| >= 1 ==> HasItems(parsed) && o.1[0] == UpdateReceipt(receiptId, ReceiptUpdateOf(parsed, env.today))
    ensures |o.1| == 2 ==>
      o.1[1] == InsertItems(ItemRowsOf(receiptId, Get(parsed, "items").value.elems, env.parseFloat)) && !env.updateFails
    ensures o.0.status == 200 ==> |o.1| >= 1 && o.0.payload == Success(parsed, "Receipt parsed successfully")
  {
    if parsed == JNull then (Thrown(env.typeErrorMessage), [])
    else
      var items := Get(parsed, "items");
      if !Truthy(items) || !items.value.JArray? then
        (Response(500, ErrorBody("Invalid response structure: missing items array")), [])
      else Write(receiptId, parsed, items.value.elems, env)
  }

  /** The update of the receipt, then the insert of its items when there are any. */
  function Write(receiptId: Json, parsed: Json, elems: seq<Json>, env: Services): (o: (Response, seq<Effect>))
    ensures 1 <= |o.1| <= 2 && o.1[0] == UpdateReceipt(receiptId, ReceiptUpdateOf(parsed, env.today))
    ensures |o.1| == 2 <==> !env.updateFails && |elems| > 0 && JNull !in elems
    ensures |o.1| == 2 ==> o.1[1] == InsertItems(ItemRowsOf(receiptId, elems, env.parseFloat))
    ensures o.0.status == 200 <==> !env.updateFails && (|elems| == 0 || (JNull !in elems && !env.insertFails))
    ensures o.0.status == 200 ==> o.0.payload == Success(parsed, "Receipt parsed successfully")
  {
    var update := UpdateReceipt(receiptId, ReceiptUpdateOf(parsed, env.today));
    if env.updateFails then (Response(500, ErrorBody("Failed to update receipt")), [update])
    else if |elems| == 0 then (Response(200, Success(parsed, "Receipt parsed successfully")), [update])
    else if JNull in elems then (Thrown(env.typeErrorMessage), [update])
    else
      var insert := InsertItems(ItemRowsOf(receiptId, elems, env.parseFloat));
      if env.insertFails then (Response(500, ErrorBody("Failed to insert items")), [update, insert])
      else (Response(200, Success(parsed, "Receipt parsed successfully")), [update, insert])
  }

  /**
   * The handler's response and the writes it issues, in order. Every path
   * ends in one of the statuses the route uses, and nothing is written
   * before all four checks pass.
   */
  function Handle(request: RequestBody, env: Services): (o: (Response, seq<Effect>))
    ensures o.0.status in {200, 400, 401, 404, 500}
    ensures o.0.status == 200 <==> o.0.payload.Success?
    ensures WritesInOrder(o.1)
    ensures |o.1| > 0 ==> ChecksPass(request, env)
    ensures |o.1| > 1 ==> ReplyUsable(env)
    ensures o.0.status == 200 ==> ChecksPass(request, env) && ReplyUsable(env) && |o.1| >= 2
  {
    match request
    case Unreadable(message) => (Thrown(message), [])
    case Body(json) =>
      if json == JNull then (Thrown(env.typeErrorMessage), [])
      else
        var receiptId := ReceiptIdOf(json);
        if !Truthy(receiptId) then (Response(400, ErrorBody("Receipt ID is required")), [])
        else if !env.signedIn then (Response(401, ErrorBody("Unauthorized")), [])
        else if !env.receipt.Row? then (Response(404, ErrorBody("Receipt not found")), [])
        else if !Truthy(env.receipt.image_url) then (Response(400, ErrorBody("Receipt has no image")), [])
        else
          var rest := AfterDelete(receiptId.value, env);
          (rest.0, [DeleteItems(receiptId.value)] + rest.1)
  }

  // ---------------------------------------------------------------------------
  // Properties of the handler

  /** The checks before the AI call, in the order the route makes them. */
  lemma CheckOrder(request: RequestBody, env: Services)
    requires request.Body? && request.json != JNull
    ensures var o := Handle(request, env);
      && (!Truthy(ReceiptIdOf(request.json)) ==> o.0 == Response(400, ErrorBody("Receipt ID is required")))
      && (Truthy(ReceiptIdOf(request.json)) && !env.signedIn ==> o.0 == Response(401, ErrorBody("Unauthorized")))
      && (Truthy(ReceiptIdOf(request.json)) && env.signedIn && !env.receipt.Row? ==>
            o.0 == Response(404, ErrorBody("Receipt not found")))
      && (Truthy(ReceiptIdOf(request.json)) && env.signedIn && env.receipt.Row? && !Truthy(env.receipt.image_url) ==>
            o.0 == Response(400, ErrorBody("Receipt has no image")))
      && (!ChecksPass(request, env) ==> o.1 == [])
  {
  }

  /** An empty reply stops the handler after the delete and before any clean-up. */
  lemma EmptyContentStops(request: RequestBody, env: Services)
    requires ChecksPass(request, env)
    requires env.ai == Answer(None) || env.ai == Answer(Some(""))
    ensures Handle(request, env).0 == Response(500, ErrorBody("No response from AI"))
    ensures Handle(request, env).1 == [DeleteItems(ReceiptIdOf(request.json).value)]
  {
  }

  /**
   * A reply that does not parse after clean-up gives 500 with at most the
   * first 500 characters of the raw reply.
   */
  lemma ParseFailureDetails(request: RequestBody, env: Services)
    requires ChecksPass(request, env)
    requires env.ai.Answer? && env.ai.content.Some? && env.ai.content.value != ""
    requires env.parseJson(CleanContent(env.ai.content.value)).None?
    ensures var o := Handle(request, env);
      && o.0.status == 500 && o.0.payload.ParseFailure?
      && o.0.payload.error == ParseFailureMessage
      && |o.0.payload.details| <= 500 && o.0.payload.details <= env.ai.content.value
      && |o.1| == 1
  {
  }

  /** An empty `items` array is a success that updates the receipt and inserts nothing. */
  lemma EmptyItemsSucceed(request: RequestBody, env: Services, parsed: Json)
    requires ChecksPass(request, env)
    requires env.ai.Answer? && env.ai.content.Some? && env.ai.content.value != ""
    requires env.parseJson(CleanContent(env.ai.content.value)) == Some(parsed)
    requires Get(parsed, "items") == Some(JArray([]))
    requires !env.updateFails
    ensures Handle(request, env).0 == Response(200, Success(parsed, "Receipt parsed successfully"))
    ensures Handle(request, env).1 ==
      [DeleteItems(ReceiptIdOf(request.json).value),
       UpdateReceipt(ReceiptIdOf(request.json).value, ReceiptUpdateOf(parsed, env.today))]
  {
    var id := ReceiptIdOf(request.json).value;
    assert AfterDelete(id, env) == Store(id, parsed, env);
    StoreWrites(id, parsed, env);
    assert Write(id, parsed, [], env).1 == [UpdateReceipt(id, ReceiptUpdateOf(parsed, env.today))];
  }

  /** A missing, falsy or non-array `items` gives 500 and writes nothing after the delete. */
  lemma MissingItemsRejected(request: RequestBody, env: Services, parsed: Json)
    requires ChecksPass(request, env)
    requires env.ai.Answer? && env.ai.content.Some? && env.ai.content.value != ""
    requires env.parseJson(CleanContent(env.ai.content.value)) == Some(parsed)
    requires parsed != JNull
    requires !Truthy(Get(parsed, "items")) || !Get(parsed, "items").value.JArray?
    ensures Handle(request, env).0 == Response(500, ErrorBody("Invalid response structure: missing items array"))
    ensures |Handle(request, env).1| == 1
  {
  }

  /**
   * A success with items inserted exactly one coerced row per item, in
   * order, after the receipt update.
   */
  lemma SuccessInsertsEveryItem(request: RequestBody, env: Services)
    requires Handle(request, env).0.status == 200
    ensures var o := Handle(request, env);
      var parsed := env.parseJson(CleanContent(env.ai.content.value)).value;
      var items := Get(parsed, "items").value.elems;
      var id := ReceiptIdOf(request.json).value;
      && o.0.payload == Success(parsed, "Receipt parsed successfully")
      && o.1[..2] == [DeleteItems(id), UpdateReceipt(id, ReceiptUpdateOf(parsed, env.today))]
      && (|items| == 0 <==> |o.1| == 2)
      && (|items| > 0 ==> o.1[2] == InsertItems(ItemRowsOf(id, items, env.parseFloat)))
  {
  }

  // ---------------------------------------------------------------------------
  // The handler as the route runs it

  /**
   * The route's steps one after another: each awaited check may return
   * early, the writes are logged as they are issued, and the reply is
   * cleaned by successive replacements.
   */
  method Post(request: RequestBody, env: Services) returns (response: Response, writes: seq<Effect>)
    ensures (response, writes) == Handle(request, env)
  {
    if request.Unreadable? {
      return Thrown(request.message), [];
    }
    if request.json == JNull {
      return Thrown(env.typeErrorMessage), [];
    }
    var receiptId := ReceiptIdOf(request.json);
    if !Truthy(receiptId) {
      return Response(400, ErrorBody("Receipt ID is required")), [];
    }
    if !env.signedIn {
      return Response(401, ErrorBody("Unauthorized")), [];
    }
    if !env.receipt.Row? {
      return Response(404, ErrorBody("Receipt not found")), [];
    }
    if !Truthy(env.receipt.image_url) {
      return Response(400, ErrorBody("Receipt has no image")), [];
    }
    var rest;
    response, rest := ParseAndStore(receiptId.value, env);
    writes := [DeleteItems(receiptId.value)] + rest;
  }

  /** The route from the AI reply on, after the delete was issued. */
  method ParseAndStore(receiptId: Json, env: Services) returns (response: Response, writes: seq<Effect>)
    ensures (response, writes) == AfterDelete(receiptId, env)
  {
    if env.ai.Failed? {
      return Thrown(env.ai.message), [];
    }
    var content := env.ai.content;
    if content.None? || content.value == "" {
      return Response(500, ErrorBody("No response from AI")), [];
    }
    var cleanContent := StripFences(content.value);
    cleanContent := StripLineComments(cleanContent);
    cleanContent := StripBlockComments(cleanContent);
    cleanContent := StripTrailingCommas(cleanContent);
    assert cleanContent == CleanContent(content.value);
    var parsedData := env.parseJson(cleanContent);
    if parsedData.None? {
      return Response(500, ParseFailure(ParseFailureMessage, Details(content.value))), [];
    }
    response, writes := StoreParsed(receiptId, parsedData.value, env);
  }

  /** The route from the parsed reply on: validation, the update, the insert. */
  method StoreParsed(receiptId: Json, parsed: Json, env: Services) returns (response: Response, writes: seq<Effect>)
    ensures (response, writes) == Store(receiptId, parsed, env)
  {
    if parsed == JNull {
      return Thrown(env.typeErrorMessage), [];
    }
    response, writes := StoreItems(receiptId, parsed, env);
  }

  /** Reading `items` from a parsed reply that is not null. */
  method StoreItems(receiptId: Json, parsed: Json, env: Services) returns (response: Response, writes: seq<Effect>)
    requires parsed != JNull
    ensures (response, writes) == Store(receiptId, parsed, env)
  {
    var items := Get(parsed, "items");
    if !Truthy(items) || !items.value.JArray? {
      return Response(500, ErrorBody("Invalid response structure: missing items array")), [];
    }
    StoreWrites(receiptId, parsed, env);
    response, writes := WriteParsed(receiptId, parsed, items.value.elems, env);
  }

  /** With an `items` array, what is stored is what `Write` gives for its elements. */
  lemma StoreWrites(receiptId: Json, parsed: Json, env: Services)
    requires parsed != JNull && Truthy(Get(parsed, "items")) && Get(parsed, "items").value.JArray?
    ensures Store(receiptId, parsed, env) == Write(receiptId, parsed, Get(parsed, "items").value.elems, env)
  {
  }

  /** The update of the receipt, then the insert of its items. */
  method WriteParsed(receiptId: Json, parsed: Json, elems: seq<Json>, env: Services)
    returns (response: Response, writes: seq<Effect>)
    ensures (response, writes) == Write(receiptId, parsed, elems, env)
  {
    var update := UpdateReceipt(receiptId, ReceiptUpdateOf(parsed, env.today));
    writes := [update];
    if env.updateFails {
      return Response(500, ErrorBody("Failed to update receipt")), writes;
    }
    if |elems| > 0 {
      if JNull in elems {
        return Thrown(env.typeErrorMessage), writes;
      }
      writes := [update, InsertItems(ItemRowsOf(receiptId, elems, env.parseFloat))];
      if env.insertFails {
        return Response(500, ErrorBody("Failed to insert items")), writes;
      }
    }
    response := Response(200, Success(parsed, "Receipt parsed successfully"));
  }
}
