/**
 * The `DELETE /api/delete-receipt` handler: its checks in order, the storage
 * path taken from the receipt's image URL, and the two deletes it issues.
 * Auth, the database and storage are abstract outcomes.
 */
module DeleteReceipt {
  import opened Wrappers
  import opened Text

  /** The segment of a public storage URL that precedes the object path. */
  const Marker: string := "/receipt-images/"

  /**
   * `url.split(Marker)[1]` when the split has more than one part: the text
   * after the first marker, up to the next marker or the end.
   */
  function StoragePath(url: string): (p: Option<string>)
  {
    var parts := Split(url, Marker);
    if |parts| > 1 then Some(parts[1]) else None
  }

  /**
   * There is a path exactly when the URL holds the marker, and it is the
   * text between the first marker and the next one (or the end).
   */
  lemma StoragePathAfterMarker(url: string)
    ensures StoragePath(url).Some? <==> Contains(url, Marker)
    ensures StoragePath(url).Some? ==>
      var rest := url[IndexOf(url, Marker).value + |Marker|..];
      && StoragePath(url).value <= rest
      && (!Contains(rest, Marker) ==> StoragePath(url).value == rest)
  {
    SplitSecond(url, Marker);
  }

  // ---------------------------------------------------------------------------
  // The handler

  /** What `request.json()` gives: a thrown error, or the `receiptId` property. */
  datatype RequestBody = Unreadable(message: string) | NullBody | Body(receiptId: Option<string>)

  /** The ownership lookup: a query error, no row, or the row's `image_url`. */
  datatype Lookup = QueryError | NoRow | Row(image_url: Option<string>)

  datatype Services = Services(
    signedIn: bool,
    receipt: Lookup,
    storageFails: bool,
    deleteFails: bool,
    typeErrorMessage: string)

  datatype Response = Response(status: nat, body: string)

  /** A write the handler issues. */
  datatype Effect = RemoveImage(path: string) | DeleteRow(receiptId: string)

  const Deleted: string := "Receipt and associated items deleted successfully"

  /** The outer `catch`: `error.message || 'Failed to delete receipt'`. */
  function Thrown(message: string): (r: Response)
    ensures r.status == 500 && r.body != ""
    ensures message != "" ==> r.body == message
  {
    Response(500, if message == "" then "Failed to delete receipt" else message)
  }

  /** The image URL when it is truthy. */
  function ImageUrl(l: Lookup): Option<string>
  {
    if l.Row? && l.image_url.Some? && l.image_url.value != "" then l.image_url else None
  }

  /** The storage remove, issued only for a truthy URL that holds the marker. */
  function Removal(l: Lookup): (e: seq<Effect>)
    ensures |e| <= 1
    ensures |e| == 1 <==> ImageUrl(l).Some? && Contains(ImageUrl(l).value, Marker)
    ensures ImageUrl(l).Some? && StoragePath(ImageUrl(l).value).Some? ==>
      e == [RemoveImage(StoragePath(ImageUrl(l).value).value)]
  {
    match ImageUrl(l)
    case None => []
    case Some(url) =>
      StoragePathAfterMarker(url);
      match StoragePath(url)
      case None => []
      case Some(path) => [RemoveImage(path)]
  }

  /**
   * The response and the writes, in order. A request that fails a check
   * writes nothing; the storage outcome never changes the response.
   */
  function Handle(request: RequestBody, env: Services): (o: (Response, seq<Effect>))
    ensures o.0.status in {200, 400, 401, 404, 500}
    ensures |o.1| > 0 ==>
      request.Body? && request.receiptId.Some? && request.receiptId.value != ""
      && env.signedIn && env.receipt.Row?
      && o.1[|o.1| - 1] == DeleteRow(request.receiptId.value)
    ensures o.0.status == 200 <==> |o.1| > 0 && !env.deleteFails
    ensures (request.Body? && request.receiptId.Some? && request.receiptId.value != ""
             && env.signedIn && env.receipt.Row?) ==>
      && o.1 == Removal(env.receipt) + [DeleteRow(request.receiptId.value)]
      && o.0 == (if env.deleteFails then Response(500, "Failed to delete receipt") else Response(200, Deleted))
    ensures request.Unreadable? ==> o == (Thrown(request.message), [])
    ensures request.NullBody? ==> o == (Thrown(env.typeErrorMessage), [])
  {
    match request
    case Unreadable(message) => (Thrown(message), [])
    case NullBody => (Thrown(env.typeErrorMessage), [])
    case Body(receiptId) =>
      if receiptId.None? || receiptId.value == "" then (Response(400, "Receipt ID is required"), [])
      else if !env.signedIn then (Response(401, "Unauthorized"), [])
      else if !env.receipt.Row? then (Response(404, "Receipt not found or access denied"), [])
      else
        var writes := Removal(env.receipt) + [DeleteRow(receiptId.value)];
        if env.deleteFails then (Response(500, "Failed to delete receipt"), writes)
        else (Response(200, Deleted), writes)
  }

  /** The checks run in order: id, then user, then ownership. */
  lemma CheckOrder(receiptId: Option<string>, env: Services)
    ensures var o := Handle(Body(receiptId), env);
      && (receiptId.None? || receiptId.value == "" ==> o == (Response(400, "Receipt ID is required"), []))
      && (receiptId.Some? && receiptId.value != "" && !env.signedIn ==> o == (Response(401, "Unauthorized"), []))
      && (receiptId.Some? && receiptId.value != "" && env.signedIn && !env.receipt.Row? ==>
            o == (Response(404, "Receipt not found or access denied"), []))
  {
  }

  /** A missing image URL, or one without the marker, never touches storage. */
  lemma NoMarkerNoRemoval(request: RequestBody, env: Services)
    requires ImageUrl(env.receipt).None? || !Contains(ImageUrl(env.receipt).value, Marker)
    ensures forall e :: e in Handle(request, env).1 ==> e.DeleteRow?
  {
  }

  /** A failed storage remove does not stop the receipt delete, nor change the answer. */
  lemma StorageErrorTolerated(request: RequestBody, env: Services)
    ensures Handle(request, env.(storageFails := true)) == Handle(request, env.(storageFails := false))
  {
  }

  /**
   * The route's steps one after another, logging each write as it is
   * issued.
   */
  method Delete(request: RequestBody, env: Services) returns (response: Response, writes: seq<Effect>)
    ensures (response, writes) == Handle(request, env)
  {
    if request.Unreadable? {
      return Thrown(request.message), [];
    }
    if request.NullBody? {
      return Thrown(env.typeErrorMessage), [];
    }
    var receiptId := request.receiptId;
    if receiptId.None? || receiptId.value == "" {
      return Response(400, "Receipt ID is required"), [];
    }
    if !env.signedIn {
      return Response(401, "Unauthorized"), [];
    }
    if !env.receipt.Row? {
      return Response(404, "Receipt not found or access denied"), [];
    }
    var removal: seq<Effect> := [];
    var imageUrl := env.receipt.image_url;
    if imageUrl.Some? && imageUrl.value != "" {
      var urlParts := Split(imageUrl.value, Marker);
      if |urlParts| > 1 {
        removal := [RemoveImage(urlParts[1])];
      }
    }
    assert removal == Removal(env.receipt);
    writes := removal + [DeleteRow(receiptId.value)];
    if env.deleteFails {
      return Response(500, "Failed to delete receipt"), writes;
    }
    response := Response(200, Deleted);
  }
}
