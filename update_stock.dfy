/**
 * app/api/products/update-stock/route.ts: an administrator marks one
 * product of the catalogue file `lib/cakes.json` as in or out of stock.
 */
module UpdateStock {
  import opened Wrappers
  import opened Http
  import opened Orders
  import opened Admin

  /** A catalogue entry: its `id`, its `outOfStock` flag if it has one, and its other fields. */
  datatype Product = Product(id: Json, outOfStock: Option<bool>, otherFields: seq<(string, Json)>)

  /** The file's text after `JSON.parse`: an array of products, or a failure with its message. */
  datatype FileContent = Parsed(cakes: seq<Product>) | Garbled(message: string)

  /** The body fields the route reads. */
  datatype StockRequest = StockRequest(productId: Json, outOfStock: Json)

  const UNAUTHORIZED: string := "Unauthorized"
  const INVALID_DATA: string := "Invalid request data"
  const FILE_NOT_FOUND: string := "Products file not found"
  const PRODUCT_NOT_FOUND: string := "Product not found"
  const UPDATE_FAILED: string := "Failed to update stock status"
  const UPDATED: string := "Stock status updated successfully"

  /** The index `cakes.findIndex(c => c.id === productId)` gives, or -1. */
  function FirstProduct(cakes: seq<Product>, productId: Json): (r: int)
    ensures -1 <= r < |cakes|
    ensures r >= 0 ==> StrictEquals(cakes[r].id, productId) && forall k :: 0 <= k < r ==> !StrictEquals(cakes[k].id, productId)
    ensures r == -1 <==> forall k :: 0 <= k < |cakes| ==> !StrictEquals(cakes[k].id, productId)
    decreases |cakes|
  {
    if cakes == [] then -1
    else if StrictEquals(cakes[0].id, productId) then 0
    else
      var r := FirstProduct(cakes[1..], productId);
      if r == -1 then -1 else r + 1
  }

  /** `findIndex`, as a scan. */
  method FindProduct(cakes: seq<Product>, productId: Json) returns (r: int)
    ensures r == FirstProduct(cakes, productId)
    ensures r >= 0 ==> StrictEquals(cakes[r].id, productId) && forall k :: 0 <= k < r ==> !StrictEquals(cakes[k].id, productId)
    ensures r == -1 ==> forall k :: 0 <= k < |cakes| ==> !StrictEquals(cakes[k].id, productId)
  {
    var i := 0;
    while i < |cakes|
      invariant 0 <= i <= |cakes|
      invariant forall k :: 0 <= k < i ==> !StrictEquals(cakes[k].id, productId)
    {
      if StrictEquals(cakes[i].id, productId) {
        return i;
      }
      i := i + 1;
    }
    return -1;
  }

  /** The catalogue after the request: only the first product with that id gets the new flag; `None` when there is none. */
  function Updated(cakes: seq<Product>, productId: Json, flag: bool): (r: Option<seq<Product>>)
    ensures r.None? <==> forall k :: 0 <= k < |cakes| ==> !StrictEquals(cakes[k].id, productId)
    ensures r.Some? ==> |r.value| == |cakes|
  {
    var i := FirstProduct(cakes, productId);
    if i == -1 then None else Some(cakes[i := cakes[i].(outOfStock := Some(flag))])
  }

  /**
   * The update touches one product, the first with that id: its flag is set,
   * its id and other fields are kept, and every other product is unchanged
   * and in its place.
   */
  lemma UpdateTouchesFirstOnly(cakes: seq<Product>, productId: Json, flag: bool)
    requires Updated(cakes, productId, flag).Some?
    ensures var r := Updated(cakes, productId, flag).value;
      var i := FirstProduct(cakes, productId);
      && r[i].outOfStock == Some(flag)
      && r[i].id == cakes[i].id && r[i].otherFields == cakes[i].otherFields
      && forall k :: 0 <= k < |cakes| && k != i ==> r[k] == cakes[k]
  {
  }

  /** Sending the same request twice leaves the catalogue as sending it once. */
  lemma UpdateIdempotent(cakes: seq<Product>, productId: Json, flag: bool)
    requires Updated(cakes, productId, flag).Some?
    ensures Updated(Updated(cakes, productId, flag).value, productId, flag) == Updated(cakes, productId, flag)
  {
    var r := Updated(cakes, productId, flag).value;
    var i := FirstProduct(cakes, productId);
    FirstProductOfIds(cakes, r, productId);
    assert r[i := r[i].(outOfStock := Some(flag))] == r;
  }

  /** `findIndex` looks only at the ids. */
  lemma {:induction false} FirstProductOfIds(a: seq<Product>, b: seq<Product>, productId: Json)
    requires |a| == |b| && forall k :: 0 <= k < |a| ==> a[k].id == b[k].id
    ensures FirstProduct(a, productId) == FirstProduct(b, productId)
    decreases |a|
  {
    if a != [] {
      FirstProductOfIds(a[1..], b[1..], productId);
    }
  }

  /** A product id of 0, "", false, null or an absent field is refused before the file is read. */
  lemma FalsyIdsRefused()
    ensures !JsTruthy(JNum(0)) && !JsTruthy(JStr("")) && !JsTruthy(JBool(false)) && !JsTruthy(JNull) && !JsTruthy(JUndefined)
  {
  }

  /** The catalogue file: whether it exists and what it parses to. */
  class ProductsFile {
    var present: bool
    var content: FileContent

    constructor(present: bool, content: FileContent)
      ensures this.present == present && this.content == content
    {
      this.present := present;
      this.content := content;
    }

    /**
     * `POST`. `token` is the `x-admin-token` header, `body` the parsed body
     * (or the message of the error parsing it raised), `writeError` the
     * message of a failing `writeFile`.
     */
    method Post(token: Option<string>, body: Result<StockRequest, string>, writeError: Option<string>) returns (res: Response)
      modifies this
      ensures present == old(present)
      ensures !(Truthy(token) && ValidateAdminToken(token.value)) ==>
        res == Response(401, ErrorBody(UNAUTHORIZED, None)) && content == old(content)
      ensures Truthy(token) && ValidateAdminToken(token.value) ==> (
        match body
        case Err(m) => res == Response(500, ErrorBody(UPDATE_FAILED, Some(m))) && content == old(content)
        case Ok(req) =>
          if !JsTruthy(req.productId) || !req.outOfStock.JBool? then
            res == Response(400, ErrorBody(INVALID_DATA, None)) && content == old(content)
          else if !old(present) then
            res == Response(404, ErrorBody(FILE_NOT_FOUND, None)) && content == old(content)
          else match old(content)
            case Garbled(m) => res == Response(500, ErrorBody(UPDATE_FAILED, Some(m))) && content == old(content)
            case Parsed(cakes) =>
              match Updated(cakes, req.productId, req.outOfStock.b)
              case None => res == Response(404, ErrorBody(PRODUCT_NOT_FOUND, None)) && content == old(content)
              case Some(next) =>
                if writeError.Some? then
                  res == Response(500, ErrorBody(UPDATE_FAILED, writeError)) && content == old(content)
                else
                  res == Response(200, StockBody(req.productId, req.outOfStock.b, UPDATED)) && content == Parsed(next))
    {
      if !Truthy(token) || !ValidateAdminToken(token.value) {
        return Response(401, ErrorBody(UNAUTHORIZED, None));
      }
      if body.Err? {
        return Response(500, ErrorBody(UPDATE_FAILED, Some(body.error)));
      }
      var productId, outOfStock := body.value.productId, body.value.outOfStock;
      if !JsTruthy(productId) || !outOfStock.JBool? {
        return Response(400, ErrorBody(INVALID_DATA, None));
      }
      if !present {
        return Response(404, ErrorBody(FILE_NOT_FOUND, None));
      }
      if content.Garbled? {
        return Response(500, ErrorBody(UPDATE_FAILED, Some(content.message)));
      }
      var cakes := content.cakes;
      var productIndex := FindProduct(cakes, productId);
      if productIndex == -1 {
        return Response(404, ErrorBody(PRODUCT_NOT_FOUND, None));
      }
      cakes := cakes[productIndex := cakes[productIndex].(outOfStock := Some(outOfStock.b))];
      if writeError.Some? {
        return Response(500, ErrorBody(UPDATE_FAILED, writeError));
      }
      content := Parsed(cakes);
      return Response(200, StockBody(productId, outOfStock.b, UPDATED));
    }
  }
}
