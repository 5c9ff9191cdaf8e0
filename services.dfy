/**
 * What the bot gets back from the services it calls, kept as plain values: the barcode
 * decoder, the Open Food Facts lookup (and `getProductInfo`'s mapping of its reply), the
 * OCR service, the calendar insert; and the authorization list.
 */
module Services {
  import opened Wrappers
  import opened DateText

  /** The product the bot keeps for a chat; a field the JSON leaves out is None. */
  datatype Product = Product(name: Option<string>, brand: Option<string>, quantity: Option<string>)

  /** The `product` object of an Open Food Facts reply. */
  datatype ProductRecord = ProductRecord(productName: Option<string>, brands: Option<string>, quantity: Option<string>)

  /** The lookup of a barcode: the request failed, or a reply with its `status` and, maybe, its `product`. */
  datatype LookupResponse = LookupFailed | LookupReply(status: int, product: Option<ProductRecord>)

  /**
   * `getProductInfo`: a product only for `status === 1`; a failed request, any other status, or a
   * reply without a product object (reading its fields throws inside the `try`) give null.
   */
  function GetProductInfo(response: LookupResponse): (r: Option<Product>)
    ensures r.Some? <==> response.LookupReply? && response.status == 1 && response.product.Some?
    ensures r.Some? ==>
      && r.value.name == response.product.value.productName
      && r.value.brand == response.product.value.brands
      && r.value.quantity == response.product.value.quantity
  {
    match response
    case LookupFailed => None
    case LookupReply(status, product) =>
      if status == 1 && product.Some? then
        Some(Product(product.value.productName, product.value.brands, product.value.quantity))
      else
        None
  }

  /** What the barcode decoder hands to its callback: an error, or a decoded text. */
  datatype DecodeOutcome = DecodeError | Decoded(text: string)

  /** `!(err || !result)`: an error or an empty text both count as a failed decode. */
  predicate DecodeSucceeded(d: DecodeOutcome) {
    d.Decoded? && d.text != ""
  }

  /** What the OCR request produced: an error (caught, giving null), or the text of the first parsed result. */
  datatype OcrOutcome = OcrFailed | OcrText(text: string)

  /** `extractExpirationDate` once the request is made: null on failure, otherwise the scanned date. */
  function ExtractExpirationDate(ocr: OcrOutcome): (r: Option<string>)
    ensures ocr.OcrFailed? ==> r.None?
    ensures r.Some? ==> DayMonthYear(r.value, '/') || DayMonthYear(r.value, '-')
  {
    match ocr
    case OcrFailed => None
    case OcrText(text) =>
      ScanResultShape(text);
      ScanExpirationDate(text)
  }

  /** What the calendar insert reports to its callback. */
  datatype CalendarOutcome = CalendarCreated | CalendarFailed

  /** `isUserAuthorized`: `authorizedUsers.includes(userId)`. */
  function IsUserAuthorized(authorizedUsers: seq<int>, userId: int): (r: bool)
    ensures r <==> exists k | 0 <= k < |authorizedUsers| :: authorizedUsers[k] == userId
  {
    if authorizedUsers == [] then false
    else authorizedUsers[0] == userId || IsUserAuthorized(authorizedUsers[1..], userId)
  }
}
