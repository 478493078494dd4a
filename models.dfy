/** The records exchanged between the loader, the workers and the ledger
    (internal/models/models.go). JSON tags are not modelled; the
    `Timestamp` of a failure record is left out because clock values are
    not modelled. */
module Models {

  /** One work item: a product identifier and the page to scrape. */
  datatype Product = Product(id: string, link: string)

  /** The outcome of scraping one product. `error` is "" when Go leaves it
      at its zero value. */
  datatype ProductResult = ProductResult(id: string, images: seq<string>, success: bool, error: string)

  /** A deduplicated failure record; `attempts` is Go's `int`. */
  datatype FailedUrl = FailedUrl(id: string, url: string, error: string, attempts: int)
}
