/** The values the stock checker reads from its three JSON endpoints, the
    requests it issues and the console lines it prints. */
module StockTypes {

  datatype Option<T> = None | Some(value: T)

  /** The `--state` value that turns the region filter off. */
  const All: string := "all"

  /** What the command line hands to the run: `--state`, `--productid`, `--skiplookup`. */
  datatype Query = Query(state: string, productId: string, skipLookup: bool)

  /** One entry of the search answer's `products` list (its `identity.partNumber` and `identity.name`). */
  datatype Product = Product(partNumber: string, name: string)

  /** One entry of the directory's `stores` list (`storeId`, `storeName`, `address.storeState`). */
  datatype Store = Store(storeId: string, storeName: string, storeState: string)

  /** One entry of an availability answer's `options` list. `qty` is `None` when the key is
      absent or holds something that cannot be compared with 0, `kind` (the JSON `type`)
      when the key is absent; reading either then raises. */
  datatype StockOption = StockOption(qty: Option<int>, kind: Option<string>)

  /** The product search answer: not JSON or without a `products` list, or that list. */
  datatype SearchResponse = SearchUnreadable | SearchResult(products: seq<Product>)

  /** The store directory answer: one the run cannot read (not JSON, not an object, or a
      `stores` value without a length), an object without `stores`, or the `stores` list
      (a `stores` value of length 0, such as `{}` or `""`, is the empty list). */
  datatype StoreDirectory = DirectoryUnreadable | NoStoresField | StoreList(stores: seq<Store>)

  /** One store's availability answer, by what the reading inside the `try` makes of it:
      - `AvailabilityUnreadable`: the body is not JSON (decoded outside the `try`);
      - `Malformed`: taking the first element, testing it for `options` or fetching its
        `options` raises (an empty list or string, an object or number answer, a first element
        that is a string or list containing "options", an `options` value that cannot be
        iterated);
      - `NoOptions`: the test for `options` is false, so nothing is read; this covers a first
        element that is an object without that key or a string or list not containing
        "options", and any non-empty string answer (its first character is what is tested);
      - `Options`: what the loop iterates over, in order. An `options` value that iterates
        nothing (an empty list, string or object) is `Options([])`; an iterated item that is
        not an object (a string's character, an object's key) is an option without a usable
        `qty`. */
  datatype Availability =
    | AvailabilityUnreadable
    | Malformed
    | NoOptions
    | Options(options: seq<StockOption>)

  /** The GET requests the run issues, in the order it issues them. */
  datatype Request =
    | ProductSearch(searchTerm: string)
    | AllStores
    | StoreAvailability(storeId: string, partNumber: string)

  /** One console line; `Render` gives its exact text. */
  datatype Line =
    | Searching(productId: string, state: string)
    | SkippingLookup
    | NoProductFound
    | ProductName(name: string)
    | ErrorFindingProduct
    | GettingAllStores
    | EmptyStoreList
    | InvalidStoreList
    | Checking(count: nat)
    | Found(qty: nat, storeName: string, region: Option<string>)
    | AvailabilityError(storeName: string)

  /** What one run leaves behind: the lines it printed, the requests it issued, and whether
      it ended with an uncaught exception rather than by returning. */
  datatype Transcript = Transcript(lines: seq<Line>, requests: seq<Request>, crashed: bool)

  /** `done` followed by `next`; the run ends the way `next` ends. */
  function Join(done: Transcript, next: Transcript): Transcript
  {
    Transcript(done.lines + next.lines, done.requests + next.requests, next.crashed)
  }

  function DigitChar(d: nat): char
    requires d < 10
  {
    "0123456789"[d]
  }

  /** Decimal digits of `n`, as Python's `format` prints an integer. */
  function NatToString(n: nat): string
  {
    if n < 10 then [DigitChar(n)] else NatToString(n / 10) + [DigitChar(n % 10)]
  }

  const NoProductFoundText: string :=
    "No product found. " + "Have you entered the correct product code? "
    + "Alternatively, use --skiplookup for delisted items"

  /** A console line that reports stock: it starts with "Found: ". */
  predicate IsFoundText(text: string)
  {
    |text| >= 7 && text[..7] == "Found: "
  }

  lemma FoundPrefixed(rest: string)
    ensures IsFoundText("Found: " + rest)
  {
    assert ("Found: " + rest)[..7] == "Found: ";
  }

  lemma NotFoundPrefixed(text: string)
    requires |text| > 0 && text[0] != 'F'
    ensures !IsFoundText(text)
  {
    if |text| >= 7 {
      assert text[..7][0] == text[0];
    }
  }

  /** The exact text `click.echo` prints for a line. Reading the console is enough to tell
      stock reports from every other line: only they start with "Found: ". */
  function Render(line: Line): (text: string)
    ensures IsFoundText(text) <==> line.Found?
  {
    match line
    case Found(qty, storeName, None) =>
      var rest := NatToString(qty) + " at " + storeName;
      FoundPrefixed(rest);
      "Found: " + rest
    case Found(qty, storeName, Some(region)) =>
      var rest := NatToString(qty) + " at " + storeName + " (" + region + ")";
      FoundPrefixed(rest);
      "Found: " + rest
    case Searching(productId, state) => Other("Searching for product code: " + productId + " in " + state)
    case SkippingLookup => Other("Skipping lookup")
    case NoProductFound => Other(NoProductFoundText)
    case ProductName(name) => Other("Product: " + name)
    case ErrorFindingProduct => Other("Error finding product name")
    case GettingAllStores => Other("Getting all stores")
    case EmptyStoreList => Other("Empty store list")
    case InvalidStoreList => Other("Invalid store list")
    case Checking(count) => Other("Checking " + NatToString(count) + " stores")
    case AvailabilityError(storeName) => Other("Error getting availability for " + storeName)
  }

  /** A text that does not start with 'F', which no stock report does. */
  function Other(text: string): (r: string)
    requires |text| > 0 && text[0] != 'F'
    ensures r == text && !IsFoundText(r)
  {
    NotFoundPrefixed(text);
    text
  }
}
