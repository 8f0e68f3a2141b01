# Officeworks stock checker, modelled in Dafny

`stock.py` is a command-line tool that checks which Officeworks stores have a product in
stock. Given a product code, an optional Australian state (`all` by default) and an optional
`--skiplookup` flag, one run does four things:

1. It looks up the product name with the product search endpoint and stops if the name is
   not found.
2. It fetches the store directory and stops on an empty or invalid list.
3. It keeps the stores of the requested state.
4. It asks the availability endpoint about each kept store in turn and prints a `Found:` line
   for every option with a positive in-store quantity. A store whose answer cannot be read
   inside the `try` gets an error line, and the run moves on to the next store.

The model treats one run as a function from the three endpoints' answers to a `Transcript`.
A transcript holds the console lines printed, the GET requests issued and whether the run
ended with an uncaught exception. Console lines are the `Line` datatype, and `Render` gives
each line's exact text.

The search answer and the directory answer are parameters of the run. The availability
endpoint is a function from store id and part number to an answer. The command's own steps
are also written as imperative methods, one per loop:

- the name scan;
- the filter loop;
- the loop over the stores;
- the loop over one store's options.

Each method is proved equal to the specification function it implements.

The model has these modules:

- `StockTypes` (types.dfy): the endpoint answers, requests, console lines and their text.
- `ProductLookup` (lookup.dfy): the name lookup.
- `RegionFilter` (region_filter.dfy): the state filter.
- `StoreReport` (store_report.dfy): what one store's answer prints.
- `Stock` (stock.dfy): the whole run.
- `StockScenarios` (scenarios.dfy): two concrete runs worked out line by line.

Behaviour taken from the code:

- A store whose option list raises part-way keeps the `Found:` lines it printed before the
  failure. Output already echoed inside the `try` at stock.py:73 is not withdrawn, and the
  model keeps those lines (`StoreReport.OptionReportShape`).
- The store directory is checked for a `stores` key and for emptiness. The product search
  is not checked for a missing `products` key, because it is read outside any `try`.
- A search answer or availability answer that is not JSON makes `.json()` raise outside any
  `try`. That ends the run with an uncaught exception (`crashed`), and the stores after it
  are never asked.
- The test for `options` at stock.py:74 is Python's `in`. It is a key test on an object, a substring test on a string and a membership test on a list. An answer whose first element fails it prints nothing for that store (`NoOptions`). This includes every non-empty string answer and any first element that is a string or list without "options". An `options` value that iterates nothing (`""`, `{}`) also prints nothing. The `Availability` datatype lists which answers raise and so print the error line.
- The in-stock test at stock.py:76 reads an option's `type` only after its quantity compared
  positive. An option with no quantity, or with a positive quantity and no type, raises.
  An option with quantity 0 and no type is skipped silently.

## Model

| member | source | states |
|---|---|---|
| StockTypes.Render | stock.py:22-82 | the exact text echoed for each line; a printed line starts with "Found: " exactly when it is a stock report, every other message starts differently |
| ProductLookup.FirstMatch | stock.py:34-37 | the name is absent exactly when no search result has the part number; otherwise it is the name of the first result whose part number equals the code |
| ProductLookup.FirstMatchAt | stock.py:34-37 | when result i is the first with the requested part number, its name is the one taken |
| ProductLookup.FindProductName | stock.py:34-37 | the scan that breaks at the first exact part-number match yields the first-match name, or none |
| RegionFilter.InState | stock.py:59-62 | the filtered list is no longer than the directory and holds only stores of the requested state |
| RegionFilter.InStateKeepsExactlyMatches | stock.py:59-62 | every store of the requested state is kept as many times as it occurs in the directory; no store of another state is kept |
| RegionFilter.InStateIsSubsequence | stock.py:59-62 | the filtered list keeps directory order |
| RegionFilter.Filtered | stock.py:58-64 | the stores checked are never more than the fetched ones, and for a single state all of them are in that state |
| RegionFilter.FilteredKeepsOrder | stock.py:58-64 | the stores checked are a subsequence of the directory: all of it for "all", otherwise exactly its stores in the state |
| RegionFilter.InStateCount | stock.py:59-62 | the filtered list has as many entries as the directory has positions in the requested state |
| RegionFilter.FilterStores | stock.py:58-64 | the append loop (or taking the list as is for "all") builds exactly the filtered list |
| StoreReport.Raises | stock.py:76 | an option with both a quantity and a type never raises, nor does one whose quantity is not positive (`type` is then not read) |
| StoreReport.InStoreStock | stock.py:76 | an option that is reported never raises |
| StoreReport.OptionReport | stock.py:74-80 | at most one line per option; every line is a Found line except possibly the last, which is then the store's error line |
| StoreReport.Report | stock.py:73-82 | a store's lines are Found lines, except possibly a last error line; an options list never gives more lines than options |
| StoreReport.FirstRaise | stock.py:74-76 | the position of the first option whose reading raises: no option before it raises, and it raises unless it is the end |
| StoreReport.Reportable | stock.py:76 | the options kept are all positive in-store quantities |
| StoreReport.ReportableKeepsExactlyInStore | stock.py:76 | an option is kept exactly when it is in the list and has a positive quantity of type "inStore" |
| StoreReport.FoundLinesAt | stock.py:77-80 | one Found line per reported option, same order, with its quantity, the store name and a region only for "all" |
| StoreReport.OptionReportShape | stock.py:73-82 | a store prints the Found lines of the in-store options before the first option that raises, then the error line if one raised |
| StoreReport.StoreReportShape | stock.py:73-82 | the store's error line is printed last exactly when reading its answer raised; every other line is a positive Found line for that store in the state's format |
| StoreReport.ReportStore | stock.py:73-82 | the loop over one store's options, leaving at the first option that raises, prints exactly the store's report |
| Stock.Probe | stock.py:69-82 | one availability request per store, in filter order, for that store's id and the product code; all stores are asked unless the run crashes, and a crash comes from the last store asked answering with something other than JSON |
| Stock.ProbeStores | stock.py:69-82 | the store loop prints and requests exactly what the probe specification does, and crashes at the same store |
| Stock.ProbeSplit | stock.py:69-82 | probing a list probes its first part, then (unless that crashed) its second part on its own: stores do not influence each other |
| Stock.StoreErrorDoesNotStopProbe | stock.py:73-82 | a store whose answer raises prints its Found lines so far and one error line, and the stores after it are probed as if it were not there |
| Stock.ProbeLinesFromStores | stock.py:69-82 | every line the probe prints is a line of the report of one of the probed stores |
| Stock.Run | stock.py:21-82 | the run always opens with the search line; its first request is the product search, or the directory with --skiplookup; the directory is requested exactly when the lookup passes or is skipped |
| Stock.FetchStores | stock.py:46-82 | after the lookup the run prints "Getting all stores" and requests the directory next, and every later request is an availability request |
| Stock.FetchStoresReachesProbe | stock.py:46-72 | with a non-empty directory, "Getting all stores" and "Checking N stores" for the filtered list are followed by exactly the probe of that list |
| Stock.CheckStock | stock.py:21-82 | the command, step by step, prints, requests and crashes exactly as the run specification |
| Stock.CheckStores | stock.py:46-82 | the directory, filter and probe steps print, request and crash exactly as specified |
| Stock.RunReachesProbe | stock.py:22-72 | with the lookup passed and a non-empty directory: opening line, skip or product line, "Getting all stores", "Checking N stores", then the probe's lines; requests are the search unless skipped, the directory, then the probe's |
| Stock.SkipLookupMakesNoSearch | stock.py:25-26 | with --skiplookup the run prints "Skipping lookup", never requests a product search, and the search answer does not matter |
| Stock.LookupFailureStopsBeforeStores | stock.py:28-43 | a failed lookup requests only the product search and prints nothing after the guidance or lookup error (or crashes on an unreadable search); the directory and availability answers do not matter |
| Stock.ProductNameIsFirstMatch | stock.py:33-40 | the product line names the first result with the exact part number, and the directory is requested next |
| Stock.StoreListShapeStops | stock.py:49-55 | a directory without `stores` ends with "Invalid store list", an empty one with "Empty store list", and no availability is requested |
| Stock.CheckingCountsMatchingStores | stock.py:57-66 | "Checking N stores" counts every fetched store for "all", otherwise exactly the directory entries in the state |
| Stock.FoundLinesNameRequestedRegion | stock.py:57-80 | every Found line names a fetched store: with its region for "all", otherwise a store in the requested state and no region suffix |
| Stock.FilteredStoreIsFetched | stock.py:58-64 | a store that passes the filter is a fetched store, in the requested state unless "all" |
| StockScenarios.RegionRunSkipsOtherStates | stock.py:57-82 | a concrete NSW run: the VIC store is never asked, the failing Sydney store prints its error, and Parramatta is still reported without a region suffix |
| StockScenarios.EmptySearchStops | stock.py:28-31 | a concrete empty search prints the guidance and requests nothing further |

## Left out

- HTTP, the `requests_cache` session and its seven-day expiry are not modelled. Each endpoint's answer is an input. The directory request is recorded as issued whether or not the cache serves it.
- The availability endpoint is a function of store id and part number, so within one run the same URL always gives the same answer.
- `click` option parsing, the interactive prompt and the case-insensitive state choice are not modelled. The state reaches the model as the string `main` receives.
- JSON decoding and Python's exception classes are collapsed into answer shapes. These are: an unreadable answer (uncaught), a directory without `stores`, and a malformed availability answer (caught by the bare `except`).
- Search results and directory stores are always well-formed records. A product without `identity`, or a store without `storeId`, `storeName` or `address.storeState`, is not modelled. This includes the `KeyError` that line 61 would raise outside any `try`.
- A search answer is either unreadable (`SearchUnreadable`, the run crashes) or a list of well-formed products. A `products` value with length 0 that is not a list, such as `{}` or `""`, is `SearchResult([])`: line 29 prints the guidance and the run returns normally. A search answer without `products`, or a `products` value without a length (a number, `null`), is `SearchUnreadable`. A non-empty non-list `products` value, a string or an object, is not modelled: the scan at line 34 raises on its first item.
- Likewise a directory whose `stores` is `{}` or `""` is `StoreList([])` and prints "Empty store list". A directory answer that is a list or a string raises `TypeError`, not the `KeyError` caught at line 53, so it is `DirectoryUnreadable` and the run crashes.
- Request URLs are not built. A request is recorded by its kind and the values stock.py:29,47,70-71 put into its URL: the product code, and the store id with the product code.
- Quantities are integers. Float quantities and the formatting `format` gives them are not modelled.
- Lines and requests are two separate logs, so how requests interleave with printed lines is not recorded. Within each log the order is exact.
- The `__main__` entry point and process exit status are not modelled. An uncaught exception is the transcript's `crashed` flag.
