/** One run of the stock checker: resolve the product name, fetch the store directory,
    filter it by region and probe each remaining store, printing as it goes. */
module Stock {
  import opened StockTypes
  import opened ProductLookup
  import opened RegionFilter
  import opened StoreReport

  /** The availability endpoint: its answer for a store id and a part number. */
  type Endpoint = (string, string) -> Availability

  /** The probe loop over `stores`: one availability request per store, in order, and its
      report; an answer that is not JSON ends the run there. */
  function Probe(stores: seq<Store>, productId: string, state: string, endpoint: Endpoint): (t: Transcript)
    ensures |t.requests| <= |stores|
    ensures forall k :: 0 <= k < |t.requests| ==> t.requests[k] == StoreAvailability(stores[k].storeId, productId)
    ensures !t.crashed ==> |t.requests| == |stores|
    ensures t.crashed ==>
              |t.requests| > 0 && endpoint(stores[|t.requests| - 1].storeId, productId).AvailabilityUnreadable?
    decreases |stores|
  {
    if stores == [] then Transcript([], [], false)
    else
      var store := stores[0];
      var request := StoreAvailability(store.storeId, productId);
      var answer := endpoint(store.storeId, productId);
      if answer.AvailabilityUnreadable? then Transcript([], [request], true)
      else
        var rest := Probe(stores[1..], productId, state, endpoint);
        assert forall k :: 1 <= k < |stores| ==> stores[k] == stores[1..][k - 1];
        Join(Transcript(Report(store, answer, state), [request], false), rest)
  }

  /** The run once the product lookup has passed or was skipped: `lines` and `requests` are
      what was printed and requested so far. */
  function FetchStores(q: Query, lines: seq<Line>, requests: seq<Request>, directory: StoreDirectory,
                       endpoint: Endpoint): (t: Transcript)
    ensures |t.lines| > |lines| && t.lines[..|lines| + 1] == lines + [GettingAllStores]
    ensures |t.requests| > |requests| && t.requests[..|requests| + 1] == requests + [AllStores]
    ensures forall k :: |requests| < k < |t.requests| ==> t.requests[k].StoreAvailability?
  {
    var lines := lines + [GettingAllStores];
    var requests := requests + [AllStores];
    match directory
    case DirectoryUnreadable => Transcript(lines, requests, true)
    case NoStoresField => Transcript(lines + [InvalidStoreList], requests, false)
    case StoreList(stores) =>
      if |stores| == 0 then Transcript(lines + [EmptyStoreList], requests, false)
      else
        var filtered := Filtered(stores, q.state);
        Join(Transcript(lines + [Checking(|filtered|)], requests, false),
             Probe(filtered, q.productId, q.state, endpoint))
  }

  /** The whole run, from the three endpoints' answers to what it prints and requests. */
  function Run(q: Query, search: SearchResponse, directory: StoreDirectory, endpoint: Endpoint): (t: Transcript)
    ensures |t.lines| > 0 && t.lines[0] == Searching(q.productId, q.state)
    ensures |t.requests| > 0 && t.requests[0] == (if q.skipLookup then AllStores else ProductSearch(q.productId))
    ensures (exists k :: 0 <= k < |t.requests| && t.requests[k] == AllStores) <==> LookupPasses(q, search)
  {
    var opening := [Searching(q.productId, q.state)];
    if q.skipLookup then FetchStores(q, opening + [SkippingLookup], [], directory, endpoint)
    else
      var searched := [ProductSearch(q.productId)];
      match search
      case SearchUnreadable => Transcript(opening, searched, true)
      case SearchResult(products) =>
        if |products| == 0 then Transcript(opening + [NoProductFound], searched, false)
        else
          match FirstMatch(products, q.productId)
          case None => Transcript(opening + [ErrorFindingProduct], searched, false)
          case Some(name) =>
            var t := FetchStores(q, opening + [ProductName(name)], searched, directory, endpoint);
            assert t.requests[..2][1] == AllStores;
            t
  }

  /** The lookup lets the run go on to the store directory. */
  predicate LookupPasses(q: Query, search: SearchResponse)
  {
    q.skipLookup || (search.SearchResult? && FirstMatch(search.products, q.productId).Some?)
  }

  /** The run, step by step as the command executes it. */
  method CheckStock(q: Query, search: SearchResponse, directory: StoreDirectory, endpoint: Endpoint)
    returns (t: Transcript)
    ensures t == Run(q, search, directory, endpoint)
  {
    var lines := [Searching(q.productId, q.state)];
    var requests: seq<Request> := [];
    if q.skipLookup {
      lines := lines + [SkippingLookup];
    } else {
      requests := requests + [ProductSearch(q.productId)];
      if search.SearchUnreadable? {
        return Transcript(lines, requests, true);
      }
      var products := search.products;
      if |products| == 0 {
        lines := lines + [NoProductFound];
        return Transcript(lines, requests, false);
      }
      var productName := FindProductName(products, q.productId);
      if productName.None? {
        lines := lines + [ErrorFindingProduct];
        return Transcript(lines, requests, false);
      }
      lines := lines + [ProductName(productName.value)];
    }
    t := CheckStores(q, lines, requests, directory, endpoint);
  }

  /** The rest of the run after the lookup: fetch, validate and filter the directory, then
      probe each store. */
  method CheckStores(q: Query, printed: seq<Line>, issued: seq<Request>, directory: StoreDirectory,
                     endpoint: Endpoint)
    returns (t: Transcript)
    ensures t == FetchStores(q, printed, issued, directory, endpoint)
  {
    var lines := printed + [GettingAllStores];
    var requests := issued + [AllStores];
    if directory.DirectoryUnreadable? {
      return Transcript(lines, requests, true);
    }
    if directory.NoStoresField? {
      lines := lines + [InvalidStoreList];
      return Transcript(lines, requests, false);
    }
    var stores := directory.stores;
    if |stores| == 0 {
      lines := lines + [EmptyStoreList];
      return Transcript(lines, requests, false);
    }
    var filtered := FilterStores(stores, q.state);
    lines := lines + [Checking(|filtered|)];
    var probed := ProbeStores(filtered, q.productId, q.state, endpoint);
    t := Join(Transcript(lines, requests, false), probed);
  }

  /** The loop over the filtered stores: request each store's availability and print its
      report; a per-store error is printed and the loop goes on, an answer that is not JSON
      ends the run. */
  method ProbeStores(stores: seq<Store>, productId: string, state: string, endpoint: Endpoint)
    returns (t: Transcript)
    ensures t == Probe(stores, productId, state, endpoint)
  {
    var lines: seq<Line> := [];
    var requests: seq<Request> := [];
    var i := 0;
    assert stores[i..] == stores;
    while i < |stores|
      invariant 0 <= i <= |stores|
      invariant Probe(stores, productId, state, endpoint)
             == Join(Transcript(lines, requests, false), Probe(stores[i..], productId, state, endpoint))
    {
      var store := stores[i];
      var request := StoreAvailability(store.storeId, productId);
      var answer := endpoint(store.storeId, productId);
      assert stores[i..][0] == store && stores[i..][1..] == stores[i + 1..];
      if answer.AvailabilityUnreadable? {
        return Transcript(lines, requests + [request], true);
      }
      var storeLines := ReportStore(store, answer, state);
      JoinAssociative(Transcript(lines, requests, false), Transcript(storeLines, [request], false),
                      Probe(stores[i + 1..], productId, state, endpoint));
      lines := lines + storeLines;
      requests := requests + [request];
      i := i + 1;
    }
    assert stores[i..] == [];
    t := Transcript(lines, requests, false);
  }

  /** Joining transcripts is associative. */
  lemma JoinAssociative(a: Transcript, b: Transcript, c: Transcript)
    ensures Join(Join(a, b), c) == Join(a, Join(b, c))
  {
    assert (a.lines + b.lines) + c.lines == a.lines + (b.lines + c.lines);
    assert (a.requests + b.requests) + c.requests == a.requests + (b.requests + c.requests);
  }

  /** A store's error does not stop the probe: after the stores in `first`, the later stores
      are probed exactly as if they were the only ones, unless an answer that is not JSON
      ended the run. */
  lemma {:induction false} ProbeSplit(first: seq<Store>, later: seq<Store>, productId: string, state: string,
                                      endpoint: Endpoint)
    ensures var p := Probe(first, productId, state, endpoint);
      Probe(first + later, productId, state, endpoint)
      == if p.crashed then p else Join(p, Probe(later, productId, state, endpoint))
    decreases |first|
  {
    var rest := Probe(later, productId, state, endpoint);
    if first == [] {
      assert first + later == later;
      assert Join(Transcript([], [], false), rest) == rest;
    } else {
      var store := first[0];
      assert (first + later)[0] == store && (first + later)[1..] == first[1..] + later;
      var answer := endpoint(store.storeId, productId);
      if !answer.AvailabilityUnreadable? {
        ProbeSplit(first[1..], later, productId, state, endpoint);
        var head := Transcript(Report(store, answer, state), [StoreAvailability(store.storeId, productId)], false);
        JoinAssociative(head, Probe(first[1..], productId, state, endpoint), rest);
      }
    }
  }

  /** A store whose answer raised prints exactly one error line, after the Found lines it had
      already printed, and the stores after it are probed as if it were not there. */
  lemma StoreErrorDoesNotStopProbe(store: Store, later: seq<Store>, productId: string, state: string,
                                   endpoint: Endpoint)
    requires !endpoint(store.storeId, productId).AvailabilityUnreadable?
    requires Fails(endpoint(store.storeId, productId))
    ensures var r := Report(store, endpoint(store.storeId, productId), state);
      && Probe([store] + later, productId, state, endpoint)
         == Join(Transcript(r, [StoreAvailability(store.storeId, productId)], false),
                 Probe(later, productId, state, endpoint))
      && r != [] && r[|r| - 1] == AvailabilityError(store.storeName)
      && forall k :: 0 <= k < |r| - 1 ==> r[k].Found?
  {
    var r := Report(store, endpoint(store.storeId, productId), state);
    ProbeSplit([store], later, productId, state, endpoint);
    StoreReportShape(store, endpoint(store.storeId, productId), state);
    assert [store][1..] == [];
    assert Probe([store], productId, state, endpoint)
        == Transcript(r + [], [StoreAvailability(store.storeId, productId)] + [], false);
  }

  /** The printed line comes from probing `store`: a Found line for it in the format `state`
      asks for, or its error line after reading its answer raised. */
  predicate LineFrom(line: Line, store: Store, productId: string, state: string, endpoint: Endpoint)
  {
    || (line.Found? && line.qty > 0 && line.storeName == store.storeName
        && line.region == (if state == All then Some(store.storeState) else None))
    || (line == AvailabilityError(store.storeName) && Fails(endpoint(store.storeId, productId)))
  }

  /** The line comes from probing one of `stores`. */
  predicate LineFromSome(line: Line, stores: seq<Store>, productId: string, state: string, endpoint: Endpoint)
  {
    exists s :: s in stores && LineFrom(line, s, productId, state, endpoint)
  }

  /** Each of `lines` comes from probing one of `stores`. */
  predicate LinesFrom(lines: seq<Line>, stores: seq<Store>, productId: string, state: string, endpoint: Endpoint)
  {
    forall k :: 0 <= k < |lines| ==> LineFromSome(lines[k], stores, productId, state, endpoint)
  }

  /** Every line of a store's report comes from probing that store. */
  lemma ReportLinesFromStore(store: Store, productId: string, state: string, endpoint: Endpoint)
    requires !endpoint(store.storeId, productId).AvailabilityUnreadable?
    ensures var r := Report(store, endpoint(store.storeId, productId), state);
      forall k :: 0 <= k < |r| ==> LineFrom(r[k], store, productId, state, endpoint)
  {
    StoreReportShape(store, endpoint(store.storeId, productId), state);
  }

  /** Lines from the probed stores, followed by lines from more of them. */
  lemma LinesFromJoin(head: seq<Line>, store: Store, tail: seq<Line>, stores: seq<Store>, productId: string,
                      state: string, endpoint: Endpoint)
    requires stores != [] && stores[0] == store
    requires forall k :: 0 <= k < |head| ==> LineFrom(head[k], store, productId, state, endpoint)
    requires LinesFrom(tail, stores[1..], productId, state, endpoint)
    ensures LinesFrom(head + tail, stores, productId, state, endpoint)
  {
    var lines := head + tail;
    forall k | 0 <= k < |lines|
      ensures LineFromSome(lines[k], stores, productId, state, endpoint)
    {
      if k < |head| {
        assert lines[k] == head[k] && store in stores;
      } else {
        assert lines[k] == tail[k - |head|];
        assert LineFromSome(tail[k - |head|], stores[1..], productId, state, endpoint);
        var s :| s in stores[1..] && LineFrom(tail[k - |head|], s, productId, state, endpoint);
        assert s in stores;
      }
    }
  }

  /** Every line the probe prints comes from one of the probed stores. */
  lemma {:induction false} ProbeLinesFromStores(stores: seq<Store>, productId: string, state: string,
                                                endpoint: Endpoint)
    ensures LinesFrom(Probe(stores, productId, state, endpoint).lines, stores, productId, state, endpoint)
    decreases |stores|
  {
    if stores != [] {
      var store := stores[0];
      if !endpoint(store.storeId, productId).AvailabilityUnreadable? {
        ReportLinesFromStore(store, productId, state, endpoint);
        ProbeLinesFromStores(stores[1..], productId, state, endpoint);
        LinesFromJoin(Report(store, endpoint(store.storeId, productId), state), store,
                      Probe(stores[1..], productId, state, endpoint).lines, stores, productId, state, endpoint);
      }
    }
  }

  /** With the lookup passed and a non-empty directory, the run prints its opening lines and
      "Checking N stores" for the filtered list, then exactly what probing that list prints;
      it requests the search (unless skipped), the directory, then what the probe requests. */
  lemma RunReachesProbe(q: Query, search: SearchResponse, directory: StoreDirectory, endpoint: Endpoint)
    requires LookupPasses(q, search)
    requires directory.StoreList? && |directory.stores| > 0
    ensures var t := Run(q, search, directory, endpoint);
      var filtered := Filtered(directory.stores, q.state);
      var p := Probe(filtered, q.productId, q.state, endpoint);
      && |t.lines| == 4 + |p.lines|
      && t.lines[0] == Searching(q.productId, q.state)
      && t.lines[1] == (if q.skipLookup then SkippingLookup else ProductName(FirstMatch(search.products, q.productId).value))
      && t.lines[2] == GettingAllStores
      && t.lines[3] == Checking(|filtered|)
      && t.lines[4..] == p.lines
      && t.requests == (if q.skipLookup then [] else [ProductSearch(q.productId)]) + [AllStores] + p.requests
      && t.crashed == p.crashed
  {
    var t := Run(q, search, directory, endpoint);
    var filtered := Filtered(directory.stores, q.state);
    var p := Probe(filtered, q.productId, q.state, endpoint);
    var opening := [Searching(q.productId, q.state)]
                   + [if q.skipLookup then SkippingLookup else ProductName(FirstMatch(search.products, q.productId).value)];
    var searched: seq<Request> := if q.skipLookup then [] else [ProductSearch(q.productId)];
    if !q.skipLookup {
      assert search.products != [];
    }
    assert t == FetchStores(q, opening, searched, directory, endpoint);
    FetchStoresReachesProbe(q, opening, searched, directory, endpoint);
    var head := opening + [GettingAllStores, Checking(|filtered|)];
    assert |head| == 4 && head[2] == GettingAllStores && head[3] == Checking(|filtered|);
    assert head[0] == Searching(q.productId, q.state) && head[1] == opening[1];
    assert t.lines == head + p.lines;
    assert t.lines[4..] == p.lines;
  }

  /** A non-empty directory: "Getting all stores", "Checking N stores" for the filtered list,
      then the probe of that list. */
  lemma FetchStoresReachesProbe(q: Query, lines: seq<Line>, requests: seq<Request>, directory: StoreDirectory,
                                endpoint: Endpoint)
    requires directory.StoreList? && |directory.stores| > 0
    ensures var filtered := Filtered(directory.stores, q.state);
      FetchStores(q, lines, requests, directory, endpoint)
      == Join(Transcript(lines + [GettingAllStores, Checking(|filtered|)], requests + [AllStores], false),
              Probe(filtered, q.productId, q.state, endpoint))
  {
    assert lines + [GettingAllStores] + [Checking(|Filtered(directory.stores, q.state)|)]
        == lines + [GettingAllStores, Checking(|Filtered(directory.stores, q.state)|)];
  }

  /** With --skiplookup the run prints "Skipping lookup", makes no product search, and the
      search endpoint's answer does not matter. */
  lemma SkipLookupMakesNoSearch(q: Query, search: SearchResponse, other: SearchResponse, directory: StoreDirectory,
                                endpoint: Endpoint)
    requires q.skipLookup
    ensures Run(q, search, directory, endpoint) == Run(q, other, directory, endpoint)
    ensures var t := Run(q, search, directory, endpoint);
      && |t.lines| >= 3 && t.lines[..3] == [Searching(q.productId, q.state), SkippingLookup, GettingAllStores]
      && |t.requests| >= 1 && t.requests[0] == AllStores
      && forall k :: 0 <= k < |t.requests| ==> !t.requests[k].ProductSearch?
  {
    var t := Run(q, search, directory, endpoint);
    var opening := [Searching(q.productId, q.state), SkippingLookup];
    if directory.StoreList? && |directory.stores| > 0 {
      RunReachesProbe(q, search, directory, endpoint);
      assert t.lines[..3] == opening + [GettingAllStores];
    } else {
      assert t.requests == [AllStores];
      assert t.lines[..3] == opening + [GettingAllStores] by {
        assert t.lines == opening + [GettingAllStores] + t.lines[3..];
      }
    }
  }

  /** When the lookup fails the run stops after the search: it never requests the store
      directory or any availability, and their answers do not matter. An empty result prints
      the guidance, a result without the product prints the lookup error. */
  lemma LookupFailureStopsBeforeStores(q: Query, search: SearchResponse, directory: StoreDirectory,
                                       otherDirectory: StoreDirectory, endpoint: Endpoint, otherEndpoint: Endpoint)
    requires !LookupPasses(q, search)
    ensures Run(q, search, directory, endpoint) == Run(q, search, otherDirectory, otherEndpoint)
    ensures var t := Run(q, search, directory, endpoint);
      && t.requests == [ProductSearch(q.productId)]
      && (search.SearchUnreadable? ==> t == Transcript([Searching(q.productId, q.state)], t.requests, true))
      && (search.SearchResult? && search.products == [] ==>
            t == Transcript([Searching(q.productId, q.state), NoProductFound], t.requests, false))
      && (search.SearchResult? && search.products != [] ==>
            t == Transcript([Searching(q.productId, q.state), ErrorFindingProduct], t.requests, false))
  {
  }

  /** The product line names the first search result whose part number equals the code. */
  lemma ProductNameIsFirstMatch(q: Query, products: seq<Product>, directory: StoreDirectory, endpoint: Endpoint,
                                i: nat)
    requires !q.skipLookup
    requires i < |products| && products[i].partNumber == q.productId
    requires forall j :: 0 <= j < i ==> products[j].partNumber != q.productId
    ensures var t := Run(q, SearchResult(products), directory, endpoint);
      && |t.lines| >= 3 && t.lines[1] == ProductName(products[i].name) && t.lines[2] == GettingAllStores
      && |t.requests| >= 2 && t.requests[..2] == [ProductSearch(q.productId), AllStores]
  {
    FirstMatchAt(products, q.productId, i);
    var t := Run(q, SearchResult(products), directory, endpoint);
    var opening := [Searching(q.productId, q.state), ProductName(products[i].name)];
    assert t.lines == opening + [GettingAllStores] + t.lines[3..];
    assert t.requests == [ProductSearch(q.productId), AllStores] + t.requests[2..];
  }

  /** A directory without `stores` prints "Invalid store list", an empty one "Empty store
      list"; either way that is the run's last line and no store is probed. */
  lemma StoreListShapeStops(q: Query, search: SearchResponse, directory: StoreDirectory, endpoint: Endpoint,
                            otherEndpoint: Endpoint)
    requires LookupPasses(q, search)
    requires directory.NoStoresField? || directory == StoreList([])
    ensures Run(q, search, directory, endpoint) == Run(q, search, directory, otherEndpoint)
    ensures var t := Run(q, search, directory, endpoint);
      && !t.crashed
      && |t.lines| > 0
      && t.lines[|t.lines| - 1] == (if directory.NoStoresField? then InvalidStoreList else EmptyStoreList)
      && |t.requests| > 0 && t.requests[|t.requests| - 1] == AllStores
      && forall k :: 0 <= k < |t.requests| ==> !t.requests[k].StoreAvailability?
  {
  }

  /** "Checking N stores" reports every fetched store for "all", and otherwise exactly the
      number of directory entries in the requested state. */
  lemma CheckingCountsMatchingStores(q: Query, search: SearchResponse, directory: StoreDirectory, endpoint: Endpoint)
    requires LookupPasses(q, search)
    requires directory.StoreList? && |directory.stores| > 0
    ensures var t := Run(q, search, directory, endpoint);
      var stores := directory.stores;
      t.lines[3] == Checking(if q.state == All then |stores| else |MatchingPositions(stores, q.state)|)
  {
    RunReachesProbe(q, search, directory, endpoint);
    if q.state != All {
      InStateCount(directory.stores, q.state);
    }
  }

  /** The store a Found line names, as the filter and the line format leave it. */
  predicate FoundFor(line: Line, store: Store, q: Query)
  {
    && line.Found?
    && store.storeName == line.storeName
    && (q.state == All ==> line.region == Some(store.storeState))
    && (q.state != All ==> store.storeState == q.state && line.region == None)
  }

  /** Every Found line names a fetched store: for "all" it carries that store's region; for
      a single region the store is in that region and the line has no suffix. */
  lemma FoundLinesNameRequestedRegion(q: Query, search: SearchResponse, directory: StoreDirectory, endpoint: Endpoint)
    requires LookupPasses(q, search)
    requires directory.StoreList? && |directory.stores| > 0
    ensures var t := Run(q, search, directory, endpoint);
      forall k :: 0 <= k < |t.lines| && t.lines[k].Found? ==>
        exists s :: s in directory.stores && FoundFor(t.lines[k], s, q)
  {
    var t := Run(q, search, directory, endpoint);
    var filtered := Filtered(directory.stores, q.state);
    var p := Probe(filtered, q.productId, q.state, endpoint);
    RunReachesProbe(q, search, directory, endpoint);
    ProbeLinesFromStores(filtered, q.productId, q.state, endpoint);
    assert LinesFrom(p.lines, filtered, q.productId, q.state, endpoint);
    forall k | 0 <= k < |t.lines| && t.lines[k].Found?
      ensures exists s :: s in directory.stores && FoundFor(t.lines[k], s, q)
    {
      assert 4 <= k && t.lines[k] == p.lines[k - 4];
      FoundLineNamesFetchedStore(p.lines[k - 4], directory.stores, q, endpoint);
    }
  }

  /** A Found line printed by probing the filtered stores names a fetched store, as
      `FoundFor` describes. */
  lemma FoundLineNamesFetchedStore(line: Line, stores: seq<Store>, q: Query, endpoint: Endpoint)
    requires line.Found? && LineFromSome(line, Filtered(stores, q.state), q.productId, q.state, endpoint)
    ensures exists s :: s in stores && FoundFor(line, s, q)
  {
    var s :| s in Filtered(stores, q.state) && LineFrom(line, s, q.productId, q.state, endpoint);
    FilteredStoreIsFetched(stores, q.state, s);
    assert FoundFor(line, s, q);
  }

  /** A store that passes the filter is one of the fetched stores, in the requested state
      unless every state was asked for. */
  lemma FilteredStoreIsFetched(stores: seq<Store>, state: string, s: Store)
    requires s in Filtered(stores, state)
    ensures s in stores && (state != All ==> s.storeState == state)
  {
    if state != All {
      InStateKeepsExactlyMatches(stores, state, s);
      assert s in multiset(InState(stores, state));
    }
  }
}
