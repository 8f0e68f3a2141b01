/** Concrete runs: the scenarios the stock checker is meant to handle, worked out by the
    model. */
module StockScenarios {
  import opened StockTypes
  import opened RegionFilter
  import opened StoreReport
  import opened Stock

  const Sydney := Store("1", "Sydney", "NSW")
  const Parramatta := Store("2", "Parramatta", "NSW")
  const Melbourne := Store("3", "Melbourne", "VIC")

  /** Five in store everywhere, except that store "1" answers with something unreadable as
      an availability list. */
  function FiveInStore(storeId: string, partNumber: string): Availability
  {
    if storeId == "1" then Malformed else Options([StockOption(Some(5), Some("inStore"))])
  }

  /** Two of three stores in NSW: "Checking 2 stores", no region suffix, the VIC store is
      never probed, and the first store's error does not stop the second store's report. */
  lemma RegionRunSkipsOtherStates()
    ensures var t := Run(Query("NSW", "ABC123", true), SearchUnreadable,
                         StoreList([Sydney, Melbourne, Parramatta]), FiveInStore);
      && t.lines == [Searching("ABC123", "NSW"), SkippingLookup, GettingAllStores, Checking(2),
                     AvailabilityError("Sydney"), Found(5, "Parramatta", None)]
      && t.requests == [AllStores, StoreAvailability("1", "ABC123"), StoreAvailability("2", "ABC123")]
      && !t.crashed
  {
    var stores := [Sydney, Melbourne, Parramatta];
    assert Filtered(stores, "NSW") == [Sydney, Parramatta] by {
      var last := [Parramatta];
      assert last[1..] == [];
      assert InState(last, "NSW") == last;
      var later := [Melbourne, Parramatta];
      assert later[1..] == last;
      assert "VIC" != "NSW" by { assert "VIC"[0] != "NSW"[0]; }
      assert InState(later, "NSW") == last;
      assert stores[1..] == later;
    }
    var both := [Sydney, Parramatta];
    assert both[1..] == [Parramatta];
    var options := [StockOption(Some(5), Some("inStore"))];
    assert Report(Parramatta, Options(options), "NSW") == [Found(5, "Parramatta", None)] by {
      assert options[1..] == [];
    }
    assert FiveInStore("1", "ABC123") == Malformed;
    assert FiveInStore("2", "ABC123") == Options(options);
    var last := [Parramatta];
    assert last[1..] == [] && last[0] == Parramatta && Parramatta.storeId == "2";
    assert Probe([], "ABC123", "NSW", FiveInStore) == Transcript([], [], false);
    var second := Probe(last, "ABC123", "NSW", FiveInStore);
    assert second == Transcript([Found(5, "Parramatta", None)], [StoreAvailability("2", "ABC123")], false);
    var probe := Probe(both, "ABC123", "NSW", FiveInStore);
    assert probe == Transcript([AvailabilityError("Sydney"), Found(5, "Parramatta", None)],
                               [StoreAvailability("1", "ABC123"), StoreAvailability("2", "ABC123")], false);
  }

  /** An empty search result prints the guidance and stops. */
  lemma EmptySearchStops()
    ensures Run(Query("all", "ABC123", false), SearchResult([]), StoreList([Sydney]), FiveInStore)
         == Transcript([Searching("ABC123", "all"), NoProductFound], [ProductSearch("ABC123")], false)
  {
  }
}
