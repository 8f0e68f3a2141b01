/** The availability prober for one store: the lines printed from that store's answer,
    including the caught error that ends the store's report. */
module StoreReport {
  import opened StockTypes

  /** Reading this option inside the `try` raises: `qty` is unusable, or `qty` is positive
      and `type` is absent (`type` is read only when `qty > 0` holds). */
  predicate Raises(option: StockOption): (raises: bool)
    ensures option.qty.Some? && option.kind.Some? ==> !raises
    ensures option.qty.Some? && option.qty.value <= 0 ==> !raises
  {
    option.qty.None? || (option.qty.value > 0 && option.kind.None?)
  }

  /** The option is reported: a positive quantity of type "inStore". */
  predicate InStoreStock(option: StockOption): (reported: bool)
    ensures reported ==> !Raises(option)
  {
    option.qty.Some? && option.qty.value > 0 && option.kind == Some("inStore")
  }

  /** The line for a reported option: with the store's region only when every region was asked for. */
  function FoundLine(option: StockOption, store: Store, state: string): Line
    requires InStoreStock(option)
  {
    Found(option.qty.value, store.storeName, if state == All then Some(store.storeState) else None)
  }

  /** The lines printed while walking `options`: one Found line per reported option, in
      order, until an option raises; that option adds the store's error line and ends it. */
  function OptionReport(options: seq<StockOption>, store: Store, state: string): (r: seq<Line>)
    ensures |r| <= |options|
    ensures forall k :: 0 <= k < |r| ==>
              r[k].Found? || (k == |r| - 1 && r[k] == AvailabilityError(store.storeName))
    decreases |options|
  {
    if options == [] then []
    else if Raises(options[0]) then [AvailabilityError(store.storeName)]
    else
      var head := if InStoreStock(options[0]) then [FoundLine(options[0], store, state)] else [];
      var rest := OptionReport(options[1..], store, state);
      assert forall k :: |head| <= k < |head| + |rest| ==> (head + rest)[k] == rest[k - |head|];
      head + rest
  }

  /** Everything printed for one store whose answer decoded as JSON. */
  function Report(store: Store, answer: Availability, state: string): (r: seq<Line>)
    requires !answer.AvailabilityUnreadable?
    ensures answer.Options? ==> |r| <= |answer.options|
    ensures forall k :: 0 <= k < |r| ==>
              r[k].Found? || (k == |r| - 1 && r[k] == AvailabilityError(store.storeName))
  {
    match answer
    case Malformed => [AvailabilityError(store.storeName)]
    case NoOptions => []
    case Options(options) => OptionReport(options, store, state)
  }

  /** Position of the first option that raises, or the number of options when none does. */
  function FirstRaise(options: seq<StockOption>): (k: nat)
    ensures k <= |options|
    ensures forall j :: 0 <= j < k ==> !Raises(options[j])
    ensures k < |options| ==> Raises(options[k])
    decreases |options|
  {
    if options == [] then 0
    else if Raises(options[0]) then 0
    else
      var k := FirstRaise(options[1..]);
      assert forall j :: 1 <= j < k + 1 ==> options[j] == options[1..][j - 1];
      k + 1
  }

  /** The options that are reported, in their order. */
  function Reportable(options: seq<StockOption>): (r: seq<StockOption>)
    ensures forall k :: 0 <= k < |r| ==> InStoreStock(r[k])
    decreases |options|
  {
    if options == [] then []
    else (if InStoreStock(options[0]) then [options[0]] else []) + Reportable(options[1..])
  }

  /** Every option that is reported is kept, and nothing else: the filter behind the
      "Found" lines is exact in both directions. */
  lemma {:induction false} ReportableKeepsExactlyInStore(options: seq<StockOption>, x: StockOption)
    ensures x in Reportable(options) <==> x in options && InStoreStock(x)
    decreases |options|
  {
    if options != [] {
      ReportableKeepsExactlyInStore(options[1..], x);
      assert options == [options[0]] + options[1..];
    }
  }

  /** One Found line per option, in order. */
  function FoundLines(options: seq<StockOption>, store: Store, state: string): seq<Line>
    requires forall k :: 0 <= k < |options| ==> InStoreStock(options[k])
    decreases |options|
  {
    if options == [] then []
    else [FoundLine(options[0], store, state)] + FoundLines(options[1..], store, state)
  }

  /** Position by position, the Found lines are those of the options. */
  lemma {:induction false} FoundLinesAt(options: seq<StockOption>, store: Store, state: string)
    requires forall k :: 0 <= k < |options| ==> InStoreStock(options[k])
    ensures var r := FoundLines(options, store, state);
      |r| == |options| && forall k :: 0 <= k < |r| ==> r[k] == FoundLine(options[k], store, state)
    decreases |options|
  {
    if options != [] {
      FoundLinesAt(options[1..], store, state);
      assert forall k :: 1 <= k < |options| ==> options[k] == options[1..][k - 1];
    }
  }

  /** The store answered, but reading it raised inside the `try`. */
  predicate Fails(answer: Availability)
  {
    answer.Malformed? || (answer.Options? && FirstRaise(answer.options) < |answer.options|)
  }

  lemma ReportableCons(head: StockOption, rest: seq<StockOption>)
    ensures Reportable([head] + rest) == (if InStoreStock(head) then [head] else []) + Reportable(rest)
  {
    assert ([head] + rest)[0] == head && ([head] + rest)[1..] == rest;
  }

  lemma FoundLinesCons(head: StockOption, rest: seq<StockOption>, store: Store, state: string)
    requires InStoreStock(head) && forall k :: 0 <= k < |rest| ==> InStoreStock(rest[k])
    ensures FoundLines([head] + rest, store, state) == [FoundLine(head, store, state)] + FoundLines(rest, store, state)
  {
    assert ([head] + rest)[0] == head && ([head] + rest)[1..] == rest;
  }

  /** The Found lines are exactly those of the reported options before the first option that
      raises, in option order; the error line, if any, comes after them. */
  lemma {:induction false} OptionReportShape(options: seq<StockOption>, store: Store, state: string)
    ensures var k := FirstRaise(options);
      OptionReport(options, store, state)
      == FoundLines(Reportable(options[..k]), store, state)
         + (if k < |options| then [AvailabilityError(store.storeName)] else [])
    decreases |options|
  {
    if options != [] {
      var head, rest := options[0], options[1..];
      if Raises(head) {
        assert FirstRaise(options) == 0 && options[..0] == [];
        assert FoundLines(Reportable([]), store, state) == [];
      } else {
        OptionReportShape(rest, store, state);
        var k := FirstRaise(rest);
        var error := if k < |rest| then [AvailabilityError(store.storeName)] else [];
        var reported := Reportable(rest[..k]);
        var found := FoundLines(reported, store, state);
        assert FirstRaise(options) == k + 1 && (k + 1 < |options| <==> k < |rest|);
        assert options[..k + 1] == [head] + rest[..k];
        ReportableCons(head, rest[..k]);
        if InStoreStock(head) {
          FoundLinesCons(head, reported, store, state);
          var line := [FoundLine(head, store, state)];
          assert FoundLines(Reportable(options[..k + 1]), store, state) == line + found;
          assert OptionReport(options, store, state) == line + (found + error);
          assert line + (found + error) == (line + found) + error;
        } else {
          assert Reportable(options[..k + 1]) == reported;
        }
      }
    }
  }

  /** A store's report is a run of Found lines for that store, in the format `state` asks
      for, followed by exactly one error line when reading its answer raised, and by nothing
      otherwise. */
  lemma StoreReportShape(store: Store, answer: Availability, state: string)
    requires !answer.AvailabilityUnreadable?
    ensures var r := Report(store, answer, state);
      && (Fails(answer) <==> r != [] && r[|r| - 1] == AvailabilityError(store.storeName))
      && forall k :: 0 <= k < |r| - (if Fails(answer) then 1 else 0) ==>
           r[k].Found? && r[k].qty > 0 && r[k].storeName == store.storeName
           && r[k].region == (if state == All then Some(store.storeState) else None)
  {
    if answer.Options? {
      var options := answer.options;
      OptionReportShape(options, store, state);
      FoundLinesAt(Reportable(options[..FirstRaise(options)]), store, state);
    }
  }

  /** The loop over one store's options, inside the `try`: an option that raises ends the
      store with its error line, after the Found lines already printed. */
  method ReportStore(store: Store, answer: Availability, state: string) returns (lines: seq<Line>)
    requires !answer.AvailabilityUnreadable?
    ensures lines == Report(store, answer, state)
  {
    lines := [];
    match answer {
      case Malformed =>
        lines := [AvailabilityError(store.storeName)];
      case NoOptions =>
      case Options(options) =>
        var i := 0;
        while i < |options|
          invariant 0 <= i <= |options|
          invariant lines + OptionReport(options[i..], store, state) == OptionReport(options, store, state)
        {
          var option := options[i];
          assert options[i..][0] == option && options[i..][1..] == options[i + 1..];
          if Raises(option) {
            lines := lines + [AvailabilityError(store.storeName)];
            return;
          }
          if InStoreStock(option) {
            lines := lines + [FoundLine(option, store, state)];
          }
          i := i + 1;
        }
        assert options[i..] == [];
    }
  }
}
