/** The product resolver: which name the run prints for the requested product code. */
module ProductLookup {
  import opened StockTypes

  /** The name of the first product whose part number equals `productId` exactly
      (no normalisation), or `None` when no product matches. */
  function FirstMatch(products: seq<Product>, productId: string): (r: Option<string>)
    ensures r.None? <==> forall i :: 0 <= i < |products| ==> products[i].partNumber != productId
    ensures r.Some? ==>
      exists i :: 0 <= i < |products| && products[i].partNumber == productId && products[i].name == r.value
        && forall j :: 0 <= j < i ==> products[j].partNumber != productId
    decreases |products|
  {
    if products == [] then None
    else if products[0].partNumber == productId then Some(products[0].name)
    else
      var r := FirstMatch(products[1..], productId);
      assert forall i :: 1 <= i < |products| ==> products[i] == products[1..][i - 1];
      r
  }

  /** The first product whose part number matches is the one whose name is taken. */
  lemma {:induction false} FirstMatchAt(products: seq<Product>, productId: string, i: nat)
    requires i < |products| && products[i].partNumber == productId
    requires forall j :: 0 <= j < i ==> products[j].partNumber != productId
    ensures FirstMatch(products, productId) == Some(products[i].name)
    decreases i
  {
    if i > 0 {
      assert forall j :: 0 <= j < i - 1 ==> products[1..][j] == products[j + 1];
      FirstMatchAt(products[1..], productId, i - 1);
    }
  }

  /** The scan over the search results: stop at the first exact part-number match. */
  method FindProductName(products: seq<Product>, productId: string) returns (productName: Option<string>)
    ensures productName == FirstMatch(products, productId)
  {
    productName := None;
    var i := 0;
    while i < |products|
      invariant 0 <= i <= |products|
      invariant FirstMatch(products[i..], productId) == FirstMatch(products, productId)
    {
      assert products[i..][0] == products[i] && products[i..][1..] == products[i + 1..];
      if productId == products[i].partNumber {
        productName := Some(products[i].name);
        break;
      }
      i := i + 1;
    }
  }
}
