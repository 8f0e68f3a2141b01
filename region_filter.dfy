/** The region filter: which of the fetched stores the run goes on to probe. */
module RegionFilter {
  import opened StockTypes

  /** `sub` is `s` with some elements left out and the rest kept in order. */
  predicate IsSubsequence<T(==)>(sub: seq<T>, s: seq<T>)
    decreases |s|
  {
    sub == []
    || (s != [] && ((sub[0] == s[0] && IsSubsequence(sub[1..], s[1..])) || IsSubsequence(sub, s[1..])))
  }

  /** The stores whose `storeState` equals `state`, in directory order. */
  function InState(stores: seq<Store>, state: string): (r: seq<Store>)
    ensures |r| <= |stores|
    ensures forall k :: 0 <= k < |r| ==> r[k].storeState == state
    decreases |stores|
  {
    if stores == [] then []
    else (if stores[0].storeState == state then [stores[0]] else []) + InState(stores[1..], state)
  }

  /** The stores the run checks: all of them for "all", otherwise those in `state`. */
  function Filtered(stores: seq<Store>, state: string): (r: seq<Store>)
    ensures |r| <= |stores|
    ensures state != All ==> forall k :: 0 <= k < |r| ==> r[k].storeState == state
  {
    if state == All then stores else InState(stores, state)
  }

  /** Positions in the directory of the stores in `state`. */
  function MatchingPositions(stores: seq<Store>, state: string): set<nat>
  {
    set k: nat | k < |stores| && stores[k].storeState == state
  }

  /** Every store of the requested state is kept, as often as it occurs in the directory,
      and no store of another state. */
  lemma {:induction false} InStateKeepsExactlyMatches(stores: seq<Store>, state: string, s: Store)
    ensures multiset(InState(stores, state))[s] == if s.storeState == state then multiset(stores)[s] else 0
    decreases |stores|
  {
    if stores != [] {
      assert stores == [stores[0]] + stores[1..];
      InStateKeepsExactlyMatches(stores[1..], state, s);
    }
  }

  /** Filtering a concatenation filters each part. */
  lemma {:induction false} InStateAppend(a: seq<Store>, b: seq<Store>, state: string)
    ensures InState(a + b, state) == InState(a, state) + InState(b, state)
    decreases |a|
  {
    if a == [] {
      assert a + b == b;
    } else {
      assert (a + b)[0] == a[0] && (a + b)[1..] == a[1..] + b;
      InStateAppend(a[1..], b, state);
    }
  }

  /** The filter keeps directory order: its result is a subsequence of the directory. */
  lemma {:induction false} InStateIsSubsequence(stores: seq<Store>, state: string)
    ensures IsSubsequence(InState(stores, state), stores)
    decreases |stores|
  {
    if stores != [] {
      InStateIsSubsequence(stores[1..], state);
      var r := InState(stores, state);
      if stores[0].storeState == state {
        assert r[0] == stores[0] && r[1..] == InState(stores[1..], state);
      } else {
        assert r == InState(stores[1..], state);
      }
    }
  }

  lemma {:induction false} SubsequenceOfItself<T>(s: seq<T>)
    ensures IsSubsequence(s, s)
    decreases |s|
  {
    if s != [] {
      SubsequenceOfItself(s[1..]);
    }
  }

  /** The stores checked keep directory order; for "all" they are the directory unchanged,
      otherwise exactly its stores in `state`. */
  lemma FilteredKeepsOrder(stores: seq<Store>, state: string)
    ensures IsSubsequence(Filtered(stores, state), stores)
    ensures state == All ==> Filtered(stores, state) == stores
    ensures state != All ==> forall s :: s in Filtered(stores, state) <==> s in stores && s.storeState == state
  {
    if state == All {
      SubsequenceOfItself(stores);
    } else {
      InStateIsSubsequence(stores, state);
      forall s
        ensures s in Filtered(stores, state) <==> s in stores && s.storeState == state
      {
        InStateKeepsExactlyMatches(stores, state, s);
        assert s in InState(stores, state) <==> s in multiset(InState(stores, state));
        assert s in stores <==> s in multiset(stores);
      }
    }
  }

  /** "Checking N stores" counts exactly the directory entries in the requested state. */
  lemma {:induction false} InStateCount(stores: seq<Store>, state: string)
    ensures |InState(stores, state)| == |MatchingPositions(stores, state)|
    decreases |stores|
  {
    if stores != [] {
      var n := |stores| - 1;
      var init := stores[..n];
      assert stores == init + [stores[n]];
      InStateAppend(init, [stores[n]], state);
      InStateCount(init, state);
      assert [stores[n]][1..] == [];
      var before := MatchingPositions(init, state);
      if stores[n].storeState == state {
        assert MatchingPositions(stores, state) == before + {n};
        assert n !in before;
      } else {
        assert MatchingPositions(stores, state) == before;
      }
    }
  }

  /** The filter loop: builds the list by appending each matching store, or takes the
      fetched list as it is for "all". */
  method FilterStores(stores: seq<Store>, state: string) returns (filtered: seq<Store>)
    ensures filtered == Filtered(stores, state)
  {
    filtered := [];
    if state != All {
      for i := 0 to |stores|
        invariant filtered + InState(stores[i..], state) == InState(stores, state)
      {
        assert stores[i..][0] == stores[i] && stores[i..][1..] == stores[i + 1..];
        if stores[i].storeState == state {
          filtered := filtered + [stores[i]];
        }
      }
      assert stores[|stores|..] == [];
    } else {
      filtered := stores;
    }
  }
}
