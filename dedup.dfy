/**
 * Deduplication by key, keeping the first record of each key
 * (scraper.ts at the end of `scrapeAllProducts`, and the same loop in the
 * scheduler's first branch).
 */
module Deduplication {
  import opened Wrappers
  import opened Products

  function KeysOf(ps: seq<Product>): set<string>
  {
    set p | p in ps :: Key(p)
  }

  /** The first record of `ps` with the given key, if any. */
  function FirstWithKey(ps: seq<Product>, key: string): (f: Option<Product>)
    ensures f.Some? <==> key in KeysOf(ps)
    ensures f.Some? ==> Key(f.value) == key && f.value in ps
    ensures f.Some? ==> exists i :: 0 <= i < |ps| && ps[i] == f.value && NoKeyBefore(ps, key, i)
  {
    if ps == [] then None
    else
      var init := ps[..|ps| - 1];
      var last := ps[|ps| - 1];
      assert ps == init + [last];
      var f := FirstWithKey(init, key);
      if f.Some? then
        assert forall i :: 0 <= i < |init| && NoKeyBefore(init, key, i) ==> NoKeyBefore(ps, key, i);
        f
      else if Key(last) == key then
        assert NoKeyBefore(ps, key, |ps| - 1) by {
          forall j | 0 <= j < |ps| - 1 ensures Key(ps[j]) != key {
            assert ps[j] == init[j] && ps[j] in init;
          }
        }
        Some(last)
      else None
  }

  /** No record before position `i` has the key. */
  predicate NoKeyBefore(ps: seq<Product>, key: string, i: nat)
    requires i <= |ps|
  {
    forall j :: 0 <= j < i ==> Key(ps[j]) != key
  }

  /** The reference definition: a record is kept when no earlier record has its key. */
  function Dedup(ps: seq<Product>): seq<Product>
  {
    if ps == [] then []
    else
      var init := ps[..|ps| - 1];
      var last := ps[|ps| - 1];
      if Key(last) in KeysOf(init) then Dedup(init) else Dedup(init) + [last]
  }

  predicate DistinctKeys(ps: seq<Product>)
  {
    forall i, j :: 0 <= i < j < |ps| ==> Key(ps[i]) != Key(ps[j])
  }

  ghost predicate IsSubsequence(xs: seq<Product>, ys: seq<Product>)
  {
    if ys == [] then xs == []
    else
      IsSubsequence(xs, ys[..|ys| - 1])
      || (xs != [] && xs[|xs| - 1] == ys[|ys| - 1] && IsSubsequence(xs[..|xs| - 1], ys[..|ys| - 1]))
  }

  /**
   * The loop over `allProducts` with a `seen` set of keys and a `unique`
   * array: it computes the reference definition.
   */
  method DedupByKey(all: seq<Product>) returns (unique: seq<Product>)
    ensures unique == Dedup(all)
  {
    var seen: set<string> := {};
    unique := [];
    for i := 0 to |all|
      invariant seen == KeysOf(all[..i])
      invariant unique == Dedup(all[..i])
    {
      assert all[..i + 1][..i] == all[..i];
      assert KeysOf(all[..i + 1]) == KeysOf(all[..i]) + {Key(all[i])} by {
        assert all[..i + 1] == all[..i] + [all[i]];
      }
      var key := all[i].url + "|" + all[i].name;
      if key in seen {
        continue;
      }
      seen := seen + {key};
      unique := unique + [all[i]];
    }
    assert all[..|all|] == all;
  }

  /** Every key of the input survives, and no other key appears. */
  lemma {:induction false} DedupKeys(ps: seq<Product>)
    ensures KeysOf(Dedup(ps)) == KeysOf(ps)
  {
    if ps != [] {
      var init := ps[..|ps| - 1];
      var last := ps[|ps| - 1];
      assert ps == init + [last];
      DedupKeys(init);
      assert KeysOf(ps) == KeysOf(init) + {Key(last)};
      if Key(last) !in KeysOf(init) {
        assert KeysOf(Dedup(init) + [last]) == KeysOf(Dedup(init)) + {Key(last)};
      }
    }
  }

  /** No two records of the output share a key. */
  lemma {:induction false} DedupDistinct(ps: seq<Product>)
    ensures DistinctKeys(Dedup(ps))
  {
    if ps != [] {
      var init := ps[..|ps| - 1];
      var last := ps[|ps| - 1];
      DedupDistinct(init);
      DedupKeys(init);
      var d := Dedup(init);
      if Key(last) !in KeysOf(init) {
        forall i | 0 <= i < |d| ensures Key(d[i]) != Key(last) {
          assert d[i] in d;
        }
      }
    }
  }

  /** Each output record is the first input record with its key. */
  lemma {:induction false} DedupKeepsFirst(ps: seq<Product>)
    ensures forall i :: 0 <= i < |Dedup(ps)| ==> FirstWithKey(ps, Key(Dedup(ps)[i])) == Some(Dedup(ps)[i])
  {
    if ps != [] {
      var init := ps[..|ps| - 1];
      var last := ps[|ps| - 1];
      DedupKeepsFirst(init);
      DedupKeys(init);
      var d := Dedup(init);
      forall i | 0 <= i < |d| ensures FirstWithKey(ps, Key(d[i])) == Some(d[i]) {
        assert d[i] in d;
        assert Key(d[i]) in KeysOf(init);
      }
    }
  }

  /** The output keeps input order: it is a subsequence of the input. */
  lemma {:induction false} DedupSubsequence(ps: seq<Product>)
    ensures IsSubsequence(Dedup(ps), ps)
  {
    if ps != [] {
      var init := ps[..|ps| - 1];
      var last := ps[|ps| - 1];
      DedupSubsequence(init);
      var d := Dedup(init);
      if Key(last) !in KeysOf(init) {
        assert (d + [last])[..|d|] == d;
      }
    }
  }

  /** A list whose keys are already distinct is left as it is. */
  lemma {:induction false} DedupOfDistinct(ps: seq<Product>)
    requires DistinctKeys(ps)
    ensures Dedup(ps) == ps
  {
    if ps != [] {
      var init := ps[..|ps| - 1];
      var last := ps[|ps| - 1];
      assert DistinctKeys(init);
      DedupOfDistinct(init);
      assert init + [last] == ps;
    }
  }

  /** Deduplicating twice is deduplicating once. */
  lemma DedupIdempotent(ps: seq<Product>)
    ensures Dedup(Dedup(ps)) == Dedup(ps)
  {
    DedupDistinct(ps);
    DedupOfDistinct(Dedup(ps));
  }

  /** Deduplication cannot make a record available that was not: each output record comes from the input. */
  lemma DedupNoneAvailable(ps: seq<Product>)
    requires !AnyAvailable(ps)
    ensures !AnyAvailable(Dedup(ps))
  {
    DedupKeepsFirst(ps);
    var d := Dedup(ps);
    forall k | 0 <= k < |d| ensures d[k].status != Available {
      assert FirstWithKey(ps, Key(d[k])) == Some(d[k]);
      var j :| 0 <= j < |ps| && ps[j] == d[k];
    }
  }

  /** The example of two records for one product: the first one is kept. */
  lemma FirstOfTwoKept()
    ensures var a := Product("Aoi", "/a", Available, "");
            var b := Product("Aoi", "/a", SoldOut, "");
            Dedup([a, b]) == [a]
  {
    var a := Product("Aoi", "/a", Available, "");
    var b := Product("Aoi", "/a", SoldOut, "");
    assert [a, b][..1] == [a] && [a][..0] == [];
    assert KeysOf([]) == {};
    assert KeysOf([a]) == {Key(a)} && Key(b) == Key(a);
    assert Dedup([a]) == [a];
  }
}
