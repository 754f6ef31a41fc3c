/** The normalised product record every source is turned into, and its identity key. */
module Products {

  datatype Status = Available | SoldOut

  /** `Product`; every producer sets `priceJPY`, possibly to the empty string. */
  datatype Product = Product(name: string, url: string, status: Status, priceJPY: string)

  /** The status as the summary prints it. */
  function StatusWord(s: Status): string
  {
    if s == Available then "available" else "sold out"
  }

  /** The dedup key `${p.url}|${p.name}`: a string, not the pair. */
  function Key(p: Product): string
  {
    p.url + "|" + p.name
  }

  /** Two records with different urls and names can share a key through a `|`, and are then merged. */
  lemma KeyCollision()
    ensures var p := Product("b", "u|a", Available, "");
            var q := Product("a|b", "u", SoldOut, "");
            p.url != q.url && p.name != q.name && Key(p) == Key(q)
  {
    assert "u|a" + "|" + "b" == "u|a|b";
    assert "u" + "|" + "a|b" == "u|a|b";
  }

  /** `products.some((p) => p.status === "available")`. */
  predicate AnyAvailable(ps: seq<Product>)
  {
    exists k :: 0 <= k < |ps| && ps[k].status == Available
  }

  /** `products.filter((p) => p.status === "available").length`. */
  function CountAvailable(ps: seq<Product>): (n: nat)
    ensures n <= |ps|
    ensures n > 0 <==> AnyAvailable(ps)
  {
    if ps == [] then 0
    else
      var n := CountAvailable(ps[1..]);
      assert AnyAvailable(ps[1..]) ==> AnyAvailable(ps) by {
        if AnyAvailable(ps[1..]) {
          var k :| 0 <= k < |ps[1..]| && ps[1..][k].status == Available;
          assert ps[k + 1].status == Available;
        }
      }
      (if ps[0].status == Available then 1 else 0) + n
  }

  /** The number of records whose status is sold out. */
  function CountSoldOut(ps: seq<Product>): nat
  {
    if ps == [] then 0 else (if ps[0].status == SoldOut then 1 else 0) + CountSoldOut(ps[1..])
  }

  /** The summary's `total - availableCount` is the number of sold-out records. */
  lemma {:induction false} CountsPartition(ps: seq<Product>)
    ensures CountAvailable(ps) + CountSoldOut(ps) == |ps|
  {
    if ps != [] {
      CountsPartition(ps[1..]);
    }
  }
}
