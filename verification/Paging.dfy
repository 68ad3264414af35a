/** Reading a dataset page by page (src/hw_radar/acquisition/apify/client.py:540-563). */
module Paging {
  import opened Prelude

  function CeilDiv(n: nat, d: nat): nat
    requires d > 0
  {
    if n % d == 0 then n / d else n / d + 1
  }

  /** One page of a dataset that does not change while it is read. */
  function Page<T>(dataset: seq<T>, offset: nat, limit: nat): seq<T> {
    if offset >= |dataset| then [] else dataset[offset..Min(offset + limit, |dataset|)]
  }

  /** Whether the reader stops after a page: empty, short, or the reported total is reached. */
  predicate Last(pageLength: nat, pageSize: nat, offsetAfter: nat, total: Option<nat>) {
    pageLength == 0 || pageLength < pageSize || (total.Some? && offsetAfter >= total.value)
  }

  lemma ProductsOrdered(a: int, b: int, d: nat)
    ensures a <= b ==> a * d <= b * d
  {
    if a <= b { assert (b - a) * d >= 0; }
  }

  lemma QuotientAtLeast(n: nat, d: nat, q: nat)
    requires d > 0 && q * d <= n
    ensures q <= n / d
  {
    var k := n / d;
    assert n < (k + 1) * d;
    ProductsOrdered(k + 1, q, d);
  }

  lemma QuotientIs(n: nat, d: nat, q: nat)
    requires d > 0 && q * d <= n < q * d + d
    ensures n / d == q
  {
    QuotientAtLeast(n, d, q);
    var k := n / d;
    assert k * d <= n;
    assert q * d + d == (q + 1) * d;
    ProductsOrdered(q + 1, k, d);
  }

  /**
   * Pages are requested at consecutive offsets; `reported(offset)` is the total header of the page
   * at that offset. Whatever the headers say, what comes out is a prefix of the dataset in at most
   * ceil(n/limit) + 1 requests. Unless a header understates the total, it is the whole dataset, every
   * item once and in order; and with no headers the last request is the short or empty page.
   */
  method IterDatasetItems<T>(dataset: seq<T>, pageSize: nat, reported: nat -> Option<nat>)
    returns (items: seq<T>, requests: nat)
    requires pageSize > 0
    ensures items <= dataset
    ensures 1 <= requests <= CeilDiv(|dataset|, pageSize) + 1
    ensures (forall o :: reported(o).None? || reported(o).value >= |dataset|) ==> items == dataset
    ensures (forall o :: reported(o).None?) ==> requests == |dataset| / pageSize + 1
    ensures (forall o :: reported(o) == Some(|dataset|)) ==> requests == Max(1, CeilDiv(|dataset|, pageSize))
  {
    var offset: nat := 0;
    items, requests := [], 0;
    while true
      invariant offset == requests * pageSize <= |dataset| && items == dataset[..offset]
      invariant requests > 0 && reported((requests - 1) * pageSize).Some? ==>
                  offset < reported((requests - 1) * pageSize).value
      decreases |dataset| - offset
    {
      var page := Page(dataset, offset, pageSize);
      var total := reported(offset);
      NextPage(dataset, offset, pageSize);
      items := items + page;
      requests := requests + 1;
      offset := offset + |page|;
      if Last(|page|, pageSize, offset, total) {
        RequestsCounted(|dataset|, pageSize, requests, |page| < pageSize);
        return;
      }
    }
  }

  lemma NextPage<T>(dataset: seq<T>, offset: nat, limit: nat)
    requires offset <= |dataset|
    ensures var page := Page(dataset, offset, limit);
            && dataset[..offset] + page == dataset[..offset + |page|]
            && |page| <= limit && (|page| < limit ==> offset + |page| == |dataset|)
            && (offset + |page| == |dataset| ==> dataset[..offset + |page|] == dataset)
  {
  }

  /** How many requests were made by the time a short page came, or a full one reached the reported total. */
  lemma RequestsCounted(n: nat, d: nat, requests: nat, short: bool)
    requires d > 0 && requests > 0
    requires if short then (requests - 1) * d <= n < (requests - 1) * d + d else (requests - 1) * d + d <= n
    ensures requests <= CeilDiv(n, d) + 1
    ensures short ==> requests == n / d + 1 && (requests == CeilDiv(n, d) || n == (requests - 1) * d)
    ensures !short ==> requests <= n / d && (n == (requests - 1) * d + d ==> requests == n / d == CeilDiv(n, d))
  {
    if short {
      CeilOf(n, d, requests - 1);
      QuotientIs(n, d, requests - 1);
    } else {
      assert (requests - 1) * d + d == requests * d;
      QuotientAtLeast(n, d, requests);
      if n == requests * d {
        QuotientIs(n, d, requests);
        CeilOf(n, d, requests);
      }
    }
  }

  lemma CeilOf(n: nat, d: nat, q: nat)
    requires d > 0 && q * d <= n < q * d + d
    ensures CeilDiv(n, d) == if n == q * d then q else q + 1
  {
    QuotientIs(n, d, q);
    assert n == n / d * d + n % d;
  }
}
