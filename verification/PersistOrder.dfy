/**
 * Why persisting a batch in lock order is the simple left-to-right loop: a record only ever touches
 * the row of its own key (src/hw_radar/acquisition/stages.py:248-305).
 */
module PersistOrder {
  import opened Prelude
  import opened Contracts
  import opened Persist
  import opened Stages

  /** The records of one key, in batch order. */
  function Only(records: seq<Record>, k: Key): (r: seq<Record>)
    ensures |r| <= |records|
  {
    if records == [] then []
    else
      var front, last := records[..|records| - 1], records[|records| - 1];
      if last.key == k then Only(front, k) + [last] else Only(front, k)
  }

  /** One row after its own records. */
  function RowFold(m: Marks, existing: Option<Listing>, records: seq<Record>, s: Stamp): Option<Listing> {
    if records == [] then existing
    else Some(ObserveRow(m, RowFold(m, existing, records[..|records| - 1], s), records[|records| - 1], s))
  }

  lemma RowFoldSnoc(m: Marks, existing: Option<Listing>, records: seq<Record>, r: Record, s: Stamp)
    ensures RowFold(m, existing, records + [r], s)
            == Some(ObserveRow(m, RowFold(m, existing, records, s), r, s))
  {
    assert (records + [r])[..|records|] == records;
  }

  lemma OnlySnoc(records: seq<Record>, i: nat, k: Key)
    requires i < |records|
    ensures Only(records[..i + 1], k)
            == if records[i].key == k then Only(records[..i], k) + [records[i]] else Only(records[..i], k)
  {
    assert records[..i + 1][..i] == records[..i];
  }

  /** A batch decomposes key by key: each row depends on its own records alone. */
  lemma {:induction false} PersistBatchRow(db: Database, records: seq<Record>, s: Stamp, k: Key)
    ensures Lookup(PersistBatch(db, records, s).listings, k)
            == RowFold(db.marks, Lookup(db.listings, k), Only(records, k), s)
  {
    if records != [] {
      var front, last := records[..|records| - 1], records[|records| - 1];
      PersistBatchRow(db, front, s, k);
      if last.key == k {
        RowFoldSnoc(db.marks, Lookup(db.listings, k), Only(front, k), last, s);
      }
    }
  }

  lemma SameRowsSameListings(a: map<Key, Listing>, b: map<Key, Listing>)
    requires forall k :: Lookup(a, k) == Lookup(b, k)
    ensures a == b
  {
    assert forall k :: k in a <==> k in b by {
      forall k ensures k in a <==> k in b {
        assert Lookup(a, k) == Lookup(b, k);
      }
    }
    forall k | k in a ensures a[k] == b[k] {
      assert Lookup(a, k) == Lookup(b, k);
    }
  }

  // ── Counting snapshots ────────────────────────────────────────────────────

  /** Every snapshot held, named by its listing and its place in that listing's history. */
  function Places(listings: map<Key, Listing>): set<(Key, nat)> {
    set k, i: nat | k in listings && i < |listings[k].history| :: (k, i)
  }

  function HistorySize(listings: map<Key, Listing>, k: Key): nat {
    if k in listings then |listings[k].history| else 0
  }

  lemma PlacesAfterWrite(listings: map<Key, Listing>, k: Key, l: Listing)
    requires HistorySize(listings, k) <= |l.history| <= HistorySize(listings, k) + 1
    ensures |Places(listings[k := l])|
            == |Places(listings)| + (|l.history| - HistorySize(listings, k))
  {
    var n, after := HistorySize(listings, k), listings[k := l];
    var grown := if |l.history| > n then {(k, n)} else {};
    forall p | p in Places(after) ensures p in Places(listings) + grown {
      var (x, i) := p;
      assert x != k ==> after[x] == listings[x];
    }
    forall p | p in Places(listings) + grown ensures p in Places(after) {
      var (x, i) := p;
      assert x != k ==> after[x] == listings[x];
    }
    assert Places(after) == Places(listings) + grown;
  }

  // ── Sequences without repeats ─────────────────────────────────────────────

  ghost predicate Distinct<T>(s: seq<T>) {
    forall i, j :: 0 <= i < j < |s| ==> s[i] != s[j]
  }

  lemma {:induction false} DistinctCountsOnce<T>(s: seq<T>, x: T)
    requires Distinct(s)
    ensures multiset(s)[x] <= 1
  {
    if s != [] {
      var front, last := s[..|s| - 1], s[|s| - 1];
      assert s == front + [last];
      DistinctCountsOnce(front, x);
      if x == last {
        assert x !in front;
        assert multiset(front)[x] == 0;
      }
    }
  }

  lemma RepeatCountsTwice<T>(s: seq<T>, i: nat, j: nat)
    requires i < j < |s| && s[i] == s[j]
    ensures multiset(s)[s[i]] >= 2
  {
    assert s == s[..j] + [s[j]] + s[j + 1..];
    assert s[i] in s[..j];
  }

  lemma PermutationKeepsDistinct<T>(a: seq<T>, b: seq<T>)
    requires Distinct(a) && multiset(a) == multiset(b)
    ensures Distinct(b)
  {
    forall i, j | 0 <= i < j < |b| ensures b[i] != b[j] {
      if b[i] == b[j] {
        RepeatCountsTwice(b, i, j);
        DistinctCountsOnce(a, b[i]);
      }
    }
  }
}
