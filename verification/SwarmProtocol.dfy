/** The sliding-window duplicate suppressor, and which arrivals it lets through. */
module SwarmProtocol {
  import opened Basics

  const DEFAULT_WINDOW: nat := 256

  /** How many identifiers are remembered. A window of zero still remembers one: the eviction
      finds nothing to evict and the new identifier is stored all the same. */
  function Capacity(window: nat): nat {
    if window == 0 then 1 else window
  }

  function Latest(ids: seq<string>, n: nat): seq<string> {
    if |ids| <= n then ids else ids[|ids| - n..]
  }

  /** The arrivals that are not suppressed. */
  function Accepted(window: nat, ids: seq<string>): (r: seq<string>)
    ensures |r| <= |ids|
  {
    if ids == [] then []
    else
      var before, id := Accepted(window, ids[..|ids| - 1]), ids[|ids| - 1];
      if id in Latest(before, Capacity(window)) then before else before + [id]
  }

  predicate Suppressed(window: nat, ids: seq<string>, j: nat)
    requires j < |ids|
  {
    ids[j] in Latest(Accepted(window, ids[..j]), Capacity(window))
  }

  lemma AcceptedSnoc(window: nat, ids: seq<string>, id: string)
    ensures var before := Accepted(window, ids);
            Accepted(window, ids + [id]) == if id in Latest(before, Capacity(window)) then before else before + [id]
  {
    assert (ids + [id])[..|ids|] == ids;
  }

  lemma LatestAt(ids: seq<string>, n: nat, id: string) returns (k: nat)
    requires id in Latest(ids, n)
    ensures k < |ids| && |ids| - n <= k && ids[k] == id
  {
    var tail := Latest(ids, n);
    var i :| 0 <= i < |tail| && tail[i] == id;
    k := |ids| - |tail| + i;
  }

  lemma AtLatest(ids: seq<string>, n: nat, k: nat)
    requires k < |ids| && |ids| - n <= k
    ensures ids[k] in Latest(ids, n)
  {
    var tail := Latest(ids, n);
    assert tail[k - (|ids| - |tail|)] == ids[k];
  }

  /** Within the window nothing is let through twice: two accepted arrivals of the same
      identifier have at least a window of other accepted ones between them. */
  lemma {:induction false} AcceptedSpacedOut(window: nat, ids: seq<string>, i: nat, j: nat)
    requires i < j < |Accepted(window, ids)| && j - i <= Capacity(window)
    ensures Accepted(window, ids)[i] != Accepted(window, ids)[j]
  {
    var init := ids[..|ids| - 1];
    var before := Accepted(window, init);
    if j < |before| {
      AcceptedSpacedOut(window, init, i, j);
    } else {
      AtLatest(before, Capacity(window), i);
    }
  }

  lemma {:induction false} AcceptedGrows(window: nat, ids: seq<string>, i: nat)
    requires i <= |ids|
    ensures Accepted(window, ids[..i]) <= Accepted(window, ids)
  {
    if i < |ids| {
      var init := ids[..|ids| - 1];
      AcceptedGrows(window, init, i);
      assert init[..i] == ids[..i];
    } else {
      assert ids[..i] == ids;
    }
  }

  lemma AcceptedAt(window: nat, ids: seq<string>, i: nat)
    requires i < |ids| && !Suppressed(window, ids, i)
    ensures var k := |Accepted(window, ids[..i])|;
            && |Accepted(window, ids[..i + 1])| == k + 1
            && k < |Accepted(window, ids)| && Accepted(window, ids)[k] == ids[i]
  {
    assert ids[..i + 1] == ids[..i] + [ids[i]];
    AcceptedSnoc(window, ids[..i], ids[i]);
    AcceptedGrows(window, ids, i + 1);
  }

  lemma SuppressedPrefix(window: nat, ids: seq<string>, j: nat, i: nat)
    requires i < j <= |ids|
    ensures ids[..j][..i] == ids[..i] && ids[..j][i] == ids[i]
    ensures Suppressed(window, ids[..j], i) <==> Suppressed(window, ids, i)
  {
    assert ids[..j][..i] == ids[..i];
  }

  /** Arrival `i` is the one that was let through as number `k`. */
  predicate CameAs(window: nat, ids: seq<string>, i: nat, k: nat, id: string) {
    i < |ids| && ids[i] == id && !Suppressed(window, ids, i) && |Accepted(window, ids[..i])| == k
  }

  lemma CameAsLonger(window: nat, ids: seq<string>, n: nat, i: nat, k: nat, id: string)
    requires n <= |ids| && CameAs(window, ids[..n], i, k, id)
    ensures CameAs(window, ids, i, k, id)
  {
    SuppressedPrefix(window, ids, n, i);
  }

  /** The last arrival either is let through, as the newest, or leaves everything as it was. */
  lemma LastArrival(window: nat, ids: seq<string>)
    requires ids != []
    ensures var n := |ids| - 1;
            var before := Accepted(window, ids[..n]);
            Accepted(window, ids) == if Suppressed(window, ids, n) then before else before + [ids[n]]
  {
  }

  /** Every accepted identifier goes back to the arrival that was let through. */
  lemma {:induction false} AcceptedFrom(window: nat, ids: seq<string>, k: nat) returns (i: nat)
    requires k < |Accepted(window, ids)|
    ensures CameAs(window, ids, i, k, Accepted(window, ids)[k])
  {
    var n := |ids| - 1;
    LastArrival(window, ids);
    if k < |Accepted(window, ids[..n])| {
      i := AcceptedFrom(window, ids[..n], k);
      CameAsLonger(window, ids, n, i, k, Accepted(window, ids)[k]);
    } else {
      i := n;
    }
  }

  /** Arrival `i` was let through, has the same identifier as arrival `j`, and fewer than a
      window of others were let through since. */
  predicate StillRemembered(window: nat, ids: seq<string>, i: nat, j: nat) {
    && i < j < |ids| && ids[i] == ids[j] && !Suppressed(window, ids, i)
    && |Accepted(window, ids[..j])| - |Accepted(window, ids[..i])| <= Capacity(window)
  }

  lemma RememberedFrom(window: nat, ids: seq<string>, j: nat) returns (i: nat)
    requires j < |ids| && Suppressed(window, ids, j)
    ensures StillRemembered(window, ids, i, j)
  {
    var k := LatestAt(Accepted(window, ids[..j]), Capacity(window), ids[j]);
    i := AcceptedFrom(window, ids[..j], k);
    CameAsLonger(window, ids, j, i, k, ids[j]);
  }

  lemma RememberedSuppresses(window: nat, ids: seq<string>, i: nat, j: nat)
    requires StillRemembered(window, ids, i, j)
    ensures Suppressed(window, ids, j)
  {
    SuppressedPrefix(window, ids, j, i);
    AcceptedAt(window, ids[..j], i);
    AtLatest(Accepted(window, ids[..j]), Capacity(window), |Accepted(window, ids[..i])|);
  }

  /** An arrival is suppressed exactly when the same identifier was let through before, with
      fewer than a window of others let through in between. A suppressed arrival does not
      renew the memory. */
  lemma SuppressedExactly(window: nat, ids: seq<string>, j: nat)
    requires j < |ids|
    ensures Suppressed(window, ids, j) <==> exists i: nat :: StillRemembered(window, ids, i, j)
  {
    if Suppressed(window, ids, j) {
      var i := RememberedFrom(window, ids, j);
    }
    if i: nat :| StillRemembered(window, ids, i, j) {
      RememberedSuppresses(window, ids, i, j);
    }
  }

  /** Distinct identifiers all get through. */
  lemma {:induction false} DistinctAllAccepted(window: nat, ids: seq<string>)
    requires Distinct(ids)
    ensures Accepted(window, ids) == ids
  {
    if ids != [] {
      var init, last := ids[..|ids| - 1], ids[|ids| - 1];
      DistinctAllAccepted(window, init);
      assert ids == init + [last];
      if last in Latest(init, Capacity(window)) {
        var k := LatestAt(init, Capacity(window), last);
      }
    }
  }

  lemma {:induction false} AcceptedKeeps(window: nat, ids: seq<string>, x: string)
    ensures x in Accepted(window, ids) <==> x in ids
  {
    if ids != [] {
      var init, last := ids[..|ids| - 1], ids[|ids| - 1];
      AcceptedKeeps(window, init, x);
      assert ids == init + [last];
      if x == last && last in Latest(Accepted(window, init), Capacity(window)) {
        var k := LatestAt(Accepted(window, init), Capacity(window), last);
      }
    }
  }

  lemma AcceptedElements(window: nat, ids: seq<string>)
    ensures Elements(Accepted(window, ids)) == Elements(ids)
  {
    forall x ensures x in Accepted(window, ids) <==> x in ids {
      AcceptedKeeps(window, ids, x);
    }
  }

  /** As long as no more identifiers are around than the window holds, each gets through
      exactly once, however often and in whatever order its copies arrive. */
  lemma {:induction false} ExactlyOnce(window: nat, ids: seq<string>)
    requires |Elements(ids)| <= Capacity(window)
    ensures Distinct(Accepted(window, ids)) && Elements(Accepted(window, ids)) == Elements(ids)
  {
    AcceptedElements(window, ids);
    if ids != [] {
      var init, last := ids[..|ids| - 1], ids[|ids| - 1];
      ElementsSnoc(init, last);
      assert ids == init + [last];
      SubsetCount(Elements(init), Elements(ids));
      ExactlyOnce(window, init);
      DistinctCount(Accepted(window, init));
    }
  }

  /** The identifiers held after one more arrival. */
  function SeenAfter(window: nat, seen: seq<string>, id: string): seq<string> {
    if id in seen then seen
    else (if |seen| >= window && seen != [] then seen[1..] else seen) + [id]
  }

  function Seen(window: nat, ids: seq<string>): seq<string> {
    if ids == [] then [] else SeenAfter(window, Seen(window, ids[..|ids| - 1]), ids[|ids| - 1])
  }

  lemma SeenSnoc(window: nat, ids: seq<string>, id: string)
    ensures Seen(window, ids + [id]) == SeenAfter(window, Seen(window, ids), id)
  {
    assert (ids + [id])[..|ids|] == ids;
  }

  lemma LatestSnoc(ids: seq<string>, n: nat, id: string)
    requires n >= 1
    ensures var tail := Latest(ids, n);
            Latest(ids + [id], n) == (if |tail| >= n then tail[1..] else tail) + [id]
  {
  }

  /** The held identifiers are the latest accepted ones, a window of them, or one. */
  lemma {:induction false} SeenAreLatest(window: nat, ids: seq<string>)
    ensures Seen(window, ids) == Latest(Accepted(window, ids), Capacity(window))
  {
    if ids != [] {
      var init, last := ids[..|ids| - 1], ids[|ids| - 1];
      SeenAreLatest(window, init);
      LatestSnoc(Accepted(window, init), Capacity(window), last);
    }
  }

  class DuplicateSuppressor {
    const window: nat
    var seen: seq<string>

    constructor (window: nat)
      ensures this.window == window && seen == Seen(window, [])
    {
      this.window := window;
      seen := [];
    }

    method IsDuplicate(id: string) returns (duplicate: bool)
      modifies this
      ensures duplicate <==> id in old(seen)
      ensures seen == SeenAfter(window, old(seen), id)
    {
      if id in seen {
        return true;
      }
      if |seen| >= window && seen != [] {
        seen := seen[1..];
      }
      seen := seen + [id];
      duplicate := false;
    }
  }
}
