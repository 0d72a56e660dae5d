/**
 Listing headers of the best chain by height.  The best-hash table is keyed by the height in big-endian
 order, so the store visits a key range in ascending height; the descending listing reverses it in place.
 */
module PovListing {
  import opened Ring
  import opened PovTables
  import Blocks

  const TWO_64 := Blocks.TWO_64

  /** Addition of 64-bit heights wraps around. */
  function Plus(a: UInt64, b: UInt64): UInt64 { (a + b) % TWO_64 }

  /** Heights from lo up to, not including, hi that have a best hash. */
  function Visited(best: map<UInt64, PovHash>, lo: UInt64, hi: int): (r: seq<UInt64>)
    requires hi <= TWO_64
    ensures forall i :: 0 <= i < |r| ==> r[i] in best
    decreases hi - lo
  {
    if hi <= lo then [] else Visited(best, lo, hi - 1) + if hi - 1 in best then [hi - 1] else []
  }

  /** Headers of the visited heights, or nothing when one of them is missing. */
  function Headers(best: map<UInt64, PovHash>, t: Tables, heights: seq<UInt64>): Option<seq<PovHeader>>
    requires forall i :: 0 <= i < |heights| ==> heights[i] in best
  {
    if heights == [] then Some([])
    else
      var n := |heights| - 1;
      var rest, k := Headers(best, t, heights[..n]), BlockKey(heights[n], best[heights[n]]);
      if rest.None? || k !in t.header then None else Some(rest.value + [t.header[k]])
  }

  function Ascending(best: map<UInt64, PovHash>, t: Tables, height: UInt64, count: UInt64): Option<seq<PovHeader>> {
    Headers(best, t, Visited(best, height, Plus(height, count)))
  }

  function Reversed<T>(s: seq<T>): seq<T> {
    seq(|s|, i requires 0 <= i < |s| => s[|s| - 1 - i])
  }

  function Descending(best: map<UInt64, PovHash>, t: Tables, height: UInt64, count: UInt64): Option<seq<PovHeader>> {
    if height < count then None
    else
      var up := Headers(best, t, Visited(best, Plus(height - count, 1), Plus(height, 1)));
      if up.None? then None else Some(Reversed(up.value))
  }

  // ---- What the listings contain ----

  /** The best chain reaches from genesis to the tip, each height with its header. */
  ghost predicate Contiguous(best: map<UInt64, PovHash>, t: Tables, tip: UInt64) {
    forall h: UInt64 :: (h in best <==> h <= tip) && (h <= tip ==> HasHeader(best, t, h))
  }

  predicate HasHeader(best: map<UInt64, PovHash>, t: Tables, h: UInt64) {
    && h in best && BlockKey(h, best[h]) in t.header
    && t.header[BlockKey(h, best[h])].height == h && t.header[BlockKey(h, best[h])].hash == best[h]
  }

  /** On any table the visited heights are those of the range that have a best hash, in ascending order. */
  lemma {:induction false} VisitedAre(best: map<UInt64, PovHash>, lo: UInt64, hi: int)
    requires hi <= TWO_64
    ensures var v := Visited(best, lo, hi);
            && (forall h :: h in v <==> lo <= h < hi && h in best)
            && (forall i, j :: 0 <= i < j < |v| ==> v[i] < v[j])
    decreases hi - lo
  {
    if lo < hi {
      VisitedAre(best, lo, hi - 1);
    }
  }

  /** There is a listing exactly when every visited height has a stored header, and it holds those headers in order. */
  lemma {:induction false} HeadersAre(best: map<UInt64, PovHash>, t: Tables, heights: seq<UInt64>)
    requires forall i :: 0 <= i < |heights| ==> heights[i] in best
    ensures var r := Headers(best, t, heights);
            && (r.Some? <==> forall i :: 0 <= i < |heights| ==> BlockKey(heights[i], best[heights[i]]) in t.header)
            && (r.Some? ==> |r.value| == |heights|)
            && (r.Some? ==> forall i :: 0 <= i < |heights| ==> Stored(t, r.value[i], heights[i], best[heights[i]]))
    decreases |heights|
  {
    if heights != [] {
      var n := |heights| - 1;
      HeadersAre(best, t, heights[..n]);
      if Headers(best, t, heights[..n]).Some? {
        assert forall i :: 0 <= i < n ==> heights[..n][i] == heights[i];
      } else {
        var i :| 0 <= i < n && BlockKey(heights[..n][i], best[heights[..n][i]]) !in t.header;
        assert heights[..n][i] == heights[i];
      }
    }
  }

  /** This very header is in the table under the height and hash. */
  predicate Stored(t: Tables, header: PovHeader, h: UInt64, hash: PovHash) {
    BlockKey(h, hash) in t.header && t.header[BlockKey(h, hash)] == header
  }

  lemma {:induction false} VisitedContiguous(best: map<UInt64, PovHash>, t: Tables, tip: UInt64, lo: UInt64, hi: int)
    requires Contiguous(best, t, tip) && lo <= hi <= TWO_64
    ensures var n := if hi <= tip + 1 then hi - lo else if lo <= tip then tip + 1 - lo else 0;
            var v := Visited(best, lo, hi);
            |v| == n && forall i :: 0 <= i < n ==> v[i] == lo + i
    decreases hi - lo
  {
    if lo < hi {
      VisitedContiguous(best, t, tip, lo, hi - 1);
    }
  }

  /** The header is the stored one of the best block of height h. */
  predicate IsBest(header: PovHeader, best: map<UInt64, PovHash>, t: Tables, h: int) {
    0 <= h < TWO_64 && h in best && header.height == h && header.hash == best[h] && Stored(t, header, h, best[h])
  }

  /** Header i of the listing is the best block of height h + i (or h - i, descending). */
  ghost predicate Lists(r: Option<seq<PovHeader>>, best: map<UInt64, PovHash>, t: Tables, count: nat, height: UInt64, down: bool)
  {
    && r.Some? && |r.value| == count
    && forall i :: 0 <= i < count ==> IsBest(r.value[i], best, t, if down then height - i else height + i)
  }

  /** How many heights of the range a chain up to the tip has. */
  function Reached(tip: UInt64, height: UInt64, count: UInt64): nat {
    if height + count <= tip + 1 then count else if height <= tip then tip + 1 - height else 0
  }

  /** The ascending listing of a contiguous chain: count headers, or as many as there are up to the tip. */
  lemma AscendingLists(best: map<UInt64, PovHash>, t: Tables, tip: UInt64, height: UInt64, count: UInt64)
    requires Contiguous(best, t, tip) && height + count < TWO_64
    ensures Lists(Ascending(best, t, height, count), best, t, Reached(tip, height, count), height, false)
  {
    VisitedContiguous(best, t, tip, height, height + count);
    var heights := Visited(best, height, height + count);
    assert Plus(height, count) == height + count;
    HeadersAre(best, t, heights);
    var r := Ascending(best, t, height, count);
    assert r == Headers(best, t, heights) && |heights| == Reached(tip, height, count);
    forall i | 0 <= i < |heights| ensures IsBest(r.value[i], best, t, height + i) {
      assert heights[i] == height + i;
    }
  }

  /** When the upper end does not fit in 64 bits it wraps below the lower one, and the listing is empty. */
  lemma AscendingWraps(best: map<UInt64, PovHash>, t: Tables, height: UInt64, count: UInt64)
    ensures height + count >= TWO_64 ==> Ascending(best, t, height, count) == Some([])
  {
    if height + count >= TWO_64 {
      assert Plus(height, count) == height + count - TWO_64;
    }
  }

  /** So the ascending listing is right exactly when the range ends within 64 bits or starts above the tip. */
  lemma AscendingListsIff(best: map<UInt64, PovHash>, t: Tables, tip: UInt64, height: UInt64, count: UInt64)
    requires Contiguous(best, t, tip)
    ensures Lists(Ascending(best, t, height, count), best, t, Reached(tip, height, count), height, false) <==>
            height + count < TWO_64 || tip < height
  {
    if height + count < TWO_64 {
      AscendingLists(best, t, tip, height, count);
    } else {
      AscendingWraps(best, t, height, count);
    }
  }

  /** On any table at all, contiguous or not, the descending listing is the reverse of the ascending one, errors included. */
  lemma DescendingReverses(best: map<UInt64, PovHash>, t: Tables, height: UInt64, count: UInt64)
    requires height - count + 1 < TWO_64
    ensures Descending(best, t, height, count) ==
            if height < count then None
            else match Ascending(best, t, height - count + 1, count)
                 case None => None
                 case Some(up) => Some(Reversed(up))
  {
    if count <= height {
      assert Plus(height - count, 1) == height - count + 1;
      assert Plus(height - count + 1, count) == Plus(height, 1);
    }
  }

  lemma ReversedLists(up: seq<PovHeader>, best: map<UInt64, PovHash>, t: Tables, count: nat, height: UInt64)
    requires count <= height && height + 1 < TWO_64 && Lists(Some(up), best, t, count, height - count + 1, false)
    ensures Lists(Some(Reversed(up)), best, t, count, height, true)
  {
    var first := height - count + 1;
    forall i | 0 <= i < count ensures IsBest(Reversed(up)[i], best, t, height - i) {
      var j := count - 1 - i;
      assert Reversed(up)[i] == up[j] && IsBest(up[j], best, t, first + j);
    }
  }

  /**
   The descending listing of a contiguous chain yields h, h - 1, ..., h - c + 1, except from the largest
   64-bit height, where the end of the range wraps to zero and nothing is listed.
   */
  lemma DescendingListsIff(best: map<UInt64, PovHash>, t: Tables, tip: UInt64, height: UInt64, count: UInt64)
    requires Contiguous(best, t, tip) && count <= height <= tip
    ensures Lists(Descending(best, t, height, count), best, t, count, height, true) <==> height + 1 < TWO_64 || count == 0
  {
    if height + 1 < TWO_64 {
      AscendingLists(best, t, tip, height - count + 1, count);
      DescendingReverses(best, t, height, count);
      ReversedLists(Ascending(best, t, height - count + 1, count).value, best, t, count, height);
    } else {
      assert Plus(height, 1) == 0;
    }
  }

  /** The block at the largest height is there, and the descending listing from it is empty. */
  lemma TopHeightIsMissed()
    ensures var top: UInt64 := TWO_64 - 1;
            var best := map[top := 7];
            var t := NO_BLOCKS.(header := map[BlockKey(top, 7) := PovHeader(top, 7, 0)]);
            HasHeader(best, t, top) && Descending(best, t, top, 1) == Some([])
  {
    assert Plus(TWO_64 - 1, 1) == 0;
  }

  // ---- The loops ----

  /** The callback of the range iteration, run over the visited keys. */
  method BatchGet(best: map<UInt64, PovHash>, t: Tables, heights: seq<UInt64>) returns (r: Option<seq<PovHeader>>)
    requires forall i :: 0 <= i < |heights| ==> heights[i] in best
    ensures r == Headers(best, t, heights)
  {
    var headers: seq<PovHeader> := [];
    var i := 0;
    while i < |heights|
      invariant 0 <= i <= |heights|
      invariant Headers(best, t, heights[..i]) == Some(headers)
    {
      assert heights[..i + 1][..i] == heights[..i];
      var key := BlockKey(heights[i], best[heights[i]]);
      if key !in t.header {
        MissingHeader(best, t, heights, i);
        return None;
      }
      headers := headers + [t.header[key]];
      i := i + 1;
    }
    assert heights[..i] == heights;
    return Some(headers);
  }

  lemma {:induction false} MissingHeader(best: map<UInt64, PovHash>, t: Tables, heights: seq<UInt64>, i: nat)
    requires forall j :: 0 <= j < |heights| ==> heights[j] in best
    requires i < |heights| && BlockKey(heights[i], best[heights[i]]) !in t.header
    ensures Headers(best, t, heights) == None
    decreases |heights|
  {
    if i < |heights| - 1 {
      MissingHeader(best, t, heights[..|heights| - 1], i);
    }
  }

  /** The swap loop, from the middle outwards. */
  method Reverse(headers: array<PovHeader>)
    modifies headers
    ensures headers[..] == Reversed(old(headers[..]))
  {
    var n := headers.Length;
    var i := n / 2 - 1;
    while i >= 0
      invariant -1 <= i <= n / 2 - 1
      invariant forall k :: 0 <= k <= i || n - 1 - i <= k < n ==> headers[k] == old(headers[k])
      invariant forall k :: i < k < n - 1 - i ==> headers[k] == old(headers[n - 1 - k])
    {
      var opp := n - 1 - i;
      headers[i], headers[opp] := headers[opp], headers[i];
      i := i - 1;
    }
  }

  method BatchGetAsc(best: map<UInt64, PovHash>, t: Tables, height: UInt64, count: UInt64)
      returns (r: Option<seq<PovHeader>>)
    ensures r == Ascending(best, t, height, count)
  {
    r := BatchGet(best, t, Visited(best, height, Plus(height, count)));
  }

  method BatchGetDesc(best: map<UInt64, PovHash>, t: Tables, height: UInt64, count: UInt64)
      returns (r: Option<seq<PovHeader>>)
    ensures r == Descending(best, t, height, count)
  {
    if height < count {
      return None;
    }
    var up := BatchGet(best, t, Visited(best, Plus(height - count, 1), Plus(height, 1)));
    if up.None? {
      return None;
    }
    var headers := new PovHeader[|up.value|](i requires 0 <= i < |up.value| => up.value[i]);
    assert headers[..] == up.value;
    Reverse(headers);
    return Some(headers[..]);
  }
}
