/** Inner joins onto a lookup frame, one whose key columns identify its rows. */
module Joins {
  import opened Seqs
  import opened Frames

  /** Joining onto a right frame with one row per key that covers every left
      key (a lookup table) keeps the left rows in order and adds to row `i`
      the right row `pos[i]` with the same key. */
  lemma MergeLookup(l: Table, r: Table, on: seq<string>, pos: seq<nat>)
    requires Joinable(l, r, on) && |pos| == l.rows && Distinct(Keys(r, on))
    requires forall i | 0 <= i < l.rows :: pos[i] < r.rows && Keys(r, on)[pos[i]] == RowCells(l, on, i)
    ensures Merge(l, r, on).rows == l.rows
    ensures forall c, i | c in l.data && 0 <= i < l.rows :: Merge(l, r, on).data[c][i] == l.data[c][i]
    ensures forall c, i | c in r.data && c !in on && 0 <= i < l.rows :: Merge(l, r, on).data[c][i] == r.data[c][pos[i]]
  {
    forall i | 0 <= i < l.rows
      ensures |Matches(l, r, on, i, r.rows)| == 1 && Matches(l, r, on, i, r.rows)[0].1 == pos[i]
    {
      MatchesLookup(l, r, on, i, pos[i]);
    }
    PairsLookup(l, r, on, pos, l.rows);
  }

  lemma {:induction false} PairsLookup(l: Table, r: Table, on: seq<string>, pos: seq<nat>, n: nat)
    requires Joinable(l, r, on) && |pos| == l.rows && n <= l.rows
    requires forall i | 0 <= i < n :: |Matches(l, r, on, i, r.rows)| == 1 && Matches(l, r, on, i, r.rows)[0].1 == pos[i]
    ensures |Pairs(l, r, on, n)| == n
    ensures forall k | 0 <= k < n :: Pairs(l, r, on, n)[k].0 == k && Pairs(l, r, on, n)[k].1 == pos[k]
  {
    if n > 0 {
      PairsLookup(l, r, on, pos, n - 1);
      var p, q, m := Pairs(l, r, on, n - 1), Pairs(l, r, on, n), Matches(l, r, on, n - 1, r.rows);
      assert q == p + m;
      forall k | 0 <= k < n ensures q[k].0 == k && q[k].1 == pos[k] {
        if k < n - 1 {
          assert q[k] == p[k];
        } else {
          assert q[k] == m[0];
        }
      }
    }
  }

  /** A left row whose key occurs exactly once on the right matches that one row. */
  lemma MatchesLookup(l: Table, r: Table, on: seq<string>, i: nat, j: nat)
    requires Joinable(l, r, on) && i < l.rows && j < r.rows && Distinct(Keys(r, on))
    requires Keys(r, on)[j] == RowCells(l, on, i)
    ensures |Matches(l, r, on, i, r.rows)| == 1 && Matches(l, r, on, i, r.rows)[0].1 == j
  {
    var m := Matches(l, r, on, i, r.rows);
    var ks := Keys(r, on);
    MatchesComplete(l, r, on, i, r.rows, j);
    forall k | 0 <= k < |m| ensures m[k].1 == j {
      assert ks[m[k].1] == ks[j];
    }
    MatchesCount(l, r, on, i, r.rows);
    assert ks[..r.rows] == ks;
    CountDistinct(ks, RowCells(l, on, i));
  }
}
