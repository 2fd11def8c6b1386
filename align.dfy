/**
 * Aligning day-keyed series: the two joins on the day index and the daily
 * re-sampling that fills the calendar between the first and last day.
 * Both joins are written as merges of two ascending series.
 */
module Align {
  import opened Series

  /**
   * Left join on the day: every row of `l` is kept, in place, with its value
   * unchanged, paired with the value `r` holds for that day or None when `r`
   * has no row for it (a missing value, not a zero).
   */
  function LeftJoin<A, B>(l: Series<A>, r: Series<B>): (j: Series<(A, Option<B>)>)
    requires Ascending(l) && Ascending(r)
    ensures |j| == |l| && Ascending(j)
    ensures forall i :: 0 <= i < |l| ==> j[i] == (l[i].0, (l[i].1, Lookup(r, l[i].0)))
    decreases |l| + |r|
  {
    if l == [] then []
    else if r == [] || l[0].0 < r[0].0 then
      assert Lookup(r, l[0].0) == None by {
        if r != [] {
          LookupBelow(r, l[0].0);
        }
      }
      var rest := LeftJoin(l[1..], r);
      assert forall i :: 1 <= i < |l| ==> l[i] == l[1..][i - 1];
      JoinedCons(l, r, None, rest);
      [(l[0].0, (l[0].1, None))] + rest
    else if r[0].0 < l[0].0 then
      var rest := LeftJoin(l, r[1..]);
      assert forall i :: 0 <= i < |l| ==> Lookup(r, l[i].0) == Lookup(r[1..], l[i].0) by {
        forall i | 0 <= i < |l| ensures Lookup(r, l[i].0) == Lookup(r[1..], l[i].0) {
          assert l[0].0 <= l[i].0;
        }
      }
      rest
    else
      var rest := LeftJoin(l[1..], r[1..]);
      assert forall i :: 1 <= i < |l| ==> l[i] == l[1..][i - 1] && Lookup(r, l[i].0) == Lookup(r[1..], l[i].0) by {
        forall i | 1 <= i < |l| ensures l[i] == l[1..][i - 1] && Lookup(r, l[i].0) == Lookup(r[1..], l[i].0) {
          assert l[0].0 < l[i].0;
        }
      }
      JoinedCons(l, r, Some(r[0].1), rest);
      [(l[0].0, (l[0].1, Some(r[0].1)))] + rest
  }

  /** Prepending the first left row, paired with its lookup, to the join of the other rows gives the join of all rows. */
  lemma JoinedCons<A, B>(l: Series<A>, r: Series<B>, head: Option<B>, rest: Series<(A, Option<B>)>)
    requires Ascending(l) && l != [] && head == Lookup(r, l[0].0)
    requires |rest| == |l| - 1
    requires forall i :: 1 <= i < |l| ==> rest[i - 1] == (l[i].0, (l[i].1, Lookup(r, l[i].0)))
    ensures var j := [(l[0].0, (l[0].1, head))] + rest;
            Ascending(j) && forall i :: 0 <= i < |l| ==> j[i] == (l[i].0, (l[i].1, Lookup(r, l[i].0)))
  {
    var j := [(l[0].0, (l[0].1, head))] + rest;
    forall i | 1 <= i < |l| ensures j[i] == (l[i].0, (l[i].1, Lookup(r, l[i].0))) {
      assert j[i] == rest[i - 1];
    }
  }

  /**
   * Inner join on the day: a row for exactly the days that both series have,
   * ascending, pairing the two values of that day.
   */
  function InnerJoin<A, B>(l: Series<A>, r: Series<B>): (j: Series<(A, B)>)
    requires Ascending(l) && Ascending(r)
    ensures Ascending(j)
    ensures Keys(j) == Keys(l) * Keys(r)
    ensures forall d :: Lookup(j, d) ==
                        (if Lookup(l, d).Some? && Lookup(r, d).Some?
                         then Some((Lookup(l, d).value, Lookup(r, d).value)) else None)
    decreases |l| + |r|
  {
    if l == [] || r == [] then []
    else if l[0].0 < r[0].0 then
      var rest := InnerJoin(l[1..], r);
      LookupBelow(r, l[0].0);
      KeysCons(l);
      rest
    else if r[0].0 < l[0].0 then
      var rest := InnerJoin(l, r[1..]);
      LookupBelow(l, r[0].0);
      KeysCons(r);
      rest
    else
      var rest := InnerJoin(l[1..], r[1..]);
      KeysCons(l);
      KeysCons(r);
      BelowRest(l);
      AscendingCons((l[0].0, (l[0].1, r[0].1)), rest);
      var j := [(l[0].0, (l[0].1, r[0].1))] + rest;
      assert j[1..] == rest;
      KeysCons(j);
      j
  }

  /** InnerJoin's contract determines it: any ascending table pairing exactly the common days' values is the inner join. */
  lemma InnerJoinUnique<A, B>(l: Series<A>, r: Series<B>, j: Series<(A, B)>)
    requires Ascending(l) && Ascending(r) && Ascending(j)
    requires forall d :: Lookup(j, d) ==
                         (if Lookup(l, d).Some? && Lookup(r, d).Some?
                          then Some((Lookup(l, d).value, Lookup(r, d).value)) else None)
    ensures j == InnerJoin(l, r)
  {
    AscendingUnique(j, InnerJoin(l, r));
  }

  /** Every day after the first row of an ascending series lies above it. */
  lemma BelowRest<V>(s: Series<V>)
    requires Ascending(s) && s != []
    ensures forall k :: k in Keys(s[1..]) ==> s[0].0 < k
  {
    forall k | k in Keys(s[1..]) ensures s[0].0 < k {
      var m :| 0 <= m < |s[1..]| && s[1..][m].0 == k;
      assert s[m + 1].0 == k;
    }
  }

  /** Rows holding `fill` for the days lo .. hi - 1. */
  function Filler<V>(lo: Day, hi: Day, fill: V): Series<V>
    requires lo <= hi
  {
    seq(hi - lo, i requires 0 <= i < hi - lo => (lo + i, fill))
  }

  /**
   * Daily re-sampling with a fill value (`resample('D').asfreq().fillna(fill)`):
   * one row for every day from the first to the last day of `s`, in order;
   * days of `s` keep their value and every other day gets `fill`. An empty
   * series stays empty.
   */
  function Densify<V>(s: Series<V>, fill: V): (r: Series<V>)
    requires Ascending(s)
    ensures s == [] ==> r == []
    ensures s != [] ==> |r| == s[|s| - 1].0 - s[0].0 + 1
    ensures s != [] ==> forall i :: 0 <= i < |r| ==> r[i] == (s[0].0 + i, Lookup(s, s[0].0 + i).GetOr(fill))
  {
    if |s| <= 1 then s
    else
      var rest := Densify(s[1..], fill);
      assert s[1..][0] == s[1] && s[1..][|s[1..]| - 1] == s[|s| - 1];
      DensifyCons(s, fill, rest);
      [s[0]] + Filler(s[0].0 + 1, s[1].0, fill) + rest
  }

  /**
   * One step of the re-sampling: the first row, the filled gap up to the
   * second day, then the re-sampled rest cover the whole span of `s`.
   */
  lemma DensifyCons<V>(s: Series<V>, fill: V, rest: Series<V>)
    requires Ascending(s) && |s| >= 2
    requires |rest| == s[|s| - 1].0 - s[1].0 + 1
    requires forall i :: 0 <= i < |rest| ==> rest[i] == (s[1].0 + i, Lookup(s[1..], s[1].0 + i).GetOr(fill))
    ensures var r := [s[0]] + Filler(s[0].0 + 1, s[1].0, fill) + rest;
            |r| == s[|s| - 1].0 - s[0].0 + 1 &&
            forall i :: 0 <= i < |r| ==> r[i] == (s[0].0 + i, Lookup(s, s[0].0 + i).GetOr(fill))
  {
    var lo, next := s[0].0, s[1].0;
    var gap := Filler(lo + 1, next, fill);
    var r := [s[0]] + gap + rest;
    forall i | 0 <= i < |r| ensures r[i] == (lo + i, Lookup(s, lo + i).GetOr(fill)) {
      if i == 0 {
      } else if i < next - lo {
        assert r[i] == gap[i - 1];
        LookupBelow(s[1..], lo + i);
      } else {
        assert r[i] == rest[i - (next - lo)];
        assert lo < next <= lo + i;
      }
    }
  }

  /** The densified series has a row exactly for the days between its first and last day. */
  lemma DensifyLookup<V>(s: Series<V>, fill: V, d: Day)
    requires Ascending(s)
    ensures Lookup(Densify(s, fill), d) ==
            (if s != [] && s[0].0 <= d <= s[|s| - 1].0 then Some(Lookup(s, d).GetOr(fill)) else None)
  {
    var r := Densify(s, fill);
    if s != [] {
      var lo, hi := s[0].0, s[|s| - 1].0;
      if lo <= d <= hi {
        LookupAt(r, d - lo);
      } else {
        forall i | 0 <= i < |r| ensures r[i].0 != d {
        }
      }
    }
  }

  /** The left join has a row for exactly the days of `l`, pairing its value with the optional value of `r`. */
  lemma LeftJoinLookup<A, B>(l: Series<A>, r: Series<B>, d: Day)
    requires Ascending(l) && Ascending(r)
    ensures Lookup(LeftJoin(l, r), d) ==
            (if Lookup(l, d).Some? then Some((Lookup(l, d).value, Lookup(r, d))) else None)
  {
    var j := LeftJoin(l, r);
    if d in Keys(l) {
      var i :| 0 <= i < |l| && l[i].0 == d;
      LookupAt(l, i);
      LookupAt(j, i);
    } else {
      assert d !in Keys(j);
    }
  }
}
