/**
 * Day-keyed series: the shape every table of the daily pipeline takes once it
 * is grouped or indexed by calendar day. A series is a sequence of
 * (day, value) rows; a well-formed one has strictly ascending days, which is
 * what a pandas `groupby(...)` leaves behind (one row per key, keys sorted).
 */
module Series {

  datatype Option<T> = None | Some(value: T) {
    function GetOr(default: T): T {
      match this
      case Some(v) => v
      case None => default
    }
  }

  /** A calendar day, counted in days from 1970-01-01 (day 0, a Thursday). */
  type Day = int

  type Series<V> = seq<(Day, V)>

  /** One row per day, in ascending day order. */
  predicate Ascending<V>(s: Series<V>) {
    forall i, j :: 0 <= i < j < |s| ==> s[i].0 < s[j].0
  }

  function Keys<V>(s: Series<V>): set<Day> {
    set i | 0 <= i < |s| :: s[i].0
  }

  lemma KeysCons<V>(s: Series<V>)
    requires s != []
    ensures Keys(s) == {s[0].0} + Keys(s[1..])
  {
    forall k | k in Keys(s) ensures k in {s[0].0} + Keys(s[1..]) {
      var i :| 0 <= i < |s| && s[i].0 == k;
      if i > 0 {
        assert s[1..][i - 1].0 == k;
      }
    }
    forall k | k in Keys(s[1..]) ensures k in Keys(s) {
      var i :| 0 <= i < |s[1..]| && s[1..][i].0 == k;
      assert s[i + 1].0 == k;
    }
  }

  /** The value a series holds for day d, if it has a row for d (the first such row). */
  function Lookup<V>(s: Series<V>, d: Day): (r: Option<V>)
    ensures r.Some? <==> d in Keys(s)
  {
    if s == [] then None
    else
      KeysCons(s);
      if s[0].0 == d then Some(s[0].1) else Lookup(s[1..], d)
  }

  /** In an ascending series the lookup of a row's own day finds that row. */
  lemma {:induction false} LookupAt<V>(s: Series<V>, i: int)
    requires Ascending(s) && 0 <= i < |s|
    ensures Lookup(s, s[i].0) == Some(s[i].1)
  {
    if i > 0 {
      assert s[0].0 < s[i].0;
      assert s[1..][i - 1] == s[i];
      LookupAt(s[1..], i - 1);
    }
  }

  /** No day below the first row of an ascending series is in it. */
  lemma LookupBelow<V>(s: Series<V>, d: Day)
    requires Ascending(s) && s != [] && d < s[0].0
    ensures Lookup(s, d) == None
  {
    forall i | 0 <= i < |s| ensures s[i].0 != d {
      if i > 0 {
        assert s[0].0 < s[i].0;
      }
    }
  }

  /** Two ascending series with the same lookups are the same series. */
  lemma {:induction false} AscendingUnique<V>(s: Series<V>, t: Series<V>)
    requires Ascending(s) && Ascending(t)
    requires forall d :: Lookup(s, d) == Lookup(t, d)
    ensures s == t
  {
    if s == [] || t == [] {
      if s != [] {
        LookupAt(s, 0);
        assert false;
      } else if t != [] {
        LookupAt(t, 0);
        assert false;
      }
    } else {
      LookupAt(s, 0);
      LookupAt(t, 0);
      if s[0].0 < t[0].0 {
        LookupBelow(t, s[0].0);
      } else if t[0].0 < s[0].0 {
        LookupBelow(s, t[0].0);
      } else {
        forall d ensures Lookup(s[1..], d) == Lookup(t[1..], d) {
          if d > s[0].0 {
            assert Lookup(s, d) == Lookup(s[1..], d);
            assert Lookup(t, d) == Lookup(t[1..], d);
          } else {
            if s[1..] != [] {
              assert s[1..][0] == s[1];
              LookupBelow(s[1..], d);
            }
            if t[1..] != [] {
              assert t[1..][0] == t[1];
              LookupBelow(t[1..], d);
            }
          }
        }
        AscendingUnique(s[1..], t[1..]);
        assert s == [s[0]] + s[1..];
        assert t == [t[0]] + t[1..];
      }
    }
  }

  /**
   * The values of the rows keyed d, in row order: what a groupby collects
   * into the group of d. Defined from the last row so that appending a row
   * appends to its group.
   */
  function Values<V>(rows: seq<(Day, V)>, d: Day): (vs: seq<V>)
    ensures vs == [] <==> d !in Keys(rows)
  {
    if rows == [] then []
    else
      var n := |rows| - 1;
      assert Keys(rows) == Keys(rows[..n]) + {rows[n].0} by {
        forall k | k in Keys(rows) ensures k in Keys(rows[..n]) + {rows[n].0} {
          var i :| 0 <= i < |rows| && rows[i].0 == k;
          if i < n {
            assert rows[..n][i].0 == k;
          }
        }
      }
      Values(rows[..n], d) + (if rows[n].0 == d then [rows[n].1] else [])
  }

  function Sum(xs: seq<int>): int {
    if xs == [] then 0 else Sum(xs[..|xs| - 1]) + xs[|xs| - 1]
  }

  /** Adds value v to the group of day d, opening a group in its sorted place if d has none. */
  function Insert<V>(g: Series<seq<V>>, d: Day, v: V): Series<seq<V>> {
    if g == [] then [(d, [v])]
    else if d < g[0].0 then [(d, [v])] + g
    else if d == g[0].0 then [(d, g[0].1 + [v])] + g[1..]
    else [g[0]] + Insert(g[1..], d, v)
  }

  /** A row below every day of an ascending series can be put in front of it. */
  lemma AscendingCons<V>(x: (Day, V), t: Series<V>)
    requires Ascending(t)
    requires forall k :: k in Keys(t) ==> x.0 < k
    ensures Ascending([x] + t)
  {
    var r := [x] + t;
    forall i, j | 0 <= i < j < |r| ensures r[i].0 < r[j].0 {
      assert r[j] == t[j - 1];
      assert t[j - 1].0 in Keys(t);
      if i > 0 {
        assert r[i] == t[i - 1];
      }
    }
  }

  lemma {:induction false} InsertKeys<V>(g: Series<seq<V>>, d: Day, v: V)
    ensures Keys(Insert(g, d, v)) == Keys(g) + {d}
  {
    var r := Insert(g, d, v);
    KeysCons(r);
    if g != [] {
      KeysCons(g);
      if d < g[0].0 {
        assert r[1..] == g;
      } else if d == g[0].0 {
        assert r[1..] == g[1..];
      } else {
        assert r[1..] == Insert(g[1..], d, v);
        InsertKeys(g[1..], d, v);
      }
    }
  }

  lemma {:induction false} InsertAscending<V>(g: Series<seq<V>>, d: Day, v: V)
    requires Ascending(g)
    ensures Ascending(Insert(g, d, v))
  {
    if g != [] {
      KeysCons(g);
      forall k | k in Keys(g[1..]) ensures g[0].0 < k {
        var m :| 0 <= m < |g[1..]| && g[1..][m].0 == k;
        assert g[m + 1].0 == k;
      }
      if d < g[0].0 {
        AscendingCons((d, [v]), g);
      } else if d == g[0].0 {
        AscendingCons((d, g[0].1 + [v]), g[1..]);
      } else {
        InsertAscending(g[1..], d, v);
        InsertKeys(g[1..], d, v);
        AscendingCons(g[0], Insert(g[1..], d, v));
      }
    }
  }

  lemma {:induction false} InsertLookup<V>(g: Series<seq<V>>, d: Day, v: V, k: Day)
    requires Ascending(g)
    ensures Lookup(Insert(g, d, v), k) ==
            (if k == d then Some(Lookup(g, d).GetOr([]) + [v]) else Lookup(g, k))
  {
    var r := Insert(g, d, v);
    if g == [] {
      assert Lookup(g, d).GetOr([]) + [v] == [v];
    } else if d < g[0].0 {
      LookupBelow(g, d);
      assert Lookup(g, d).GetOr([]) + [v] == [v];
      assert r[1..] == g;
    } else if d == g[0].0 {
      assert r[1..] == g[1..];
    } else {
      assert r[1..] == Insert(g[1..], d, v);
      InsertLookup(g[1..], d, v, k);
    }
  }

  /**
   * Groups rows by day: one row per day that occurs in `rows`, ascending,
   * each carrying exactly the values of that day in row order.
   */
  function Group<V>(rows: seq<(Day, V)>): (g: Series<seq<V>>)
    ensures Ascending(g)
    ensures forall d :: Lookup(g, d) == if Values(rows, d) == [] then None else Some(Values(rows, d))
  {
    if rows == [] then []
    else
      var n := |rows| - 1;
      var g := Group(rows[..n]);
      var r := Insert(g, rows[n].0, rows[n].1);
      InsertAscending(g, rows[n].0, rows[n].1);
      assert forall d :: Lookup(r, d) == if Values(rows, d) == [] then None else Some(Values(rows, d)) by {
        forall d ensures Lookup(r, d) == if Values(rows, d) == [] then None else Some(Values(rows, d)) {
          InsertLookup(g, rows[n].0, rows[n].1, d);
          assert Values(rows, d) == Values(rows[..n], d) + (if rows[n].0 == d then [rows[n].1] else []);
          if d == rows[n].0 {
            assert Lookup(g, d).GetOr([]) == Values(rows[..n], d);
          } else {
            assert Values(rows, d) == Values(rows[..n], d);
          }
        }
      }
      r
  }

  /** Group's contract determines it: any ascending table with the same per-day groups is Group(rows). */
  lemma GroupUnique<V>(rows: seq<(Day, V)>, g: Series<seq<V>>)
    requires Ascending(g)
    requires forall d :: Lookup(g, d) == if Values(rows, d) == [] then None else Some(Values(rows, d))
    ensures g == Group(rows)
  {
    AscendingUnique(g, Group(rows));
  }

  /** Applies f to every value of a series, keeping its days. */
  function MapValues<A, B>(s: Series<A>, f: A -> B): (r: Series<B>)
    ensures |r| == |s|
    ensures forall i :: 0 <= i < |s| ==> r[i].0 == s[i].0
    ensures Ascending(s) ==> Ascending(r)
  {
    if s == [] then [] else [(s[0].0, f(s[0].1))] + MapValues(s[1..], f)
  }

  lemma {:induction false} LookupMapValues<A, B>(s: Series<A>, f: A -> B, d: Day)
    ensures Lookup(MapValues(s, f), d) ==
      if Lookup(s, d).Some? then Some(f(Lookup(s, d).value)) else None
  {
    if s != [] {
      var r := MapValues(s, f);
      assert r[1..] == MapValues(s[1..], f);
      LookupMapValues(s[1..], f, d);
    }
  }

  /**
   * Group by day, then reduce each group with f: the shape of
   * `df.groupby(day)[col].agg()`. Exactly the days that occur in `rows` get a
   * row, ascending, holding f of that day's values in row order.
   */
  function Aggregate<V, W>(rows: seq<(Day, V)>, f: seq<V> -> W): (r: Series<W>)
    ensures Ascending(r)
    ensures forall d :: Lookup(r, d) == if Values(rows, d) == [] then None else Some(f(Values(rows, d)))
  {
    var g := Group(rows);
    var r := MapValues(g, f);
    assert forall d :: Lookup(r, d) == if Values(rows, d) == [] then None else Some(f(Values(rows, d))) by {
      forall d ensures Lookup(r, d) == if Values(rows, d) == [] then None else Some(f(Values(rows, d))) {
        LookupMapValues(g, f, d);
      }
    }
    r
  }

  /** The first row of an ascending series holds its least day and the last row its greatest. */
  lemma KeysBetween<V>(s: Series<V>, k: Day)
    requires Ascending(s) && k in Keys(s)
    ensures s[0].0 <= k <= s[|s| - 1].0
  {
    var i :| 0 <= i < |s| && s[i].0 == k;
    assert i == 0 || s[0].0 < s[i].0;
    assert i == |s| - 1 || s[i].0 < s[|s| - 1].0;
  }

  /** An aggregate has a row for exactly the days that occur in its input rows. */
  lemma AggregateKeys<V, W>(rows: seq<(Day, V)>, f: seq<V> -> W, k: Day)
    ensures k in Keys(Aggregate(rows, f)) <==> k in Keys(rows)
  {
    assert Lookup(Aggregate(rows, f), k).Some? <==> Values(rows, k) != [];
  }

  /** Every row's value is in the group of its own day. */
  lemma {:induction false} ValuesHas<V>(rows: seq<(Day, V)>, i: int)
    requires 0 <= i < |rows|
    ensures rows[i].1 in Values(rows, rows[i].0)
  {
    var n := |rows| - 1;
    if i < n {
      assert rows[..n][i] == rows[i];
      ValuesHas(rows[..n], i);
    }
  }

  /** Every value in the group of day d comes from a row keyed d. */
  lemma {:induction false} ValuesFrom<V>(rows: seq<(Day, V)>, d: Day, v: V)
    requires v in Values(rows, d)
    ensures exists i :: 0 <= i < |rows| && rows[i] == (d, v)
  {
    var n := |rows| - 1;
    if v in Values(rows[..n], d) {
      ValuesFrom(rows[..n], d, v);
      var i :| 0 <= i < n && rows[..n][i] == (d, v);
      assert rows[i] == (d, v);
    } else {
      assert rows[n] == (d, v);
    }
  }

  /** A sum of non-negative numbers is non-negative. */
  lemma {:induction false} SumNonNegative(xs: seq<int>)
    requires forall i :: 0 <= i < |xs| ==> xs[i] >= 0
    ensures Sum(xs) >= 0
  {
    if xs != [] {
      SumNonNegative(xs[..|xs| - 1]);
    }
  }
}
