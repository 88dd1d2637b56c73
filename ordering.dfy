/** Ordering of rows by descending primary key, as the list query asks of the database. */
module Ordering {
  import opened Models

  predicate DistinctIds(s: seq<Event>) {
    forall i, j :: 0 <= i < j < |s| ==> s[i].id != s[j].id
  }

  predicate DescendingIds(s: seq<Event>) {
    forall i, j :: 0 <= i < j < |s| ==> s[i].id > s[j].id
  }

  predicate AscendingIds(s: seq<Event>) {
    forall i, j :: 0 <= i < j < |s| ==> s[i].id < s[j].id
  }

  /** A row with a larger key than every row of a descending sequence may be put in front. */
  lemma ConsDescending(h: Event, t: seq<Event>)
    requires DescendingIds(t)
    requires forall x | x in t :: x.id < h.id
    ensures DescendingIds([h] + t)
  {
  }

  /** Places `e` into `s`, which is in descending id order, before the first row with a smaller id. */
  function InsertByIdDesc(e: Event, s: seq<Event>): (r: seq<Event>)
    ensures |r| == |s| + 1
    ensures multiset(r) == multiset(s) + multiset{e}
    ensures forall x :: x in r <==> x in s || x == e
  {
    if s == [] || e.id > s[0].id then [e] + s
    else
      assert s == [s[0]] + s[1..];
      [s[0]] + InsertByIdDesc(e, s[1..])
  }

  /** Inserting a row whose key is new keeps a descending sequence descending. */
  lemma {:induction false} InsertKeepsDescending(e: Event, s: seq<Event>)
    requires DescendingIds(s)
    requires forall x | x in s :: x.id != e.id
    ensures DescendingIds(InsertByIdDesc(e, s))
  {
    if s == [] || e.id > s[0].id {
      forall x | x in s ensures x.id < e.id {
        var j :| 0 <= j < |s| && s[j] == x;
        assert j == 0 || s[0].id > s[j].id;
      }
      ConsDescending(e, s);
    } else {
      assert s == [s[0]] + s[1..];
      assert DescendingIds(s[1..]);
      InsertKeepsDescending(e, s[1..]);
      var t := InsertByIdDesc(e, s[1..]);
      forall x | x in t ensures x.id < s[0].id {
        if x != e {
          var j :| 0 <= j < |s[1..]| && s[1..][j] == x;
          assert s[j + 1] == x;
        }
      }
      ConsDescending(s[0], t);
    }
  }

  /** `ORDER BY id DESC`: the rows of `s`, newest key first. */
  function SortByIdDesc(s: seq<Event>): (r: seq<Event>)
    ensures |r| == |s|
    ensures multiset(r) == multiset(s)
    ensures forall x :: x in r <==> x in s
    ensures DistinctIds(s) ==> DescendingIds(r)
  {
    if s == [] then []
    else
      var t := SortByIdDesc(s[1..]);
      assert s == [s[0]] + s[1..];
      assert DistinctIds(s) ==> forall x | x in t :: x.id != s[0].id by {
        if DistinctIds(s) {
          forall x | x in t ensures x.id != s[0].id {
            var j :| 0 <= j < |s[1..]| && s[1..][j] == x;
            assert s[j + 1] == x;
          }
        }
      }
      assert DistinctIds(s) ==> DistinctIds(s[1..]);
      assert DistinctIds(s) ==> DescendingIds(InsertByIdDesc(s[0], t)) by {
        if DistinctIds(s) { InsertKeepsDescending(s[0], t); }
      }
      InsertByIdDesc(s[0], t)
  }

  function Reverse(s: seq<Event>): (r: seq<Event>)
    ensures |r| == |s|
    ensures forall i :: 0 <= i < |s| ==> r[i] == s[|s| - 1 - i]
  {
    if s == [] then [] else Reverse(s[1..]) + [s[0]]
  }

  /** A row with a smaller key than every row of `s` goes to the end. */
  lemma {:induction false} InsertSmallest(e: Event, s: seq<Event>)
    requires forall x | x in s :: e.id < x.id
    ensures InsertByIdDesc(e, s) == s + [e]
  {
    if s != [] {
      InsertSmallest(e, s[1..]);
      assert s == [s[0]] + s[1..];
    }
  }

  /** Rows already in ascending key order (the order the ledger appends them) come out reversed. */
  lemma {:induction false} SortOfAscendingIsReverse(s: seq<Event>)
    requires AscendingIds(s)
    ensures SortByIdDesc(s) == Reverse(s)
  {
    if s != [] {
      assert AscendingIds(s[1..]);
      SortOfAscendingIsReverse(s[1..]);
      forall x | x in Reverse(s[1..]) ensures s[0].id < x.id {
        var i :| 0 <= i < |Reverse(s[1..])| && Reverse(s[1..])[i] == x;
      }
      InsertSmallest(s[0], Reverse(s[1..]));
    }
  }
}
