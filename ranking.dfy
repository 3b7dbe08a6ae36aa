/** Ranked player lists: Python's stable `sorted(..., reverse=True)`,
    list filters, `list.index` and slicing, over entries that carry a
    player's id, position and ranking key. */
module Ranking {
  import opened Settings

  /** A player as a ranking sees it: id, position and the value sorted on. */
  datatype Entry = Entry(id: int, position: Position, points: real)

  ghost predicate SortedDesc(s: seq<Entry>)
  {
    forall i, j :: 0 <= i < j < |s| ==> s[i].points >= s[j].points
  }

  /** No id occurs twice. */
  ghost predicate UniqueIds(s: seq<Entry>)
  {
    forall i, j :: 0 <= i < j < |s| ==> s[i].id != s[j].id
  }

  function Ids(s: seq<Entry>): (r: seq<int>)
    ensures |r| == |s| && forall i :: 0 <= i < |s| ==> r[i] == s[i].id
  {
    if s == [] then [] else [s[0].id] + Ids(s[1..])
  }

  lemma IdsConcat(a: seq<Entry>, b: seq<Entry>)
    ensures Ids(a + b) == Ids(a) + Ids(b)
  {
    assert |Ids(a + b)| == |Ids(a) + Ids(b)|;
    forall i | 0 <= i < |a + b| ensures Ids(a + b)[i] == (Ids(a) + Ids(b))[i] {
      if i < |a| {
        assert (a + b)[i] == a[i];
      } else {
        assert (a + b)[i] == b[i - |a|];
      }
    }
  }

  lemma SortedCons(a: Entry, s: seq<Entry>)
    ensures SortedDesc([a] + s) <==> SortedDesc(s) && forall x :: x in s ==> a.points >= x.points
  {
    var t := [a] + s;
    if SortedDesc(s) && forall x :: x in s ==> a.points >= x.points {
      forall i, j | 0 <= i < j < |t| ensures t[i].points >= t[j].points {
        if i > 0 {
          assert t[i] == s[i - 1] && t[j] == s[j - 1];
        } else {
          assert t[j] == s[j - 1];
        }
      }
    }
    if SortedDesc(t) {
      forall i, j | 0 <= i < j < |s| ensures s[i].points >= s[j].points {
        assert s[i] == t[i + 1] && s[j] == t[j + 1];
      }
      forall x | x in s ensures a.points >= x.points {
        var k :| 0 <= k < |s| && s[k] == x;
        assert t[0] == a && t[k + 1] == x;
        assert t[0].points >= t[k + 1].points;
      }
    }
  }

  lemma UniqueCons(a: Entry, s: seq<Entry>)
    ensures UniqueIds([a] + s) <==> UniqueIds(s) && forall x :: x in s ==> x.id != a.id
  {
    var t := [a] + s;
    if UniqueIds(s) && forall x :: x in s ==> x.id != a.id {
      forall i, j | 0 <= i < j < |t| ensures t[i].id != t[j].id {
        if i > 0 {
          assert t[i] == s[i - 1] && t[j] == s[j - 1];
        } else {
          assert t[j] == s[j - 1];
        }
      }
    }
    if UniqueIds(t) {
      forall i, j | 0 <= i < j < |s| ensures s[i].id != s[j].id {
        assert s[i] == t[i + 1] && s[j] == t[j + 1];
      }
      forall x | x in s ensures x.id != a.id {
        var k :| 0 <= k < |s| && s[k] == x;
        assert t[0] == a && t[k + 1] == x;
        assert t[0].id != t[k + 1].id;
      }
    }
  }

  /** Two sequences with the same multiset have the same members. */
  lemma SameMembers(a: seq<Entry>, b: seq<Entry>)
    requires multiset(a) == multiset(b)
    ensures forall x :: x in a ==> x in b
  {
    forall x | x in a ensures x in b {
      assert x in multiset(a);
    }
  }

  /** The entries whose key is exactly `v`, in their order in `s`. */
  function Tied(s: seq<Entry>, v: real): (r: seq<Entry>)
    ensures forall x :: x in r ==> x in s && x.points == v
  {
    if s == [] then []
    else if s[0].points == v then [s[0]] + Tied(s[1..], v)
    else Tied(s[1..], v)
  }

  /** Places `e` in front of the first entry it is at least as good as, so
      that it stays ahead of entries with the same key. */
  function Insert(e: Entry, s: seq<Entry>): (r: seq<Entry>)
    ensures multiset(r) == multiset(s) + multiset{e}
    ensures SortedDesc(s) ==> SortedDesc(r)
    ensures UniqueIds(s) && (forall x :: x in s ==> x.id != e.id) ==> UniqueIds(r)
  {
    if s == [] || e.points >= s[0].points then
      SortedCons(e, s);
      UniqueCons(e, s);
      [e] + s
    else
      var rest := Insert(e, s[1..]);
      assert s == [s[0]] + s[1..];
      InsertBehind(s[0], e, s[1..], rest);
      [s[0]] + rest
  }

  /** In a sorted list, the inserted entry comes first among the entries
      tied with it: every entry ahead of it has a strictly larger key. */
  lemma {:induction false} InsertTied(e: Entry, s: seq<Entry>, v: real)
    requires SortedDesc(s)
    ensures Tied(Insert(e, s), v) == (if e.points == v then [e] else []) + Tied(s, v)
  {
    if s == [] || e.points >= s[0].points {
      assert Insert(e, s) == [e] + s;
      TiedCons(e, s, v);
    } else {
      var h, t := s[0], s[1..];
      assert s == [h] + t;
      assert Insert(e, s) == [h] + Insert(e, t);
      assert SortedDesc(t) by { SortedCons(h, t); }
      InsertTied(e, t, v);
      TiedBehind(h, e, t, Insert(e, t), v);
    }
  }

  /** If `r` adds `e` to the entries of `t` tied on `v`, then `[h] + r` adds
      it to those of `[h] + t`, whatever `h` is as long as it beats `e`. */
  lemma TiedBehind(h: Entry, e: Entry, t: seq<Entry>, r: seq<Entry>, v: real)
    requires e.points < h.points
    requires Tied(r, v) == (if e.points == v then [e] else []) + Tied(t, v)
    ensures Tied([h] + r, v) == (if e.points == v then [e] else []) + Tied([h] + t, v)
  {
    TiedCons(h, r, v);
    TiedCons(h, t, v);
    var hv, ev := if h.points == v then [h] else [], if e.points == v then [e] else [];
    assert hv == [] || ev == [];
    assert hv + (ev + Tied(t, v)) == ev + (hv + Tied(t, v));
  }

  /** The entries tied on `v` in `[x] + r`: `x` if its key is `v`, then
      those of `r`. */
  lemma TiedCons(x: Entry, r: seq<Entry>, v: real)
    ensures Tied([x] + r, v) == (if x.points == v then [x] else []) + Tied(r, v)
  {
    assert ([x] + r)[1..] == r;
  }

  /** Inserting `e` behind a head `h` that beats it keeps the order and the
      unique ids of `[h] + t`. */
  lemma InsertBehind(h: Entry, e: Entry, t: seq<Entry>, rest: seq<Entry>)
    requires e.points < h.points
    requires multiset(rest) == multiset(t) + multiset{e}
    requires SortedDesc(t) ==> SortedDesc(rest)
    requires UniqueIds(t) && (forall x :: x in t ==> x.id != e.id) ==> UniqueIds(rest)
    ensures SortedDesc([h] + t) ==> SortedDesc([h] + rest)
    ensures UniqueIds([h] + t) && (forall x :: x in [h] + t ==> x.id != e.id) ==> UniqueIds([h] + rest)
  {
    assert forall x :: x in rest ==> x == e || x in t by {
      forall x | x in rest ensures x == e || x in t {
        assert x in multiset(rest);
      }
    }
    SortedCons(h, t);
    SortedCons(h, rest);
    UniqueCons(h, t);
    UniqueCons(h, rest);
  }

  /** `sorted(s, key=points, reverse=True)`: an insertion sort that keeps
      entries with equal keys in their original order. The result is in
      non-increasing order of points, is a permutation of `s`, and is
      stable: for every key, the entries tied on it come in the order they
      had in `s`. */
  function SortDesc(s: seq<Entry>): (r: seq<Entry>)
    ensures SortedDesc(r)
    ensures multiset(r) == multiset(s)
    ensures |r| == |s|
    ensures UniqueIds(s) ==> UniqueIds(r)
    ensures forall v :: Tied(r, v) == Tied(s, v)
  {
    if s == [] then []
    else
      var rest := SortDesc(s[1..]);
      SortStep(s, rest);
      forall v ensures Tied(Insert(s[0], rest), v) == Tied(s, v) {
        InsertTied(s[0], rest, v);
      }
      Insert(s[0], rest)
  }

  /** What the insertion of the head into the sorted tail needs: the tail
      sorted is a permutation of the tail, so it keeps the multiset and,
      with unique ids, no entry of it shares the head's id. */
  lemma SortStep(s: seq<Entry>, rest: seq<Entry>)
    requires s != [] && multiset(rest) == multiset(s[1..])
    requires UniqueIds(s[1..]) ==> UniqueIds(rest)
    ensures multiset(s) == multiset(rest) + multiset{s[0]}
    ensures UniqueIds(s) ==> UniqueIds(rest) && forall x :: x in rest ==> x.id != s[0].id
  {
    assert s == [s[0]] + s[1..];
    UniqueCons(s[0], s[1..]);
    SameMembers(rest, s[1..]);
  }

  /** Cutting a list keeps a prefix of the entries tied on any key. */
  lemma {:induction false} TiedPrefix(s: seq<Entry>, k: nat, v: real)
    requires k <= |s|
    ensures Tied(s[..k], v) <= Tied(s, v)
  {
    if k > 0 {
      assert s[..k][1..] == s[1..][..k - 1];
      TiedPrefix(s[1..], k - 1, v);
    }
  }

  /** The entries whose position is in `ps`, in order. */
  function FilterIn(s: seq<Entry>, ps: set<Position>): (r: seq<Entry>)
    ensures |r| <= |s|
    ensures forall x :: x in r ==> x in s && x.position in ps
  {
    if s == [] then []
    else if s[0].position in ps then [s[0]] + FilterIn(s[1..], ps)
    else FilterIn(s[1..], ps)
  }

  /** The entries at one position, in order. */
  function AtPos(s: seq<Entry>, q: Position): seq<Entry>
  {
    FilterIn(s, {q})
  }

  lemma {:induction false} FilterConcat(a: seq<Entry>, b: seq<Entry>, ps: set<Position>)
    ensures FilterIn(a + b, ps) == FilterIn(a, ps) + FilterIn(b, ps)
  {
    if a != [] {
      assert (a + b)[1..] == a[1..] + b;
      FilterConcat(a[1..], b, ps);
    } else {
      assert a + b == b;
    }
  }

  lemma {:induction false} FilterSorted(s: seq<Entry>, ps: set<Position>)
    requires SortedDesc(s)
    ensures SortedDesc(FilterIn(s, ps))
  {
    if s != [] {
      assert s == [s[0]] + s[1..];
      SortedCons(s[0], s[1..]);
      FilterSorted(s[1..], ps);
      if s[0].position in ps {
        SortedCons(s[0], FilterIn(s[1..], ps));
      }
    }
  }

  lemma {:induction false} FilterFilter(s: seq<Entry>, ps: set<Position>, qs: set<Position>)
    ensures FilterIn(FilterIn(s, ps), qs) == FilterIn(s, ps * qs)
  {
    if s != [] {
      FilterFilter(s[1..], ps, qs);
    }
  }

  lemma {:induction false} FilterNone(s: seq<Entry>, ps: set<Position>)
    requires forall x :: x in s ==> x.position !in ps
    ensures FilterIn(s, ps) == []
  {
    if s != [] {
      assert s[0] in s;
      assert forall x :: x in s[1..] ==> x in s;
      FilterNone(s[1..], ps);
    }
  }

  lemma {:induction false} FilterUnique(s: seq<Entry>, ps: set<Position>)
    requires UniqueIds(s)
    ensures UniqueIds(FilterIn(s, ps))
  {
    if s != [] {
      assert s == [s[0]] + s[1..];
      UniqueCons(s[0], s[1..]);
      FilterUnique(s[1..], ps);
      if s[0].position in ps {
        UniqueCons(s[0], FilterIn(s[1..], ps));
      }
    }
  }

  /** In a list without repeated ids, two different entries have different ids. */
  lemma UniqueDiffer(s: seq<Entry>, x: Entry, y: Entry)
    requires UniqueIds(s) && x in s && y in s && x != y
    ensures x.id != y.id
  {
    var i :| 0 <= i < |s| && s[i] == x;
    var j :| 0 <= j < |s| && s[j] == y;
    assert i != j;
    if i < j {
      assert s[i].id != s[j].id;
    } else {
      assert s[j].id != s[i].id;
    }
  }

  /** `s[:n]` in Python: a negative `n` drops entries from the end. */
  function SliceLen(n: int, len: nat): (k: nat)
    ensures k <= len
    ensures n >= 0 ==> k == if n <= len then n else len
    ensures n < 0 ==> k == if len + n >= 0 then len + n else 0
  {
    if n >= 0 then (if n <= len then n else len)
    else if len + n >= 0 then len + n else 0
  }

  /** Position of the first entry with this id: `list.index`. */
  function IndexOf(s: seq<Entry>, id: int): (i: nat)
    requires exists j :: 0 <= j < |s| && s[j].id == id
    ensures i < |s| && s[i].id == id
    ensures forall j :: 0 <= j < i ==> s[j].id != id
  {
    if s[0].id == id then 0
    else
      assert exists j :: 0 <= j < |s[1..]| && s[1..][j].id == id by {
        var j :| 0 <= j < |s| && s[j].id == id;
        assert j > 0 && s[1..][j - 1].id == id;
      }
      1 + IndexOf(s[1..], id)
  }
}
