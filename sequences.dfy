/** Lists of ids: the order rows come back in, order-preserving selection and
    PHP's `array_unique`, which keeps the first occurrence of each value. */
module Seqs {

  predicate Distinct(s: seq<int>) {
    forall i, j :: 0 <= i < j < |s| ==> s[i] != s[j]
  }

  predicate Increasing(s: seq<int>) {
    forall i, j :: 0 <= i < j < |s| ==> s[i] < s[j]
  }

  lemma IncreasingIsDistinct(s: seq<int>)
    requires Increasing(s)
    ensures Distinct(s)
  {
  }

  lemma {:induction false} LeastExists(s: set<int>)
    requires s != {}
    ensures exists m :: m in s && forall x :: x in s ==> m <= x
    decreases |s|
  {
    if forall x :: x !in s {
      assert false;
    }
    var y :| y in s;
    var rest := s - {y};
    assert forall x :: x in s ==> x in rest || x == y;
    if rest != {} {
      LeastExists(rest);
      var m :| m in rest && forall x :: x in rest ==> m <= x;
      LeastWithOneMore(s, y, m);
    }
  }

  /** The least of a set is the smaller of one element and the least of the others. */
  lemma LeastWithOneMore(s: set<int>, y: int, m: int)
    requires y in s && m in s - {y}
    requires forall x :: x in s - {y} ==> m <= x
    ensures var least := if y < m then y else m;
      least in s && forall x :: x in s ==> least <= x
  {
    forall x | x in s
      ensures (if y < m then y else m) <= x
    {
      if x != y {
        assert x in s - {y};
      }
    }
  }

  /** The smallest element of a non-empty finite set. */
  function Least(s: set<int>): (m: int)
    requires s != {}
    ensures m in s
    ensures forall x :: x in s ==> m <= x
  {
    LeastExists(s);
    var m :| m in s && forall x :: x in s ==> m <= x;
    m
  }

  /** The keys of a table in ascending order: the order in which this model lets
      a query without ORDER BY return rows. Every key appears exactly once. */
  function Ascending(s: set<int>): (r: seq<int>)
    ensures Increasing(r)
    ensures forall x :: x in r <==> x in s
    ensures |r| == |s|
    decreases |s|
  {
    if s == {} then []
    else
      var m := Least(s);
      [m] + Ascending(s - {m})
  }

  /** The elements of `s` that satisfy `p`, in the order of `s`; defined from the
      back so that a loop which appends one element at a time follows it. */
  function Select(s: seq<int>, p: int -> bool): (r: seq<int>)
    ensures |r| <= |s|
    ensures forall x :: x in r <==> x in s && p(x)
  {
    if s == [] then []
    else
      var init := s[..|s| - 1];
      assert s == init + [s[|s| - 1]];
      Select(init, p) + (if p(s[|s| - 1]) then [s[|s| - 1]] else [])
  }

  /** Selection over one more element of `s`, as a loop over `s` takes it. */
  lemma SelectStep(s: seq<int>, i: nat, p: int -> bool)
    requires i < |s|
    ensures Select(s[..i + 1], p) == Select(s[..i], p) + (if p(s[i]) then [s[i]] else [])
  {
    assert s[..i + 1][..i] == s[..i];
  }

  /** Selection distributes over concatenation, so it never reorders elements. */
  lemma {:induction false} SelectAppend(a: seq<int>, b: seq<int>, p: int -> bool)
    ensures Select(a + b, p) == Select(a, p) + Select(b, p)
    decreases |b|
  {
    if b == [] {
      assert a + b == a;
    } else {
      var b', last := b[..|b| - 1], b[|b| - 1];
      var tail := if p(last) then [last] else [];
      SelectAppend(a, b', p);
      assert (a + b)[..|a + b| - 1] == a + b';
      assert (a + b)[|a + b| - 1] == last;
      calc {
        Select(a + b, p);
        Select(a + b', p) + tail;
        Select(a, p) + Select(b', p) + tail;
        Select(a, p) + (Select(b', p) + tail);
        Select(a, p) + Select(b, p);
      }
    }
  }

  lemma {:induction false} SelectDistinct(s: seq<int>, p: int -> bool)
    requires Distinct(s)
    ensures Distinct(Select(s, p))
  {
    if s != [] {
      var init := s[..|s| - 1];
      SelectDistinct(init, p);
    }
  }

  /** Selection with a predicate that holds everywhere on `s` gives back `s`. */
  lemma {:induction false} SelectAll(s: seq<int>, p: int -> bool)
    requires forall x :: x in s ==> p(x)
    ensures Select(s, p) == s
  {
    if s != [] {
      var init, last := s[..|s| - 1], s[|s| - 1];
      assert s == init + [last] && last in s;
      assert forall x :: x in init ==> x in s;
      SelectAll(init, p);
    }
  }

  /** Selection with a predicate that holds nowhere on `s` is empty. */
  lemma {:induction false} SelectNone(s: seq<int>, p: int -> bool)
    requires forall x :: x in s ==> !p(x)
    ensures Select(s, p) == []
  {
    if s != [] {
      var init, last := s[..|s| - 1], s[|s| - 1];
      assert s == init + [last];
      forall x | x in init ensures !p(x) {
        assert x in s;
      }
      SelectNone(init, p);
      assert last in s;
    }
  }

  lemma AppendAssociative<T>(a: seq<T>, b: seq<T>, c: seq<T>)
    ensures a + b + c == a + (b + c)
  {
  }

  /** Position of the first occurrence of `x` in `s`. */
  function FirstIndex<T(==)>(s: seq<T>, x: T): (i: nat)
    requires x in s
    ensures i < |s| && s[i] == x
    ensures forall j :: 0 <= j < i ==> s[j] != x
  {
    if s[0] == x then 0 else 1 + FirstIndex(s[1..], x)
  }

  lemma FirstIndexPrefix(s: seq<int>, t: seq<int>, x: int)
    requires x in s
    ensures FirstIndex(s + t, x) == FirstIndex(s, x)
  {
    var i := FirstIndex(s, x);
    var k := FirstIndex(s + t, x);
    assert (s + t)[i] == x;
  }

  /** PHP's `array_unique` followed by reading the values in order: every value
      once, at the place of its first occurrence. */
  function Unique(s: seq<int>): seq<int> {
    if s == [] then []
    else
      var init := s[..|s| - 1];
      if s[|s| - 1] in init then Unique(init) else Unique(init) + [s[|s| - 1]]
  }

  lemma {:induction false} UniqueProperties(s: seq<int>)
    ensures forall x :: x in Unique(s) <==> x in s
    ensures Distinct(Unique(s))
    ensures forall i, j :: 0 <= i < j < |Unique(s)| ==>
      FirstIndex(s, Unique(s)[i]) < FirstIndex(s, Unique(s)[j])
  {
    if s != [] {
      var init, last := s[..|s| - 1], s[|s| - 1];
      assert s == init + [last];
      UniqueProperties(init);
      var u := Unique(init);
      forall x | x in init ensures FirstIndex(s, x) == FirstIndex(init, x) {
        FirstIndexPrefix(init, [last], x);
      }
      if last !in init {
        assert FirstIndex(s, last) == |init|;
        var r := u + [last];
        forall i, j | 0 <= i < j < |r| ensures FirstIndex(s, r[i]) < FirstIndex(s, r[j]) {
          if j < |u| {
            assert r[i] == u[i] && r[j] == u[j];
          } else {
            assert r[i] == u[i] && u[i] in init;
          }
        }
      }
    }
  }

  /** A list without repetitions is left as it is. */
  lemma {:induction false} UniqueOfDistinct(s: seq<int>)
    requires Distinct(s)
    ensures Unique(s) == s
  {
    if s != [] {
      var init, last := s[..|s| - 1], s[|s| - 1];
      forall i, j | 0 <= i < j < |init| ensures init[i] != init[j] {
        assert init[i] == s[i] && init[j] == s[j];
      }
      forall i | 0 <= i < |init| ensures init[i] != last {
        assert init[i] == s[i];
      }
      UniqueOfDistinct(init);
      assert s == init + [last];
    }
  }
}
