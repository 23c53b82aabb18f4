/** Stock datatypes and sequence facts shared by the models. */
module Prelude {
  datatype Option<+T> = None | Some(value: T) {
    function GetOr(default: T): T {
      if this.Some? then value else default
    }
  }

  predicate Unique<T(==)>(s: seq<T>) {
    forall i, j :: 0 <= i < j < |s| ==> s[i] != s[j]
  }

  function Elements<T>(s: seq<T>): set<T> {
    set x | x in s
  }

  lemma ElementsConcat<T>(a: seq<T>, b: seq<T>)
    ensures Elements(a + b) == Elements(a) + Elements(b)
  {
  }

  /** The duplicate test of the source, `len(ids) != len(set(ids))`, decides uniqueness. */
  lemma {:induction false} CardinalityDecidesUniqueness<T>(s: seq<T>)
    ensures |Elements(s)| <= |s|
    ensures |Elements(s)| == |s| <==> Unique(s)
  {
    if s == [] {
      assert Elements(s) == {};
    } else {
      var last := s[|s| - 1];
      var front := s[..|s| - 1];
      CardinalityDecidesUniqueness(front);
      assert s == front + [last];
      if last in front {
        assert Elements(s) == Elements(front);
        var i :| 0 <= i < |front| && front[i] == last;
        assert s[i] == s[|s| - 1];
      } else {
        assert Elements(s) == Elements(front) + {last};
        assert forall i :: 0 <= i < |front| ==> s[i] == front[i];
        if Unique(front) {
          assert Unique(s);
        }
      }
    }
  }

  /** Repeats removed, first occurrences kept in order. */
  function Distinct<T(==)>(s: seq<T>): (r: seq<T>)
    ensures Elements(r) == Elements(s) && Unique(r)
    ensures s == [] <==> r == []
  {
    if s == [] then []
    else
      var front, last := Distinct(s[..|s| - 1]), s[|s| - 1];
      assert Elements(s) == Elements(s[..|s| - 1]) + {last} by { assert s == s[..|s| - 1] + [last]; }
      assert last in front <==> last in Elements(front);
      assert Elements(front + [last]) == Elements(front) + {last};
      if last in front then front else front + [last]
  }

  /** The index at which a value first occurs. */
  ghost predicate FirstAt<T>(s: seq<T>, i: nat, x: T) {
    i < |s| && s[i] == x && forall j :: 0 <= j < i ==> s[j] != x
  }

  ghost predicate StandsBefore<T>(s: seq<T>, x: T, y: T) {
    exists p, q :: 0 <= p < q < |s| && s[p] == x && s[q] == y
  }

  /** Two values of `r` stand in the order in which they first occur in `s`. */
  ghost predicate InOrderOf<T>(s: seq<T>, r: seq<T>) {
    forall i: nat, j: nat :: i < j < |s| && FirstAt(s, i, s[i]) && FirstAt(s, j, s[j]) ==> StandsBefore(r, s[i], s[j])
  }

  lemma {:induction false} DistinctOrders<T>(s: seq<T>, i: nat, j: nat)
    requires i < j < |s| && FirstAt(s, i, s[i]) && FirstAt(s, j, s[j])
    ensures StandsBefore(Distinct(s), s[i], s[j])
    decreases |s|
  {
    var front, last := s[..|s| - 1], s[|s| - 1];
    assert front[i] == s[i] && s[i] in Elements(front);
    assert Elements(Distinct(front)) == Elements(front);
    if j < |front| {
      DistinctOrders(front, i, j);
      var p, q :| 0 <= p < q < |Distinct(front)| && Distinct(front)[p] == s[i] && Distinct(front)[q] == s[j];
      assert Distinct(s)[p] == s[i] && Distinct(s)[q] == s[j];
    } else {
      assert last == s[j] && last !in front;
      assert last !in Elements(front) && last !in Distinct(front);
      assert s[i] in Distinct(front);
      var p :| 0 <= p < |Distinct(front)| && Distinct(front)[p] == s[i];
      assert Distinct(s) == Distinct(front) + [last];
      assert Distinct(s)[p] == s[i] && Distinct(s)[|Distinct(front)|] == last;
    }
  }

  lemma DistinctKeepsOrder<T>(s: seq<T>)
    ensures InOrderOf(s, Distinct(s))
  {
    forall i: nat, j: nat | i < j < |s| && FirstAt(s, i, s[i]) && FirstAt(s, j, s[j])
      ensures StandsBefore(Distinct(s), s[i], s[j])
    {
      DistinctOrders(s, i, j);
    }
  }
}
