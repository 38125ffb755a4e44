/**
 * The few DataFrame operations the squad logic relies on, on sequences:
 * boolean-mask selection (which keeps the original row order), the row
 * labels a mask selects, dropping a row by its label, and the KeyError a
 * lookup of a missing column or label raises.
 */
module Frames {

  /** A pandas KeyError: a column of an empty frame, or a label a Series does not hold. */
  datatype Error = MissingColumn(name: string) | MissingLabel(key: int)

  predicate Increasing(ix: seq<nat>) {
    forall a, b :: 0 <= a < b < |ix| ==> ix[a] < ix[b]
  }

  predicate Distinct(s: seq<nat>) {
    forall a, b :: 0 <= a < b < |s| ==> s[a] != s[b]
  }

  /** Boolean-mask selection `s[p(s)]`: the elements that satisfy `p`, in their original order. */
  function Select<T(==,!new)>(s: seq<T>, p: T -> bool): (r: seq<T>)
    ensures |r| <= |s|
    ensures forall x :: x in r <==> x in s && p(x)
  {
    if s == [] then [] else (if p(s[0]) then [s[0]] else []) + Select(s[1..], p)
  }

  /** The positions (row labels) from `i` on that a boolean mask selects, in increasing order. */
  function PositionsFrom<T>(s: seq<T>, p: T -> bool, i: nat): (ix: seq<nat>)
    requires i <= |s|
    ensures Increasing(ix)
    ensures forall k :: 0 <= k < |ix| ==> i <= ix[k] < |s| && p(s[ix[k]])
    ensures forall j :: i <= j < |s| && p(s[j]) ==> j in ix
    decreases |s| - i
  {
    if i == |s| then [] else (if p(s[i]) then [i] else []) + PositionsFrom(s, p, i + 1)
  }

  /** The positions (row labels) a boolean mask selects, in increasing order. */
  function Positions<T>(s: seq<T>, p: T -> bool): (ix: seq<nat>)
    ensures Increasing(ix)
    ensures forall k :: 0 <= k < |ix| ==> ix[k] < |s| && p(s[ix[k]])
    ensures forall i :: 0 <= i < |s| && p(s[i]) ==> i in ix
  {
    PositionsFrom(s, p, 0)
  }

  lemma {:induction false} SelectFromAtPositions<T(!new)>(s: seq<T>, p: T -> bool, i: nat)
    requires i <= |s|
    ensures |Select(s[i..], p)| == |PositionsFrom(s, p, i)|
    ensures forall k :: 0 <= k < |Select(s[i..], p)| ==> Select(s[i..], p)[k] == s[PositionsFrom(s, p, i)[k]]
    decreases |s| - i
  {
    if i < |s| {
      var t := s[i..];
      assert t[0] == s[i] && t[1..] == s[i + 1..];
      SelectFromAtPositions(s, p, i + 1);
      var rest, later := Select(s[i + 1..], p), PositionsFrom(s, p, i + 1);
      var sel, ix := Select(t, p), PositionsFrom(s, p, i);
      if p(s[i]) {
        assert sel == [s[i]] + rest && ix == [i] + later;
        forall k | 0 <= k < |sel| ensures sel[k] == s[ix[k]] {
          if k > 0 {
            assert sel[k] == rest[k - 1] && ix[k] == later[k - 1];
          }
        }
      } else {
        assert sel == rest && ix == later;
      }
    }
  }

  /**
   * Selection keeps exactly the elements at the selected positions, in
   * their original order: the k-th kept element is the element at the k-th
   * selected position.
   */
  lemma SelectAtPositions<T(!new)>(s: seq<T>, p: T -> bool)
    ensures |Select(s, p)| == |Positions(s, p)|
    ensures forall k :: 0 <= k < |Select(s, p)| ==> Select(s, p)[k] == s[Positions(s, p)[k]]
  {
    assert s[0..] == s;
    SelectFromAtPositions(s, p, 0);
  }

  /** Mask selection keeps exactly the elements at the positions where the mask holds, in their original order. */
  lemma SelectInOrder<T(!new)>(s: seq<T>, p: T -> bool)
    ensures exists ix: seq<nat> :: (Increasing(ix) && |ix| == |Select(s, p)|
      && (forall k :: 0 <= k < |ix| ==> ix[k] < |s| && Select(s, p)[k] == s[ix[k]])
      && (forall i :: 0 <= i < |s| ==> (i in ix <==> p(s[i]))))
  {
    SelectAtPositions(s, p);
    var ix := Positions(s, p);
    forall i | 0 <= i < |s| && i in ix ensures p(s[i]) {
      var k :| 0 <= k < |ix| && ix[k] == i;
    }
  }

  function Elements(ix: seq<nat>): set<nat> {
    set x | x in ix
  }

  lemma {:induction false} DistinctCardinality(ix: seq<nat>)
    requires Distinct(ix)
    ensures |Elements(ix)| == |ix|
  {
    if ix != [] {
      DistinctCardinality(ix[1..]);
      assert ix[0] !in Elements(ix[1..]);
      assert Elements(ix) == Elements(ix[1..]) + {ix[0]} by {
        forall x | x in ix ensures x in Elements(ix[1..]) + {ix[0]} {
          if x != ix[0] { assert x in ix[1..]; }
        }
      }
    } else {
      assert Elements(ix) == {};
    }
  }

  /** The set of positions where `p` holds. */
  function Where<T>(s: seq<T>, p: T -> bool): set<nat> {
    set i | 0 <= i < |s| && p(s[i])
  }

  /** The number of elements a mask keeps is the number of positions where it holds. */
  lemma SelectCount<T(!new)>(s: seq<T>, p: T -> bool)
    ensures |Select(s, p)| == |Where(s, p)|
  {
    var ix := Positions(s, p);
    SelectAtPositions(s, p);
    DistinctCardinality(ix);
    assert Where(s, p) == Elements(ix);
  }

  /** `df.drop(label)`: every occurrence of `x` removed, the rest in order. */
  function Drop(s: seq<nat>, x: nat): (r: seq<nat>)
    ensures forall y :: y in r <==> y in s && y != x
    ensures x !in s ==> r == s
    ensures x in s && Distinct(s) ==> |r| == |s| - 1
    ensures Distinct(s) ==> Distinct(r)
  {
    if s == [] then []
    else
      assert Distinct(s) ==> Distinct(s[1..]) && s[0] !in s[1..];
      if s[0] == x then Drop(s[1..], x) else [s[0]] + Drop(s[1..], x)
  }

  lemma {:induction false} DropAppend(a: seq<nat>, b: seq<nat>, x: nat)
    ensures Drop(a + b, x) == Drop(a, x) + Drop(b, x)
  {
    if a != [] {
      assert (a + b)[1..] == a[1..] + b;
      DropAppend(a[1..], b, x);
    } else {
      assert a + b == b;
    }
  }

  lemma IncreasingDistinct(ix: seq<nat>)
    requires Increasing(ix)
    ensures Distinct(ix)
  {
  }

  lemma DistinctAppend(s: seq<nat>, x: nat)
    requires Distinct(s) && x !in s
    ensures Distinct(s + [x])
  {
    forall a, b | 0 <= a < b < |s| + 1 ensures (s + [x])[a] != (s + [x])[b] {
      if b == |s| {
        assert (s + [x])[a] == s[a];
      }
    }
  }

  lemma DropHead(s: seq<nat>, x: nat)
    requires s != [] && s[0] == x && x !in s[1..]
    ensures Drop(s, x) == s[1..]
  {
  }
}
