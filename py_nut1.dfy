/** The pure helpers of Py_nut1.py: the cross product of two sequences and
    the attribute-error classification of SomeFunkyClass. */
module PyNut {
  import opened Python

  /** The list comprehension [(x1, x2) for x1 in s1 for x2 in s2]: the outer
      loop over s1, the inner over s2, so one pair for every choice of an
      element of each side. */
  function Pairs<T, U>(s1: seq<T>, s2: seq<U>): (r: seq<(T, U)>)
    ensures |r| == |s1| * |s2|
  {
    if s1 == [] then []
    else
      var rest := Pairs(s1[1..], s2);
      assert |s1| * |s2| == |s2| + (|s1| - 1) * |s2|;
      seq(|s2|, j requires 0 <= j < |s2| => (s1[0], s2[j])) + rest
  }

  /** Row-major order: the pair at i * |s2| + j is (s1[i], s2[j]). */
  lemma {:induction false} PairsIndex<T, U>(s1: seq<T>, s2: seq<U>, i: nat, j: nat)
    requires i < |s1| && j < |s2|
    ensures i * |s2| + j < |Pairs(s1, s2)|
    ensures Pairs(s1, s2)[i * |s2| + j] == (s1[i], s2[j])
  {
    var row := seq(|s2|, k requires 0 <= k < |s2| => (s1[0], s2[k]));
    assert Pairs(s1, s2) == row + Pairs(s1[1..], s2);
    if i == 0 {
      assert (row + Pairs(s1[1..], s2))[j] == row[j];
    } else {
      PairsIndex(s1[1..], s2, i - 1, j);
      assert i * |s2| + j == |s2| + ((i - 1) * |s2| + j);
      assert (row + Pairs(s1[1..], s2))[|s2| + ((i - 1) * |s2| + j)] == Pairs(s1[1..], s2)[(i - 1) * |s2| + j];
    }
  }

  /** A pair occurs exactly when its left part occurs in s1 and its right
      part in s2. */
  lemma {:induction false} PairsMembership<T, U>(s1: seq<T>, s2: seq<U>, p: (T, U))
    ensures p in Pairs(s1, s2) <==> p.0 in s1 && p.1 in s2
  {
    if s1 != [] {
      var row := seq(|s2|, k requires 0 <= k < |s2| => (s1[0], s2[k]));
      assert Pairs(s1, s2) == row + Pairs(s1[1..], s2);
      PairsMembership(s1[1..], s2, p);
      if p.0 in s1 && p.1 in s2 {
        if p.0 == s1[0] {
          var j :| 0 <= j < |s2| && s2[j] == p.1;
          assert row[j] == p;
        } else {
          var i :| 0 <= i < |s1| && s1[i] == p.0;
          assert s1[1..][i - 1] == p.0;
        }
      }
      if p in row {
        var j :| 0 <= j < |s2| && row[j] == p;
        assert s1[0] == p.0 && s2[j] == p.1;
      }
      assert p.0 in s1[1..] ==> p.0 in s1;
    }
  }

  /** cross_product(seq1, seq2): ValueError when either argument is empty,
      otherwise the row-major list of pairs (Pairs, PairsIndex and
      PairsMembership say what that list holds). */
  function CrossProduct<T, U>(s1: seq<T>, s2: seq<U>): (r: Outcome<seq<(T, U)>>)
    ensures r.Raised? <==> s1 == [] || s2 == []
    ensures r.Raised? ==> r.exc == Exc(ValueError, Text("Sequence arguments must be non-empty!"))
    ensures r.Ok? ==> r.value == Pairs(s1, s2)
  {
    if s1 == [] || s2 == [] then
      Raised(Exc(ValueError, Text("Sequence arguments must be non-empty!")))
    else
      Ok(Pairs(s1, s2))
  }

  /** cross_product([1, 2], "ab") is [(1, 'a'), (1, 'b'), (2, 'a'), (2, 'b')]. */
  lemma CrossProductSample()
    ensures CrossProduct([1, 2], "ab") == Ok([(1, 'a'), (1, 'b'), (2, 'a'), (2, 'b')])
  {
    var s1, s2 := [1, 2], "ab";
    PairsIndex(s1, s2, 0, 0);
    PairsIndex(s1, s2, 0, 1);
    PairsIndex(s1, s2, 1, 0);
    PairsIndex(s1, s2, 1, 1);
    var p := Pairs(s1, s2);
    assert |p| == 4 && p[0] == (1, 'a') && p[1] == (1, 'b') && p[2] == (2, 'a') && p[3] == (2, 'b');
    assert p == [(1, 'a'), (1, 'b'), (2, 'a'), (2, 'b')];
  }

  /** SomeFunkyClass.__getattr__(name), reached for every attribute the
      object does not have: it always raises, InvalidAttribute for a name
      starting with an underscore and AttributeError otherwise. */
  function FunkyGetAttr(name: string): (r: Outcome<Value>)
    ensures r.Raised?
    ensures IsSubclass(r.exc.cls, AttributeError)
    ensures r.exc.cls == InvalidAttribute <==> |name| > 0 && name[0] == '_'
    ensures r.exc.cls == InvalidAttribute ==> r.exc.msg == Text("Unknown private attribute " + name)
    ensures r.exc.cls != InvalidAttribute ==> r.exc == Exc(AttributeError, Text("Unknown attribute " + name))
  {
    if |name| > 0 && name[0] == '_' then
      Raised(Exc(InvalidAttribute, Text("Unknown private attribute " + name)))
    else
      Raised(Exc(AttributeError, Text("Unknown attribute " + name)))
  }

  /** An `except AttributeError` clause catches both kinds, while an
      `except InvalidAttribute` clause catches only the private-name kind. */
  lemma FunkyGetAttrCaught(name: string)
    ensures IsSubclass(FunkyGetAttr(name).exc.cls, InvalidAttribute) <==> |name| > 0 && name[0] == '_'
  {
    assert !IsSubclass(AttributeError, InvalidAttribute);
  }
}
