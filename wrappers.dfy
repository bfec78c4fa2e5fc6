/** The optional value used wherever the page may lack an element or a value. */
module Wrappers {

  datatype Option<+T> = None | Some(value: T) {

    /** The wrapped value, or `default` when there is none. */
    function GetOr(default: T): T {
      match this
      case Some(v) => v
      case None => default
    }
  }

  /** The value as a list of zero or one element. */
  function OptList<T>(o: Option<T>): seq<T>
  {
    if o.Some? then [o.value] else []
  }

  /** The present values of a sequence of optional values, in order. */
  function Present<T>(os: seq<Option<T>>): seq<T>
  {
    if os == [] then [] else Present(os[..|os| - 1]) + OptList(os[|os| - 1])
  }

  /** Appending an optional value appends it when present and nothing otherwise. */
  lemma OptListAppend<T>(xs: seq<T>, o: Option<T>)
    ensures xs + OptList(o) == if o.Some? then xs + [o.value] else xs
  {
  }

  /** One more optional value adds at most its own value, at the end. */
  lemma PresentStep<T>(os: seq<Option<T>>, i: nat)
    requires i < |os|
    ensures Present(os[..i + 1]) == Present(os[..i]) + OptList(os[i])
  {
    assert os[..i + 1][..i] == os[..i];
  }

  /** The present values of two runs are those of each run, in order. */
  lemma {:induction false} PresentAppend<T>(xs: seq<Option<T>>, ys: seq<Option<T>>)
    ensures Present(xs + ys) == Present(xs) + Present(ys)
  {
    if ys == [] {
      assert xs + ys == xs;
    } else {
      var n := |ys| - 1;
      assert (xs + ys)[..|xs + ys| - 1] == xs + ys[..n];
      PresentAppend(xs, ys[..n]);
    }
  }

  /** There are never more present values than optional ones. */
  lemma {:induction false} PresentLength<T>(os: seq<Option<T>>)
    ensures |Present(os)| <= |os|
  {
    if os != [] {
      PresentLength(os[..|os| - 1]);
    }
  }

  /** A value is present exactly when some position holds it. */
  lemma {:induction false} PresentElements<T>(os: seq<Option<T>>)
    ensures forall x :: x in Present(os) <==> exists j :: 0 <= j < |os| && os[j] == Some(x)
  {
    if os != [] {
      var n := |os| - 1;
      PresentElements(os[..n]);
      forall x
        ensures x in Present(os) <==> exists j :: 0 <= j < |os| && os[j] == Some(x)
      {
        if x in Present(os[..n]) {
          var j :| 0 <= j < n && os[..n][j] == Some(x);
          assert os[j] == Some(x);
        }
        if j :| 0 <= j < |os| && os[j] == Some(x) {
          if j < n {
            assert os[..n][j] == Some(x);
          }
        }
      }
    }
  }

  /** A property of every present value holds of every element of `Present(os)`. */
  lemma {:induction false} PresentAll<T>(os: seq<Option<T>>, p: T -> bool)
    requires forall j :: 0 <= j < |os| && os[j].Some? ==> p(os[j].value)
    ensures forall x :: x in Present(os) ==> p(x)
  {
    if os != [] {
      var n := |os| - 1;
      var front := os[..n];
      assert forall j :: 0 <= j < n ==> front[j] == os[j];
      PresentAll(front, p);
    }
  }

  /** Nothing is present exactly when every position is empty. */
  lemma PresentEmpty<T>(os: seq<Option<T>>)
    ensures Present(os) == [] <==> forall j :: 0 <= j < |os| ==> os[j].None?
  {
    PresentElements(os);
    if Present(os) != [] {
      assert Present(os)[0] in Present(os);
    }
  }

  /** Positions from `j` on that are all empty add nothing. */
  lemma {:induction false} PresentEmptySuffix<T>(os: seq<Option<T>>, j: nat)
    requires j <= |os|
    requires forall m :: j <= m < |os| ==> os[m].None?
    ensures Present(os) == Present(os[..j])
  {
    var suffix := os[j..];
    assert os == os[..j] + suffix;
    PresentAppend(os[..j], suffix);
    PresentEmpty(suffix);
  }

  /** When slot j can only hold a value of rank j, the present values come in strictly increasing rank. */
  lemma {:induction false} PresentOrdered<T>(os: seq<Option<T>>, rank: T -> nat)
    requires forall j :: 0 <= j < |os| && os[j].Some? ==> rank(os[j].value) == j
    ensures forall a, b :: 0 <= a < b < |Present(os)| ==> rank(Present(os)[a]) < rank(Present(os)[b])
  {
    if os != [] {
      var n := |os| - 1;
      var front := os[..n];
      assert forall j :: 0 <= j < n ==> front[j] == os[j];
      PresentOrdered(front, rank);
      PresentAll(front, x => rank(x) < n);
      var p := Present(front);
      forall a, b | 0 <= a < b < |Present(os)| ensures rank(Present(os)[a]) < rank(Present(os)[b]) {
        if b >= |p| {
          assert p[a] in p;
        }
      }
    }
  }

  /** With ranks as slot numbers, every present value is the value of the slot its rank names. */
  lemma PresentAtRank<T>(os: seq<Option<T>>, rank: T -> nat)
    requires forall j :: 0 <= j < |os| && os[j].Some? ==> rank(os[j].value) == j
    ensures forall i :: 0 <= i < |Present(os)| ==> rank(Present(os)[i]) < |os| && os[rank(Present(os)[i])] == Some(Present(os)[i])
  {
    PresentElements(os);
    forall i | 0 <= i < |Present(os)| ensures rank(Present(os)[i]) < |os| && os[rank(Present(os)[i])] == Some(Present(os)[i]) {
      var x := Present(os)[i];
      assert x in Present(os);
      var j :| 0 <= j < |os| && os[j] == Some(x);
    }
  }

  /** Every filled slot's value is present. */
  lemma PresentHasSlots<T>(os: seq<Option<T>>)
    ensures forall j :: 0 <= j < |os| && os[j].Some? ==> os[j].value in Present(os)
  {
    PresentElements(os);
  }
}
