/** Stock datatypes and facts about slices and map iteration used by every other module. */
module Collections {

  datatype Option<+T> = None | Some(value: T)

  predicate NoDuplicates<T(==)>(s: seq<T>) {
    forall i, j :: 0 <= i < j < |s| ==> s[i] != s[j]
  }

  function Elements<T(==)>(s: seq<T>): set<T> {
    set x | x in s
  }

  /** What ranging over a Go map with these keys yields: each key once, in some order. */
  predicate IsOrdering<T(==)>(order: seq<T>, keys: set<T>) {
    NoDuplicates(order) && Elements(order) == keys
  }

  /** `s` with the entry at `i` moved up to `p` and the entries between shifted down by one. */
  function Rotate<T>(s: seq<T>, p: nat, i: nat): (r: seq<T>)
    requires p <= i < |s|
    ensures |r| == |s|
    ensures forall k {:trigger r[k]} :: 0 <= k < |s| ==>
      r[k] == (if k < p || k > i then s[k] else if k == p then s[i] else s[k - 1])
  {
    s[..p] + [s[i]] + s[p..i] + s[i + 1..]
  }

  lemma RotateKeepsOrdering<T>(s: seq<T>, p: nat, i: nat)
    requires p <= i < |s|
    ensures Elements(Rotate(s, p, i)) == Elements(s)
    ensures NoDuplicates(s) ==> NoDuplicates(Rotate(s, p, i))
  {
    var r := Rotate(s, p, i);
    forall x | x in s ensures x in r {
      var k :| 0 <= k < |s| && s[k] == x;
      var at := if k < p || k > i then k else if k == i then p else k + 1;
      assert r[at] == x;
    }
    forall x | x in r ensures x in s {
      var k :| 0 <= k < |r| && r[k] == x;
    }
  }

  /** The prefix of a slice without duplicates has as many elements as entries. */
  lemma {:induction false} ElementsSize<T>(s: seq<T>)
    requires NoDuplicates(s)
    ensures |Elements(s)| == |s|
  {
    if |s| > 0 {
      var last := |s| - 1;
      ElementsSize(s[..last]);
      assert Elements(s) == Elements(s[..last]) + {s[last]};
      assert s[last] !in s[..last];
    } else {
      assert Elements(s) == {};
    }
  }

  lemma {:induction false} SubsetSize<T>(a: set<T>, b: set<T>)
    requires a <= b
    ensures |a| <= |b|
    ensures |a| == |b| ==> a == b
  {
    if a == {} {
      if |b| == 0 { assert b == {}; }
    } else {
      var x :| x in a;
      SubsetSize(a - {x}, b - {x});
      assert a == (a - {x}) + {x} && b == (b - {x}) + {x};
    }
  }

  /** A slice has at most as many elements as entries, and as many only without duplicates. */
  lemma {:induction false} ElementsAtMost<T>(s: seq<T>)
    ensures |Elements(s)| <= |s|
    ensures |Elements(s)| == |s| ==> NoDuplicates(s)
  {
    if |s| > 0 {
      var last := |s| - 1;
      ElementsAtMost(s[..last]);
      assert Elements(s) == Elements(s[..last]) + {s[last]};
      if s[last] in Elements(s[..last]) {
        assert Elements(s) == Elements(s[..last]);
      } else if |Elements(s)| == |s| {
        forall i, j | 0 <= i < j < |s| ensures s[i] != s[j] {
          assert s[i] == s[..last][i];
          if j < last { assert s[j] == s[..last][j]; }
        }
      }
    } else {
      assert Elements(s) == {};
    }
  }

  function Range(n: nat): (r: set<int>)
    ensures forall k :: k in r <==> 0 <= k < n
    ensures |r| == n
  {
    if n == 0 then {} else Range(n - 1) + {n - 1}
  }

  /** `n` numbers below `n` fill every slot exactly when they are distinct. */
  lemma FillsEverySlot(rs: seq<int>)
    requires forall i :: 0 <= i < |rs| ==> 0 <= rs[i] < |rs|
    ensures NoDuplicates(rs) <==> forall k :: 0 <= k < |rs| ==> k in rs
  {
    if NoDuplicates(rs) {
      ElementsSize(rs);
      SubsetSize(Elements(rs), Range(|rs|));
      forall k | 0 <= k < |rs| ensures k in rs { assert k in Range(|rs|); }
    }
    if forall k :: 0 <= k < |rs| ==> k in rs {
      assert Elements(rs) == Range(|rs|);
      ElementsAtMost(rs);
    }
  }

  /** Where `x` stands in a slice that lists it. */
  function IndexOf<T(==)>(s: seq<T>, x: T): (i: nat)
    requires x in s
    ensures i < |s| && s[i] == x && x !in s[..i]
  {
    if s[0] == x then 0
    else
      var i := 1 + IndexOf(s[1..], x);
      assert s[..i] == [s[0]] + s[1..][..i - 1];
      i
  }
}
