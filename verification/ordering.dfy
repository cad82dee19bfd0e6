/**
 * Python's ordering of `str` values (code point by code point, a proper prefix
 * first) and `sorted` over a collection of distinct strings.
 */
module StrOrder {

  /** `a < b` on Python strings. */
  predicate Below(a: string, b: string)
    decreases |a|
  {
    if |a| == 0 then |b| > 0
    else if |b| == 0 then false
    else a[0] < b[0] || (a[0] == b[0] && Below(a[1..], b[1..]))
  }

  lemma {:induction false} BelowIrreflexive(a: string)
    ensures !Below(a, a)
    decreases |a|
  {
    if |a| > 0 {
      BelowIrreflexive(a[1..]);
    }
  }

  lemma {:induction false} BelowTransitive(a: string, b: string, c: string)
    requires Below(a, b) && Below(b, c)
    ensures Below(a, c)
    decreases |a|
  {
    if |a| > 0 {
      if a[0] == b[0] && b[0] == c[0] {
        BelowTransitive(a[1..], b[1..], c[1..]);
      }
    }
  }

  lemma {:induction false} BelowTotal(a: string, b: string)
    ensures a == b || Below(a, b) || Below(b, a)
    decreases |a|
  {
    if |a| > 0 && |b| > 0 && a[0] == b[0] {
      BelowTotal(a[1..], b[1..]);
      if a[1..] == b[1..] {
        assert a == [a[0]] + a[1..] && b == [b[0]] + b[1..];
      }
    }
  }

  lemma BelowAsymmetric(a: string, b: string)
    requires Below(a, b)
    ensures !Below(b, a)
  {
    if Below(b, a) {
      BelowTransitive(a, b, a);
      BelowIrreflexive(a);
    }
  }

  /** Strictly ascending: what `sorted` yields over distinct keys. */
  predicate StrictlySorted(s: seq<string>)
  {
    forall i, j :: 0 <= i < j < |s| ==> Below(s[i], s[j])
  }

  function Elements(s: seq<string>): set<string>
  {
    set x | x in s
  }

  lemma FirstIsElement(s: seq<string>)
    ensures |s| > 0 ==> s[0] in Elements(s)
  {
  }

  /** The head of an ascending sequence is below every later element. */
  lemma HeadBelowTail(s: seq<string>)
    requires StrictlySorted(s) && |s| > 0
    ensures Elements(s) == {s[0]} + Elements(s[1..])
    ensures forall z :: z in Elements(s[1..]) ==> Below(s[0], z)
  {
    assert s == [s[0]] + s[1..];
    forall z | z in Elements(s[1..])
      ensures Below(s[0], z)
    {
      var j :| 0 <= j < |s[1..]| && s[1..][j] == z;
      assert s[j + 1] == z;
    }
  }

  /** Something below the head of an ascending sequence is below all of it. */
  lemma BelowHeadBelowAll(x: string, s: seq<string>)
    requires StrictlySorted(s) && |s| > 0 && Below(x, s[0])
    ensures forall z :: z in Elements(s) ==> Below(x, z)
  {
    forall z | z in Elements(s)
      ensures Below(x, z)
    {
      var j :| 0 <= j < |s| && s[j] == z;
      if j > 0 {
        BelowTransitive(x, s[0], z);
      }
    }
  }

  /** Putting something below every element in front keeps a sequence ascending. */
  lemma PrependSorted(y: string, r: seq<string>)
    requires StrictlySorted(r)
    requires forall z :: z in Elements(r) ==> Below(y, z)
    ensures StrictlySorted([y] + r)
    ensures Elements([y] + r) == {y} + Elements(r)
  {
    var t := [y] + r;
    forall i, j | 0 <= i < j < |t|
      ensures Below(t[i], t[j])
    {
      if i == 0 {
        assert t[j] == r[j - 1];
        assert r[j - 1] in Elements(r);
      } else {
        assert t[i] == r[i - 1] && t[j] == r[j - 1];
      }
    }
  }

  /** Puts `x` into its place in an ascending sequence (once). */
  function Insert(x: string, s: seq<string>): (r: seq<string>)
    requires StrictlySorted(s)
    ensures StrictlySorted(r)
    ensures Elements(r) == Elements(s) + {x}
    decreases |s|
  {
    if |s| == 0 then [x]
    else if x == s[0] then s
    else if Below(x, s[0]) then
      BelowHeadBelowAll(x, s);
      PrependSorted(x, s);
      [x] + s
    else
      var rest := Insert(x, s[1..]);
      BelowTotal(x, s[0]);
      HeadBelowTail(s);
      PrependSorted(s[0], rest);
      [s[0]] + rest
  }

  /** Python's `sorted` over the distinct keys in `s`. */
  function Sort(s: seq<string>): (r: seq<string>)
    ensures StrictlySorted(r)
    ensures Elements(r) == Elements(s)
    decreases |s|
  {
    if |s| == 0 then []
    else
      assert Elements(s) == {s[0]} + Elements(s[1..]) by {
        assert s == [s[0]] + s[1..];
      }
      Insert(s[0], Sort(s[1..]))
  }

  /** An ascending sequence is determined by its elements: `sorted` has one possible answer. */
  lemma {:induction false} SortedUnique(a: seq<string>, b: seq<string>)
    requires StrictlySorted(a) && StrictlySorted(b)
    requires Elements(a) == Elements(b)
    ensures a == b
    decreases |a|
  {
    if |a| == 0 {
      FirstIsElement(b);
    } else {
      assert a[0] in Elements(b);
      assert b[0] in Elements(a);
      assert |b| > 0;
      if a[0] != b[0] {
        var i :| 0 <= i < |b| && b[i] == a[0];
        var j :| 0 <= j < |a| && a[j] == b[0];
        assert Below(b[0], a[0]) by {
          assert i > 0;
        }
        assert Below(a[0], b[0]) by {
          assert j > 0;
        }
        BelowAsymmetric(a[0], b[0]);
      }
      assert Elements(a[1..]) == Elements(b[1..]) by {
        assert a == [a[0]] + a[1..] && b == [b[0]] + b[1..];
        forall x | x in Elements(a[1..])
          ensures x in Elements(b[1..])
        {
          var i :| 0 <= i < |a[1..]| && a[1..][i] == x;
          assert Below(a[0], a[i + 1]);
          assert x in Elements(b);
          var k :| 0 <= k < |b| && b[k] == x;
          if k == 0 {
            BelowIrreflexive(x);
          }
          assert b[1..][k - 1] == x;
        }
        forall x | x in Elements(b[1..])
          ensures x in Elements(a[1..])
        {
          var i :| 0 <= i < |b[1..]| && b[1..][i] == x;
          assert Below(b[0], b[i + 1]);
          assert x in Elements(a);
          var k :| 0 <= k < |a| && a[k] == x;
          if k == 0 {
            BelowIrreflexive(x);
          }
          assert a[1..][k - 1] == x;
        }
      }
      SortedUnique(a[1..], b[1..]);
    }
  }
}
