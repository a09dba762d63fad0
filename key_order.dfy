/** The key order of the stable ordered maps, and enumeration of a finite
    set of keys in that order.

    Byte strings compare lexicographically, a proper prefix first (Rust's
    slice order); a KeyId compares by owner, then by name.  Enumerating a
    range of an ordered map yields its keys strictly increasing, which is
    what SortedFrom produces from a finite set. */
module KeyOrder {
  import opened Types

  // ---------------------------------------------------------------------
  // Byte strings
  // ---------------------------------------------------------------------

  predicate BytesLe(a: Bytes, b: Bytes)
    decreases |a|
  {
    |a| == 0 || (|b| > 0 && (a[0] < b[0] || (a[0] == b[0] && BytesLe(a[1..], b[1..]))))
  }

  lemma {:induction false} BytesLeReflexive(a: Bytes)
    ensures BytesLe(a, a)
    decreases |a|
  {
    if |a| > 0 {
      BytesLeReflexive(a[1..]);
    }
  }

  lemma {:induction false} BytesLeAntisymmetric(a: Bytes, b: Bytes)
    requires BytesLe(a, b) && BytesLe(b, a)
    ensures a == b
    decreases |a|
  {
    if |a| > 0 {
      BytesLeAntisymmetric(a[1..], b[1..]);
      assert a == [a[0]] + a[1..] && b == [b[0]] + b[1..];
    }
  }

  lemma {:induction false} BytesLeTransitive(a: Bytes, b: Bytes, c: Bytes)
    requires BytesLe(a, b) && BytesLe(b, c)
    ensures BytesLe(a, c)
    decreases |a|
  {
    if |a| > 0 && a[0] == b[0] && b[0] == c[0] {
      BytesLeTransitive(a[1..], b[1..], c[1..]);
    }
  }

  lemma {:induction false} BytesLeTotal(a: Bytes, b: Bytes)
    ensures BytesLe(a, b) || BytesLe(b, a)
    decreases |a|
  {
    if |a| > 0 && |b| > 0 && a[0] == b[0] {
      BytesLeTotal(a[1..], b[1..]);
    }
  }

  // ---------------------------------------------------------------------
  // Key ids: owner first, then name
  // ---------------------------------------------------------------------

  predicate KeyIdLe(a: KeyId, b: KeyId)
  {
    if a.0 == b.0 then BytesLe(a.1, b.1) else BytesLe(a.0, b.0)
  }

  lemma KeyIdLeTotalOrder(a: KeyId, b: KeyId, c: KeyId)
    ensures KeyIdLe(a, b) || KeyIdLe(b, a)
    ensures KeyIdLe(a, b) && KeyIdLe(b, a) ==> a == b
    ensures KeyIdLe(a, b) && KeyIdLe(b, c) ==> KeyIdLe(a, c)
  {
    BytesLeTotal(a.0, b.0);
    BytesLeTotal(a.1, b.1);
    if KeyIdLe(a, b) && KeyIdLe(b, a) {
      if a.0 == b.0 {
        BytesLeAntisymmetric(a.1, b.1);
      } else {
        BytesLeAntisymmetric(a.0, b.0);
      }
    }
    if KeyIdLe(a, b) && KeyIdLe(b, c) {
      if a.0 == b.0 && b.0 == c.0 {
        BytesLeTransitive(a.1, b.1, c.1);
      } else if a.0 != b.0 && b.0 != c.0 {
        BytesLeTransitive(a.0, b.0, c.0);
        if a.0 == c.0 {
          BytesLeAntisymmetric(a.0, b.0);
        }
      }
    }
  }

  // ---------------------------------------------------------------------
  // Enumerating a finite set in order
  // ---------------------------------------------------------------------

  /** `le` is a total order on the elements of `s`. */
  ghost predicate TotalOn<T>(le: (T, T) -> bool, s: set<T>)
  {
    && (forall x, y | x in s && y in s :: le(x, y) || le(y, x))
    && (forall x, y | x in s && y in s && le(x, y) && le(y, x) :: x == y)
    && (forall x, y, z | x in s && y in s && z in s && le(x, y) && le(y, z) :: le(x, z))
  }

  predicate IsLeast<T(==)>(m: T, s: set<T>, le: (T, T) -> bool)
  {
    m in s && forall x | x in s :: le(m, x)
  }

  /** Each element strictly precedes every later one (so there are no
      duplicates). */
  ghost predicate StrictlyIncreasing<T>(r: seq<T>, le: (T, T) -> bool)
  {
    forall i, j | 0 <= i < j < |r| :: le(r[i], r[j]) && r[i] != r[j]
  }

  /** A non-empty finite set has a least element under a total order. */
  lemma {:induction false} LeastExists<T>(s: set<T>, le: (T, T) -> bool)
    requires s != {} && TotalOn(le, s)
    ensures exists m :: IsLeast(m, s, le)
    decreases |s|
  {
    var x :| x in s;
    if s == {x} {
      assert IsLeast(x, s, le);
    } else {
      var rest := s - {x};
      LeastExists(rest, le);
      var m :| IsLeast(m, rest, le);
      if le(m, x) {
        assert IsLeast(m, s, le);
      } else {
        assert le(x, m);
        assert IsLeast(x, s, le);
      }
    }
  }

  /** The elements of `s`, least first, each exactly once. */
  function SortedFrom<T(==,!new)>(s: set<T>, le: (T, T) -> bool): (r: seq<T>)
    requires TotalOn(le, s)
    ensures |r| == |s|
    ensures forall x :: x in r <==> x in s
    ensures StrictlyIncreasing(r, le)
    decreases |s|
  {
    if s == {} then []
    else
      LeastExists(s, le);
      var m :| IsLeast(m, s, le);
      [m] + SortedFrom(s - {m}, le)
  }

  lemma BytesTotalOn(s: set<Bytes>)
    ensures TotalOn(BytesLe, s)
  {
    forall x, y | x in s && y in s ensures BytesLe(x, y) || BytesLe(y, x) {
      BytesLeTotal(x, y);
    }
    forall x, y | x in s && y in s && BytesLe(x, y) && BytesLe(y, x) ensures x == y {
      BytesLeAntisymmetric(x, y);
    }
    forall x, y, z | x in s && y in s && z in s && BytesLe(x, y) && BytesLe(y, z)
      ensures BytesLe(x, z)
    {
      BytesLeTransitive(x, y, z);
    }
  }

  lemma KeyIdTotalOn(s: set<KeyId>)
    ensures TotalOn(KeyIdLe, s)
  {
    forall x, y, z | x in s && y in s && z in s
      ensures KeyIdLe(x, y) || KeyIdLe(y, x)
      ensures KeyIdLe(x, y) && KeyIdLe(y, x) ==> x == y
      ensures KeyIdLe(x, y) && KeyIdLe(y, z) ==> KeyIdLe(x, z)
    {
      KeyIdLeTotalOrder(x, y, z);
    }
  }

  /** Principals in increasing byte order. */
  function SortedPrincipals(s: set<Principal>): (r: seq<Principal>)
    ensures forall p :: p in r <==> p in s
    ensures StrictlyIncreasing(r, BytesLe)
  {
    BytesTotalOn(s);
    SortedFrom(s, BytesLe)
  }

  /** Key ids in increasing key order. */
  function SortedKeyIds(s: set<KeyId>): (r: seq<KeyId>)
    ensures forall k :: k in r <==> k in s
    ensures StrictlyIncreasing(r, KeyIdLe)
  {
    KeyIdTotalOn(s);
    SortedFrom(s, KeyIdLe)
  }
}
