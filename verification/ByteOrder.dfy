/** Byte strings in the order of the store, and the iteration over a key prefix. */
module ByteOrder {
  import opened ByteStrings

  /** `bytes.Compare(a, b) < 0`. */
  predicate Less(a: Bytes, b: Bytes) {
    b != [] && (a == [] || a[0] < b[0] || (a[0] == b[0] && Less(a[1..], b[1..])))
  }

  lemma {:induction false} LessTotal(a: Bytes, b: Bytes)
    ensures (Less(a, b) && !Less(b, a) && a != b) || (Less(b, a) && !Less(a, b) && a != b) || (a == b && !Less(a, b))
    decreases |a|
  {
    if a != [] && b != [] {
      LessTotal(a[1..], b[1..]);
      assert a == [a[0]] + a[1..] && b == [b[0]] + b[1..];
    }
  }

  lemma {:induction false} LessTransitive(a: Bytes, b: Bytes, c: Bytes)
    requires Less(a, b) && Less(b, c)
    ensures Less(a, c)
    decreases |a|
  {
    if a != [] && a[0] == b[0] == c[0] {
      LessTransitive(a[1..], b[1..], c[1..]);
    }
  }

  /** With heads of equal length the heads decide, and the tails only if the heads agree. */
  lemma {:induction false} LessOfConcat(x: Bytes, y: Bytes, a: Bytes, b: Bytes)
    requires |x| == |y|
    ensures Less(x + a, y + b) <==> Less(x, y) || (x == y && Less(a, b))
    decreases |x|
  {
    if x == [] {
      assert x + a == a && y + b == b;
    } else {
      assert (x + a)[1..] == x[1..] + a && (y + b)[1..] == y[1..] + b;
      LessOfConcat(x[1..], y[1..], a, b);
      assert x == [x[0]] + x[1..] && y == [y[0]] + y[1..];
    }
  }

  predicate HasPrefix(k: Bytes, prefix: Bytes) {
    |prefix| <= |k| && k[..|prefix|] == prefix
  }

  // ------------------------------------------------- big-endian numbers

  function Pow256(n: nat): nat {
    if n == 0 then 1 else 256 * Pow256(n - 1)
  }

  /** The low `n` bytes of `v`, highest first. */
  function BigEndian(n: nat, v: nat): (r: Bytes)
    ensures |r| == n
  {
    if n == 0 then [] else BigEndian(n - 1, v / 256) + [v % 256]
  }

  function FromBigEndian(b: Bytes): nat {
    if b == [] then 0 else 256 * FromBigEndian(b[..|b| - 1]) + b[|b| - 1]
  }

  lemma {:induction false} BigEndianRoundTrip(n: nat, v: nat)
    requires v < Pow256(n)
    ensures FromBigEndian(BigEndian(n, v)) == v
  {
    if n > 0 {
      var r := BigEndian(n - 1, v / 256);
      assert (r + [v % 256])[..n - 1] == r;
      BigEndianRoundTrip(n - 1, v / 256);
    }
  }

  /** The byte order of big-endian numbers of one width is their numeric order. */
  lemma {:induction false} BigEndianOrder(n: nat, v: nat, w: nat)
    requires v < Pow256(n) && w < Pow256(n)
    ensures Less(BigEndian(n, v), BigEndian(n, w)) <==> v < w
    ensures BigEndian(n, v) == BigEndian(n, w) <==> v == w
  {
    if n > 0 {
      BigEndianOrder(n - 1, v / 256, w / 256);
      LessOfConcat(BigEndian(n - 1, v / 256), BigEndian(n - 1, w / 256), [v % 256], [w % 256]);
      assert Less([v % 256], [w % 256]) <==> v % 256 < w % 256;
      SameHalves(BigEndian(n - 1, v / 256), BigEndian(n - 1, w / 256), v % 256, w % 256);
    }
  }

  /** Values of a uint64 are below this. */
  const UINT64: nat := 0x1_0000_0000_0000_0000

  /** `binary.BigEndian.PutUint64`. */
  function Be8(v: nat): (r: Bytes)
    ensures |r| == 8
  {
    BigEndian(8, v)
  }

  lemma Be8Order(v: nat, w: nat)
    requires v < UINT64 && w < UINT64
    ensures Less(Be8(v), Be8(w)) <==> v < w
    ensures Be8(v) == Be8(w) <==> v == w
    ensures FromBigEndian(Be8(v)) == v
  {
    assert Pow256(8) == UINT64;
    BigEndianOrder(8, v, w);
    BigEndianRoundTrip(8, v);
  }

  lemma SameHalves(x: Bytes, y: Bytes, a: Byte, b: Byte)
    requires |x| == |y|
    ensures x + [a] == y + [b] <==> x == y && a == b
  {
    if x + [a] == y + [b] {
      assert x == (x + [a])[..|x|] && y == (y + [b])[..|y|];
      assert (x + [a])[|x|] == a && (y + [b])[|y|] == b;
    }
  }

  // ------------------------------------------------------ sorted listings

  ghost predicate Sorted(ks: seq<Bytes>) {
    forall i, j :: 0 <= i < j < |ks| ==> Less(ks[i], ks[j])
  }

  ghost predicate Least(k: Bytes, s: set<Bytes>) {
    k in s && forall x :: x in s && x != k ==> Less(k, x)
  }

  lemma {:induction false} LeastExists(s: set<Bytes>) returns (k: Bytes)
    requires s != {}
    ensures Least(k, s)
    decreases |s|
  {
    var x :| x in s;
    if s == {x} {
      k := x;
    } else {
      assert |s - {x}| < |s| && s - {x} != {};
      k := LeastExists(s - {x});
      LessTotal(x, k);
      if Less(x, k) {
        forall y | y in s && y != x ensures Less(x, y) {
          if y != k {
            LessTransitive(x, k, y);
          }
        }
        k := x;
      }
    }
  }

  lemma SortedCons(k: Bytes, ks: seq<Bytes>)
    requires Sorted(ks) && forall x :: x in ks ==> Less(k, x)
    ensures Sorted([k] + ks)
  {
    forall i, j | 0 <= i < j < |ks| + 1 ensures Less(([k] + ks)[i], ([k] + ks)[j]) {
      assert ks[j - 1] in ks;
    }
  }

  lemma InTail(ks: seq<Bytes>, k: Bytes)
    requires Sorted(ks) && ks != []
    ensures k in ks[1..] <==> k in ks && k != ks[0]
  {
    LessTotal(ks[0], ks[0]);
    assert ks == [ks[0]] + ks[1..];
    assert forall i :: 1 <= i < |ks| ==> ks[i] != ks[0];
  }

  /** What an ascending iterator over the keys `s` visits. */
  ghost function Listing(s: set<Bytes>): (r: seq<Bytes>)
    ensures Sorted(r) && forall k :: k in r <==> k in s
    decreases |s|
  {
    if s == {} then []
    else
      assert exists k :: Least(k, s) by { var k := LeastExists(s); }
      var k :| Least(k, s);
      assert |s - {k}| < |s|;
      var rest := Listing(s - {k});
      SortedCons(k, rest);
      [k] + rest
  }

  /** A strictly ascending list is determined by its elements. */
  lemma {:induction false} SortedUnique(a: seq<Bytes>, b: seq<Bytes>)
    requires Sorted(a) && Sorted(b) && forall k :: k in a <==> k in b
    ensures a == b
    decreases |a|
  {
    assert b != [] ==> b[0] in b;
    if a != [] {
      assert a[0] in b;
      HeadsAgree(a, b);
      forall k ensures k in a[1..] <==> k in b[1..] {
        InTail(a, k);
        InTail(b, k);
      }
      SortedUnique(a[1..], b[1..]);
      assert a == [a[0]] + a[1..] && b == [b[0]] + b[1..];
    }
  }

  lemma HeadsAgree(a: seq<Bytes>, b: seq<Bytes>)
    requires Sorted(a) && Sorted(b) && a != [] && b != [] && forall k :: k in a <==> k in b
    ensures a[0] == b[0]
  {
    assert a[0] in b && b[0] in a;
    var i :| 0 <= i < |b| && b[i] == a[0];
    var j :| 0 <= j < |a| && a[j] == b[0];
    LessTotal(a[0], b[0]);
  }

  lemma AppendSorted(ks: seq<Bytes>, k: Bytes)
    requires Sorted(ks) && forall x :: x in ks ==> Less(x, k)
    ensures Sorted(ks + [k])
  {
    forall i, j | 0 <= i < j < |ks| + 1 ensures Less((ks + [k])[i], (ks + [k])[j]) {
      assert ks[i] in ks;
    }
  }

  function RemoveAt(q: seq<Bytes>, i: nat): seq<Bytes>
    requires i < |q|
  {
    q[..i] + q[i + 1..]
  }

  lemma InRemoveAt(q: seq<Bytes>, i: nat, k: Bytes)
    requires Sorted(q) && i < |q|
    ensures k in RemoveAt(q, i) <==> k in q && k != q[i]
    ensures Sorted(RemoveAt(q, i))
  {
    LessTotal(q[i], q[i]);
    assert forall j :: 0 <= j < |q| && j != i ==> q[j] != q[i];
    assert q == q[..i] + [q[i]] + q[i + 1..];
  }

  method LeastOf(s: set<Bytes>) returns (k: Bytes)
    requires s != {}
    ensures Least(k, s)
  {
    var rest := s;
    k :| k in rest;
    rest := rest - {k};
    while rest != {}
      invariant rest <= s && k in s - rest && (forall x :: x in s - rest && x != k ==> Less(k, x))
      decreases |rest|
    {
      var x :| x in rest;
      LessTotal(x, k);
      if Less(x, k) {
        forall y | y in s - rest && y != k ensures Less(x, y) {
          LessTransitive(x, k, y);
        }
        k := x;
      }
      rest := rest - {x};
    }
  }

  /** Selects and sorts, as a store iterator does when it is opened. */
  method Ascending(s: set<Bytes>) returns (keys: seq<Bytes>)
    ensures keys == Listing(s)
  {
    var rest := s;
    keys := [];
    while rest != {}
      invariant rest <= s && Sorted(keys) && (forall k :: k in keys <==> k in s && k !in rest)
      invariant forall x, y :: x in keys && y in rest ==> Less(x, y)
      decreases |rest|
    {
      var k := LeastOf(rest);
      AppendSorted(keys, k);
      keys := keys + [k];
      rest := rest - {k};
    }
    SortedUnique(keys, Listing(s));
  }
}
