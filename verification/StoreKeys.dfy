/**
  Structured store keys: particles joined by the delimiter. The chained keys of
  utils/store.go and the particle lists of utils/key come to the same bytes.
 */
module StoreKeys {
  import opened Wrappers
  import opened ByteStrings
  import opened ByteOrder

  const DELIMITER: Byte := 0x5f

  /** `utils.basicKey`: a key and the chain of its prefixes. */
  datatype Key = Key(prefix: Option<Key>, key: Bytes)

  function AsKey(k: Key): Bytes {
    match k.prefix
    case None => k.key
    case Some(p) => AsKey(p) + [DELIMITER] + k.key
  }

  /** The new prefix goes to the far end of the chain. */
  function Prepend(k: Key, prefix: Key): Key {
    match k.prefix
    case None => Key(Some(prefix), k.key)
    case Some(p) => Key(Some(Prepend(p, prefix)), k.key)
  }

  function Append(k: Key, suffix: Key): Key {
    Prepend(suffix, k)
  }

  lemma {:induction false} AppendJoins(k: Key, suffix: Key)
    ensures AsKey(Append(k, suffix)) == AsKey(k) + [DELIMITER] + AsKey(suffix)
    decreases suffix
  {
    match suffix.prefix
    case None =>
    case Some(p) =>
      AppendJoins(k, p);
      assert AsKey(k) + [DELIMITER] + AsKey(p) + [DELIMITER] + suffix.key
          == AsKey(k) + [DELIMITER] + (AsKey(p) + [DELIMITER] + suffix.key);
  }

  /** `key.basicKey.Bytes`: `bytes.Join` of the particles. */
  function Join(particles: seq<Bytes>): Bytes {
    if particles == [] then []
    else if |particles| == 1 then particles[0]
    else particles[0] + [DELIMITER] + Join(particles[1..])
  }

  ghost predicate DelimiterFree(b: Bytes) {
    DELIMITER !in b
  }

  /** A delimiter-free head ends at the first delimiter. */
  lemma {:induction false} HeadIsUnique(x: Bytes, y: Bytes, a: Bytes, b: Bytes)
    requires DelimiterFree(x) && DelimiterFree(y) && x + [DELIMITER] + a == y + [DELIMITER] + b
    ensures x == y && a == b
    decreases |x|
  {
    var xa, yb := x + [DELIMITER] + a, y + [DELIMITER] + b;
    if x == [] || y == [] {
      assert xa[0] == yb[0];
      assert x == [] ==> yb[0] == DELIMITER;
      assert y == [] ==> xa[0] == DELIMITER;
      assert x == y == [];
      assert a == xa[1..] && b == yb[1..];
    } else {
      assert xa[0] == x[0] && yb[0] == y[0];
      assert xa[1..] == x[1..] + [DELIMITER] + a && yb[1..] == y[1..] + [DELIMITER] + b;
      HeadIsUnique(x[1..], y[1..], a, b);
      assert x == [x[0]] + x[1..] && y == [y[0]] + y[1..];
    }
  }

  /**
    Keys of as many particles are equal only if all particles are, provided all
    but the last are free of the delimiter in both.
   */
  lemma {:induction false} JoinIsInjective(ps: seq<Bytes>, qs: seq<Bytes>)
    requires |ps| == |qs| && ps != [] && Join(ps) == Join(qs)
    requires forall i :: 0 <= i < |ps| - 1 ==> DelimiterFree(ps[i]) && DelimiterFree(qs[i])
    ensures ps == qs
    decreases |ps|
  {
    if |ps| > 1 {
      HeadIsUnique(ps[0], qs[0], Join(ps[1..]), Join(qs[1..]));
      JoinIsInjective(ps[1..], qs[1..]);
      assert ps == [ps[0]] + ps[1..] && qs == [qs[0]] + qs[1..];
    }
  }

  // Which keys belong to one list of particles only.

  /** No other list of as many particles has the same key. */
  ghost predicate OnlyKey(ps: seq<Bytes>) {
    forall qs :: |qs| == |ps| && Join(qs) == Join(ps) ==> qs == ps
  }

  ghost predicate AllFree(ps: seq<Bytes>) {
    forall i :: 0 <= i < |ps| ==> DelimiterFree(ps[i])
  }

  ghost function Delimiters(b: Bytes): nat {
    multiset(b)[DELIMITER]
  }

  /** A key has a delimiter between particles, and more only if one of them holds it. */
  lemma {:induction false} JoinDelimiters(ps: seq<Bytes>)
    requires ps != []
    ensures Delimiters(Join(ps)) >= |ps| - 1
    ensures Delimiters(Join(ps)) == |ps| - 1 <==> AllFree(ps)
    decreases |ps|
  {
    if |ps| > 1 {
      var rest := ps[1..];
      JoinDelimiters(rest);
      assert AllFree(ps) <==> DelimiterFree(ps[0]) && AllFree(rest) by {
        assert forall i :: 0 <= i < |rest| ==> rest[i] == ps[i + 1];
        assert forall i :: 0 < i < |ps| ==> ps[i] == rest[i - 1];
      }
      assert Delimiters(Join(ps)) == Delimiters(ps[0]) + 1 + Delimiters(Join(rest));
    }
  }

  lemma JoinPrefixed(pre: Bytes, ps: seq<Bytes>)
    requires ps != []
    ensures Join(ps[0 := pre + ps[0]]) == pre + Join(ps)
  {
    assert ps[0 := pre + ps[0]][1..] == ps[1..];
  }

  /** Which particle a delimiter belongs to cannot be told from the key. */
  lemma {:induction false} MoveRight(ps: seq<Bytes>, i: nat, a: Bytes, b: Bytes)
    requires i + 1 < |ps| && ps[i] == a + [DELIMITER] + b
    ensures Join(ps[i := a][i + 1 := b + [DELIMITER] + ps[i + 1]]) == Join(ps)
    decreases i
  {
    var qs, rest := ps[i := a][i + 1 := b + [DELIMITER] + ps[i + 1]], ps[1..];
    if i == 0 {
      assert qs[1..] == rest[0 := b + [DELIMITER] + rest[0]];
      JoinPrefixed(b + [DELIMITER], rest);
      assert a + [DELIMITER] + (b + [DELIMITER] + Join(rest)) == a + [DELIMITER] + b + [DELIMITER] + Join(rest);
    } else {
      MoveRight(rest, i - 1, a, b);
      assert qs[1..] == rest[i - 1 := a][i := b + [DELIMITER] + rest[i]];
    }
  }

  lemma SplitAtDelimiter(x: Bytes) returns (a: Bytes, b: Bytes)
    requires !DelimiterFree(x)
    ensures x == a + [DELIMITER] + b
  {
    var i :| 0 <= i < |x| && x[i] == DELIMITER;
    a, b := x[..i], x[i + 1..];
  }

  /** A delimiter inside any particle of a key with at least two makes another list collide with it. */
  lemma DelimiterCollides(ps: seq<Bytes>, i: nat) returns (qs: seq<Bytes>)
    requires i < |ps| && |ps| > 1 && !DelimiterFree(ps[i])
    ensures |qs| == |ps| && qs != ps && Join(qs) == Join(ps)
  {
    var a, b := SplitAtDelimiter(ps[i]);
    if i + 1 < |ps| {
      qs := ps[i := a][i + 1 := b + [DELIMITER] + ps[i + 1]];
      MoveRight(ps, i, a, b);
      assert |qs[i]| < |ps[i]|;
    } else {
      qs := ps[i - 1 := ps[i - 1] + [DELIMITER] + a][i := b];
      MoveRight(qs, i - 1, ps[i - 1], a);
      assert qs[i - 1 := ps[i - 1]][i := a + [DELIMITER] + b] == ps;
      assert |qs[i]| < |ps[i]|;
    }
  }

  /** A key of several particles belongs to them alone if and only if none of them holds the delimiter. */
  lemma OnlyKeyIff(ps: seq<Bytes>)
    ensures OnlyKey(ps) <==> |ps| <= 1 || AllFree(ps)
  {
    if |ps| <= 1 {
      forall qs | |qs| == |ps| && Join(qs) == Join(ps) ensures qs == ps {
        assert |ps| == 1 ==> qs[0] == ps[0];
      }
    } else if AllFree(ps) {
      forall qs | |qs| == |ps| && Join(qs) == Join(ps) ensures qs == ps {
        JoinDelimiters(ps);
        JoinDelimiters(qs);
        JoinIsInjective(ps, qs);
      }
    } else {
      var i :| 0 <= i < |ps| && !DelimiterFree(ps[i]);
      var qs := DelimiterCollides(ps, i);
    }
  }

  // The keys of the two sequence maps.

  lemma JoinFour(a: Bytes, b: Bytes, c: Bytes, d: Bytes)
    ensures Join([a, b, c, d]) == a + [DELIMITER] + (b + [DELIMITER] + (c + [DELIMITER] + d))
  {
    assert [c, d][1..] == [d];
    assert Join([c, d]) == c + [DELIMITER] + d;
    assert [b, c, d][1..] == [c, d];
    assert Join([b, c, d]) == b + [DELIMITER] + Join([c, d]);
    assert [a, b, c, d][1..] == [b, c, d];
  }

  /** `getSeqIDMappingKey` and `getSeqMessageIDMappingKey`, by their static prefix. */
  function SequenceKey(prefix: nat, port: Bytes, channel: Bytes, sequence: nat): Bytes
  {
    Join([Be8(prefix), port, channel, Be8(sequence)])
  }

  lemma SameParts(a: Bytes, x: Bytes, b: Bytes, a': Bytes, x': Bytes, b': Bytes)
    requires |a| == |a'| && |b| == |b'| && a + x + b == a' + x' + b'
    ensures a == a' && x == x' && b == b'
  {
    var k, k' := a + x + b, a' + x' + b';
    assert |k| == |a| + |x| + |b| && |k'| == |a'| + |x'| + |b'|;
    assert a == k[..|a|] && a' == k'[..|a|];
    assert x == k[|a|..|a| + |x|] && x' == k'[|a|..|a| + |x|];
    assert b == k[|a| + |x|..] && b' == k'[|a| + |x|..];
  }

  lemma SequenceKeyIs(p: nat, port: Bytes, channel: Bytes, n: nat)
    ensures SequenceKey(p, port, channel, n) == (Be8(p) + [DELIMITER]) + Join([port, channel]) + ([DELIMITER] + Be8(n))
  {
    JoinFour(Be8(p), port, channel, Be8(n));
    assert [port, channel][1..] == [channel];
    assert Join([port, channel]) == port + [DELIMITER] + channel;
  }

  /** Equal keys have the same prefix, the same sequence number and the same bytes between them, whatever these are. */
  lemma SequenceKeyParts(p: nat, port: Bytes, channel: Bytes, n: nat, q: nat, port': Bytes, channel': Bytes, m: nat)
    requires p < UINT64 && q < UINT64 && n < UINT64 && m < UINT64
    ensures SequenceKey(p, port, channel, n) == SequenceKey(q, port', channel', m)
      <==> p == q && n == m && Join([port, channel]) == Join([port', channel'])
  {
    SequenceKeyIs(p, port, channel, n);
    SequenceKeyIs(q, port', channel', m);
    if SequenceKey(p, port, channel, n) == SequenceKey(q, port', channel', m) {
      SameParts(Be8(p) + [DELIMITER], Join([port, channel]), [DELIMITER] + Be8(n),
                Be8(q) + [DELIMITER], Join([port', channel']), [DELIMITER] + Be8(m));
      assert Be8(p) == (Be8(p) + [DELIMITER])[..8] && Be8(q) == (Be8(q) + [DELIMITER])[..8];
      assert Be8(n) == ([DELIMITER] + Be8(n))[1..] && Be8(m) == ([DELIMITER] + Be8(m))[1..];
      Be8Order(p, q);
      Be8Order(n, m);
    }
  }

  /** No other prefix, port, channel and sequence number have this key. */
  ghost predicate OnlySequenceKey(p: nat, port: Bytes, channel: Bytes, n: nat) {
    forall q, port', channel', m :: 0 <= q < UINT64 && 0 <= m < UINT64
      && SequenceKey(q, port', channel', m) == SequenceKey(p, port, channel, n)
      ==> q == p && port' == port && channel' == channel && m == n
  }

  /** The keys of one map are never keys of the other. */
  lemma SequenceMapsAreApart(p: nat, q: nat, port: Bytes, port': Bytes, channel: Bytes, channel': Bytes, n: nat, m: nat)
    requires p < UINT64 && q < UINT64 && n < UINT64 && m < UINT64 && p != q
    ensures SequenceKey(p, port, channel, n) != SequenceKey(q, port', channel', m)
  {
    SequenceKeyParts(p, port, channel, n, q, port', channel', m);
  }

  /**
    A sequence key determines all its parts if and only if port and channel are free of
    the delimiter. x/axelarnet refuses other paths when a chain is added.
   */
  lemma SequenceKeysAreUnique(p: nat, port: Bytes, channel: Bytes, n: nat)
    requires p < UINT64 && n < UINT64
    ensures OnlySequenceKey(p, port, channel, n) <==> DelimiterFree(port) && DelimiterFree(channel)
  {
    var ps := [port, channel];
    OnlyKeyIff(ps);
    assert AllFree(ps) <==> DelimiterFree(ps[0]) && DelimiterFree(ps[1]);
    if AllFree(ps) {
      forall q, port', channel', m | 0 <= q < UINT64 && 0 <= m < UINT64
        && SequenceKey(q, port', channel', m) == SequenceKey(p, port, channel, n)
        ensures q == p && port' == port && channel' == channel && m == n
      {
        SequenceKeyParts(q, port', channel', m, p, port, channel, n);
        assert [port', channel'] == ps;
        assert port' == [port', channel'][0] && channel' == [port', channel'][1];
      }
    } else {
      var i :| 0 <= i < 2 && !DelimiterFree(ps[i]);
      var qs := DelimiterCollides(ps, i);
      assert qs == [qs[0], qs[1]];
      SequenceKeyParts(p, qs[0], qs[1], n, p, port, channel, n);
    }
  }
}
