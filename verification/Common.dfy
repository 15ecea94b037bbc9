/** Types and sequence facts shared by the whole project. */
module Common {

  datatype Option<+T> = None | Some(value: T)

  type Byte = b: int | 0 <= b < 256

  /** A SHA-256 (or HMAC-SHA-256) output. */
  type Digest = d: seq<Byte> | |d| == 32 witness seq(32, i => 0)

  /** A hash function: nothing is assumed about it beyond the size of its output. */
  type Hash = seq<Byte> -> Digest

  /**
   * The verdict of a binding argument: either the two histories are the same, or here are two
   * different inputs with one hash, or here is an input whose hash is 32 zero bytes.
   */
  datatype Finding =
    | Same
    | Collision(left: seq<Byte>, right: seq<Byte>)
    | ZeroHash(input: seq<Byte>)
  {
    ghost predicate Sound(hash: Hash) {
      match this
      case Same => true
      case Collision(left, right) => left != right && hash(left) == hash(right)
      case ZeroHash(input) => hash(input) == ZeroDigest()
    }
  }

  function ZeroDigest(): Digest {
    seq(32, i => 0)
  }

  predicate Distinct<T(==)>(s: seq<T>) {
    forall i, j :: 0 <= i < j < |s| ==> s[i] != s[j]
  }

  function Min(a: int, b: int): int {
    if a <= b then a else b
  }

  /** Two concatenations cut at the same place have equal parts. */
  lemma SplitEqual<T>(a: seq<T>, b: seq<T>, c: seq<T>, d: seq<T>)
    requires a + b == c + d
    requires |a| == |c| || |b| == |d|
    ensures a == c && b == d
  {
    assert |a| == |c|;
    assert a == (a + b)[..|a|] && b == (a + b)[|a|..];
    assert c == (c + d)[..|a|] && d == (c + d)[|a|..];
  }

  /** The same for three parts kept apart by separators. */
  lemma SplitThree<T>(a: seq<T>, s: seq<T>, b: seq<T>, t: seq<T>, c: seq<T>, x: seq<T>, y: seq<T>, z: seq<T>)
    requires a + s + b + t + c == x + s + y + t + z
    requires |a| == |x| && (|b| == |y| || |c| == |z|)
    ensures a == x && b == y && c == z
  {
    SplitEqual(a + s + b + t, c, x + s + y + t, z);
    SplitEqual(a + s + b, t, x + s + y, t);
    SplitEqual(a + s, b, x + s, y);
    SplitEqual(a, s, x, s);
  }

  lemma Regroup<T>(a: seq<T>, b: seq<T>, c: seq<T>, d: seq<T>, e: seq<T>)
    ensures a + b + c + d + e == a + (b + (c + (d + e)))
  {
  }
}
