/** Bytes, big-endian words and joined byte strings. A bit field of a byte is written with `/` and `%`. */
module Bytes {
  type Byte = b: int | 0 <= b < 256

  type U16 = w: int | 0 <= w < 0x1_0000

  type U32 = w: int | 0 <= w < 0x1_0000_0000

  function U16At(s: seq<Byte>, i: nat): U16
    requires i + 2 <= |s|
  {
    var hi: int, lo: int := s[i], s[i + 1];
    256 * hi + lo
  }

  function U32At(s: seq<Byte>, i: nat): U32
    requires i + 4 <= |s|
  {
    var a: int, b: int, c: int, d: int := s[i], s[i + 1], s[i + 2], s[i + 3];
    0x100_0000 * a + 0x1_0000 * b + 256 * c + d
  }

  function U16Bytes(w: U16): (s: seq<Byte>)
    ensures |s| == 2 && U16At(s, 0) == w
  {
    [w / 256, w % 256]
  }

  function U32Bytes(w: U32): (s: seq<Byte>)
    ensures |s| == 4 && U32At(s, 0) == w
  {
    var c := w / 256;
    var b := c / 256;
    [b / 256, b % 256, c % 256, w % 256]
  }

  function Join<T>(parts: seq<seq<T>>): seq<T>
    decreases |parts|
  {
    if parts == [] then [] else parts[0] + Join(parts[1..])
  }

  lemma {:induction false} JoinConcat<T>(a: seq<seq<T>>, b: seq<seq<T>>)
    ensures Join(a + b) == Join(a) + Join(b)
    decreases |a|
  {
    if a == [] {
      assert a + b == b;
    } else {
      assert (a + b)[1..] == a[1..] + b;
      JoinConcat(a[1..], b);
    }
  }

  lemma JoinSnoc<T>(a: seq<seq<T>>, x: seq<T>)
    ensures Join(a + [x]) == Join(a) + x
  {
    JoinConcat(a, [x]);
    assert Join([x]) == x + Join([x][1..]);
  }

  lemma JoinSplit<T>(a: seq<seq<T>>, k: nat)
    requires k <= |a|
    ensures Join(a) == Join(a[..k]) + Join(a[k..])
  {
    assert a == a[..k] + a[k..];
    JoinConcat(a[..k], a[k..]);
  }

  lemma Reassociate<T>(a: seq<T>, b: seq<T>, c: seq<T>)
    ensures (a + b) + c == a + (b + c)
  {
  }
}
