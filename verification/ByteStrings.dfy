/** Byte strings, and the two searches the source's slices offer. */
module ByteStrings {
  import opened Wrappers

  newtype Byte = x: int | 0 <= x < 256
  type Bytes = seq<Byte>

  const NEWLINE: Byte := 10
  const DOT: Byte := 46
  const SLASH: Byte := 47
  const EQUALS: Byte := 61

  /** Where `b` first occurs. */
  function Position(s: Bytes, b: Byte): (r: Option<nat>)
    ensures r.None? <==> b !in s
    ensures r.Some? ==> r.value < |s| && s[r.value] == b && b !in s[..r.value]
  {
    if |s| == 0 then None
    else if s[0] == b then Some(0)
    else
      match Position(s[1..], b)
      case None => None
      case Some(i) => assert s[..i + 1] == [s[0]] + s[1..][..i]; Some(i + 1)
  }

  /** Where `b` last occurs. */
  function RPosition(s: Bytes, b: Byte): (r: Option<nat>)
    ensures r.None? <==> b !in s
    ensures r.Some? ==> r.value < |s| && s[r.value] == b && b !in s[r.value + 1..]
  {
    if |s| == 0 then None
    else if s[|s| - 1] == b then Some(|s| - 1)
    else
      match RPosition(s[..|s| - 1], b)
      case None => None
      case Some(i) => assert s[i + 1..] == s[..|s| - 1][i + 1..] + [s[|s| - 1]]; Some(i)
  }

  lemma {:induction false} PositionIs(s: Bytes, b: Byte, i: nat)
    requires i < |s| && s[i] == b && b !in s[..i]
    ensures Position(s, b) == Some(i)
  {
    if i == 0 {
    } else {
      assert s[0] in s[..i];
      assert s[1..][..i - 1] == s[..i][1..];
      PositionIs(s[1..], b, i - 1);
    }
  }

  lemma {:induction false} RPositionIs(s: Bytes, b: Byte, i: nat)
    requires i < |s| && s[i] == b && b !in s[i + 1..]
    ensures RPosition(s, b) == Some(i)
  {
    var last := |s| - 1;
    if i == last {
    } else {
      assert s[last] in s[i + 1..];
      assert s[..last][i + 1..] == s[i + 1..][..last - i - 1];
      RPositionIs(s[..last], b, i);
    }
  }

  /** Searching past a stretch without `b`. */
  lemma PositionAfter(a: Bytes, b: Byte, c: Bytes)
    requires b !in a
    ensures Position(a + [b] + c, b) == Some(|a|)
  {
    assert (a + [b] + c)[..|a|] == a;
    PositionIs(a + [b] + c, b, |a|);
  }
}
