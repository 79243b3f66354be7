/** Writing into a buffer at an offset, as typed arrays do. */
module Buffers {

  method Put<T>(out: array<T>, items: seq<T>, off: nat)
    requires off + |items| <= out.Length
    modifies out
    ensures out[..] == old(out[..off]) + items + old(out[off + |items|..])
  {
    var i := 0;
    while i < |items|
      invariant i <= |items|
      invariant forall k :: 0 <= k < out.Length ==> out[k] == if off <= k < off + i then items[k - off] else old(out[k])
    {
      out[off + i] := items[i];
      i := i + 1;
    }
    assert out[..off] == old(out[..off]) && out[off..off + |items|] == items && out[off + |items|..] == old(out[off + |items|..]);
    assert out[..] == out[..off] + out[off..off + |items|] + out[off + |items|..];
  }
}
