/** Where a typed array lies in the bytes that were copied for it. */
module BufferViews {
  import opened Wrappers

  /** The size limit of `usize` on a 64-bit machine. */
  const USIZE := 0x1_0000_0000_0000_0000

  function BytesPerElement(kind: string): (r: nat)
    ensures r in {1, 2, 4, 8}
  {
    if kind in {"Int8Array", "Uint8Array", "Uint8ClampedArray", "DataView"} then 1
    else if kind in {"Int16Array", "Uint16Array"} then 2
    else if kind in {"Int32Array", "Uint32Array", "Float32Array"} then 4
    else if kind in {"Float64Array", "BigInt64Array", "BigUint64Array"} then 8
    else 1
  }

  /**
    The window of a view: as asked for if it fits, from the start if only its length
    fits, else as many elements as there are bytes for behind the offset.
  */
  function BufferViewWindow(kind: string, rawByteLen: nat, byteOffset: nat, length: nat): (r: Option<(nat, nat)>)
    requires rawByteLen < USIZE && byteOffset < USIZE && length < USIZE
    ensures r.None? <==> length * BytesPerElement(kind) >= USIZE
    ensures r.Some? ==> r.value.0 + r.value.1 * BytesPerElement(kind) <= rawByteLen
    ensures r.Some? && byteOffset + length * BytesPerElement(kind) <= rawByteLen ==> r == Some((byteOffset, length))
    ensures var span := length * BytesPerElement(kind);
            span <= rawByteLen < byteOffset + span ==> r == Some((0, length))
    ensures r.Some? && length * BytesPerElement(kind) > rawByteLen ==>
              && r.value.0 == (if byteOffset < rawByteLen then byteOffset else rawByteLen)
              && rawByteLen < r.value.0 + (r.value.1 + 1) * BytesPerElement(kind)
    ensures r.Some? ==> r.value.1 <= length && (r.value.1 == length <==> length * BytesPerElement(kind) <= rawByteLen)
  {
    var bytes := BytesPerElement(kind);
    var span := length * bytes;
    if span >= USIZE then None
    else if byteOffset <= rawByteLen && byteOffset + span < USIZE && byteOffset + span <= rawByteLen then Some((byteOffset, length))
    else if span <= rawByteLen then Some((0, length))
    else
      var offset := if byteOffset < rawByteLen then byteOffset else rawByteLen;
      Clipped(rawByteLen - offset, bytes, length);
      Some((offset, (rawByteLen - offset) / bytes))
  }

  lemma Clipped(available: nat, bytes: nat, length: nat)
    requires bytes in {1, 2, 4, 8}
    ensures available / bytes * bytes <= available < (available / bytes + 1) * bytes
    ensures available < length * bytes ==> available / bytes < length
  {
  }
}
