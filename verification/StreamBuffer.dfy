/** readableStreamToBuffer of src/modules/common/utils/helpers/DataParser.helper.ts. */
module StreamBuffer {
  type byte = bv8

  function Flatten(chunks: seq<seq<byte>>): seq<byte> {
    if chunks == [] then [] else chunks[0] + Flatten(chunks[1..])
  }

  lemma {:induction false} FlattenSnoc(chunks: seq<seq<byte>>, chunk: seq<byte>)
    ensures Flatten(chunks + [chunk]) == Flatten(chunks) + chunk
  {
    if chunks == [] {
      assert [] + [chunk] == [chunk] && [chunk][1..] == [];
    } else {
      assert (chunks + [chunk])[0] == chunks[0] && (chunks + [chunk])[1..] == chunks[1..] + [chunk];
      FlattenSnoc(chunks[1..], chunk);
    }
  }

  lemma {:induction false} FlattenPrefix(chunks: seq<seq<byte>>, i: nat)
    requires i <= |chunks|
    ensures Flatten(chunks[..i]) <= Flatten(chunks)
    decreases |chunks| - i
  {
    if i == |chunks| {
      assert chunks[..i] == chunks;
    } else {
      assert chunks[..i + 1] == chunks[..i] + [chunks[i]];
      FlattenSnoc(chunks[..i], chunks[i]);
      FlattenPrefix(chunks, i + 1);
    }
  }

  /** The reader of a stream whose chunks are still to come. */
  class Reader {
    var rest: seq<seq<byte>>

    constructor (chunks: seq<seq<byte>>)
      ensures rest == chunks
    {
      rest := chunks;
    }

    method Read() returns (done: bool, value: seq<byte>)
      modifies this
      ensures done <==> old(rest) == []
      ensures done ==> rest == old(rest) && value == []
      ensures !done ==> old(rest) == [value] + rest
    {
      done, value := rest == [], [];
      if !done {
        value, rest := rest[0], rest[1..];
      }
    }
  }

  /** Uint8Array.set: refused by the platform unless the source fits behind the offset. */
  method CopyAt(target: array<byte>, source: seq<byte>, offset: nat)
    requires offset + |source| <= target.Length
    modifies target
    ensures target[..] == old(target[..offset]) + source + old(target[offset + |source|..])
  {
    forall i | 0 <= i < |source| {
      target[offset + i] := source[i];
    }
  }

  /** The buffer holds every chunk's bytes in the order of arrival, and nothing else. */
  method ReadableStreamToBuffer(data: Reader) returns (combined: array<byte>)
    modifies data
    ensures fresh(combined) && combined[..] == Flatten(old(data.rest)) && data.rest == []
  {
    ghost var all := data.rest;
    var chunks: seq<seq<byte>>, totalLength := [], 0;
    while true
      invariant chunks + data.rest == all && totalLength == |Flatten(chunks)|
      decreases |data.rest|
    {
      var done, value := data.Read();
      if done {
        break;
      }
      FlattenSnoc(chunks, value);
      chunks, totalLength := chunks + [value], totalLength + |value|;
    }
    assert chunks == all;
    combined := new byte[totalLength];
    var offset, i := 0, 0;
    while i < |chunks|
      invariant 0 <= i <= |chunks| && offset == |Flatten(chunks[..i])| && offset <= combined.Length
      invariant combined[..offset] == Flatten(chunks[..i]) && data.rest == []
    {
      assert chunks[..i + 1] == chunks[..i] + [chunks[i]];
      FlattenSnoc(chunks[..i], chunks[i]);
      FlattenPrefix(chunks, i + 1);
      CopyAt(combined, chunks[i], offset);
      offset, i := offset + |chunks[i]|, i + 1;
    }
    assert chunks[..i] == chunks;
  }
}
