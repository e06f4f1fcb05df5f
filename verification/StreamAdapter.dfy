/** The stream adapter: a file-like reader over an iterator of chunks. */
module StreamAdapter {
  newtype byte = x: int | 0 <= x < 256

  function Flat(chunks: seq<seq<byte>>): seq<byte> {
    if chunks == [] then [] else Flat(chunks[..|chunks| - 1]) + chunks[|chunks| - 1]
  }

  lemma {:induction false} FlatPrefix(chunks: seq<seq<byte>>, n: nat)
    requires n <= |chunks|
    ensures Flat(chunks[..n]) <= Flat(chunks)
  {
    var last := |chunks| - 1;
    if n == |chunks| {
      assert chunks[..n] == chunks;
    } else {
      assert chunks[..last][..n] == chunks[..n];
      FlatPrefix(chunks[..last], n);
    }
  }

  lemma FlatNext(chunks: seq<seq<byte>>, n: nat)
    requires n < |chunks|
    ensures Flat(chunks[..n+1]) == Flat(chunks[..n]) + chunks[n] && Flat(chunks[..n+1]) <= Flat(chunks)
  {
    assert chunks[..n+1][..n] == chunks[..n];
    FlatPrefix(chunks, n + 1);
  }

  /** What a plain file holding the whole content gives when read from a position: a
      negative size reads everything left. */
  function FileRead(content: seq<byte>, at: nat, size: int): seq<byte>
    requires at <= |content|
  {
    if size < 0 || at + size > |content| then content[at..] else content[at..at+size]
  }

  class IteratorIO {
    const chunks: seq<seq<byte>>
    var next: nat
    var buffer: seq<byte>
    var streamEnded: bool
    ghost var returned: seq<byte>

    /** What was handed out and the buffer make up what was taken from the iterator; an
        ended stream has nothing buffered. */
    ghost predicate Valid()
      reads this
    {
      && next <= |chunks| && returned + buffer == Flat(chunks[..next])
      && (streamEnded ==> buffer == [] && next == |chunks|)
    }

    constructor (chunks: seq<seq<byte>>)
      ensures Valid() && this.chunks == chunks && returned == [] && !streamEnded
    {
      this.chunks := chunks;
      next, buffer, streamEnded, returned := 0, [], false, [];
    }

    /** Reads like a plain file over the concatenated chunks, whatever their sizes. A
        read of positive size gives exactly that many bytes until the stream has ended,
        and takes no chunk it does not need. */
    method Read(size: int) returns (result: seq<byte>)
      requires Valid()
      modifies this
      ensures Valid() && returned == old(returned) + result
      ensures |old(returned)| <= |Flat(chunks)| && result == FileRead(Flat(chunks), |old(returned)|, size)
      ensures size > 0 && !streamEnded ==> |result| == size
      ensures streamEnded ==> returned == Flat(chunks)
      ensures size > 0 ==> (result == [] <==> |old(returned)| == |Flat(chunks)|)
      ensures size >= 0 && next > old(next) ==> |Flat(chunks[..next-1])| < |old(returned)| + size
    {
      ghost var content, at := Flat(chunks), |returned|;
      FlatPrefix(chunks, next);
      assert chunks[..|chunks|] == chunks;
      if streamEnded { return []; }
      Fill(size);
      hide Flat;
      assert returned + buffer <= content;
      if size < 0 || |buffer| < size {
        result, buffer := buffer, [];
      } else {
        result, buffer := buffer[..size], buffer[size..];
      }
      returned := returned + result;
    }

    /** Takes chunks until the buffer holds enough or the iterator is exhausted. */
    method Fill(size: int)
      requires Valid() && !streamEnded
      modifies this`next, this`buffer, this`streamEnded
      ensures next <= |chunks| && returned + buffer == Flat(chunks[..next]) <= Flat(chunks)
      ensures if size < 0 || |buffer| < size then streamEnded && next == |chunks| else !streamEnded
      ensures old(next) <= next
      ensures size >= 0 && next > old(next) ==> |Flat(chunks[..next-1])| < |returned| + size
    {
      FlatPrefix(chunks, next);
      hide Flat;
      while size < 0 || |buffer| < size
        invariant old(next) <= next <= |chunks| && !streamEnded
        invariant returned + buffer == Flat(chunks[..next]) <= Flat(chunks)
        invariant size >= 0 && next > old(next) ==> |Flat(chunks[..next-1])| < |returned| + size
        decreases |chunks| - next
      {
        if next == |chunks| {
          streamEnded := true;
          break;
        }
        FlatNext(chunks, next);
        buffer := buffer + chunks[next];
        next := next + 1;
      }
    }
  }
}
