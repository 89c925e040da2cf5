/**
  The parser's input buffer: XML_GetBuffer, XML_ParseBuffer and XML_Parse, and the byte
  index reported during a callback.

  The source compiles with XML_CONTEXT_BYTES, so bytes already parsed stay in front of
  the pending ones. `fed` is the whole stream so far and `consumed` the part parsed.
*/
module InputBuffer {
  import opened Scanner

  const XML_CONTEXT_BYTES: nat := 1024
  const INIT_BUFFER_SIZE: nat := 1024

  /** `tail` is what `s` ends with. */
  predicate Ends(s: Text, tail: Text) { |tail| <= |s| && s[|s| - |tail|..] == tail }

  lemma EndsMore(s: Text, tail: Text, more: Text)
    requires Ends(s, tail)
    ensures Ends(s + more, tail + more)
  {
    assert (s + more)[|s + more| - |tail + more|..] == s[|s| - |tail|..] + more;
  }

  lemma EndsLess(s: Text, tail: Text, n: nat)
    requires Ends(s, tail) && n <= |tail|
    ensures Ends(s, tail[n..])
  {
    assert s[|s| - |tail[n..]|..] == s[|s| - |tail|..][n..];
  }

  class Input {
    var buffer: array<Byte>       // of length 0 for NULL
    var bufferPtr: nat            // bufferPtr, bufferEnd and parseEndPtr are offsets into it, its length is bufferLim
    var bufferEnd: nat
    var parseEndPtr: nat
    var parseEndByteIndex: nat
    ghost var fed: Text
    ghost var consumed: Text

    ghost function Pending(): Text
      requires bufferPtr <= bufferEnd <= buffer.Length
      reads this, buffer
    {
      buffer[bufferPtr..bufferEnd]
    }

    /** Every byte fed is consumed or pending, and the buffer holds the end of the stream. */
    ghost predicate Valid()
      reads this, buffer
    {
      && bufferPtr <= bufferEnd <= buffer.Length
      && fed == consumed + Pending()
      && Ends(fed, buffer[..bufferEnd])
      && parseEndByteIndex == |fed|
    }

    constructor ()
      ensures Valid() && fed == [] && consumed == [] && fresh(buffer)
    {
      buffer, bufferPtr, bufferEnd, parseEndPtr, parseEndByteIndex := new Byte[0], 0, 0, 0, 0;
      fed, consumed := [], [];
    }

    /** memmove within the buffer, down to its start. */
    method MoveDown(offset: nat)
      requires offset <= bufferPtr <= bufferEnd <= buffer.Length
      modifies this`bufferPtr, this`bufferEnd, buffer
      ensures bufferPtr == old(bufferPtr) - offset && bufferEnd == old(bufferEnd) - offset
      ensures buffer[..bufferEnd] == old(buffer[offset..bufferEnd])
    {
      var i, n := 0, bufferEnd - offset;
      ghost var was := buffer[..];
      while i < n
        invariant 0 <= i <= n && bufferPtr == old(bufferPtr) && bufferEnd == old(bufferEnd)
        invariant buffer[..i] == was[offset..offset + i] && buffer[i..] == was[i..]
      {
        assert buffer[i + offset] == buffer[i..][offset] == was[i + offset];
        buffer[i] := buffer[i + offset];
        i := i + 1;
      }
      bufferEnd := bufferEnd - offset;
      bufferPtr := bufferPtr - offset;
    }

    /** Copy what is kept to a new buffer of this size. */
    method MoveTo(size: nat, keep: nat)
      requires keep <= bufferPtr <= bufferEnd <= buffer.Length && keep + (bufferEnd - bufferPtr) <= size
      modifies this`buffer, this`bufferPtr, this`bufferEnd
      ensures fresh(buffer) && buffer.Length == size
      ensures bufferPtr == keep && bufferEnd == keep + old(bufferEnd - bufferPtr)
      ensures buffer[..bufferEnd] == old(buffer[bufferPtr - keep..bufferEnd])
    {
      var newBuf := new Byte[size];
      var from, off, n := buffer, bufferPtr - keep, bufferEnd - bufferPtr + keep;
      forall k | 0 <= k < n { newBuf[k] := from[off + k]; }
      buffer := newBuf;
      bufferEnd := n;
      bufferPtr := keep;
    }

    /** The part of XML_GetBuffer that finds the room, giving up `offset` bytes of old context. */
    method MakeRoom(len: nat) returns (ghost offset: nat)
      requires bufferPtr <= bufferEnd <= buffer.Length
      modifies this`buffer, this`bufferPtr, this`bufferEnd, buffer
      ensures buffer == old(buffer) || fresh(buffer)
      ensures offset <= old(bufferPtr) && bufferPtr == old(bufferPtr) - offset && bufferEnd == old(bufferEnd) - offset
      ensures bufferEnd + len <= buffer.Length && buffer[..bufferEnd] == old(buffer[offset..bufferEnd])
      ensures offset == 0 || bufferPtr == XML_CONTEXT_BYTES
    {
      offset := 0;
      if len > buffer.Length - bufferEnd {
        var keep := if bufferPtr > XML_CONTEXT_BYTES then XML_CONTEXT_BYTES else bufferPtr;
        var neededSize := len + (bufferEnd - bufferPtr) + keep;
        offset := bufferPtr - keep;
        if neededSize <= buffer.Length {
          if keep < bufferPtr {
            MoveDown(bufferPtr - keep);
          }
        } else {
          var bufferSize := buffer.Length - bufferPtr;
          if bufferSize == 0 {
            bufferSize := INIT_BUFFER_SIZE;
          }
          bufferSize := bufferSize * 2;
          while bufferSize < neededSize
            invariant bufferSize > 0
            decreases neededSize - bufferSize
          {
            bufferSize := bufferSize * 2;
          }
          MoveTo(bufferSize, keep);
        }
      }
    }

    /** XML_GetBuffer: room for `len` bytes after the pending ones. */
    method GetBuffer(len: nat) returns (at: nat)
      requires Valid()
      modifies this, buffer
      ensures Valid() && (buffer == old(buffer) || fresh(buffer))
      ensures at == bufferEnd && bufferEnd + len <= buffer.Length
      ensures fed == old(fed) && consumed == old(consumed) && Pending() == old(Pending())
      ensures bufferPtr <= old(bufferPtr) && (bufferPtr >= XML_CONTEXT_BYTES || bufferPtr == old(bufferPtr))
      ensures buffer[..bufferPtr] == old(buffer[..bufferPtr])[old(bufferPtr) - bufferPtr..]
    {
      hide Ends;
      ghost var was, ptr := buffer[..bufferEnd], bufferPtr;
      assert Pending() == was[ptr..] && buffer[..ptr] == was[..ptr];
      ghost var offset := MakeRoom(len);
      EndsLess(fed, was, offset);
      assert old(buffer[offset..bufferEnd]) == was[offset..];
      ghost var now := buffer[..bufferEnd];
      Slices(was, ptr, offset);
      assert buffer[bufferPtr..bufferEnd] == now[bufferPtr..] && buffer[..bufferPtr] == now[..bufferPtr];
      at := bufferEnd;
    }

    /** XML_ParseBuffer up to the call of the processor: the caller has put `len` bytes at the end. */
    method Begin(len: nat)
      requires Valid() && bufferEnd + len <= buffer.Length
      modifies this
      ensures Valid() && buffer == old(buffer) && bufferPtr == old(bufferPtr) && consumed == old(consumed)
      ensures fed == old(fed) + old(buffer[bufferEnd..bufferEnd + len]) && parseEndPtr == bufferEnd
      ensures Pending() == old(Pending()) + old(buffer[bufferEnd..bufferEnd + len])
    {
      hide Ends;
      ghost var data := buffer[bufferEnd..bufferEnd + len];
      EndsMore(fed, buffer[..bufferEnd], data);
      Joins(buffer, bufferPtr, bufferEnd, bufferEnd + len);
      Assoc(consumed, Pending(), data);
      fed := fed + data;
      bufferEnd := bufferEnd + len;
      parseEndPtr := bufferEnd;
      parseEndByteIndex := parseEndByteIndex + len;
    }

    /** XML_GetCurrentByteIndex, for an event in the text that the processor was given. */
    method ByteIndex(eventPtr: nat) returns (index: int)
      requires Valid() && parseEndPtr == bufferEnd && bufferPtr <= eventPtr <= bufferEnd
      ensures index == |consumed| + (eventPtr - bufferPtr) && 0 <= index <= |fed|
      ensures fed[index..] == buffer[eventPtr..bufferEnd]
    {
      index := parseEndByteIndex - (parseEndPtr - eventPtr);
      assert |Pending()| == bufferEnd - bufferPtr;
      assert fed[index..] == Pending()[eventPtr - bufferPtr..];
    }

    /** XML_ParseBuffer after the processor, which leaves bufferPtr behind what it used. */
    method Finish(ptr: nat)
      requires Valid() && bufferPtr <= ptr <= bufferEnd
      modifies this`bufferPtr, this`consumed
      ensures Valid() && bufferPtr == ptr && consumed == old(consumed) + old(Pending())[..ptr - old(bufferPtr)]
    {
      ghost var used := buffer[bufferPtr..ptr];
      assert Pending() == used + buffer[ptr..bufferEnd] && Pending()[..ptr - bufferPtr] == used;
      assert consumed + (used + buffer[ptr..bufferEnd]) == (consumed + used) + buffer[ptr..bufferEnd];
      consumed := consumed + used;
      bufferPtr := ptr;
    }

    /** The caller, or memcpy, puts bytes behind the pending ones. */
    method CopyIn(at: nat, s: Text)
      requires Valid() && at == bufferEnd && at + |s| <= buffer.Length
      modifies buffer
      ensures Valid() && Pending() == old(Pending()) && buffer[at..at + |s|] == s
    {
      hide Ends;
      ghost var kept := buffer[..bufferEnd];
      assert Pending() == kept[bufferPtr..];
      var b := buffer;
      forall k | 0 <= k < |s| { b[at + k] := s[k]; }
      assert buffer[..bufferEnd] == kept;
      assert buffer[bufferPtr..bufferEnd] == kept[bufferPtr..];
    }

    /** XML_Parse up to the call of the processor. */
    method Feed(s: Text)
      requires Valid()
      modifies this, buffer
      ensures Valid() && (buffer == old(buffer) || fresh(buffer)) && consumed == old(consumed)
      ensures fed == old(fed) + s && Pending() == old(Pending()) + s
    {
      hide Ends;
      var at := GetBuffer(|s|);
      CopyIn(at, s);
      Begin(|s|);
    }

    /** XML_Parse; the processor will use `used` of the bytes that are then pending. */
    method Parse(s: Text, used: nat)
      requires Valid() && used <= |Pending()| + |s|
      modifies this, buffer
      ensures Valid() && (buffer == old(buffer) || fresh(buffer))
      ensures fed == old(fed) + s && consumed == old(consumed) + (old(Pending()) + s)[..used]
    {
      hide Ends;
      ghost var all := Pending() + s;
      Feed(s);
      assert |all| == bufferEnd - bufferPtr;
      Finish(bufferPtr + used);
    }
  }

  lemma Joins(b: array<Byte>, i: nat, j: nat, k: nat)
    requires i <= j <= k <= b.Length
    ensures b[..k] == b[..j] + b[j..k] && b[i..k] == b[i..j] + b[j..k]
  {
  }

  lemma Assoc(a: Text, b: Text, c: Text)
    ensures (a + b) + c == a + (b + c)
  {
  }

  lemma Slices(was: Text, ptr: nat, offset: nat)
    requires offset <= ptr <= |was|
    ensures was[offset..][ptr - offset..] == was[ptr..]
    ensures was[offset..][..ptr - offset] == was[..ptr][offset..]
  {
  }
}
