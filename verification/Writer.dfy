/** The growing byte buffer of a section (`section_writer`). */
module Writer {
  import opened Base
  import opened Patch

  class SectionWriter {
    var data: seq<u8>

    constructor ()
      ensures data == []
    {
      data := [];
    }

    method WriteByte(byte: u8)
      modifies this
      ensures data == old(data) + [byte]
    {
      data := data + [byte];
    }

    method WriteBytes(bytes: seq<u8>)
      modifies this
      ensures data == old(data) + bytes
    {
      var i := 0;
      while i < |bytes|
        invariant i <= |bytes| && data == old(data) + bytes[..i]
      {
        WriteByte(bytes[i]);
        assert bytes[..i + 1] == bytes[..i] + [bytes[i]];
        i := i + 1;
      }
      assert bytes[..|bytes|] == bytes;
    }

    method WriteWord(word: u32)
      modifies this
      ensures data == old(data) + Bytes(word, 4)
      ensures Word(data, |old(data)|) == word
    {
      WriteByte(word % 0x100);
      WriteByte(word / 0x100 % 0x100);
      WriteByte(word / 0x1_0000 % 0x100);
      WriteByte(word / 0x100_0000 % 0x100);
      WordBytes(word);
      JoinBytes(word);
    }

    method Tell() returns (n: nat)
      ensures n == |data|
    {
      n := |data|;
    }

    method ReadWord(offset: nat) returns (r: Result<u32>)
      ensures r == if offset + 4 <= |data| then Ok(Word(data, offset)) else Err(ReadBeyondData)
    {
      if offset + 3 >= |data| {
        return Err(ReadBeyondData);
      }
      return Ok((data[offset + 3] as int) * 0x100_0000 + (data[offset + 2] as int) * 0x1_0000
        + (data[offset + 1] as int) * 0x100 + (data[offset] as int));
    }

    method WriteWordAt(offset: nat, word: u32)
      requires offset + 4 <= |data|
      modifies this
      ensures data == Put(old(data), offset, word)
      ensures |data| == |old(data)| && Word(data, offset) == word
      ensures forall k :: 0 <= k < |data| && (k < offset || offset + 4 <= k) ==> data[k] == old(data[k])
    {
      data := data[offset := word % 0x100];
      data := data[offset + 1 := word / 0x100 % 0x100];
      data := data[offset + 2 := word / 0x1_0000 % 0x100];
      data := data[offset + 3 := word / 0x100_0000 % 0x100];
      PutWord(old(data), offset, word, offset);
      assert data == Put(old(data), offset, word);
    }

    /** Zero bytes up to the page size; throws when the content is already larger. */
    method Padding(pagesize: nat) returns (r: Result<()>)
      modifies this
      ensures r == if old(|data|) > pagesize then Err(PageOverflow) else Ok(())
      ensures data == old(data) + (if old(|data|) > pagesize then [] else seq(pagesize - old(|data|), _ => 0))
    {
      if |data| > pagesize {
        return Err(PageOverflow);
      }
      var padsize := pagesize - |data|;
      for i := 0 to padsize
        invariant data == old(data) + seq(i, _ => 0)
      {
        WriteByte(0);
      }
      return Ok(());
    }
  }
}
