/** `FixedBuffer`, the fixed-size text buffer of the logger, and `LogStream`, the formatter that
    fills one of 4000 bytes for every log message. */
module LogStream {
  import opened Sequences
  import opened IntegerFormat

  const SMALL_BUFFER := 4000
  const MAX_NUMERIC_SIZE := 32

  class FixedBuffer {
    const data: array<char>
    var cur: nat
    // What was appended, one entry a call, since the buffer was last empty.
    ghost var records: seq<string>

    ghost predicate Valid()
      reads this, data
    {
      cur <= data.Length && Flatten(records) == data[..cur]
    }

    constructor (size: nat)
      ensures Valid() && data.Length == size && fresh(data)
      ensures cur == 0 && records == []
    {
      data := new char[size];
      cur := 0;
      records := [];
    }

    function Avail(): nat
      requires cur <= data.Length
      reads this
    {
      data.Length - cur
    }

    function Text(): string
      requires cur <= data.Length
      reads this, data
    {
      data[..cur]
    }

    /** All of `buf` or nothing, and never the last byte. */
    method Append(buf: string)
      requires Valid()
      modifies this, data
      ensures Valid()
      ensures records == if old(Avail()) > |buf| then old(records) + [buf] else old(records)
      ensures Text() == if old(Avail()) > |buf| then old(Text()) + buf else old(Text())
    {
      if Avail() > |buf| {
        forall k | 0 <= k < |buf| { data[cur + k] := buf[k]; }
        Add(|buf|, buf);
      }
    }

    /** Takes in `len` bytes that were written behind `cur`. */
    method Add(len: nat, ghost record: string)
      requires Valid() && cur + len <= data.Length && data[cur..cur + len] == record
      modifies this
      ensures Valid() && cur == old(cur) + len && records == old(records) + [record]
      ensures Text() == old(Text()) + record
    {
      FlattenPush(records, record);
      assert data[..cur + len] == data[..cur] + data[cur..cur + len];
      cur := cur + len;
      records := records + [record];
    }

    method Reset()
      modifies this
      ensures Valid() && cur == 0 && records == []
    {
      cur := 0;
      records := [];
    }
  }

  class LogStream {
    const buffer: FixedBuffer

    /** A message never fills the buffer to its last byte. */
    ghost predicate Valid()
      reads this, buffer, buffer.data
    {
      buffer.Valid() && buffer.data.Length == SMALL_BUFFER && buffer.cur < SMALL_BUFFER
    }

    constructor ()
      ensures Valid() && buffer.Text() == "" && fresh(buffer) && fresh(buffer.data)
    {
      buffer := new FixedBuffer(SMALL_BUFFER);
    }

    /** The operators for characters, strings and booleans. */
    method AppendText(s: string)
      requires Valid()
      modifies buffer, buffer.data
      ensures Valid()
      ensures buffer.Text() == old(buffer.Text()) + if old(buffer.Avail()) > |s| then s else ""
    {
      buffer.Append(s);
    }

    /** The operators for integers: the decimal text of v, unless fewer than 32 bytes are left. */
    method FormatInteger(v: int)
      requires Valid() && Fits64(v)
      modifies buffer, buffer.data
      ensures Valid()
      ensures buffer.Text() == old(buffer.Text())
                             + if old(buffer.Avail()) >= MAX_NUMERIC_SIZE then Decimal(v) else ""
    {
      if buffer.Avail() >= MAX_NUMERIC_SIZE {
        ghost var before := buffer.Text();
        var len := Convert(buffer.data, buffer.cur, v);
        assert buffer.Text() == before;
        buffer.Add(len, Decimal(v));
      }
    }

    /** The operator for pointers: "0x" and the hexadecimal text of the address. */
    method FormatPointer(v: nat)
      requires Valid() && v < 0x1_0000_0000_0000_0000
      modifies buffer, buffer.data
      ensures Valid()
      ensures buffer.Text() == old(buffer.Text())
                             + if old(buffer.Avail()) >= MAX_NUMERIC_SIZE then "0x" + Numeral(v, 16) else ""
    {
      if buffer.Avail() >= MAX_NUMERIC_SIZE {
        ghost var before := buffer.Text();
        var p := buffer.cur;
        buffer.data[p] := '0';
        buffer.data[p + 1] := 'x';
        var len := ConvertHex(buffer.data, p + 2, v);
        assert buffer.Text() == before;
        assert buffer.data[p..p + (len + 2)] == ['0', 'x'] + buffer.data[p + 2..p + 2 + len];
        buffer.Add(len + 2, "0x" + Numeral(v, 16));
      }
    }
  }
}
