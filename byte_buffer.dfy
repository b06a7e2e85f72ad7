/** A growable byte buffer with a read/write cursor: fixed-width values are
    stored in the host's little-endian layout, strings either NUL-terminated
    or as a length-prefixed run of UTF-16 code units.

    Where the source checks for an overrun and aborts, the method returns
    `aborted == true` and leaves the buffer as it was (the statement after
    the abort is a plain return). Where the source only asserts, the
    assertion is a precondition. */
module ByteBuffer {
  import opened Wrappers

  type Int8 = x: int | -0x80 <= x < 0x80
  type Int16 = x: int | -0x8000 <= x < 0x8000
  type UInt16 = x: int | 0 <= x < 0x1_0000
  type Int32 = x: int | -0x8000_0000 <= x < 0x8000_0000
  type UInt32 = x: int | 0 <= x < 0x1_0000_0000
  type UInt64 = x: int | 0 <= x < 0x1_0000_0000_0000_0000

  // ---------------------------------------------------------------------------
  // Byte layouts

  function Pow256(n: nat): (r: nat)
    ensures r >= 1
  {
    if n == 0 then 1 else 256 * Pow256(n - 1)
  }

  /** The unsigned value of a run of bytes, least significant byte first. */
  function LittleEndian(s: seq<Byte>): (v: nat)
    ensures v < Pow256(|s|)
  {
    if s == [] then 0 else s[0] + 256 * LittleEndian(s[1..])
  }

  /** The n bytes that hold v, least significant byte first. */
  function ToLittleEndian(v: nat, n: nat): (s: seq<Byte>)
    requires v < Pow256(n)
    ensures |s| == n
  {
    if n == 0 then [] else [v % 256] + ToLittleEndian(v / 256, n - 1)
  }

  lemma {:induction false} DecodeEncode(v: nat, n: nat)
    requires v < Pow256(n)
    ensures LittleEndian(ToLittleEndian(v, n)) == v
  {
    if n > 0 {
      DecodeEncode(v / 256, n - 1);
      assert ToLittleEndian(v, n)[1..] == ToLittleEndian(v / 256, n - 1);
    }
  }

  lemma {:induction false} EncodeDecode(s: seq<Byte>)
    ensures ToLittleEndian(LittleEndian(s), |s|) == s
  {
    if s != [] {
      EncodeDecode(s[1..]);
      var v := LittleEndian(s);
      assert v % 256 == s[0] && v / 256 == LittleEndian(s[1..]);
    }
  }

  /** The n-byte unsigned pattern that stores the signed value v (a cast to
      the unsigned type of the same width). */
  function TwosComplement(v: int, n: nat): (u: nat)
    requires 1 <= n && -(Pow256(n) / 2) <= v < Pow256(n) / 2
    ensures u < Pow256(n)
  {
    if v >= 0 then v else v + Pow256(n)
  }

  /** Two's-complement reading of an n-byte unsigned value. */
  function Signed(u: nat, n: nat): (v: int)
    requires 1 <= n && u < Pow256(n)
    ensures -(Pow256(n) / 2) <= v < Pow256(n) / 2
    ensures TwosComplement(v, n) == u
  {
    Pow256Half(n);
    if u < Pow256(n) / 2 then u else u - Pow256(n)
  }

  /** Every width of at least one byte has an even number of patterns. */
  lemma Pow256Half(n: nat)
    requires 1 <= n
    ensures Pow256(n) == 2 * (Pow256(n) / 2)
  {
    assert Pow256(n) == 2 * (128 * Pow256(n - 1));
  }

  lemma SignedOfTwosComplement(v: int, n: nat)
    requires 1 <= n && -(Pow256(n) / 2) <= v < Pow256(n) / 2
    ensures Signed(TwosComplement(v, n), n) == v
  {
  }

  /** s with the window starting at p overwritten by bytes. */
  function Splice(s: seq<Byte>, p: nat, bytes: seq<Byte>): (r: seq<Byte>)
    requires p + |bytes| <= |s|
    ensures |r| == |s| && r[p..p + |bytes|] == bytes
    ensures forall i :: 0 <= i < |s| && !(p <= i < p + |bytes|) ==> r[i] == s[i]
  {
    s[..p] + bytes + s[p + |bytes|..]
  }

  /** A signed value written at p reads back as itself. */
  lemma ReadAfterWrite(s: seq<Byte>, p: nat, v: int, n: nat)
    requires 1 <= n && -(Pow256(n) / 2) <= v < Pow256(n) / 2 && p + n <= |s|
    ensures Signed(LittleEndian(Splice(s, p, ToLittleEndian(TwosComplement(v, n), n))[p..p + n]), n) == v
  {
    DecodeEncode(TwosComplement(v, n), n);
    SignedOfTwosComplement(v, n);
  }

  /** An unsigned value (or the bit pattern of a float) written at p reads back as itself. */
  lemma ReadAfterWriteUnsigned(s: seq<Byte>, p: nat, v: nat, n: nat)
    requires v < Pow256(n) && p + n <= |s|
    ensures LittleEndian(Splice(s, p, ToLittleEndian(v, n))[p..p + n]) == v
  {
    DecodeEncode(v, n);
  }

  // ---------------------------------------------------------------------------
  // NUL-terminated and UTF-16 strings

  predicate NoNul(str: seq<Byte>)
  {
    forall i :: 0 <= i < |str| ==> str[i] != 0
  }

  predicate HasNul(s: seq<Byte>, p: nat)
  {
    exists k :: p <= k < |s| && s[k] == 0
  }

  /** The C string starting at p: the bytes up to the first NUL. */
  function CStringAt(s: seq<Byte>, p: nat): (str: seq<Byte>)
    requires HasNul(s, p)
    ensures p + |str| < |s| && s[p + |str|] == 0
    ensures NoNul(str) && str == s[p..p + |str|]
    decreases |s| - p
  {
    if s[p] == 0 then [] else [s[p]] + CStringAt(s, p + 1)
  }

  /** A run of non-NUL bytes followed by a NUL is the C string there. */
  lemma {:induction false} CStringAtIs(s: seq<Byte>, p: nat, k: nat)
    requires p + k < |s| && s[p + k] == 0 && NoNul(s[p..p + k])
    ensures HasNul(s, p) && CStringAt(s, p) == s[p..p + k]
    decreases k
  {
    assert s[p + k] == 0;
    if k > 0 {
      assert s[p] == s[p..p + k][0];
      assert s[p + 1..p + k] == s[p..p + k][1..];
      CStringAtIs(s, p + 1, k - 1);
      assert s[p..p + k] == [s[p]] + s[p + 1..p + k];
    }
  }

  /** A string written with its terminator reads back as itself. */
  lemma CStringRoundTrip(s: seq<Byte>, p: nat, str: seq<Byte>)
    requires NoNul(str) && p + |str| + 1 <= |s|
    ensures HasNul(Splice(s, p, str + [0]), p)
    ensures CStringAt(Splice(s, p, str + [0]), p) == str
  {
    var t := Splice(s, p, str + [0]);
    assert t[p..p + |str| + 1] == str + [0];
    assert t[p..p + |str|] == str;
    assert t[p + |str|] == 0;
    CStringAtIs(t, p, |str|);
  }

  /** The bytes before the first NUL of s (all of s when it has none): what
      constructing a std::string from a NUL-terminated character array keeps. */
  function TakeUntilNul(s: seq<Byte>): (r: seq<Byte>)
    ensures |r| <= |s| && r == s[..|r|] && NoNul(r)
    ensures |r| < |s| ==> s[|r|] == 0
    ensures NoNul(s) ==> r == s
  {
    if s == [] || s[0] == 0 then [] else [s[0]] + TakeUntilNul(s[1..])
  }

  /** The n bytes at p, p + 2, p + 4, ...: the low bytes of n UTF-16LE code units. */
  function EveryOther(s: seq<Byte>, p: nat, n: nat): (r: seq<Byte>)
    requires p + 2 * n <= |s|
    ensures |r| == n
  {
    seq(n, i requires 0 <= i < n => s[p + 2 * i])
  }

  /** The UTF-16LE encoding of a Latin-1 string: each byte followed by a zero byte. */
  function Utf16Latin1(str: seq<Byte>): (r: seq<Byte>)
    ensures |r| == 2 * |str|
  {
    if str == [] then [] else [str[0], 0] + Utf16Latin1(str[1..])
  }

  /** Reading every other byte of a UTF-16LE Latin-1 string recovers it. */
  lemma {:induction false} EveryOtherUtf16(str: seq<Byte>)
    ensures EveryOther(Utf16Latin1(str), 0, |str|) == str
  {
    if str != [] {
      EveryOtherUtf16(str[1..]);
      var u := Utf16Latin1(str);
      forall i | 0 <= i < |str|
        ensures u[2 * i] == str[i]
      {
        if i > 0 {
          assert u[2 * i] == Utf16Latin1(str[1..])[2 * (i - 1)];
          assert EveryOther(Utf16Latin1(str[1..]), 0, |str| - 1)[i - 1] == str[1..][i - 1];
        }
      }
    }
  }

  /** The bytes of a run of floats, each as its 4-byte bit pattern. */
  function FloatBytes(values: seq<UInt32>): (r: seq<Byte>)
    ensures |r| == 4 * |values|
    ensures forall i :: 0 <= i < |values| ==> LittleEndian(r[4 * i..4 * i + 4]) == values[i]
  {
    if values == [] then []
    else
      DecodeEncode(values[0], 4);
      var rest := FloatBytes(values[1..]);
      var r := ToLittleEndian(values[0], 4) + rest;
      assert forall i :: 1 <= i < |values| ==> r[4 * i..4 * i + 4] == rest[4 * (i - 1)..4 * (i - 1) + 4];
      r
  }

  // ---------------------------------------------------------------------------
  // The fill guard, as written and as intended

  /** The overrun test that fill performs: it compares the position alone. */
  predicate FillOverrunAsWritten(pos: nat, capacity: nat, numBytes: nat): (fires: bool)
    ensures fires ==> pos + numBytes > capacity
  {
    pos > capacity
  }

  /** The guard never fires on a buffer whose position is inside it, however
      many bytes are asked for; on a 4-byte buffer, 8 bytes pass it. */
  lemma FillGuardMissesOverrun(pos: nat, capacity: nat, numBytes: nat)
    requires pos <= capacity
    ensures !FillOverrunAsWritten(pos, capacity, numBytes)
    ensures !FillOverrunAsWritten(0, 4, 8) && 0 + 8 > 4
  {
  }

  /** The overrun test fill needs: the end of the filled run must stay inside. */
  predicate FillOverrun(pos: nat, capacity: nat, numBytes: nat): (fires: bool)
    ensures FillOverrunAsWritten(pos, capacity, numBytes) ==> fires
    ensures numBytes == 0 ==> (fires <==> FillOverrunAsWritten(pos, capacity, numBytes))
  {
    pos + numBytes > capacity
  }

  // ---------------------------------------------------------------------------
  // peekInt, as written and as intended

  /** A byte read through a signed `char`, widened to a 32-bit int. */
  function SignExtend(b: Byte): bv32
  {
    if b < 0x80 then b as bv32 else b as bv32 | 0xFFFF_FF00
  }

  /** A sign-extended byte sets every bit above the low eight, so OR-ing the
      higher bytes in, shifted above it, changes nothing. */
  lemma SignExtensionSwamps(low: bv32, x: bv32, y: bv32, z: bv32)
    ensures (low | 0xFFFF_FF00) | (x << 8) | (y << 16) | (z << 24) == low | 0xFFFF_FF00
  {
  }

  /** peekInt as written: the four bytes read through `char`, shifted and
      OR-ed, on a target where `char` is signed. */
  function PeekIntAsWritten(b: seq<Byte>): (v: Int32)
    requires |b| == 4
    ensures b[0] >= 0x80 ==> v == Signed(SignExtend(b[0]) as nat, 4)
  {
    var w := SignExtend(b[0]) | (SignExtend(b[1]) << 8) | (SignExtend(b[2]) << 16) | (SignExtend(b[3]) << 24);
    assert b[0] >= 0x80 ==> w == SignExtend(b[0]) by {
      if b[0] >= 0x80 {
        SignExtensionSwamps(b[0] as bv32, SignExtend(b[1]), SignExtend(b[2]), SignExtend(b[3]));
      }
    }
    Signed(w as nat, 4)
  }

  /** With the low byte 0x80, the as-written peek gives -128 where reading
      the same four bytes as an int gives 128. */
  lemma PeekIntSignExtension()
    ensures PeekIntAsWritten([0x80, 0, 0, 0]) == -128
    ensures Signed(LittleEndian([0x80, 0, 0, 0]), 4) == 128
  {
    assert LittleEndian([0x80, 0, 0, 0]) == 128 by {
      assert [0x80, 0, 0, 0][1..] == [0, 0, 0];
      assert [0, 0, 0][1..] == [0, 0];
      assert [0, 0][1..] == [0];
    }
  }

  /** The integer peekInt is meant to return: the same int readInt returns. */
  function PeekIntOf(b: seq<Byte>): (v: Int32)
    requires |b| == 4
    ensures TwosComplement(v, 4) == LittleEndian(b)
  {
    Signed(LittleEndian(b), 4)
  }

  // ---------------------------------------------------------------------------
  // The buffer

  /** The capacity grow moves to: the larger of half again the old capacity
      and exactly what is required. */
  function GrownCapacity(capacity: nat, pos: nat, additional: nat): (r: nat)
    requires pos + additional > capacity
    ensures r >= pos + additional && r >= capacity + capacity / 2
    ensures r == pos + additional || r == capacity + capacity / 2
  {
    capacity + if capacity / 2 > pos + additional - capacity then capacity / 2 else pos + additional - capacity
  }

  class Buffer {
    var pos: nat
    var capacity: nat
    var limit: nat
    var buffer: array<Byte>
    /** Whether the buffer owns (and may reallocate) its bytes. */
    var freeOnDealloc: bool

    ghost predicate Valid()
      reads this
    {
      buffer.Length == capacity && pos <= capacity && limit <= capacity
    }

    /** A buffer owning `capacity` bytes of unspecified content. */
    constructor (capacity: nat)
      ensures Valid() && fresh(buffer)
      ensures pos == 0 && this.capacity == capacity && limit == capacity && freeOnDealloc
    {
      pos, this.capacity, limit := 0, capacity, capacity;
      buffer := new Byte[capacity];
      freeOnDealloc := true;
    }

    /** A buffer over `bytes`: a private copy when `copy`, else a view of them. */
    constructor FromBytes(bytes: array<Byte>, copy: bool)
      ensures Valid() && pos == 0 && capacity == bytes.Length && limit == capacity
      ensures freeOnDealloc == copy && buffer[..] == bytes[..]
      ensures copy ==> fresh(buffer)
      ensures !copy ==> buffer == bytes
    {
      pos, capacity, limit := 0, bytes.Length, bytes.Length;
      freeOnDealloc := copy;
      if copy {
        buffer := new Byte[bytes.Length](i reads bytes => if 0 <= i < bytes.Length then bytes[i] else 0);
      } else {
        buffer := bytes;
      }
    }

    /** A view of a string's bytes, which the buffer does not own. */
    constructor FromString(byteString: seq<Byte>)
      ensures Valid() && pos == 0 && capacity == |byteString| && limit == capacity
      ensures !freeOnDealloc && buffer[..] == byteString
    {
      pos, capacity, limit := 0, |byteString|, |byteString|;
      buffer := new Byte[|byteString|](i => if 0 <= i < |byteString| then byteString[i] else 0);
      freeOnDealloc := false;
    }

    /** A private copy of every byte of another buffer, cursor at 0. */
    constructor CopyOf(toCopy: Buffer)
      requires toCopy.Valid()
      ensures Valid() && fresh(buffer) && freeOnDealloc
      ensures pos == 0 && capacity == toCopy.capacity && limit == capacity
      ensures buffer[..] == toCopy.buffer[..]
    {
      var source := toCopy.buffer;
      pos, capacity, limit := 0, toCopy.capacity, toCopy.capacity;
      buffer := new Byte[source.Length](i reads source => if 0 <= i < source.Length then source[i] else 0);
      freeOnDealloc := true;
    }

    /** Move construction: takes over the other buffer's bytes and ownership;
        the other keeps its position and limit but no bytes. */
    constructor MoveFrom(moveFrom: Buffer)
      requires moveFrom.Valid()
      modifies moveFrom
      ensures Valid() && pos == 0 && capacity == old(moveFrom.capacity) && limit == capacity
      ensures buffer == old(moveFrom.buffer) && freeOnDealloc == old(moveFrom.freeOnDealloc)
      ensures moveFrom.capacity == 0 && moveFrom.buffer.Length == 0 && !moveFrom.freeOnDealloc
      ensures moveFrom.pos == old(moveFrom.pos) && moveFrom.limit == old(moveFrom.limit)
    {
      pos, capacity, limit := 0, moveFrom.capacity, moveFrom.capacity;
      buffer, freeOnDealloc := moveFrom.buffer, moveFrom.freeOnDealloc;
      new;
      moveFrom.capacity := 0;
      moveFrom.buffer := new Byte[0];
      moveFrom.freeOnDealloc := false;
    }

    /** Move assignment: takes over every field of the other buffer, which is
        left without bytes (a buffer moved into itself ends up so too). */
    method MoveAssign(moveFrom: Buffer)
      modifies this, moveFrom
      ensures moveFrom != this ==> pos == old(moveFrom.pos) && limit == old(moveFrom.limit)
      ensures moveFrom != this ==> buffer == old(moveFrom.buffer) && capacity == old(moveFrom.capacity)
      ensures moveFrom != this ==> freeOnDealloc == old(moveFrom.freeOnDealloc)
      ensures moveFrom.capacity == 0 && moveFrom.buffer.Length == 0 && !moveFrom.freeOnDealloc
      ensures moveFrom.pos == old(moveFrom.pos) && moveFrom.limit == old(moveFrom.limit)
    {
      pos, capacity, limit := moveFrom.pos, moveFrom.capacity, moveFrom.limit;
      buffer, freeOnDealloc := moveFrom.buffer, moveFrom.freeOnDealloc;
      moveFrom.buffer := new Byte[0];
      moveFrom.capacity := 0;
      moveFrom.freeOnDealloc := false;
    }

    method SetPosition(position: nat)
      requires Valid() && position <= capacity
      modifies this`pos
      ensures Valid() && pos == position
    {
      pos := position;
    }

    method Skip(numBytes: nat)
      requires Valid() && pos + numBytes <= capacity
      modifies this`pos
      ensures Valid() && pos == old(pos) + numBytes
    {
      pos := pos + numBytes;
    }

    /** The memcpy-and-advance step every fixed-width read shares. */
    method Take(n: nat) returns (bytes: seq<Byte>)
      requires Valid() && pos + n <= capacity
      modifies this`pos
      ensures Valid() && pos == old(pos) + n && bytes == buffer[old(pos)..pos]
    {
      bytes := buffer[pos..pos + n];
      pos := pos + n;
    }

    method ReadBool() returns (b: bool)
      requires Valid() && pos + 1 <= capacity
      modifies this`pos
      ensures Valid() && pos == old(pos) + 1 && (b <==> buffer[old(pos)] == 1)
    {
      var byte := ReadByte();
      b := byte == 1;
    }

    /** The 4-byte bit pattern of a float. */
    method ReadFloat() returns (bits: UInt32)
      requires Valid() && pos + 4 <= capacity
      modifies this`pos
      ensures Valid() && pos == old(pos) + 4 && bits == LittleEndian(buffer[old(pos)..pos])
    {
      var bytes := Take(4);
      bits := LittleEndian(bytes);
    }

    /** The 8-byte bit pattern of a double. */
    method ReadDouble() returns (bits: UInt64)
      requires Valid() && pos + 8 <= capacity
      modifies this`pos
      ensures Valid() && pos == old(pos) + 8 && bits == LittleEndian(buffer[old(pos)..pos])
    {
      var bytes := Take(8);
      bits := LittleEndian(bytes);
    }

    method ReadInt() returns (v: Int32)
      requires Valid() && pos + 4 <= capacity
      modifies this`pos
      ensures Valid() && pos == old(pos) + 4 && v == Signed(LittleEndian(buffer[old(pos)..pos]), 4)
    {
      var bytes := Take(4);
      v := Signed(LittleEndian(bytes), 4);
    }

    method ReadShort() returns (v: Int16)
      requires Valid() && pos + 2 <= capacity
      modifies this`pos
      ensures Valid() && pos == old(pos) + 2 && v == Signed(LittleEndian(buffer[old(pos)..pos]), 2)
    {
      var bytes := Take(2);
      v := Signed(LittleEndian(bytes), 2);
    }

    method ReadUnsignedShort() returns (v: UInt16)
      requires Valid() && pos + 2 <= capacity
      modifies this`pos
      ensures Valid() && pos == old(pos) + 2 && v == LittleEndian(buffer[old(pos)..pos])
    {
      var bytes := Take(2);
      v := LittleEndian(bytes);
    }

    method ReadByte() returns (v: Int8)
      requires Valid() && pos + 1 <= capacity
      modifies this`pos
      ensures Valid() && pos == old(pos) + 1 && v == Signed(buffer[old(pos)], 1)
      ensures v == old(PeekByte())
    {
      v := Signed(buffer[pos], 1);
      pos := pos + 1;
    }

    method ReadUnsignedByte() returns (v: Byte)
      requires Valid() && pos + 1 <= capacity
      modifies this`pos
      ensures Valid() && pos == old(pos) + 1 && v == buffer[old(pos)]
    {
      v := buffer[pos];
      pos := pos + 1;
    }

    /** An unsigned 8-byte value. */
    method ReadLong() returns (v: UInt64)
      requires Valid() && pos + 8 <= capacity
      modifies this`pos
      ensures Valid() && pos == old(pos) + 8 && v == LittleEndian(buffer[old(pos)..pos])
    {
      var bytes := Take(8);
      v := LittleEndian(bytes);
    }

    /** The C string at the cursor; the cursor moves past its terminator. */
    method ReadStringNullTerm() returns (str: seq<Byte>)
      requires Valid() && HasNul(buffer[..], pos)
      modifies this`pos
      ensures Valid() && str == CStringAt(buffer[..], old(pos)) && pos == old(pos) + |str| + 1
    {
      var k := pos;
      while buffer[k] != 0
        invariant pos <= k < capacity && NoNul(buffer[pos..k])
        invariant HasNul(buffer[..], k)
        decreases capacity - k
      {
        assert buffer[pos..k + 1] == buffer[pos..k] + [buffer[k]];
        k := k + 1;
      }
      str := buffer[pos..k];
      CStringAtIs(buffer[..], pos, k - pos);
      assert buffer[..][pos..k] == str;
      pos := k + 1;
    }

    /** The same reading as ReadStringNullTerm. */
    method ReadSTLStringUTF8NullTerm() returns (str: seq<Byte>)
      requires Valid() && HasNul(buffer[..], pos)
      modifies this`pos
      ensures Valid() && str == CStringAt(buffer[..], old(pos)) && pos == old(pos) + |str| + 1
    {
      str := ReadStringNullTerm();
    }

    /** A 2-byte count n followed by n UTF-16LE code units, of which the low
        byte of each is kept. */
    method ReadSTLString() returns (s: seq<Byte>)
      requires Valid() && pos + 2 <= capacity
      requires var n := Signed(LittleEndian(buffer[pos..pos + 2]), 2); n >= 0 && pos + 2 + 2 * n <= capacity
      modifies this`pos
      ensures var n := Signed(LittleEndian(buffer[old(pos)..old(pos) + 2]), 2);
        Valid() && pos == old(pos) + 2 + 2 * n && s == EveryOther(buffer[..], old(pos) + 2, n)
    {
      var numChars := ReadShort();
      if numChars == 0 {
        return [];
      }
      s := [];
      var i := 0;
      while i < numChars
        invariant 0 <= i <= numChars && s == EveryOther(buffer[..], pos, i)
      {
        s := s + [buffer[pos + i * 2]];
        i := i + 1;
      }
      pos := pos + numChars * 2;
    }

    /** A 2-byte count n followed by n bytes. */
    method ReadSTLStringUTF8() returns (s: seq<Byte>)
      requires Valid() && pos + 2 <= capacity
      requires var n := Signed(LittleEndian(buffer[pos..pos + 2]), 2); n >= 0 && pos + 2 + n <= capacity
      modifies this`pos
      ensures var n := Signed(LittleEndian(buffer[old(pos)..old(pos) + 2]), 2);
        Valid() && pos == old(pos) + 2 + n && s == buffer[old(pos) + 2..pos]
    {
      var numBytes := ReadShort();
      if numBytes == 0 {
        return [];
      }
      s := buffer[pos..pos + numBytes];
      pos := pos + numBytes;
    }

    /** A 4-byte count n followed by n UTF-16LE code units; the low bytes are
        kept up to the first NUL among them. */
    method ReadSTLText() returns (s: seq<Byte>)
      requires Valid() && pos + 4 <= capacity
      requires var n := Signed(LittleEndian(buffer[pos..pos + 4]), 4); n >= 0 && pos + 4 + 2 * n <= capacity
      modifies this`pos
      ensures var n := Signed(LittleEndian(buffer[old(pos)..old(pos) + 4]), 4);
        Valid() && pos == old(pos) + 4 + 2 * n && s == TakeUntilNul(EveryOther(buffer[..], old(pos) + 4, n))
    {
      var numChars := ReadInt();
      if numChars == 0 {
        return [];
      }
      ghost var start := pos;
      var characters := [];
      var i := 0;
      while i < numChars
        invariant 0 <= i <= numChars && pos == start + 2 * i
        invariant characters == EveryOther(buffer[..], start, i)
      {
        characters := characters + [buffer[pos]];
        pos := pos + 2;
        i := i + 1;
      }
      s := TakeUntilNul(characters);
    }

    /** A 4-byte count n followed by n bytes, kept up to the first NUL. */
    method ReadSTLTextUTF8() returns (s: seq<Byte>)
      requires Valid() && pos + 4 <= capacity
      requires var n := Signed(LittleEndian(buffer[pos..pos + 4]), 4); n >= 0 && pos + 4 + n <= capacity
      modifies this`pos
      ensures var n := Signed(LittleEndian(buffer[old(pos)..old(pos) + 4]), 4);
        Valid() && pos == old(pos) + 4 + n && s == TakeUntilNul(buffer[old(pos) + 4..pos])
    {
      var numChars := ReadInt();
      if numChars == 0 {
        return [];
      }
      var characters := buffer[pos..pos + numChars];
      pos := pos + numChars;
      s := TakeUntilNul(characters);
    }

    /** The signed byte at the cursor, which stays put. */
    function PeekByte(): (v: Int8)
      requires pos < buffer.Length
      reads this, buffer
      ensures TwosComplement(v, 1) == buffer[pos]
    {
      Signed(buffer[pos], 1)
    }

    /** The int at the cursor, which stays put (see PeekIntAsWritten). */
    function PeekInt(): (v: Int32)
      requires pos + 4 <= buffer.Length
      reads this, buffer
      ensures TwosComplement(v, 4) == LittleEndian(buffer[pos..pos + 4])
    {
      PeekIntOf(buffer[pos..pos + 4])
    }

    /** Copies `length` bytes out from the cursor and advances past them. */
    method CopyBytes(length: nat) returns (aborted: bool, bytes: seq<Byte>)
      requires Valid()
      modifies this`pos
      ensures Valid() && aborted == (old(pos) + length > capacity)
      ensures aborted ==> pos == old(pos)
      ensures !aborted ==> pos == old(pos) + length && bytes == buffer[old(pos)..pos]
    {
      if pos + length > capacity {
        return true, [];
      }
      aborted := false;
      bytes := Take(length);
    }

    method CopyChars(length: nat) returns (aborted: bool, bytes: seq<Byte>)
      requires Valid()
      modifies this`pos
      ensures Valid() && aborted == (old(pos) + length > capacity)
      ensures aborted ==> pos == old(pos)
      ensures !aborted ==> pos == old(pos) + length && bytes == buffer[old(pos)..pos]
    {
      aborted, bytes := CopyBytes(length);
    }

    method CopyFloats(length: nat) returns (aborted: bool, bytes: seq<Byte>)
      requires Valid()
      modifies this`pos
      ensures Valid() && aborted == (old(pos) + 4 * length > capacity)
      ensures aborted ==> pos == old(pos)
      ensures !aborted ==> pos == old(pos) + 4 * length && bytes == buffer[old(pos)..pos]
    {
      aborted, bytes := CopyBytes(4 * length);
    }

    method CopyLongs(length: nat) returns (aborted: bool, bytes: seq<Byte>)
      requires Valid()
      modifies this`pos
      ensures Valid() && aborted == (old(pos) + 8 * length > capacity)
      ensures aborted ==> pos == old(pos)
      ensures !aborted ==> pos == old(pos) + 8 * length && bytes == buffer[old(pos)..pos]
    {
      aborted, bytes := CopyBytes(8 * length);
    }

    method CopyShorts(length: nat) returns (aborted: bool, bytes: seq<Byte>)
      requires Valid()
      modifies this`pos
      ensures Valid() && aborted == (old(pos) + 2 * length > capacity)
      ensures aborted ==> pos == old(pos)
      ensures !aborted ==> pos == old(pos) + 2 * length && bytes == buffer[old(pos)..pos]
    {
      aborted, bytes := CopyBytes(2 * length);
    }

    method CopyInts(length: nat) returns (aborted: bool, bytes: seq<Byte>)
      requires Valid()
      modifies this`pos
      ensures Valid() && aborted == (old(pos) + 4 * length > capacity)
      ensures aborted ==> pos == old(pos)
      ensures !aborted ==> pos == old(pos) + 4 * length && bytes == buffer[old(pos)..pos]
    {
      aborted, bytes := CopyBytes(4 * length);
    }

    /** A view of the `numChars` bytes at the cursor, which moves past
        them: `dest` is the offset the returned pointer designates. Running
        past the capacity aborts. */
    method ReadNumChars(numChars: nat) returns (aborted: bool, dest: nat)
      requires Valid()
      modifies this`pos
      ensures Valid() && dest == old(pos) && aborted == (old(pos) + numChars > capacity)
      ensures aborted ==> pos == old(pos)
      ensures !aborted ==> pos == dest + numChars && pos <= capacity
    {
      dest := pos;
      if pos + numChars > capacity {
        return true, dest;
      }
      aborted := false;
      pos := pos + numChars;
    }

    /** A view of `numShorts` shorts at the cursor, which moves past their
        2 * numShorts bytes. Running past the capacity aborts. */
    method ReadNumShorts(numShorts: nat) returns (aborted: bool, dest: nat)
      requires Valid()
      modifies this`pos
      ensures Valid() && dest == old(pos) && aborted == (old(pos) + 2 * numShorts > capacity)
      ensures aborted ==> pos == old(pos)
      ensures !aborted ==> pos == dest + 2 * numShorts && pos <= capacity
    {
      aborted, dest := ReadNumChars(2 * numShorts);
    }

    /** Makes room for `additionalBytesRequired` bytes past the cursor,
        reallocating to GrownCapacity; a buffer that does not own its bytes
        cannot grow. */
    method Grow(additionalBytesRequired: nat) returns (aborted: bool)
      requires Valid()
      modifies this
      ensures Valid() && pos == old(pos) && freeOnDealloc == old(freeOnDealloc)
      ensures aborted == (old(pos) + additionalBytesRequired > old(capacity) && !old(freeOnDealloc))
      ensures old(pos) + additionalBytesRequired <= old(capacity) || aborted ==>
        capacity == old(capacity) && limit == old(limit) && buffer == old(buffer)
      ensures !aborted ==> pos + additionalBytesRequired <= capacity
      ensures old(pos) + additionalBytesRequired > old(capacity) && !aborted ==>
        capacity == GrownCapacity(old(capacity), old(pos), additionalBytesRequired) &&
        limit == capacity && fresh(buffer) && buffer[..old(capacity)] == old(buffer[..])
    {
      var required := pos + additionalBytesRequired;
      if required <= capacity {
        return false;
      }
      if !freeOnDealloc {
        return true;
      }
      aborted := false;
      var newCapacity := GrownCapacity(capacity, pos, additionalBytesRequired);
      var old_ := buffer;
      buffer := new Byte[newCapacity](i reads old_ => if 0 <= i < old_.Length then old_[i] else 0);
      capacity := newCapacity;
      limit := capacity;
    }

    /** Cuts the buffer down to `size` bytes (when larger) and rewinds it. */
    method Shrink(size: nat)
      requires Valid()
      modifies this
      ensures Valid() && freeOnDealloc == old(freeOnDealloc)
      ensures old(capacity) <= size ==>
        capacity == old(capacity) && limit == old(limit) && pos == old(pos) && buffer == old(buffer)
      ensures old(capacity) > size ==>
        capacity == size && limit == size && pos == 0 && fresh(buffer) && buffer[..] == old(buffer[..size])
    {
      if capacity <= size {
        return;
      }
      var old_ := buffer;
      buffer := new Byte[size](i reads old_ => if 0 <= i < old_.Length then old_[i] else 0);
      capacity, limit, pos := size, size, 0;
    }

    /** Writes `bytes` at the cursor and advances past them. */
    method WriteBytes(bytes: seq<Byte>) returns (aborted: bool)
      requires Valid()
      modifies this`pos, buffer
      ensures Valid() && aborted == (old(pos) + |bytes| > capacity)
      ensures aborted ==> pos == old(pos) && buffer[..] == old(buffer[..])
      ensures !aborted ==> pos == old(pos) + |bytes| && buffer[..] == Splice(old(buffer[..]), old(pos), bytes)
    {
      if pos + |bytes| > capacity {
        return true;
      }
      aborted := false;
      forall i | 0 <= i < |bytes| {
        buffer[pos + i] := bytes[i];
      }
      assert buffer[..] == Splice(old(buffer[..]), pos, bytes);
      pos := pos + |bytes|;
    }

    /** Moves `length` bytes from another buffer's cursor to this one's;
        both cursors advance. */
    method WriteBuffer(src: Buffer, length: nat) returns (aborted: bool)
      requires Valid() && src.Valid() && src != this && src.buffer != buffer
      modifies this`pos, buffer, src`pos
      ensures Valid() && src.Valid()
      ensures aborted == (old(pos) + length > capacity || old(src.pos) + length > src.capacity)
      ensures aborted ==> pos == old(pos) && src.pos == old(src.pos) && buffer[..] == old(buffer[..])
      ensures !aborted ==> (pos == old(pos) + length && src.pos == old(src.pos) + length &&
        buffer[..] == Splice(old(buffer[..]), old(pos), src.buffer[old(src.pos)..src.pos]))
    {
      if pos + length > capacity || src.pos + length > src.capacity {
        return true;
      }
      var bytes := src.Take(length);
      aborted := WriteBytes(bytes);
    }

    /** The characters of a C string, without its terminator. */
    method WriteChars(value: seq<Byte>) returns (aborted: bool)
      requires Valid() && NoNul(value)
      modifies this`pos, buffer
      ensures Valid() && aborted == (old(pos) + |value| > capacity)
      ensures aborted ==> pos == old(pos) && buffer[..] == old(buffer[..])
      ensures !aborted ==> pos == old(pos) + |value| && buffer[..] == Splice(old(buffer[..]), old(pos), value)
    {
      aborted := WriteBytes(value);
    }

    /** `numBytes` copies of `value` at the cursor; the overrun test is the
        one FillOverrun states (see FillOverrunAsWritten). */
    method Fill(value: Byte, numBytes: nat) returns (aborted: bool)
      requires Valid()
      modifies this`pos, buffer
      ensures Valid() && aborted == FillOverrun(old(pos), capacity, numBytes)
      ensures aborted ==> pos == old(pos) && buffer[..] == old(buffer[..])
      ensures !aborted ==> (pos == old(pos) + numBytes &&
        buffer[..] == Splice(old(buffer[..]), old(pos), seq(numBytes, _ => value)))
    {
      aborted := WriteBytes(seq(numBytes, _ => value));
    }

    /** A C string and its terminator. */
    method WriteStringNullTerm(value: seq<Byte>) returns (aborted: bool)
      requires Valid() && NoNul(value)
      modifies this`pos, buffer
      ensures Valid() && aborted == (old(pos) + |value| + 1 > capacity)
      ensures aborted ==> pos == old(pos) && buffer[..] == old(buffer[..])
      ensures !aborted ==> (pos == old(pos) + |value| + 1 &&
        buffer[..] == Splice(old(buffer[..]), old(pos), value + [0]) &&
        HasNul(buffer[..], old(pos)) && CStringAt(buffer[..], old(pos)) == value)
    {
      aborted := WriteBytes(value + [0]);
      if !aborted {
        CStringRoundTrip(old(buffer[..]), old(pos), value);
      }
    }

    method Rewind()
      requires Valid()
      modifies this`pos
      ensures Valid() && pos == 0
    {
      pos := 0;
    }

    /** Zeroes every byte and rewinds. */
    method Clear()
      requires Valid()
      modifies this`pos, buffer
      ensures Valid() && pos == 0 && buffer[..] == seq(capacity, _ => 0)
    {
      forall i | 0 <= i < buffer.Length {
        buffer[i] := 0;
      }
      pos := 0;
    }

    method WriteBool(value: bool) returns (aborted: bool)
      requires Valid()
      modifies this`pos, buffer
      ensures Valid() && aborted == (old(pos) + 1 > capacity)
      ensures aborted ==> pos == old(pos) && buffer[..] == old(buffer[..])
      ensures !aborted ==> pos == old(pos) + 1 && buffer[..] == old(buffer[..])[old(pos) := if value then 1 else 0]
    {
      aborted := WriteByte(if value then 1 else 0);
    }

    method WriteByte(value: Int8) returns (aborted: bool)
      requires Valid()
      modifies this`pos, buffer
      ensures Valid() && aborted == (old(pos) + 1 > capacity)
      ensures aborted ==> pos == old(pos) && buffer[..] == old(buffer[..])
      ensures !aborted ==> pos == old(pos) + 1 && buffer[..] == old(buffer[..])[old(pos) := TwosComplement(value, 1)]
    {
      if pos + 1 > capacity {
        return true;
      }
      aborted := false;
      buffer[pos] := TwosComplement(value, 1);
      pos := pos + 1;
    }

    method WriteShort(value: Int16) returns (aborted: bool)
      requires Valid()
      modifies this`pos, buffer
      ensures Valid() && aborted == (old(pos) + 2 > capacity)
      ensures aborted ==> pos == old(pos) && buffer[..] == old(buffer[..])
      ensures !aborted ==> (pos == old(pos) + 2 &&
        buffer[..] == Splice(old(buffer[..]), old(pos), ToLittleEndian(TwosComplement(value, 2), 2)))
    {
      aborted := WriteBytes(ToLittleEndian(TwosComplement(value, 2), 2));
    }

    method WriteInt(value: Int32) returns (aborted: bool)
      requires Valid()
      modifies this`pos, buffer
      ensures Valid() && aborted == (old(pos) + 4 > capacity)
      ensures aborted ==> pos == old(pos) && buffer[..] == old(buffer[..])
      ensures !aborted ==> (pos == old(pos) + 4 &&
        buffer[..] == Splice(old(buffer[..]), old(pos), ToLittleEndian(TwosComplement(value, 4), 4)))
    {
      aborted := WriteBytes(ToLittleEndian(TwosComplement(value, 4), 4));
    }

    /** A float given by its 4-byte bit pattern. */
    method WriteFloat(bits: UInt32) returns (aborted: bool)
      requires Valid()
      modifies this`pos, buffer
      ensures Valid() && aborted == (old(pos) + 4 > capacity)
      ensures aborted ==> pos == old(pos) && buffer[..] == old(buffer[..])
      ensures !aborted ==> (pos == old(pos) + 4 &&
        buffer[..] == Splice(old(buffer[..]), old(pos), ToLittleEndian(bits, 4)))
    {
      aborted := WriteBytes(ToLittleEndian(bits, 4));
    }

    /** A run of floats given by their bit patterns. */
    method WriteFloats(values: seq<UInt32>) returns (aborted: bool)
      requires Valid()
      modifies this`pos, buffer
      ensures Valid() && aborted == (old(pos) + 4 * |values| > capacity)
      ensures aborted ==> pos == old(pos) && buffer[..] == old(buffer[..])
      ensures !aborted ==> (pos == old(pos) + 4 * |values| &&
        buffer[..] == Splice(old(buffer[..]), old(pos), FloatBytes(values)))
    {
      aborted := WriteBytes(FloatBytes(values));
    }

    /** A double given by its 8-byte bit pattern. */
    method WriteDouble(bits: UInt64) returns (aborted: bool)
      requires Valid()
      modifies this`pos, buffer
      ensures Valid() && aborted == (old(pos) + 8 > capacity)
      ensures aborted ==> pos == old(pos) && buffer[..] == old(buffer[..])
      ensures !aborted ==> (pos == old(pos) + 8 &&
        buffer[..] == Splice(old(buffer[..]), old(pos), ToLittleEndian(bits, 8)))
    {
      aborted := WriteBytes(ToLittleEndian(bits, 8));
    }

    method WriteLong(value: UInt64) returns (aborted: bool)
      requires Valid()
      modifies this`pos, buffer
      ensures Valid() && aborted == (old(pos) + 8 > capacity)
      ensures aborted ==> pos == old(pos) && buffer[..] == old(buffer[..])
      ensures !aborted ==> (pos == old(pos) + 8 &&
        buffer[..] == Splice(old(buffer[..]), old(pos), ToLittleEndian(value, 8)))
    {
      aborted := WriteBytes(ToLittleEndian(value, 8));
    }

    /** Ends writing: what was written becomes what is left to read. */
    method Flip()
      requires Valid()
      modifies this`pos, this`limit
      ensures Valid() && limit == old(pos) && pos == 0
    {
      limit := pos;
      pos := 0;
    }

    /** limit - pos, computed in size_t and cast to a 32-bit int. */
    function Remaining(): (r: Int32)
      reads this
      ensures -0x8000_0000 <= limit - pos < 0x8000_0000 ==> r == limit - pos
    {
      var d := (limit - pos) % 0x1_0000_0000;
      if -0x8000_0000 <= limit - pos < 0x8000_0000 then
        SignedOfTwosComplement(limit - pos, 4);
        Signed(d, 4)
      else
        Signed(d, 4)
    }

    function HasAvailable(): (b: bool)
      reads this
      ensures -0x8000_0000 <= limit - pos < 0x8000_0000 ==> (b <==> Remaining() > 0)
    {
      pos < limit
    }

    /** Copies `length` bytes from this cursor to the destination's cursor;
        only the destination's cursor moves. */
    method WriteToBufferAndRewind(dest: Buffer, length: nat) returns (aborted: bool)
      requires Valid() && dest.Valid() && dest != this && dest.buffer != buffer
      modifies dest`pos, dest.buffer
      ensures Valid() && dest.Valid()
      ensures aborted == (pos + length > capacity || old(dest.pos) + length > dest.capacity)
      ensures aborted ==> dest.pos == old(dest.pos) && dest.buffer[..] == old(dest.buffer[..])
      ensures !aborted ==> (dest.pos == old(dest.pos) + length &&
        dest.buffer[..] == Splice(old(dest.buffer[..]), old(dest.pos), buffer[pos..pos + length]))
    {
      if pos + length > capacity || dest.pos + length > dest.capacity {
        return true;
      }
      aborted := dest.WriteBytes(buffer[pos..pos + length]);
    }

    /** WriteToBufferAndRewind, then this cursor also moves past the bytes. */
    method WriteToBuffer(dest: Buffer, length: nat) returns (aborted: bool)
      requires Valid() && dest.Valid() && dest != this && dest.buffer != buffer
      modifies this`pos, dest`pos, dest.buffer
      ensures Valid() && dest.Valid()
      ensures aborted == (old(pos) + length > capacity || old(dest.pos) + length > dest.capacity)
      ensures aborted ==> pos == old(pos) && dest.pos == old(dest.pos) && dest.buffer[..] == old(dest.buffer[..])
      ensures !aborted ==> (pos == old(pos) + length && dest.pos == old(dest.pos) + length &&
        dest.buffer[..] == Splice(old(dest.buffer[..]), old(dest.pos), buffer[old(pos)..pos]))
    {
      aborted := WriteToBufferAndRewind(dest, length);
      if !aborted {
        pos := pos + length;
      }
    }

    /** A new buffer owning a copy of `length` bytes from `offset`. */
    method Split(offset: nat, length: nat) returns (b: Buffer)
      requires Valid() && offset + length <= capacity
      ensures fresh(b) && fresh(b.buffer) && b.Valid() && b.freeOnDealloc
      ensures b.pos == 0 && b.capacity == length && b.limit == length
      ensures b.buffer[..] == buffer[offset..offset + length]
    {
      var copy := new Byte[length](i reads this, buffer => if 0 <= i < length && offset + i < buffer.Length then buffer[offset + i] else 0);
      assert copy[..] == buffer[offset..offset + length];
      b := new Buffer.FromBytes(copy, true);
    }
  }
}
