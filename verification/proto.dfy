/**
 The protobuf wire codec: an encoder that appends to a buffer, a decoder that moves a
 position over one, and the functions both are proved against.
 */
module Proto {
  import opened Bytes
  import opened Order

  // ---------------------------------------------------------------- varints

  function Pow128(n: nat): (r: nat)
    ensures r > 0
  {
    if n == 0 then 1 else 128 * Pow128(n - 1)
  }

  /** The base-128 digits of `v`, least significant first, all but the last with the top bit set. */
  function VarintBytes(v: nat): (s: seq<byte>)
    ensures |s| > 0
  {
    if v < 128 then [v] else [128 + v % 128] + VarintBytes(v / 128)
  }

  /** The number whose 7-bit groups are the low bits of `s`, least significant first. */
  function Groups(s: seq<byte>): nat {
    if s == [] then 0 else s[0] % 128 + 128 * Groups(s[1..])
  }

  /** Whether `s` has the shape of one varint: the top bit marks every byte but the last. */
  predicate OneVarint(s: seq<byte>) {
    && s != []
    && s[|s| - 1] < 128
    && forall i :: 0 <= i < |s| - 1 ==> s[i] >= 128
  }

  /** Index of the byte that ends the varint at the head of `s`, looking from `k` and at ten bytes at most. */
  function Terminator(s: seq<byte>, k: nat): (r: Option<nat>)
    requires k <= |s|
    ensures r.Some? ==> k <= r.value < 10 && r.value < |s| && s[r.value] < 128
    ensures r.Some? ==> forall j :: k <= j < r.value ==> s[j] >= 128
    ensures r.None? ==> forall j :: k <= j < 10 && j < |s| ==> s[j] >= 128
    decreases |s| - k
  {
    if k >= 10 || k == |s| then None
    else if s[k] < 128 then Some(k)
    else Terminator(s, k + 1)
  }

  datatype VarintRead = NoVarint | Got(value: u64, rest: seq<byte>)

  /** What reading a varint at the head of `s` gives: the value, and what is left. */
  function VarintIn(s: seq<byte>): (r: VarintRead)
    ensures r.Got? ==> |r.rest| < |s| <= |r.rest| + 10
  {
    match Terminator(s, 0)
    case None => NoVarint
    case Some(k) => Got(Mod64(Groups(s[..k + 1])), s[k + 1..])
  }

  lemma {:induction false} GroupsSnoc(s: seq<byte>, b: byte)
    ensures Groups(s + [b]) == Groups(s) + b % 128 * Pow128(|s|)
  {
    if s == [] {
    } else {
      assert (s + [b])[1..] == s[1..] + [b];
      GroupsSnoc(s[1..], b);
    }
  }

  lemma {:induction false} GroupsBound(s: seq<byte>)
    ensures Groups(s) < Pow128(|s|)
  {
    if s != [] {
      GroupsBound(s[1..]);
    }
  }

  lemma {:induction false} VarintBytesShape(v: nat)
    ensures OneVarint(VarintBytes(v)) && Groups(VarintBytes(v)) == v
  {
    if v >= 128 {
      VarintBytesShape(v / 128);
      assert VarintBytes(v)[1..] == VarintBytes(v / 128);
    }
  }

  /** A number below 128^n takes at most n bytes, so a 64-bit one at most ten. */
  lemma {:induction false} VarintBytesLength(v: nat, n: nat)
    requires n > 0 && v < Pow128(n)
    ensures |VarintBytes(v)| <= n
  {
    if v >= 128 {
      VarintBytesLength(v / 128, n - 1);
    }
  }

  lemma Pow128Ten()
    ensures Pow128(9) == 0x8000_0000_0000_0000 && Pow128(10) == 0x40_0000_0000_0000_0000
  {
    assert Pow128(3) == 0x20_0000;
    assert Pow128(6) == 0x400_0000_0000;
    assert Pow128(8) == 128 * Pow128(7);
  }

  lemma VarintTenBytes(v: u64)
    ensures |VarintBytes(v)| <= 10
  {
    Pow128Ten();
    VarintBytesLength(v, 10);
  }

  /** Of all varints with the same groups the encoder's is the shortest, and the only one that short. */
  lemma {:induction false} VarintBytesShortest(e: seq<byte>)
    requires OneVarint(e)
    ensures |VarintBytes(Groups(e))| <= |e|
    ensures |VarintBytes(Groups(e))| == |e| ==> VarintBytes(Groups(e)) == e
  {
    if |e| > 1 {
      VarintBytesShortest(e[1..]);
      if Groups(e) >= 128 {
        assert Groups(e) / 128 == Groups(e[1..]) && Groups(e) % 128 == e[0] % 128;
      }
    }
  }

  /** Reading a varint of at most ten bytes in front of any suffix. */
  lemma VarintInFront(e: seq<byte>, t: seq<byte>)
    requires OneVarint(e) && |e| <= 10
    ensures VarintIn(e + t) == Got(Mod64(Groups(e)), t)
  {
    var s := e + t;
    assert s[|e| - 1] < 128;
    assert forall j :: 0 <= j < |e| - 1 ==> s[j] >= 128;
    assert Terminator(s, 0) == Some(|e| - 1);
    assert s[..|e|] == e && s[|e|..] == t;
  }

  /** `readVarint` inverts `writeVarint` in front of any suffix. */
  lemma VarintRoundTrip(v: u64, t: seq<byte>)
    ensures VarintIn(VarintBytes(v) + t) == Got(v, t)
  {
    VarintBytesShape(v);
    VarintTenBytes(v);
    VarintInFront(VarintBytes(v), t);
  }

  /** A varint that can be read is not changed by what comes after. */
  lemma VarintInExtend(s: seq<byte>, t: seq<byte>)
    requires VarintIn(s).Got?
    ensures VarintIn(s + t) == Got(VarintIn(s).value, VarintIn(s).rest + t)
  {
    var k := Terminator(s, 0).value;
    assert s == s[..k + 1] + s[k + 1..];
    assert s + t == s[..k + 1] + (s[k + 1..] + t);
    VarintInFront(s[..k + 1], s[k + 1..] + t);
  }

  // ---------------------------------------------------------------- fields

  /** One decoded field. A float is carried as its 32-bit pattern `bits`. */
  datatype ProtoField = ProtoField(field: i32, wireType: nat, varint: u64, bits: u32, raw: seq<byte>)

  /** The tag written for a field: a 32-bit shift, sign-extended to 64 bits. */
  function Tag(field: i32, wireType: nat): u64
    requires wireType < 8
  {
    Mod64(Int32(field * 8) + wireType)
  }

  /** The field number and the wire type a tag is read back as. */
  function TagNumber(tag: u64): i32 { Int32(tag / 8) }

  function WireType(tag: u64): (w: nat)
    ensures w < 8
  {
    tag % 8
  }

  /** What the 32-bit shift leaves of a field number. */
  function KeptNumber(field: i32): i32 { Int32(field * 8) / 8 }

  lemma TagReadBack(field: i32, wireType: nat)
    requires wireType < 8
    ensures TagNumber(Tag(field, wireType)) == KeptNumber(field) && WireType(Tag(field, wireType)) == wireType
  {
    var q := KeptNumber(field);
    assert Int32(field * 8) == 8 * q;
    if q >= 0 {
      assert Tag(field, wireType) == 8 * q + wireType;
    } else {
      assert Tag(field, wireType) == 0x1_0000_0000_0000_0000 + 8 * q + wireType;
      assert Tag(field, wireType) / 8 == 0x2000_0000_0000_0000 + q;
    }
  }

  /** A field number survives the tag exactly when it fits 29 signed bits. */
  lemma FieldNumberKeptIff(field: i32)
    ensures KeptNumber(field) == field <==> -0x1000_0000 <= field < 0x1000_0000
  {
    assert -0x1000_0000 <= KeptNumber(field) < 0x1000_0000;
  }

  function LittleEndian32(v: u32): (s: seq<byte>)
    ensures |s| == 4
  {
    [v % 0x100, v / 0x100 % 0x100, v / 0x100 / 0x100 % 0x100, v / 0x100 / 0x100 / 0x100]
  }

  function Word32(s: seq<byte>): u32
    requires |s| >= 4
  {
    var a: int, b: int, c: int, d: int := s[0], s[1], s[2], s[3];
    a + 0x100 * b + 0x1_0000 * c + 0x100_0000 * d
  }

  /** Qt's `mid(pos, n)` on a buffer that has `s` from `pos` on: a negative length means the rest. */
  function Mid(s: seq<byte>, n: int): seq<byte> {
    if n < 0 || n > |s| then s else s[..n]
  }

  datatype DelimitedRead = TooShort | Raw(bytes: seq<byte>, next: i32)

  datatype FieldRead = NoField | Field(field: ProtoField, next: i32)

  /**
   The bytes of a length-delimited field and the position behind them, when `s` stands behind the
   prefix `len` at position `pos`. Both casts to `int` wrap.
   */
  function Delimited(s: seq<byte>, pos: nat, len: u64): (r: DelimitedRead)
    ensures r.Raw? ==> r.next <= pos + |s|
  {
    var next := Int32(pos + Int32(len));
    if next > pos + |s| then TooShort else Raw(Mid(s, Int32(len)), next)
  }

  /** What `readField` gives when `s` is the rest of the buffer from `pos` on: the field and the new position. */
  function FieldIn(s: seq<byte>, pos: nat): (r: FieldRead)
    requires pos + |s| < 0x8000_0000
    ensures r.Field? ==> r.next <= pos + |s|
  {
    match VarintIn(s)
    case NoVarint => NoField
    case Got(tag, rest) => FieldBody(rest, pos + |s| - |rest|, TagNumber(tag), WireType(tag))
  }

  /** The part of `readField` behind the tag. */
  function FieldBody(s: seq<byte>, pos: nat, number: i32, wireType: nat): (r: FieldRead)
    requires pos + |s| < 0x8000_0000
    ensures r.Field? ==> r.next <= pos + |s|
  {
    if wireType == 0 then
      match VarintIn(s)
      case NoVarint => NoField
      case Got(v, rest) => Field(ProtoField(number, 0, v, 0, []), pos + |s| - |rest|)
    else if wireType == 1 then
      if |s| < 8 then NoField else Field(ProtoField(number, 1, 0, 0, []), pos + 8)
    else if wireType == 2 then
      match VarintIn(s)
      case NoVarint => NoField
      case Got(len, rest) => DelimitedBody(rest, pos + |s| - |rest|, number, len)
    else if wireType == 5 then
      if |s| < 4 then NoField else Field(ProtoField(number, 5, Word32(s), Word32(s), []), pos + 4)
    else NoField
  }

  function DelimitedBody(s: seq<byte>, pos: nat, number: i32, len: u64): (r: FieldRead)
    requires pos + |s| < 0x8000_0000
    ensures r.Field? ==> r.next <= pos + |s|
  {
    match Delimited(s, pos, len)
    case TooShort => NoField
    case Raw(bytes, next) => Field(ProtoField(number, 2, 0, 0, bytes), next)
  }

  /** The length prefix of the field at the head of `s`, when it has one that can be read, and what is behind it. */
  function LengthPrefix(s: seq<byte>): (r: VarintRead)
    ensures r.Got? ==> |r.rest| < |s|
  {
    match VarintIn(s)
    case NoVarint => NoVarint
    case Got(tag, rest) => if WireType(tag) == 2 then VarintIn(rest) else NoVarint
  }

  /** The length prefix of the field at the head of `s`, if any, stays below 2^31 minus `size`. */
  predicate LengthFits(s: seq<byte>, size: nat) {
    LengthPrefix(s).Got? ==> LengthPrefix(s).value < 0x8000_0000 - size
  }

  /** A fitting prefix is read as it stands: as many bytes as it says, when there are as many. */
  lemma DelimitedPlain(s: seq<byte>, pos: nat, len: u64)
    requires pos + len < 0x8000_0000
    ensures Delimited(s, pos, len) == if len <= |s| then Raw(s[..len], pos + len) else TooShort
  {
    assert Int32(len) == len && Int32(pos + len) == pos + len;
  }

  /** With such a prefix a successful read moves forward and stays inside the data. */
  lemma FieldProgress(s: seq<byte>, pos: nat, size: nat)
    requires pos + |s| <= size < 0x8000_0000 && LengthFits(s, size) && FieldIn(s, pos).Field?
    ensures pos < FieldIn(s, pos).next <= pos + |s|
  {
    if LengthPrefix(s).Got? {
      var Got(len, rest) := LengthPrefix(s);
      DelimitedPlain(rest, pos + |s| - |rest|, len);
    }
  }

  /**
   A successful read moves forward exactly when the prefix it reads, if any, is cast to an `int` that
   neither points back behind the field nor overflows the position.
   */
  lemma FieldProgressIff(s: seq<byte>, pos: nat)
    requires pos + |s| < 0x8000_0000 && FieldIn(s, pos).Field?
    ensures pos < FieldIn(s, pos).next <==>
            match LengthPrefix(s)
            case NoVarint => true
            case Got(len, rest) => -(|s| - |rest|) < Int32(len) < 0x8000_0000 - pos - (|s| - |rest|)
  {
    if LengthPrefix(s).Got? {
      var Got(len, rest) := LengthPrefix(s);
      DelimitedNext(rest, pos + |s| - |rest|, len);
    }
  }

  lemma DelimitedNext(s: seq<byte>, pos: nat, len: u64)
    requires pos + |s| < 0x8000_0000 && Delimited(s, pos, len).Raw?
    ensures Delimited(s, pos, len).next ==
            if pos + Int32(len) < 0x8000_0000 then pos + Int32(len) else pos + Int32(len) - 0x1_0000_0000
  {
  }

  /**
   A length-delimited read that succeeds returns as many bytes as its prefix announces exactly
   when prefix and position together stay below 2^31, the range of the `int` they are cast to.
   */
  lemma DelimitedExactIff(s: seq<byte>, pos: nat, len: u64)
    requires pos + |s| < 0x8000_0000 && Delimited(s, pos, len).Raw?
    ensures |Delimited(s, pos, len).bytes| == len <==> pos + len < 0x8000_0000
  {
    if pos + len < 0x8000_0000 {
      DelimitedPlain(s, pos, len);
    }
  }

  // ---------------------------------------------------------------- decoding

  /** What comes of the loop over the fields of a buffer, and the fields it has read by then. */
  datatype Decoding =
    | Fields(fields: seq<ProtoField>) // it ends, inside the buffer
    | Loops(fields: seq<ProtoField>) // it comes back to a position it has read from
    | OutsideBuffer(fields: seq<ProtoField>) // a position before the buffer

  function Prepend(f: ProtoField, d: Decoding): Decoding { d.(fields := [f] + d.fields) }

  /** The loop from `pos` on, `left` being the positions it has not read from. */
  function DecodeRun(data: seq<byte>, pos: int, left: set<int>): Decoding
    requires pos <= |data| < 0x8000_0000
    decreases left
  {
    if pos < 0 then OutsideBuffer([])
    else if pos == |data| then Fields([])
    else if pos !in left then Loops([])
    else
      match FieldIn(data[pos..], pos)
      case NoField => Fields([])
      case Field(f, next) => Prepend(f, DecodeRun(data, next, left - {pos}))
  }

  function Decoded(data: seq<byte>): Decoding
    requires |data| < 0x8000_0000
  {
    DecodeRun(data, 0, Range(0, |data| - 1))
  }

  /** `decode`; where the loop does not end, the fields read before it repeats itself or leaves the buffer. */
  function Decode(data: seq<byte>): seq<ProtoField>
    requires |data| < 0x8000_0000
  {
    Decoded(data).fields
  }

  lemma RunStep(data: seq<byte>, pos: nat, left: set<int>)
    requires pos < |data| < 0x8000_0000 && pos in left
    ensures DecodeRun(data, pos, left) ==
            match FieldIn(data[pos..], pos)
            case NoField => Fields([])
            case Field(f, next) => Prepend(f, DecodeRun(data, next, left - {pos}))
  {
    hide FieldIn;
  }

  lemma RunStops(data: seq<byte>, pos: int, left: set<int>)
    requires pos <= |data| < 0x8000_0000
    ensures pos < 0 ==> DecodeRun(data, pos, left) == OutsideBuffer([])
    ensures pos == |data| ==> DecodeRun(data, pos, left) == Fields([])
    ensures 0 <= pos < |data| && pos !in left ==> DecodeRun(data, pos, left) == Loops([])
  {
  }

  // ---------------------------------------------------------------- when decoding ends

  /** The position after a read at `pos`, when one succeeds there. */
  function NextPos(data: seq<byte>, pos: int): (r: Option<int>)
    requires |data| < 0x8000_0000
    ensures r.Some? ==> 0 <= pos < |data| && r.value <= |data|
  {
    if pos < 0 || pos >= |data| || FieldIn(data[pos..], pos).NoField? then None
    else Some(FieldIn(data[pos..], pos).next)
  }

  /** The field read at `pos`, when a read succeeds there. */
  function FieldAt(data: seq<byte>, pos: int): seq<ProtoField>
    requires |data| < 0x8000_0000
  {
    if NextPos(data, pos).None? then [] else [FieldIn(data[pos..], pos).field]
  }

  /** The position after `n` reads, when that many succeed. */
  function PosAfter(data: seq<byte>, n: nat): (r: Option<int>)
    requires |data| < 0x8000_0000
    ensures r.Some? ==> r.value <= |data|
  {
    if n == 0 then Some(0)
    else if PosAfter(data, n - 1).None? then None
    else NextPos(data, PosAfter(data, n - 1).value)
  }

  /** The fields of the first `n` reads. */
  function FirstFields(data: seq<byte>, n: nat): seq<ProtoField>
    requires |data| < 0x8000_0000
  {
    if n == 0 then []
    else FirstFields(data, n - 1) + match PosAfter(data, n - 1) case None => [] case Some(pos) => FieldAt(data, pos)
  }

  /** After `n` reads the next one fails, or nothing is left; the position is in the buffer. */
  predicate Ends(data: seq<byte>, n: nat)
    requires |data| < 0x8000_0000
  {
    PosAfter(data, n).Some? && PosAfter(data, n).value >= 0 && NextPos(data, PosAfter(data, n).value).None?
  }

  /** The `n`-th read leaves the position before the buffer. */
  predicate Leaves(data: seq<byte>, n: nat)
    requires |data| < 0x8000_0000
  {
    PosAfter(data, n).Some? && PosAfter(data, n).value < 0
  }

  /** The `n`-th read comes back to an earlier position. */
  predicate Returns(data: seq<byte>, n: nat)
    requires |data| < 0x8000_0000
  {
    PosAfter(data, n).Some? && exists k :: 0 <= k < n && PosAfter(data, k) == PosAfter(data, n)
  }

  lemma {:induction false} ReadsBefore(data: seq<byte>, k: nat, n: nat)
    requires |data| < 0x8000_0000 && k < n && PosAfter(data, n).Some?
    ensures PosAfter(data, k).Some? && 0 <= PosAfter(data, k).value < |data|
    decreases n
  {
    hide NextPos;
    if k < n - 1 {
      ReadsBefore(data, k, n - 1);
    }
  }

  lemma {:induction false} Shifted(data: seq<byte>, k: nat, n: nat, m: nat)
    requires |data| < 0x8000_0000 && k < n && PosAfter(data, k) == PosAfter(data, n)
    ensures PosAfter(data, k + m) == PosAfter(data, n + m)
  {
    hide NextPos;
    if m > 0 {
      Shifted(data, k, n, m - 1);
      assert PosAfter(data, k + m - 1) == PosAfter(data, n + m - 1);
    }
  }

  /** Once a position has come back, reads succeed for ever. */
  lemma {:induction false} ReadsForEver(data: seq<byte>, n: nat, j: nat)
    requires |data| < 0x8000_0000 && Returns(data, n)
    ensures PosAfter(data, j).Some?
    decreases j
  {
    hide PosAfter;
    if j < n {
      ReadsBefore(data, j, n);
    } else if j > n {
      var k :| 0 <= k < n && PosAfter(data, k) == PosAfter(data, n);
      ReadsForEver(data, n, k + (j - n));
      Shifted(data, k, n, j - n);
    }
  }

  /** `left` has the positions of the buffer that none of the first `n` reads was made at. */
  ghost predicate Unread(data: seq<byte>, n: nat, left: set<int>)
    requires |data| < 0x8000_0000
  {
    && |left| == |data| - n
    && forall x :: 0 <= x < |data| ==> (x in left <==> forall k :: 0 <= k < n ==> PosAfter(data, k) != Some(x))
  }

  lemma UnreadNext(data: seq<byte>, n: nat, left: set<int>)
    requires |data| < 0x8000_0000 && Unread(data, n, left) && PosAfter(data, n).Some? && PosAfter(data, n).value in left
    ensures Unread(data, n + 1, left - {PosAfter(data, n).value}) && n < |data|
  {
    hide PosAfter;
  }

  lemma {:induction false} FirstFieldsAt(data: seq<byte>, n: nat, m: nat)
    requires |data| < 0x8000_0000 && PosAfter(data, m).Some? && n <= m
    ensures |FirstFields(data, m)| == m
    ensures n < m ==> PosAfter(data, n).Some? && NextPos(data, PosAfter(data, n).value).Some?
                      && [FirstFields(data, m)[n]] == FieldAt(data, PosAfter(data, n).value)
    decreases m
  {
    hide NextPos, FieldIn;
    if m > 0 {
      FirstFieldsAt(data, if n < m then n else m - 1, m - 1);
    }
  }

  /** After at most as many reads as the buffer has bytes it is decided how decoding comes out. */
  lemma {:induction false} RunOutcome(data: seq<byte>, n: nat, left: set<int>) returns (m: nat)
    requires |data| < 0x8000_0000 && PosAfter(data, n).Some? && Unread(data, n, left)
    ensures n <= m <= |data| && PosAfter(data, m).Some? && |FirstFields(data, m)| == m
    ensures var d := DecodeRun(data, PosAfter(data, n).value, left);
            && d.fields == FirstFields(data, m)[n..]
            && match d
               case Fields(_) => Ends(data, m)
               case Loops(_) => Returns(data, m)
               case OutsideBuffer(_) => Leaves(data, m)
    decreases left
  {
    hide FieldIn, FirstFields, Unread;
    var pos := PosAfter(data, n).value;
    FirstFieldsAt(data, n, n);
    Bounded(data, n, left);
    if pos in left && 0 <= pos < |data| && FieldIn(data[pos..], pos).Field? {
      UnreadNext(data, n, left);
      m := RunOutcome(data, n + 1, left - {pos});
      FirstFieldsAt(data, n, m);
      assert FirstFields(data, m)[n..] == [FirstFields(data, m)[n]] + FirstFields(data, m)[n + 1..];
    } else {
      m := n;
      if 0 <= pos < |data| && pos !in left {
        ReadBefore(data, n, left);
      }
    }
  }

  lemma Bounded(data: seq<byte>, n: nat, left: set<int>)
    requires |data| < 0x8000_0000 && Unread(data, n, left)
    ensures n <= |data|
  {
  }

  lemma ReadBefore(data: seq<byte>, n: nat, left: set<int>)
    requires |data| < 0x8000_0000 && Unread(data, n, left) && PosAfter(data, n).Some?
    requires 0 <= PosAfter(data, n).value < |data| && PosAfter(data, n).value !in left
    ensures Returns(data, n)
  {
    hide PosAfter;
  }

  /**
   Decoding ends inside the buffer exactly when some read is the last one there, leaves the buffer
   exactly when some read does, and loops exactly when reads succeed for ever; where it ends, its
   fields are those of the reads.
   */
  lemma DecodingIff(data: seq<byte>)
    requires |data| < 0x8000_0000
    ensures Decoded(data).Fields? <==> exists n: nat :: Ends(data, n)
    ensures Decoded(data).OutsideBuffer? <==> exists n: nat :: Leaves(data, n)
    ensures Decoded(data).Loops? <==> forall n: nat :: PosAfter(data, n).Some?
    ensures forall n: nat :: Ends(data, n) ==> Decode(data) == FirstFields(data, n)
  {
    hide FieldIn, DecodeRun, FirstFields, NextPos, PosAfter;
    var m := DecodedOutcome(data);
    match Decoded(data) {
      case Loops(_) =>
        forall n: nat
          ensures PosAfter(data, n).Some? && !Ends(data, n) && !Leaves(data, n)
        {
          ReadsForEver(data, m, n);
          ReadsForEver(data, m, n + 1);
          if Ends(data, n) || Leaves(data, n) {
            NoneAfter(data, n);
          }
        }
      case _ =>
        forall n: nat | Ends(data, n) || Leaves(data, n)
          ensures n == m
        {
          LastRead(data, n, m);
          LastRead(data, m, n);
        }
        NoneAfter(data, m);
    }
  }

  lemma DecodedOutcome(data: seq<byte>) returns (m: nat)
    requires |data| < 0x8000_0000
    ensures m <= |data| && PosAfter(data, m).Some? && Decode(data) == FirstFields(data, m)
    ensures match Decoded(data)
            case Fields(_) => Ends(data, m)
            case Loops(_) => Returns(data, m)
            case OutsideBuffer(_) => Leaves(data, m)
  {
    hide FieldIn, DecodeRun, FirstFields;
    m := RunOutcome(data, 0, Range(0, |data| - 1));
    assert FirstFields(data, m)[0..] == FirstFields(data, m);
  }

  /** After a read that ends or leaves the buffer there is no other. */
  lemma LastRead(data: seq<byte>, n: nat, m: nat)
    requires |data| < 0x8000_0000 && (Ends(data, n) || Leaves(data, n)) && PosAfter(data, m).Some?
    ensures m <= n
  {
    hide PosAfter, NextPos, Ends, Leaves;
    NoneAfter(data, n);
    if n + 1 < m {
      ReadsBefore(data, n + 1, m);
    }
  }

  lemma NoneAfter(data: seq<byte>, n: nat)
    requires |data| < 0x8000_0000 && (Ends(data, n) || Leaves(data, n))
    ensures PosAfter(data, n + 1).None?
  {
    hide FieldIn;
  }

  /**
   A test before the call: decoding ends inside the buffer exactly when none of the first reads, as
   many as the buffer has bytes, goes before the buffer or back to a position read from before.
   */
  lemma DecodeEndsIff(data: seq<byte>)
    requires |data| < 0x8000_0000
    ensures Decoded(data).Fields? <==> forall n :: 0 < n <= |data| ==> !Leaves(data, n) && !Returns(data, n)
  {
    hide Decoded, Ends, FirstFields, PosAfter;
    var m := DecodedOutcome(data);
    DecodingIff(data);
    assert PosAfter(data, 0) == Some(0) by { FirstPos(data); }
    if n :| 0 < n <= |data| && Returns(data, n) {
      ReturnsLoops(data, n);
    }
  }

  lemma ReturnsLoops(data: seq<byte>, n: nat)
    requires |data| < 0x8000_0000 && Returns(data, n)
    ensures Decoded(data).Loops?
  {
    hide Decoded, Returns, PosAfter;
    DecodingIff(data);
    forall j: nat
      ensures PosAfter(data, j).Some?
    {
      ReadsForEver(data, n, j);
    }
  }

  lemma FirstPos(data: seq<byte>)
    requires |data| < 0x8000_0000
    ensures PosAfter(data, 0) == Some(0)
  {
  }

  // ---------------------------------------------------------------- three buffers

  /** A five-byte prefix whose top bits are all set. */
  lemma LongPrefix(low: byte, t: seq<byte>)
    requires low >= 0x80
    ensures VarintIn([low, 0xFF, 0xFF, 0xFF, 0x0F] + t) == Got(0xFFFF_FF80 + low % 0x80, t)
  {
    var l: seq<byte> := [low, 0xFF, 0xFF, 0xFF, 0x0F];
    assert Groups(l[4..]) == 15;
    assert Groups(l[3..]) == 127 + 128 * 15 by { assert l[3..][1..] == l[4..]; }
    assert Groups(l[2..]) == 127 + 128 * (127 + 128 * 15) by { assert l[2..][1..] == l[3..]; }
    assert Groups(l[1..]) == 127 + 128 * (127 + 128 * (127 + 128 * 15)) by { assert l[1..][1..] == l[2..]; }
    VarintInFront(l, t);
  }

  /** Field 2 with such a prefix as all there is from `pos` on: the position steps back, or stands still. */
  lemma BackwardField(data: seq<byte>, pos: nat, low: byte)
    requires pos + 6 == |data| < 0x8000_0000 && low >= 0x80
    requires data[pos..] == [0x12, low, 0xFF, 0xFF, 0xFF, 0x0F]
    ensures FieldIn(data[pos..], pos) == Field(ProtoField(2, 2, 0, 0, []), pos + 6 - (0x80 - low % 0x80))
  {
    hide VarintIn;
    var rest: seq<byte> := [low, 0xFF, 0xFF, 0xFF, 0x0F];
    assert data[pos..] == [0x12] + rest && rest == rest + [];
    OneByte(0x12, rest);
    LongPrefix(low, []);
    assert TagNumber(0x12) == 2 && WireType(0x12) == 2;
    assert Int32(0xFFFF_FF80 + low % 0x80) == low % 0x80 - 0x80;
    assert FieldBody(rest, pos + 1, 2, 2) == DelimitedBody([], pos + 6, 2, 0xFFFF_FF80 + low % 0x80);
  }

  lemma OneByte(b: byte, t: seq<byte>)
    requires b < 0x80
    ensures VarintIn([b] + t) == Got(b, t)
  {
    assert Groups([b]) == b;
    VarintInFront([b], t);
  }

  /** A prefix cast to -6: the position stands still, and decoding loops. */
  lemma StandstillLoops(data: seq<byte>)
    requires data == [0x12, 0xFA, 0xFF, 0xFF, 0xFF, 0x0F]
    ensures Decoded(data) == Loops([ProtoField(2, 2, 0, 0, [])])
  {
    hide FieldIn, DecodeRun;
    var all := Range(0, |data| - 1);
    assert data[0..] == data;
    BackwardField(data, 0, 0xFA);
    RunStep(data, 0, all);
    RunStops(data, 0, all - {0});
  }

  /** A prefix cast to -7: the position is before the buffer. */
  lemma StepOutLeaves(data: seq<byte>)
    requires data == [0x12, 0xF9, 0xFF, 0xFF, 0xFF, 0x0F]
    ensures Decoded(data) == OutsideBuffer([ProtoField(2, 2, 0, 0, [])])
  {
    hide FieldIn, DecodeRun;
    var all := Range(0, |data| - 1);
    assert data[0..] == data;
    BackwardField(data, 0, 0xF9);
    RunStep(data, 0, all);
    RunStops(data, -1, all - {0});
  }

  /** A prefix cast to -9: the position steps back into the first field, and decoding ends there. */
  lemma StepBackEnds(data: seq<byte>)
    requires data == [0x0A, 3, 8, 1, 0x0B, 0x12, 0xF7, 0xFF, 0xFF, 0xFF, 0x0F]
    ensures Decoded(data) ==
            Fields([ProtoField(1, 2, 0, 0, [8, 1, 0x0B]), ProtoField(2, 2, 0, 0, []), ProtoField(1, 0, 1, 0, [])])
  {
    hide FieldIn, DecodeRun, Range;
    var all := Range(0, |data| - 1);
    StepBackReads(data);
    RunStep(data, 0, all);
    StepBackTail(data, all - {0});
  }

  lemma StepBackTail(data: seq<byte>, left: set<int>)
    requires data == [0x0A, 3, 8, 1, 0x0B, 0x12, 0xF7, 0xFF, 0xFF, 0xFF, 0x0F] && {2, 4, 5} <= left
    ensures DecodeRun(data, 5, left) == Fields([ProtoField(2, 2, 0, 0, []), ProtoField(1, 0, 1, 0, [])])
  {
    hide FieldIn, DecodeRun;
    StepBackReads(data);
    assert data[5..] == [0x12, 0xF7, 0xFF, 0xFF, 0xFF, 0x0F];
    BackwardField(data, 5, 0xF7);
    RunStep(data, 5, left);
    RunStep(data, 2, left - {5});
    RunStep(data, 4, left - {5} - {2});
  }

  lemma StepBackReads(data: seq<byte>)
    requires data == [0x0A, 3, 8, 1, 0x0B, 0x12, 0xF7, 0xFF, 0xFF, 0xFF, 0x0F]
    ensures FieldIn(data[0..], 0) == Field(ProtoField(1, 2, 0, 0, [8, 1, 0x0B]), 5)
    ensures FieldIn(data[2..], 2) == Field(ProtoField(1, 0, 1, 0, []), 4)
    ensures FieldIn(data[4..], 4) == NoField
  {
    hide VarintIn;
    assert data[0..] == [0x0A] + ([3] + data[2..]) && data[2..] == [8] + ([1] + data[4..])
           && data[4..] == [0x0B] + data[5..];
    OneByte(0x0A, [3] + data[2..]);
    OneByte(3, data[2..]);
    OneByte(8, [1] + data[4..]);
    OneByte(1, data[4..]);
    OneByte(0x0B, data[5..]);
    assert data[2..][..3] == [8, 1, 0x0B];
    DelimitedPlain(data[2..], 2, 3);
  }

  // ---------------------------------------------------------------- decoding that only moves forward

  /** The fields of a buffer that has `s` from `pos` on, as far as reading moves forward. */
  function DecodeFrom(s: seq<byte>, pos: nat): seq<ProtoField>
    requires pos + |s| < 0x8000_0000
    decreases |s|
  {
    if s == [] then []
    else
      match FieldIn(s, pos)
      case NoField => []
      case Field(f, next) => [f] + if next > pos then DecodeFrom(s[next - pos..], next) else []
  }

  /** Every read from `pos` on moves forward. */
  predicate Forward(s: seq<byte>, pos: nat)
    requires pos + |s| < 0x8000_0000
    decreases |s|
  {
    s != [] && FieldIn(s, pos).Field? ==>
      FieldIn(s, pos).next > pos && Forward(s[FieldIn(s, pos).next - pos..], FieldIn(s, pos).next)
  }

  /** Then decoding ends inside the buffer, with these fields. */
  lemma {:induction false} ForwardRun(data: seq<byte>, pos: nat, left: set<int>)
    requires pos <= |data| < 0x8000_0000 && Forward(data[pos..], pos)
    requires forall x :: pos <= x < |data| ==> x in left
    ensures DecodeRun(data, pos, left) == Fields(DecodeFrom(data[pos..], pos))
    decreases |data| - pos
  {
    hide FieldIn;
    var s := data[pos..];
    if s != [] && FieldIn(s, pos).Field? {
      var next := FieldIn(s, pos).next;
      assert s[next - pos..] == data[next..];
      ForwardRun(data, next, left - {pos});
    }
  }

  lemma ForwardEnds(data: seq<byte>)
    requires |data| < 0x8000_0000 && Forward(data, 0)
    ensures Decoded(data) == Fields(DecodeFrom(data, 0))
  {
    hide FieldIn, DecodeRun, Forward, DecodeFrom;
    assert data[0..] == data;
    ForwardRun(data, 0, Range(0, |data| - 1));
  }

  lemma DecodeNothing(pos: nat)
    requires pos < 0x8000_0000
    ensures DecodeFrom([], pos) == []
  {
  }

  lemma DecodeStep(s: seq<byte>, pos: nat)
    requires s != [] && pos + |s| < 0x8000_0000 && FieldIn(s, pos).Field? && FieldIn(s, pos).next > pos
    ensures DecodeFrom(s, pos) ==
            [FieldIn(s, pos).field] + DecodeFrom(s[FieldIn(s, pos).next - pos..], FieldIn(s, pos).next)
  {
    hide FieldIn;
  }

  /** Every length prefix that decoding reads from `pos` on stays below 2^31 minus `size`. */
  predicate PrefixesFit(s: seq<byte>, pos: nat, size: nat)
    requires pos + |s| <= size < 0x8000_0000
    decreases |s|
  {
    s != [] ==>
      && LengthFits(s, size)
      && (FieldIn(s, pos).Field? ==>
            (FieldProgress(s, pos, size);
             PrefixesFit(s[FieldIn(s, pos).next - pos..], FieldIn(s, pos).next, size)))
  }

  /** Decoding from `pos` reads fields up to exactly the end. */
  predicate Consumes(s: seq<byte>, pos: nat)
    requires pos + |s| < 0x8000_0000
    decreases |s|
  {
    s == []
    || (&& FieldIn(s, pos).Field?
        && FieldIn(s, pos).next > pos
        && Consumes(s[FieldIn(s, pos).next - pos..], FieldIn(s, pos).next))
  }

  lemma FieldBodyExtend(s: seq<byte>, t: seq<byte>, pos: nat, number: i32, wireType: nat)
    requires pos + |s + t| < 0x8000_0000 && FieldBody(s, pos, number, wireType).Field?
    requires wireType == 2 && VarintIn(s).Got? ==> VarintIn(s).value < 0x8000_0000 - pos - |s|
    ensures FieldBody(s + t, pos, number, wireType) == FieldBody(s, pos, number, wireType)
  {
    if wireType == 0 || wireType == 2 {
      VarintInExtend(s, t);
    }
    if wireType == 2 {
      var Got(len, raw) := VarintIn(s);
      DelimitedPlain(raw, pos + |s| - |raw|, len);
      DelimitedPlain(raw + t, pos + |s| - |raw|, len);
      assert (raw + t)[..len] == raw[..len];
    }
  }

  lemma FieldInExtend(s: seq<byte>, t: seq<byte>, pos: nat, size: nat)
    requires pos + |s + t| <= size < 0x8000_0000 && LengthFits(s, size) && FieldIn(s, pos).Field?
    ensures FieldIn(s + t, pos) == FieldIn(s, pos)
  {
    hide TagNumber, VarintIn, FieldBody, WireType;
    VarintInExtend(s, t);
    var Got(tag, rest) := VarintIn(s);
    FieldBodyExtend(rest, t, pos + |s| - |rest|, TagNumber(tag), WireType(tag));
  }

  /** The position does not matter while the prefixes fit. */
  lemma FieldInShift(s: seq<byte>, pos: nat, shift: nat, size: nat)
    requires pos + shift + |s| <= size < 0x8000_0000 && LengthFits(s, size)
    ensures FieldIn(s, pos).NoField? ==> FieldIn(s, pos + shift).NoField?
    ensures FieldIn(s, pos).Field? ==>
              FieldIn(s, pos + shift) == Field(FieldIn(s, pos).field, FieldIn(s, pos).next + shift)
  {
    if LengthPrefix(s).Got? {
      var Got(len, rest) := LengthPrefix(s);
      DelimitedPlain(rest, pos + |s| - |rest|, len);
      DelimitedPlain(rest, pos + shift + |s| - |rest|, len);
    }
  }

  lemma {:induction false} DecodeShift(s: seq<byte>, pos: nat, shift: nat, size: nat)
    requires pos + |s| + shift <= size < 0x8000_0000 && PrefixesFit(s, pos, size)
    ensures DecodeFrom(s, pos + shift) == DecodeFrom(s, pos) && Forward(s, pos + shift)
    decreases |s|
  {
    hide FieldIn, LengthFits;
    if s != [] {
      FieldInShift(s, pos, shift, size);
      if FieldIn(s, pos).Field? {
        FieldProgress(s, pos, size);
        var next := FieldIn(s, pos).next;
        DecodeShift(s[next - pos..], next, shift, size);
      }
    }
  }

  lemma {:induction false} FitsForward(s: seq<byte>, pos: nat, size: nat)
    requires pos + |s| <= size < 0x8000_0000 && PrefixesFit(s, pos, size)
    ensures Forward(s, pos)
    decreases |s|
  {
    hide FieldIn, LengthFits;
    if s != [] && FieldIn(s, pos).Field? {
      FieldProgress(s, pos, size);
      FitsForward(s[FieldIn(s, pos).next - pos..], FieldIn(s, pos).next, size);
    }
  }

  lemma {:induction false} ConsumesForward(s: seq<byte>, pos: nat)
    requires pos + |s| < 0x8000_0000 && Consumes(s, pos)
    ensures Forward(s, pos)
    decreases |s|
  {
    hide FieldIn;
    if s != [] {
      ConsumesForward(s[FieldIn(s, pos).next - pos..], FieldIn(s, pos).next);
    }
  }

  lemma {:induction false} ConcatFrom(a: seq<byte>, b: seq<byte>, pos: nat, size: nat)
    requires pos + |a + b| <= size < 0x8000_0000
    requires PrefixesFit(a, pos, size) && PrefixesFit(b, 0, size) && Consumes(a, pos)
    ensures DecodeFrom(a + b, pos) == DecodeFrom(a, pos) + DecodeFrom(b, 0) && Forward(a + b, pos)
    decreases |a|
  {
    hide FieldIn, LengthFits, DecodeFrom;
    if a == [] {
      assert a + b == b;
      DecodeNothing(pos);
      DecodeShift(b, 0, pos, size);
    } else {
      FieldInExtend(a, b, pos, size);
      FieldProgress(a, pos, size);
      var Field(f, next) := FieldIn(a, pos);
      var rest := a[next - pos..];
      assert (a + b)[next - pos..] == rest + b;
      ConcatFrom(rest, b, next, size);
      DecodeStep(a + b, pos);
      DecodeStep(a, pos);
    }
  }

  /** While the prefixes fit, decoding ends inside the buffer. */
  lemma FittingEnds(data: seq<byte>)
    requires |data| < 0x8000_0000 && PrefixesFit(data, 0, |data|)
    ensures Decoded(data) == Fields(DecodeFrom(data, 0))
  {
    hide Decoded, PrefixesFit, Forward, DecodeFrom;
    FitsForward(data, 0, |data|);
    ForwardEnds(data);
  }

  /** Decoding is compositional over any cut that falls between two fields. */
  lemma DecodeConcat(a: seq<byte>, b: seq<byte>, size: nat)
    requires |a + b| <= size < 0x8000_0000
    requires PrefixesFit(a, 0, size) && PrefixesFit(b, 0, size) && Consumes(a, 0)
    ensures Decoded(a + b) == Fields(Decode(a) + Decode(b)) && Decoded(a).Fields? && Decoded(b).Fields?
  {
    hide Decoded, PrefixesFit, Forward, DecodeFrom, Consumes;
    ConcatFrom(a, b, 0, size);
    FitsForward(a, 0, size);
    FitsForward(b, 0, size);
    ForwardEnds(a);
    ForwardEnds(b);
    ForwardEnds(a + b);
  }

  // ---------------------------------------------------------------- encoding

  /** One call of the encoder; the float, bool and string calls come down to these. */
  datatype Call =
    | AddVarint(field: i32, value: u64)
    | AddFixed32(field: i32, word: u32)
    | AddBytes(field: i32, bytes: seq<byte>)

  function CallType(c: Call): (w: nat)
    ensures w < 8
  {
    match c case AddVarint(_, _) => 0 case AddFixed32(_, _) => 5 case AddBytes(_, _) => 2
  }

  /** The bytes of a call behind its tag. */
  function EncodedBody(c: Call): seq<byte>
    requires c.AddBytes? ==> |c.bytes| < 0x8000_0000
  {
    match c
    case AddVarint(_, value) => VarintBytes(value)
    case AddFixed32(_, word) => LittleEndian32(word)
    case AddBytes(_, bytes) => VarintBytes(|bytes|) + bytes
  }

  /** The bytes one call appends. */
  function Encoded(c: Call): seq<byte>
    requires c.AddBytes? ==> |c.bytes| < 0x8000_0000
  {
    VarintBytes(Tag(c.field, CallType(c))) + EncodedBody(c)
  }

  /** The field the decoder should give for a call. */
  function FieldOf(c: Call): ProtoField {
    match c
    case AddVarint(field, value) => ProtoField(KeptNumber(field), 0, value, 0, [])
    case AddFixed32(field, word) => ProtoField(KeptNumber(field), 5, word, word, [])
    case AddBytes(field, bytes) => ProtoField(KeptNumber(field), 2, 0, 0, bytes)
  }

  predicate Encodable(calls: seq<Call>) {
    forall c :: c in calls && c.AddBytes? ==> |c.bytes| < 0x8000_0000
  }

  type Calls = calls: seq<Call> | Encodable(calls) witness []

  function EncodedAll(calls: seq<Call>): seq<byte>
    requires Encodable(calls)
  {
    if calls == [] then [] else Encoded(calls[0]) + EncodedAll(calls[1..])
  }

  /**
   The bytes on the wire: the tag, which is eight times the field number and the type of the value, as a
   varint; then a number as a varint, a 32-bit word from its lowest byte to its highest, or a text behind
   its length.
   */
  lemma WireFormat(c: Call)
    requires 0 <= c.field < 0x1000_0000 && (c.AddBytes? ==> |c.bytes| < 0x8000_0000)
    ensures var tag := 8 * c.field + (match c case AddVarint(_, _) => 0 case AddFixed32(_, _) => 5
                                      case AddBytes(_, _) => 2);
            VarintIn(Encoded(c)) == Got(tag, EncodedBody(c))
    ensures match c
            case AddVarint(_, value) => VarintIn(EncodedBody(c)) == Got(value, [])
            case AddFixed32(_, word) =>
              && |EncodedBody(c)| == 4
              && EncodedBody(c)[0] + 0x100 * EncodedBody(c)[1] + 0x1_0000 * EncodedBody(c)[2]
                 + 0x100_0000 * EncodedBody(c)[3] as int == word
            case AddBytes(_, bytes) => VarintIn(EncodedBody(c)) == Got(|bytes|, bytes)
  {
    hide VarintIn, VarintBytes;
    VarintRoundTrip(Tag(c.field, CallType(c)), EncodedBody(c));
    match c
    case AddVarint(_, value) =>
      VarintRoundTrip(value, []);
      assert VarintBytes(value) + [] == VarintBytes(value);
    case AddFixed32(_, _) =>
    case AddBytes(_, bytes) => VarintRoundTrip(|bytes|, bytes);
  }

  lemma ReadBackBody(c: Call, t: seq<byte>, pos: nat)
    requires c.AddBytes? ==> |c.bytes| < 0x8000_0000
    requires pos + |EncodedBody(c) + t| < 0x8000_0000
    ensures FieldBody(EncodedBody(c) + t, pos, KeptNumber(c.field), CallType(c)) ==
            Field(FieldOf(c), pos + |EncodedBody(c)|)
  {
    hide KeptNumber, VarintIn, Word32, LittleEndian32;
    match c
    case AddVarint(_, value) =>
      VarintRoundTrip(value, t);
    case AddFixed32(_, word) =>
      Word32Of(word, t);
    case AddBytes(_, bytes) =>
      assert EncodedBody(c) + t == VarintBytes(|bytes|) + (bytes + t);
      VarintRoundTrip(|bytes|, bytes + t);
      DelimitedPlain(bytes + t, pos + |VarintBytes(|bytes|)|, |bytes|);
      assert (bytes + t)[..|bytes|] == bytes;
  }

  lemma Word32Of(word: u32, t: seq<byte>)
    ensures Word32(LittleEndian32(word) + t) == word
  {
  }

  lemma ReadBackCall(c: Call, t: seq<byte>, pos: nat)
    requires c.AddBytes? ==> |c.bytes| < 0x8000_0000
    requires pos + |Encoded(c) + t| < 0x8000_0000
    ensures FieldIn(Encoded(c) + t, pos) == Field(FieldOf(c), pos + |Encoded(c)|)
  {
    hide TagNumber, KeptNumber, VarintIn, WireType, FieldBody, EncodedBody;
    var tag := Tag(c.field, CallType(c));
    TagReadBack(c.field, CallType(c));
    assert Encoded(c) + t == VarintBytes(tag) + (EncodedBody(c) + t);
    VarintRoundTrip(tag, EncodedBody(c) + t);
    ReadBackBody(c, t, pos + |VarintBytes(tag)|);
  }

  lemma {:induction false} ReadBackAll(calls: seq<Call>, pos: nat)
    requires Encodable(calls) && pos + |EncodedAll(calls)| < 0x8000_0000
    ensures DecodeFrom(EncodedAll(calls), pos) == seq(|calls|, i requires 0 <= i < |calls| => FieldOf(calls[i]))
    ensures Consumes(EncodedAll(calls), pos)
    decreases |calls|
  {
    hide FieldIn, DecodeFrom, FieldOf;
    if calls == [] {
      assert DecodeFrom([], pos) == [] by { DecodeNothing(pos); }
    } else {
      var c, rest := calls[0], calls[1..];
      ReadBackCall(c, EncodedAll(rest), pos);
      var size := |Encoded(c)|;
      assert EncodedAll(calls)[size..] == EncodedAll(rest);
      ReadBackAll(rest, pos + size);
      DecodeStep(EncodedAll(calls), pos);
    }
  }

  /** Decoding what any sequence of encoder calls produced ends with exactly their fields, in order. */
  lemma CodecRoundTrip(calls: seq<Call>)
    requires Encodable(calls) && |EncodedAll(calls)| < 0x8000_0000
    ensures Decoded(EncodedAll(calls)) == Fields(seq(|calls|, i requires 0 <= i < |calls| => FieldOf(calls[i])))
  {
    hide FieldIn, Decoded, DecodeFrom, EncodedAll, FieldOf, Consumes, Forward;
    ReadBackAll(calls, 0);
    ConsumesForward(EncodedAll(calls), 0);
    ForwardEnds(EncodedAll(calls));
  }

  // ---------------------------------------------------------------- the two classes

  class ProtoEncoder {
    var data: seq<byte>

    constructor ()
      ensures data == []
    {
      data := [];
    }

    method WriteVarint(value: u64)
      modifies this
      ensures data == old(data) + VarintBytes(value)
    {
      var v: u64 := value;
      while v >= 0x80
        invariant data + VarintBytes(v) == old(data) + VarintBytes(value)
        decreases v
      {
        data := data + [v % 0x80 + 0x80];
        v := v / 0x80;
      }
      data := data + [v % 0x80];
    }

    method WriteTag(field: i32, wireType: nat)
      requires wireType < 8
      modifies this
      ensures data == old(data) + VarintBytes(Tag(field, wireType))
    {
      WriteVarint(Tag(field, wireType));
    }

    method Varint(field: i32, value: u64)
      modifies this
      ensures data == old(data) + Encoded(AddVarint(field, value))
    {
      hide VarintBytes, Tag;
      WriteTag(field, 0);
      WriteVarint(value);
    }

    method Fixed32(field: i32, word: u32)
      modifies this
      ensures data == old(data) + Encoded(AddFixed32(field, word))
    {
      hide VarintBytes, Tag;
      WriteTag(field, 5);
      data := data + [word % 0x100];
      data := data + [word / 0x100 % 0x100];
      data := data + [word / 0x100 / 0x100 % 0x100];
      data := data + [word / 0x100 / 0x100 / 0x100];
    }

    method Bool(field: i32, value: bool)
      modifies this
      ensures data == old(data) + Encoded(AddVarint(field, if value then 1 else 0))
    {
      Varint(field, if value then 1 else 0);
    }

    method RawBytes(field: i32, value: seq<byte>)
      requires |value| < 0x8000_0000
      modifies this
      ensures data == old(data) + Encoded(AddBytes(field, value))
    {
      hide VarintBytes, Tag;
      WriteTag(field, 2);
      WriteVarint(|value|);
      data := data + value;
    }
  }

  lemma GroupsPrefix(s: seq<byte>, k: nat)
    requires k < |s|
    ensures Groups(s[..k + 1]) == Groups(s[..k]) + s[k] % 128 * Pow128(k)
  {
    assert s[..k + 1] == s[..k] + [s[k]];
    GroupsSnoc(s[..k], s[k]);
  }

  /** What a reader returns, and where it leaves the position, for a given reading. */
  predicate Gives(r: FieldRead, field: Option<ProtoField>, pos: int) {
    if r.NoField? then field == None else field == Some(r.field) && pos == r.next
  }

  class ProtoDecoder {
    const data: seq<byte>
    var pos: int

    constructor (data: seq<byte>)
      ensures this.data == data && pos == 0
    {
      this.data := data;
      pos := 0;
    }

    /** A step of the source's loop ORs a 7-bit group in above all bits set so far: an addition modulo 2^64. */
    method ReadVarint() returns (ok: bool, value: u64)
      requires 0 <= pos <= |data|
      modifies this
      ensures old(pos) <= pos <= |data|
      ensures ok <==> VarintIn(data[old(pos)..]).Got?
      ensures ok ==> VarintIn(data[old(pos)..]) == Got(value, data[pos..])
    {
      value := 0;
      var shift, scale := 0, 1;
      ghost var s, k := data[pos..], 0;
      while pos < |data|
        invariant pos == old(pos) + k <= |data| && 0 <= k <= 9 && shift == 7 * k && scale == Pow128(k)
        invariant forall j :: 0 <= j < k ==> s[j] >= 128
        invariant value == Groups(s[..k])
        decreases |data| - pos
      {
        var b: int := data[pos];
        assert s[k] == b;
        GroupsPrefix(s, k);
        pos, k := pos + 1, k + 1;
        value := Mod64(value + b % 0x80 * scale);
        if b < 0x80 {
          assert Terminator(s, 0) == Some(k - 1);
          assert s[k..] == data[pos..];
          return true, value;
        }
        shift, scale := shift + 7, 128 * scale;
        if shift >= 64 {
          return false, value;
        }
        GroupsBound(s[..k]);
        Pow128Mono(k, 9);
        Pow128Ten();
      }
      return false, value;
    }

    method ReadField() returns (field: Option<ProtoField>)
      requires 0 <= pos <= |data| < 0x8000_0000
      modifies this
      ensures var s := data[old(pos)..];
              if s == [] || FieldIn(s, old(pos)).NoField? then field == None
              else field == Some(FieldIn(s, old(pos)).field) && pos == FieldIn(s, old(pos)).next
    {
      hide FieldBody, VarintIn;
      if pos >= |data| {
        return None;
      }
      var ok, tag := ReadVarint();
      if !ok {
        return None;
      }
      field := ReadBody(TagNumber(tag), WireType(tag));
    }

    /** The switch over wire types. */
    method ReadBody(number: i32, wireType: nat) returns (field: Option<ProtoField>)
      requires 0 <= pos <= |data| < 0x8000_0000
      modifies this
      ensures Gives(FieldBody(data[old(pos)..], old(pos), number, wireType), field, pos)
    {
      hide VarintIn, Word32, DelimitedBody;
      var varintValue: u64, bits: u32 := 0, 0;
      if wireType == 0 {
        var ok;
        ok, varintValue := ReadVarint();
        if !ok {
          return None;
        }
      } else if wireType == 1 {
        if pos + 8 > |data| {
          return None;
        }
        pos := pos + 8;
      } else if wireType == 2 {
        field := ReadDelimited(number);
        return;
      } else if wireType == 5 {
        if pos + 4 > |data| {
          return None;
        }
        bits := Word32(data[pos..]);
        varintValue := bits;
        pos := pos + 4;
      } else {
        return None;
      }
      return Some(ProtoField(number, wireType, varintValue, bits, []));
    }

    /** The branch for strings and byte strings; both casts to `int` wrap. */
    method ReadDelimited(number: i32) returns (field: Option<ProtoField>)
      requires 0 <= pos <= |data| < 0x8000_0000
      modifies this
      ensures Gives(FieldBody(data[old(pos)..], old(pos), number, 2), field, pos)
    {
      hide VarintIn, Int32, Mid;
      var ok, len := ReadVarint();
      if !ok || Int32(pos + Int32(len)) > |data| {
        return None;
      }
      var raw := Mid(data[pos..], Int32(len));
      pos := Int32(pos + Int32(len));
      return Some(ProtoField(number, 2, 0, 0, raw));
    }
  }

  /**
   `decode`: reads fields while there are any. `left` has the positions not read from: the source goes
   on where this loop stops at any other, and repeats itself for ever, or reads before its buffer.
   */
  method DecodeFields(data: seq<byte>) returns (fields: seq<ProtoField>)
    requires |data| < 0x8000_0000
    ensures fields == Decode(data)
  {
    hide FieldIn, DecodeRun;
    var dec := new ProtoDecoder(data);
    var left := Range(0, |data| - 1);
    fields := [];
    assert data[0..] == data;
    while 0 <= dec.pos < |data| && dec.pos in left
      invariant dec.data == data && dec.pos <= |data|
      invariant fields + DecodeRun(data, dec.pos, left).fields == Decode(data)
      decreases left
    {
      var before := dec.pos;
      RunStep(data, before, left);
      var field := dec.ReadField();
      assert fields + [] == fields;
      if field.None? {
        return;
      }
      fields := fields + [field.value];
      left := left - {before};
    }
    RunStops(data, dec.pos, left);
    assert fields + [] == fields;
  }

  lemma {:induction false} Pow128Mono(m: nat, n: nat)
    requires m <= n
    ensures Pow128(m) <= Pow128(n)
    decreases n
  {
    if m < n {
      Pow128Mono(m, n - 1);
    }
  }
}
