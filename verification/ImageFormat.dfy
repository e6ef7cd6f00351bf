/**
 The image file: constants, function table, code and an optional debug section, with
 constants interned again while reading. Floats are eight opaque bytes compared by an
 arbitrary relation `same`, which stands for C's `==` on doubles.
 */
module ImageFormat {
  import opened Values
  import opened Bytecode

  type Bits = s: seq<Byte> | |s| == 8 witness [0, 0, 0, 0, 0, 0, 0, 0]

  type Sameness = (Bits, Bits) -> bool

  datatype Entry = NullEntry | BoolEntry(b: bool) | IntEntry(i: Int64) | FloatEntry(bits: Bits) | StringEntry(s: seq<Byte>)

  datatype Record = Record(nameIdx: nat, arity: nat, localCount: nat, maxStack: nat, codeOffset: nat, codeLength: nat,
                           captures: seq<Capture>)

  datatype File = File(constants: seq<Entry>, functions: seq<Record>, code: seq<Byte>, debug: seq<DebugEntry>)

  // ----- Interning -----

  predicate Same(same: Sameness, a: Entry, b: Entry) {
    if a.FloatEntry? && b.FloatEntry? then same(a.bits, b.bits) else a == b
  }

  /** The first entry the adders take for equal, the pool size if there is none. */
  function FindEntry(same: Sameness, pool: seq<Entry>, e: Entry): (k: nat)
    ensures k <= |pool|
    ensures k < |pool| ==> Same(same, pool[k], e)
    ensures forall j :: 0 <= j < k ==> !Same(same, pool[j], e)
  {
    if pool == [] then 0
    else if Same(same, pool[0], e) then 0
    else 1 + FindEntry(same, pool[1..], e)
  }

  function AddEntry(same: Sameness, pool: seq<Entry>, e: Entry): seq<Entry> {
    if FindEntry(same, pool, e) < |pool| then pool else pool + [e]
  }

  function AddAll(same: Sameness, pool: seq<Entry>, es: seq<Entry>): seq<Entry>
    decreases |es|
  {
    if es == [] then pool else AddAll(same, AddEntry(same, pool, es[0]), es[1..])
  }

  /** No entry equals an earlier one: the pools the adders build. */
  predicate Interned(same: Sameness, pool: seq<Entry>) {
    forall i, j :: 0 <= i < j < |pool| ==> !Same(same, pool[i], pool[j])
  }

  lemma AddEntryInterned(same: Sameness, pool: seq<Entry>, e: Entry)
    requires Interned(same, pool)
    ensures Interned(same, AddEntry(same, pool, e))
    ensures AddEntry(same, pool, e) == pool + [e] <==> Interned(same, pool + [e])
    ensures AddEntry(same, pool, e) == pool + [e] || (AddEntry(same, pool, e) == pool && |pool + [e]| == |pool| + 1)
  {
    if FindEntry(same, pool, e) < |pool| {
      var k := FindEntry(same, pool, e);
      assert Same(same, (pool + [e])[k], (pool + [e])[|pool|]);
      assert |pool + [e]| == |pool| + 1;
    }
  }

  lemma AddEntrySize(same: Sameness, pool: seq<Entry>, e: Entry)
    ensures |AddEntry(same, pool, e)| <= |pool| + 1
  {
  }

  lemma InternedPrefix(same: Sameness, pool: seq<Entry>, es: seq<Entry>)
    requires es != []
    ensures Interned(same, pool + es) ==> Interned(same, pool + [es[0]])
  {
    var all, some := pool + es, pool + [es[0]];
    if Interned(same, all) {
      forall i, j | 0 <= i < j < |some| ensures !Same(same, some[i], some[j]) {
        assert some[i] == all[i] && some[j] == all[j];
      }
    }
  }

  /** Adding entries builds an interned pool, and keeps all of them exactly when that is what they are. */
  lemma {:induction false} AddAllInterned(same: Sameness, pool: seq<Entry>, es: seq<Entry>)
    requires Interned(same, pool)
    ensures Interned(same, AddAll(same, pool, es)) && |AddAll(same, pool, es)| <= |pool| + |es|
    ensures AddAll(same, pool, es) == pool + es <==> Interned(same, pool + es)
    decreases |es|
  {
    hide Same; hide Interned; hide AddEntry;
    if es == [] {
      assert pool + es == pool;
    } else {
      var next := AddEntry(same, pool, es[0]);
      AddEntryInterned(same, pool, es[0]);
      AddAllInterned(same, next, es[1..]);
      InternedPrefix(same, pool, es);
      assert pool + [es[0]] + es[1..] == pool + es;
    }
  }

  // ----- Room in a table -----

  /** The capacity field after `n` additions to a table that starts with room for `least`. */
  function Capacity(least: nat, n: nat): nat {
    if n == 0 then 0
    else
      var c := Capacity(least, n - 1);
      if n - 1 < c then c else if c < least then least else c * 2 % 65536
  }

  predicate Doubling(c: nat) {
    c == 8 || c == 16 || c == 32 || c == 64 || c == 128 || c == 256 || c == 512 || c == 1024 || c == 2048 || c == 4096 ||
    c == 8192 || c == 16384 || c == 32768
  }

  lemma CapacityStep(least: nat, n: nat)
    ensures var c := Capacity(least, n);
            Capacity(least, n + 1) == if n < c then c else if c < least then least else c * 2 % 65536
  {
  }

  lemma CapacityNone(least: nat)
    ensures Capacity(least, 0) == 0
  {
  }

  lemma DoublingFacts(c: nat)
    ensures Doubling(8) && Doubling(16)
    ensures Doubling(c) ==> 8 <= c <= TABLE_MAX && (c < TABLE_MAX ==> Doubling(c * 2))
  {
  }

  lemma {:induction false} CapacityDoubles(least: nat, n: nat)
    requires (least == 8 || least == 16) && 0 < n <= TABLE_MAX
    ensures Doubling(Capacity(least, n)) && n <= Capacity(least, n)
    decreases n
  {
    hide Doubling; hide Capacity;
    CapacityStep(least, n - 1);
    DoublingFacts(least);
    if n > 1 {
      CapacityDoubles(least, n - 1);
      DoublingFacts(Capacity(least, n - 1));
    } else {
      CapacityNone(least);
    }
  }

  /** Every addition up to the limit finds room; the next one leaves a table of capacity zero. */
  lemma CapacityWraps(least: nat, n: nat)
    requires least == 8 || least == 16
    ensures n <= TABLE_MAX ==> n <= Capacity(least, n)
    ensures Capacity(least, TABLE_MAX + 1) == 0
  {
    hide Capacity; hide Doubling;
    if 0 < n <= TABLE_MAX {
      CapacityDoubles(least, n);
    }
    CapacityStep(least, TABLE_MAX);
    DoublingFacts(least);
    CapacityDoubles(least, TABLE_MAX);
    DoublingFacts(Capacity(least, TABLE_MAX));
  }

  // ----- Little-endian words of any width -----

  function Pow256(k: nat): (r: nat)
    ensures r >= 1
  {
    if k == 0 then 1 else 256 * Pow256(k - 1)
  }

  function ToBytes(u: nat, k: nat): (r: seq<Byte>)
    ensures |r| == k
  {
    if k == 0 then [] else [u % 256] + ToBytes(u / 256, k - 1)
  }

  function FromBytes(s: seq<Byte>): (u: nat)
    ensures u < Pow256(|s|)
  {
    if s == [] then 0
    else
      var b: int := s[0];
      b + 256 * FromBytes(s[1..])
  }

  lemma {:induction false} BytesRoundTrip(u: nat, k: nat)
    requires u < Pow256(k)
    ensures FromBytes(ToBytes(u, k)) == u
  {
    if k > 0 {
      BytesRoundTrip(u / 256, k - 1);
      assert ToBytes(u, k)[1..] == ToBytes(u / 256, k - 1);
    }
  }

  lemma EightBytes()
    ensures Pow256(8) == TWO_64
  {
    assert Pow256(1) == 256;
    assert Pow256(2) == 256 * 256;
    assert Pow256(3) == 256 * Pow256(2);
    assert Pow256(4) == 256 * Pow256(3);
    assert Pow256(5) == 256 * Pow256(4);
    assert Pow256(6) == 256 * Pow256(5);
    assert Pow256(7) == 256 * Pow256(6);
  }

  function ToSigned(u: nat): Int64
    requires u < TWO_64
  {
    if u < TWO_63 then u else u - TWO_64
  }

  // ----- The file as bytes -----

  const MAGIC: seq<Byte> := [65, 82, 67, 65]

  /** Magic, version 0.1 and no flags. */
  const HEADER: seq<Byte> := MAGIC + [0, 1, 0, 0]

  function PutBool(b: bool): seq<Byte> { if b then [1] else [0] }

  function Tag(e: Entry): Byte {
    match e
    case NullEntry => 0
    case BoolEntry(_) => 1
    case IntEntry(_) => 2
    case FloatEntry(_) => 3
    case StringEntry(_) => 4
  }

  function PutPayload(e: Entry): seq<Byte> {
    match e
    case NullEntry => []
    case BoolEntry(b) => PutBool(b)
    case IntEntry(i) => ToBytes(ToUnsigned(i), 8)
    case FloatEntry(bits) => bits
    case StringEntry(s) => U32(|s|) + s
  }

  function PutEntry(e: Entry): seq<Byte> { [Tag(e)] + PutPayload(e) }

  function PutEntries(es: seq<Entry>): seq<Byte> {
    if es == [] then [] else PutEntry(es[0]) + PutEntries(es[1..])
  }

  function PutCapture(c: Capture): (r: seq<Byte>)
    ensures |r| == 3
  {
    PutBool(c.Local?) + U16(c.index)
  }

  function PutCaptures(cs: seq<Capture>): seq<Byte> {
    if cs == [] then [] else PutCapture(cs[0]) + PutCaptures(cs[1..])
  }

  /** The fixed fields of a record. */
  function PutFields(f: Record): (r: seq<Byte>)
    ensures |r| == 16
  {
    U16(f.nameIdx) + [f.arity % 256] + U16(f.localCount) + U16(f.maxStack) + U32(f.codeOffset) + U32(f.codeLength) + [|f.captures| % 256]
  }

  function PutRecords(fs: seq<Record>): seq<Byte> {
    if fs == [] then [] else PutFields(fs[0]) + PutCaptures(fs[0].captures) + PutRecords(fs[1..])
  }

  function PutDebug(d: DebugEntry): (r: seq<Byte>)
    ensures |r| == 18
  {
    U16(d.funcIdx) + U32(d.start) + U32(d.end) + ToBytes(d.element, 8)
  }

  function PutDebugs(ds: seq<DebugEntry>): seq<Byte> {
    if ds == [] then [] else PutDebug(ds[0]) + PutDebugs(ds[1..])
  }

  /** Everything before the debug section. */
  function EncodeCore(f: File): seq<Byte> {
    HEADER + U16(|f.constants|) + U16(|f.functions|) + PutEntries(f.constants) + PutRecords(f.functions) + (U32(|f.code|) + f.code)
  }

  function Encode(f: File): seq<Byte> { EncodeCore(f) + (U32(|f.debug|) + PutDebugs(f.debug)) }

  // ----- Field widths -----

  predicate EntryFits(e: Entry) { e.StringEntry? ==> |e.s| < TWO_32 }

  predicate RecordFits(f: Record) {
    && f.nameIdx < 65536 && f.arity < 256 && f.localCount < 65536 && f.maxStack < 65536
    && f.codeOffset < TWO_32 && f.codeLength < TWO_32 && |f.captures| < 256
    && forall k :: 0 <= k < |f.captures| ==> f.captures[k].index < 65536
  }

  predicate DebugFits(d: DebugEntry) { d.funcIdx < 65536 && d.start < TWO_32 && d.end < TWO_32 && d.element < TWO_64 }

  predicate FileFits(f: File) {
    && |f.constants| <= TABLE_MAX && |f.functions| <= TABLE_MAX && |f.code| < TWO_32 && |f.debug| <= TWO_31
    && (forall k :: 0 <= k < |f.constants| ==> EntryFits(f.constants[k]))
    && (forall k :: 0 <= k < |f.functions| ==> RecordFits(f.functions[k]))
    && forall k :: 0 <= k < |f.debug| ==> DebugFits(f.debug[k])
  }

  // ----- Reading -----

  /** `Overrun` is a table that outgrows its capacity field; the source then writes outside it. */
  datatype Parsed<+T> = Got(value: T, pos: nat) | Bad | Overrun

  type Piece<+T> = r: Parsed<T> | !r.Overrun? witness Bad

  function GetU8(d: seq<Byte>, pos: nat): Piece<Byte> {
    if pos >= |d| then Bad else Got(d[pos], pos + 1)
  }

  function GetU16(d: seq<Byte>, pos: nat): Piece<nat> {
    if pos + 2 > |d| then Bad else Got(ReadU16(d, pos), pos + 2)
  }

  function GetU32(d: seq<Byte>, pos: nat): Piece<nat> {
    if pos + 4 > |d| then Bad else Got(ReadU32(d, pos), pos + 4)
  }

  function GetBytes(d: seq<Byte>, pos: nat, n: nat): (r: Piece<seq<Byte>>)
    ensures r.Got? ==> |r.value| == n
  {
    if pos + n > |d| then Bad else Got(d[pos..pos + n], pos + n)
  }

  function GetEntry(d: seq<Byte>, pos: nat): Piece<Entry> {
    var tag := GetU8(d, pos);
    if tag.Bad? then Bad
    else if tag.value == 0 then Got(NullEntry, tag.pos)
    else if tag.value == 1 then
      var v := GetU8(d, tag.pos);
      if v.Bad? then Bad else Got(BoolEntry(v.value != 0), v.pos)
    else if tag.value == 2 then
      var v := GetBytes(d, tag.pos, 8);
      if v.Bad? then Bad
      else
        EightBytes();
        Got(IntEntry(ToSigned(FromBytes(v.value))), v.pos)
    else if tag.value == 3 then
      var v := GetBytes(d, tag.pos, 8);
      if v.Bad? then Bad else Got(FloatEntry(v.value), v.pos)
    else if tag.value == 4 then
      var n := GetU32(d, tag.pos);
      if n.Bad? then Bad
      else
        var v := GetBytes(d, n.pos, n.value);
        if v.Bad? then Bad else Got(StringEntry(v.value), v.pos)
    else Bad
  }

  function GetEntries(same: Sameness, d: seq<Byte>, pos: nat, count: nat, pool: seq<Entry>): Parsed<seq<Entry>>
    decreases count
  {
    if count == 0 then Got(pool, pos)
    else
      var e := GetEntry(d, pos);
      if e.Bad? then Bad
      else if |AddEntry(same, pool, e.value)| > TABLE_MAX then Overrun
      else GetEntries(same, d, e.pos, count - 1, AddEntry(same, pool, e.value))
  }

  function GetCapture(d: seq<Byte>, pos: nat): Piece<Capture> {
    if pos + 3 > |d| then Bad
    else Got(if d[pos] != 0 then Local(ReadU16(d, pos + 1)) else Enclosing(ReadU16(d, pos + 1)), pos + 3)
  }

  function GetCaptures(d: seq<Byte>, pos: nat, count: nat, cs: seq<Capture>): (r: Piece<seq<Capture>>)
    ensures r.Got? ==> |r.value| == |cs| + count
    decreases count
  {
    if count == 0 then Got(cs, pos)
    else
      var c := GetCapture(d, pos);
      if c.Bad? then Bad else GetCaptures(d, c.pos, count - 1, cs + [c.value])
  }

  /** The sixteen bytes of fixed fields, read one field after the other, then the captures. */
  function GetRecord(d: seq<Byte>, pos: nat): Piece<Record> {
    if pos + 16 > |d| then Bad
    else
      var n: int := d[pos + 15];
      var cs := GetCaptures(d, pos + 16, n, []);
      if cs.Bad? then Bad
      else Got(Record(ReadU16(d, pos), d[pos + 2], ReadU16(d, pos + 3), ReadU16(d, pos + 5), ReadU32(d, pos + 7),
                      ReadU32(d, pos + 11), cs.value), cs.pos)
  }

  function GetRecords(d: seq<Byte>, pos: nat, count: nat, fs: seq<Record>): Parsed<seq<Record>>
    decreases count
  {
    if count == 0 then Got(fs, pos)
    else
      var f := GetRecord(d, pos);
      if f.Bad? then Bad
      else if |fs| >= TABLE_MAX then Overrun
      else GetRecords(d, f.pos, count - 1, fs + [f.value])
  }

  function GetDebug(d: seq<Byte>, pos: nat): Piece<DebugEntry> {
    if pos + 18 > |d| then Bad
    else Got(DebugEntry(ReadU16(d, pos), ReadU32(d, pos + 2), ReadU32(d, pos + 6), FromBytes(d[pos + 10..pos + 18])), pos + 18)
  }

  function GetDebugs(d: seq<Byte>, pos: nat, count: nat, ds: seq<DebugEntry>): Parsed<seq<DebugEntry>>
    decreases count
  {
    if count == 0 then Got(ds, pos)
    else
      var e := GetDebug(d, pos);
      if e.Bad? then Bad
      else if |ds| >= TWO_31 then Overrun
      else GetDebugs(d, e.pos, count - 1, ds + [e.value])
  }

  /** Everything up to the end of the code. Version and flags are read and ignored. */
  function GetCore(same: Sameness, d: seq<Byte>): Parsed<File> {
    if |d| < 12 || d[..4] != MAGIC then Bad
    else
      var es := GetEntries(same, d, 12, ReadU16(d, 8), []);
      if es.Overrun? then Overrun
      else if es.Bad? then Bad
      else
        var fs := GetRecords(d, es.pos, ReadU16(d, 10), []);
        if fs.Overrun? then Overrun
        else if fs.Bad? then Bad
        else
          var n := GetU32(d, fs.pos);
          if n.Bad? then Bad
          else
            var code := GetBytes(d, n.pos, n.value);
            if code.Bad? then Bad else Got(File(es.value, fs.value, code.value, []), code.pos)
  }

  datatype Reading = Accepted(file: File) | Malformed | Outgrown

  /** The debug section is read when anything follows the code. */
  function Parse(same: Sameness, d: seq<Byte>): Reading {
    var core := GetCore(same, d);
    if core.Overrun? then Outgrown
    else if core.Bad? then Malformed
    else if core.pos >= |d| then Accepted(core.value)
    else
      var n := GetU32(d, core.pos);
      if n.Bad? then Malformed
      else
        var ds := GetDebugs(d, n.pos, n.value, []);
        if ds.Overrun? then Outgrown
        else if ds.Bad? then Malformed
        else Accepted(core.value.(debug := ds.value))
  }

  // ----- What is written is read back -----

  lemma HoldsThen(d: seq<Byte>, pos: nat, a: seq<Byte>, b: seq<Byte>)
    requires Holds(d, pos, a + b)
    ensures Holds(d, pos, a) && Holds(d, pos + |a|, b)
  {
    HoldsSplit(d, pos, a, b);
  }

  lemma HoldsOne(d: seq<Byte>, pos: nat, b: Byte)
    requires Holds(d, pos, [b])
    ensures pos < |d| && d[pos] == b
  {
    assert d[pos..pos + 1][0] == d[pos];
  }

  lemma HoldsSlice(d: seq<Byte>, pos: nat, s: seq<Byte>)
    requires Holds(d, pos, s)
    ensures pos + |s| <= |d| && d[pos..pos + |s|] == s
  {
  }

  lemma TextReads(d: seq<Byte>, pos: nat, s: seq<Byte>)
    requires |s| < TWO_32 && Holds(d, pos, U32(|s|) + s)
    ensures GetU32(d, pos) == Got(|s|, pos + 4) && GetBytes(d, pos + 4, |s|) == Got(s, pos + 4 + |s|)
  {
    hide ReadU32; hide U32;
    HoldsThen(d, pos, U32(|s|), s);
    U32RoundTrip(|s|, d, pos);
  }

  lemma WordReads(d: seq<Byte>, pos: nat, i: Int64)
    requires Holds(d, pos, ToBytes(ToUnsigned(i), 8))
    ensures var v := GetBytes(d, pos, 8);
            v.Got? && v.pos == pos + 8 && FromBytes(v.value) < TWO_64 && ToSigned(FromBytes(v.value)) == i
  {
    hide Pow256;
    EightBytes();
    BytesRoundTrip(ToUnsigned(i), 8);
  }

  lemma {:induction false} EntryReads(d: seq<Byte>, pos: nat, e: Entry)
    requires EntryFits(e) && Holds(d, pos, PutEntry(e))
    ensures GetEntry(d, pos) == Got(e, pos + |PutEntry(e)|)
  {
    hide Pow256; hide ReadU32; hide U32; hide Holds; hide ToBytes; hide FromBytes;
    HoldsThen(d, pos, [Tag(e)], PutPayload(e));
    HoldsOne(d, pos, Tag(e));
    match e
    case NullEntry =>
    case BoolEntry(b) => HoldsOne(d, pos + 1, if b then 1 else 0);
    case IntEntry(i) => WordReads(d, pos + 1, i);
    case FloatEntry(bits) => HoldsSlice(d, pos + 1, bits);
    case StringEntry(s) => TextReads(d, pos + 1, s);
  }

  lemma {:induction false} EntriesRead(same: Sameness, d: seq<Byte>, pos: nat, es: seq<Entry>, pool: seq<Entry>)
    requires (forall k :: 0 <= k < |es| ==> EntryFits(es[k])) && Holds(d, pos, PutEntries(es)) && |pool| + |es| <= TABLE_MAX
    ensures GetEntries(same, d, pos, |es|, pool) == Got(AddAll(same, pool, es), pos + |PutEntries(es)|)
    decreases |es|
  {
    hide GetEntry; hide PutEntry; hide EntryFits; hide AddEntry; hide Holds;
    if es != [] {
      HoldsThen(d, pos, PutEntry(es[0]), PutEntries(es[1..]));
      EntryReads(d, pos, es[0]);
      AddEntrySize(same, pool, es[0]);
      EntriesRead(same, d, pos + |PutEntry(es[0])|, es[1..], AddEntry(same, pool, es[0]));
    }
  }

  lemma {:induction false} CaptureReads(d: seq<Byte>, pos: nat, c: Capture)
    requires c.index < 65536 && Holds(d, pos, PutCapture(c))
    ensures GetCapture(d, pos) == Got(c, pos + 3)
  {
    hide ReadU16; hide U16;
    HoldsThen(d, pos, PutBool(c.Local?), U16(c.index));
    HoldsOne(d, pos, if c.Local? then 1 else 0);
    U16RoundTrip(c.index, d, pos + 1);
  }

  lemma {:induction false} CapturesRead(d: seq<Byte>, pos: nat, cs: seq<Capture>, done: seq<Capture>)
    requires (forall k :: 0 <= k < |cs| ==> cs[k].index < 65536) && Holds(d, pos, PutCaptures(cs))
    ensures GetCaptures(d, pos, |cs|, done) == Got(done + cs, pos + |PutCaptures(cs)|)
    decreases |cs|
  {
    hide GetCapture; hide PutCapture; hide Holds;
    if cs == [] {
      assert done + cs == done;
    } else {
      HoldsThen(d, pos, PutCapture(cs[0]), PutCaptures(cs[1..]));
      CaptureReads(d, pos, cs[0]);
      CapturesRead(d, pos + 3, cs[1..], done + [cs[0]]);
      assert done + [cs[0]] + cs[1..] == done + cs;
    }
  }

  lemma {:induction false} FieldsRead(d: seq<Byte>, pos: nat, f: Record)
    requires RecordFits(f) && Holds(d, pos, PutFields(f))
    ensures pos + 16 <= |d| && ReadU16(d, pos) == f.nameIdx && d[pos + 2] == f.arity && ReadU16(d, pos + 3) == f.localCount
    ensures ReadU16(d, pos + 5) == f.maxStack && ReadU32(d, pos + 7) == f.codeOffset && ReadU32(d, pos + 11) == f.codeLength
    ensures d[pos + 15] == |f.captures|
  {
    hide ReadU16; hide ReadU32; hide U16; hide U32;
    var a, b, c, e := U16(f.nameIdx), [f.arity % 256], U16(f.localCount), U16(f.maxStack);
    var g, h, i := U32(f.codeOffset), U32(f.codeLength), [|f.captures| % 256];
    HoldsThen(d, pos, a + b + c + e + g + h, i);
    HoldsThen(d, pos, a + b + c + e + g, h);
    HoldsThen(d, pos, a + b + c + e, g);
    HoldsThen(d, pos, a + b + c, e);
    HoldsThen(d, pos, a + b, c);
    HoldsThen(d, pos, a, b);
    U16RoundTrip(f.nameIdx, d, pos);
    HoldsOne(d, pos + 2, f.arity % 256);
    U16RoundTrip(f.localCount, d, pos + 3);
    U16RoundTrip(f.maxStack, d, pos + 5);
    U32RoundTrip(f.codeOffset, d, pos + 7);
    U32RoundTrip(f.codeLength, d, pos + 11);
    HoldsOne(d, pos + 15, |f.captures| % 256);
  }

  lemma {:induction false} RecordReads(d: seq<Byte>, pos: nat, f: Record)
    requires RecordFits(f) && Holds(d, pos, PutFields(f) + PutCaptures(f.captures))
    ensures GetRecord(d, pos) == Got(f, pos + 16 + |PutCaptures(f.captures)|)
  {
    hide PutFields; hide ReadU16; hide ReadU32; hide GetCaptures; hide PutCaptures;
    HoldsThen(d, pos, PutFields(f), PutCaptures(f.captures));
    FieldsRead(d, pos, f);
    CapturesRead(d, pos + 16, f.captures, []);
    assert [] + f.captures == f.captures;
  }

  lemma {:induction false} RecordsRead(d: seq<Byte>, pos: nat, fs: seq<Record>, done: seq<Record>)
    requires (forall k :: 0 <= k < |fs| ==> RecordFits(fs[k])) && Holds(d, pos, PutRecords(fs)) && |done| + |fs| <= TABLE_MAX
    ensures GetRecords(d, pos, |fs|, done) == Got(done + fs, pos + |PutRecords(fs)|)
    decreases |fs|
  {
    hide PutFields; hide PutCaptures; hide GetRecord; hide Holds; hide RecordFits;
    if fs == [] {
      assert done + fs == done;
    } else {
      var f := fs[0];
      HoldsThen(d, pos, PutFields(f) + PutCaptures(f.captures), PutRecords(fs[1..]));
      RecordReads(d, pos, f);
      RecordsRead(d, pos + 16 + |PutCaptures(f.captures)|, fs[1..], done + [f]);
      assert done + [f] + fs[1..] == done + fs;
    }
  }

  lemma {:induction false} DebugReads(d: seq<Byte>, pos: nat, e: DebugEntry)
    requires DebugFits(e) && Holds(d, pos, PutDebug(e))
    ensures GetDebug(d, pos) == Got(e, pos + 18)
  {
    hide ReadU16; hide ReadU32; hide U16; hide U32; hide ToBytes; hide FromBytes; hide Pow256;
    var a, b, c, g := U16(e.funcIdx), U32(e.start), U32(e.end), ToBytes(e.element, 8);
    HoldsThen(d, pos, a + b + c, g);
    HoldsThen(d, pos, a + b, c);
    HoldsThen(d, pos, a, b);
    U16RoundTrip(e.funcIdx, d, pos);
    U32RoundTrip(e.start, d, pos + 2);
    U32RoundTrip(e.end, d, pos + 6);
    EightBytes();
    BytesRoundTrip(e.element, 8);
  }

  lemma {:induction false} DebugsRead(d: seq<Byte>, pos: nat, ds: seq<DebugEntry>, done: seq<DebugEntry>)
    requires (forall k :: 0 <= k < |ds| ==> DebugFits(ds[k])) && Holds(d, pos, PutDebugs(ds)) && |done| + |ds| <= TWO_31
    ensures GetDebugs(d, pos, |ds|, done) == Got(done + ds, pos + |PutDebugs(ds)|)
    decreases |ds|
  {
    hide GetDebug; hide PutDebug;
    if ds == [] {
      assert done + ds == done;
    } else {
      HoldsThen(d, pos, PutDebug(ds[0]), PutDebugs(ds[1..]));
      DebugReads(d, pos, ds[0]);
      DebugsRead(d, pos + 18, ds[1..], done + [ds[0]]);
      assert done + [ds[0]] + ds[1..] == done + ds;
    }
  }

  lemma HeaderReads(d: seq<Byte>, f: File)
    requires |f.constants| < 65536 && |f.functions| < 65536
    requires Holds(d, 0, HEADER + U16(|f.constants|) + U16(|f.functions|))
    ensures |d| >= 12 && d[..4] == MAGIC && ReadU16(d, 8) == |f.constants| && ReadU16(d, 10) == |f.functions|
  {
    HoldsThen(d, 0, HEADER + U16(|f.constants|), U16(|f.functions|));
    HoldsThen(d, 0, HEADER, U16(|f.constants|));
    HoldsThen(d, 0, MAGIC, [0, 1, 0, 0]);
    U16RoundTrip(|f.constants|, d, 8);
    U16RoundTrip(|f.functions|, d, 10);
  }

  /** The sections before the debug table, found at the start of some bytes, are read back. */
  lemma {:induction false} CoreReads(same: Sameness, d: seq<Byte>, f: File)
    requires FileFits(f) && Holds(d, 0, EncodeCore(f))
    ensures GetCore(same, d) == Got(File(AddAll(same, [], f.constants), f.functions, f.code, []), |EncodeCore(f)|)
  {
    hide ReadU16; hide ReadU32; hide U16; hide U32; hide GetEntries; hide GetRecords; hide PutEntries; hide PutRecords; hide AddAll;
    var head := HEADER + U16(|f.constants|) + U16(|f.functions|);
    var es, fs, n := PutEntries(f.constants), PutRecords(f.functions), U32(|f.code|);
    HoldsThen(d, 0, head + es + fs, n + f.code);
    HoldsThen(d, 0, head + es, fs);
    HoldsThen(d, 0, head, es);
    HoldsThen(d, |head + es + fs|, n, f.code);
    HeaderReads(d, f);
    EntriesRead(same, d, 12, f.constants, []);
    RecordsRead(d, |head + es|, f.functions, []);
    assert [] + f.functions == f.functions;
    U32RoundTrip(|f.code|, d, |head + es + fs|);
  }

  /** Reading what was written gives the same image, except that equal constants are merged. */
  lemma {:induction false} RoundTripMerges(same: Sameness, f: File)
    requires FileFits(f)
    ensures Parse(same, Encode(f)) == Accepted(f.(constants := AddAll(same, [], f.constants)))
  {
    hide EncodeCore; hide GetCore; hide GetDebugs; hide PutDebugs; hide U32; hide ReadU32; hide AddAll;
    var d, core, tail := Encode(f), EncodeCore(f), U32(|f.debug|) + PutDebugs(f.debug);
    assert d[0..0 + |core|] == core && d[|core|..|core| + |tail|] == tail;
    CoreReads(same, d, f);
    HoldsThen(d, |core|, U32(|f.debug|), PutDebugs(f.debug));
    U32RoundTrip(|f.debug|, d, |core|);
    DebugsRead(d, |core| + 4, f.debug, []);
    assert [] + f.debug == f.debug;
  }

  /** The round trip restores the image with the same constant indices exactly when its pool is interned. */
  lemma {:induction false} RoundTripExact(same: Sameness, f: File)
    requires FileFits(f)
    ensures Parse(same, Encode(f)) == Accepted(f) <==> Interned(same, f.constants)
  {
    hide Parse; hide Encode; hide AddAll;
    RoundTripMerges(same, f);
    AddAllInterned(same, [], f.constants);
    assert [] + f.constants == f.constants;
  }

  // ----- What is read can be written and read again -----

  lemma EntryReadFits(d: seq<Byte>, pos: nat)
    ensures GetEntry(d, pos).Got? ==> EntryFits(GetEntry(d, pos).value)
  {
    hide FromBytes;
  }

  lemma {:induction false} EntriesReadFit(same: Sameness, d: seq<Byte>, pos: nat, count: nat, pool: seq<Entry>)
    requires Interned(same, pool) && |pool| <= TABLE_MAX && forall k :: 0 <= k < |pool| ==> EntryFits(pool[k])
    ensures var r := GetEntries(same, d, pos, count, pool);
            r.Got? ==> Interned(same, r.value) && |r.value| <= TABLE_MAX && forall k :: 0 <= k < |r.value| ==> EntryFits(r.value[k])
    decreases count
  {
    hide GetEntry; hide EntryFits; hide Interned;
    if count > 0 {
      var e := GetEntry(d, pos);
      if e.Got? {
        EntryReadFits(d, pos);
        AddEntryInterned(same, pool, e.value);
        if |AddEntry(same, pool, e.value)| <= TABLE_MAX {
          EntriesReadFit(same, d, e.pos, count - 1, AddEntry(same, pool, e.value));
        }
      }
    }
  }

  lemma CaptureReadFits(d: seq<Byte>, pos: nat)
    ensures GetCapture(d, pos).Got? ==> GetCapture(d, pos).value.index < 65536
  {
    hide ReadU16;
  }

  lemma {:induction false} CapturesReadFit(d: seq<Byte>, pos: nat, count: nat, cs: seq<Capture>)
    requires forall k :: 0 <= k < |cs| ==> cs[k].index < 65536
    ensures var r := GetCaptures(d, pos, count, cs); r.Got? ==> forall k :: 0 <= k < |r.value| ==> r.value[k].index < 65536
    decreases count
  {
    hide GetCapture;
    if count > 0 && GetCapture(d, pos).Got? {
      CaptureReadFits(d, pos);
      CapturesReadFit(d, GetCapture(d, pos).pos, count - 1, cs + [GetCapture(d, pos).value]);
    }
  }

  lemma RecordReadFits(d: seq<Byte>, pos: nat)
    ensures GetRecord(d, pos).Got? ==> RecordFits(GetRecord(d, pos).value)
  {
    hide ReadU16; hide ReadU32; hide GetCaptures;
    if pos + 16 <= |d| {
      CapturesReadFit(d, pos + 16, d[pos + 15], []);
    }
  }

  lemma {:induction false} RecordsReadFit(d: seq<Byte>, pos: nat, count: nat, fs: seq<Record>)
    requires |fs| <= TABLE_MAX && forall k :: 0 <= k < |fs| ==> RecordFits(fs[k])
    ensures var r := GetRecords(d, pos, count, fs);
            r.Got? ==> |r.value| <= TABLE_MAX && forall k :: 0 <= k < |r.value| ==> RecordFits(r.value[k])
    decreases count
  {
    hide GetRecord; hide RecordFits;
    if count > 0 && GetRecord(d, pos).Got? && |fs| < TABLE_MAX {
      RecordReadFits(d, pos);
      RecordsReadFit(d, GetRecord(d, pos).pos, count - 1, fs + [GetRecord(d, pos).value]);
    }
  }

  lemma DebugReadFits(d: seq<Byte>, pos: nat)
    ensures GetDebug(d, pos).Got? ==> DebugFits(GetDebug(d, pos).value)
  {
    hide ReadU16; hide ReadU32;
    EightBytes();
    hide Pow256;
  }

  lemma {:induction false} DebugsReadFit(d: seq<Byte>, pos: nat, count: nat, ds: seq<DebugEntry>)
    requires |ds| <= TWO_31 && forall k :: 0 <= k < |ds| ==> DebugFits(ds[k])
    ensures var r := GetDebugs(d, pos, count, ds);
            r.Got? ==> |r.value| <= TWO_31 && forall k :: 0 <= k < |r.value| ==> DebugFits(r.value[k])
    decreases count
  {
    hide GetDebug; hide DebugFits;
    if count > 0 && GetDebug(d, pos).Got? && |ds| < TWO_31 {
      DebugReadFits(d, pos);
      DebugsReadFit(d, GetDebug(d, pos).pos, count - 1, ds + [GetDebug(d, pos).value]);
    }
  }

  lemma {:induction false} CoreReadFits(same: Sameness, d: seq<Byte>)
    ensures var r := GetCore(same, d); r.Got? ==> FileFits(r.value) && Interned(same, r.value.constants)
  {
    hide GetEntries; hide GetRecords; hide ReadU16; hide ReadU32; hide EntryFits; hide RecordFits; hide Interned;
    if GetCore(same, d).Got? {
      NothingInterned(same);
      EntriesReadFit(same, d, 12, ReadU16(d, 8), []);
      RecordsReadFit(d, GetEntries(same, d, 12, ReadU16(d, 8), []).pos, ReadU16(d, 10), []);
    }
  }

  lemma NothingInterned(same: Sameness)
    ensures Interned(same, [])
  {
  }

  /** Every accepted byte string is an image that fits and has an interned pool. */
  lemma {:induction false} ParsedFits(same: Sameness, d: seq<Byte>)
    ensures Parse(same, d).Accepted? ==> FileFits(Parse(same, d).file) && Interned(same, Parse(same, d).file.constants)
  {
    hide GetCore; hide GetDebugs; hide ReadU32; hide EntryFits; hide RecordFits; hide DebugFits; hide Interned;
    CoreReadFits(same, d);
    var core := GetCore(same, d);
    if core.Got? && core.pos < |d| {
      var n := GetU32(d, core.pos);
      if n.Got? {
        DebugsReadFit(d, n.pos, n.value, []);
      }
    }
  }

  /** Reading, writing and reading again gives what reading gave, for any accepted bytes. */
  lemma {:induction false} ReadWriteRead(same: Sameness, d: seq<Byte>)
    requires Parse(same, d).Accepted?
    ensures Parse(same, Encode(Parse(same, d).file)) == Parse(same, d)
  {
    hide Parse; hide Encode; hide FileFits;
    ParsedFits(same, d);
    RoundTripExact(same, Parse(same, d).file);
  }

  // ----- Truncated files -----

  lemma ReadCut(d: seq<Byte>, pos: nat, k: nat)
    requires k <= |d|
    ensures pos + 2 <= k ==> ReadU16(d[..k], pos) == ReadU16(d, pos)
    ensures pos + 4 <= k ==> ReadU32(d[..k], pos) == ReadU32(d, pos)
  {
  }

  lemma SliceCut(d: seq<Byte>, from: nat, n: nat, k: nat)
    requires from + n <= k <= |d|
    ensures d[..k][from..from + n] == d[from..from + n]
  {
  }

  /** On a prefix an entry is read as before if it lies inside, and not at all otherwise. */
  lemma {:induction false} EntryCut(d: seq<Byte>, pos: nat, k: nat)
    requires k <= |d| && GetEntry(d, pos).Got?
    ensures var r := GetEntry(d, pos); pos < r.pos && GetEntry(d[..k], pos) == if r.pos <= k then r else Bad
  {
    hide ReadU32; hide FromBytes; hide Pow256;
    ReadCut(d, pos + 1, k);
    if pos + 9 <= k {
      SliceCut(d, pos + 1, 8, k);
    }
    if pos + 5 <= k && GetU32(d, pos + 1).Got? && pos + 5 + GetU32(d, pos + 1).value <= k {
      SliceCut(d, pos + 5, GetU32(d, pos + 1).value, k);
    }
  }

  lemma {:induction false} EntriesCut(same: Sameness, d: seq<Byte>, pos: nat, count: nat, pool: seq<Entry>, k: nat)
    requires k <= |d| && GetEntries(same, d, pos, count, pool).Got?
    ensures var r := GetEntries(same, d, pos, count, pool);
            pos <= r.pos && (r.pos <= k ==> GetEntries(same, d[..k], pos, count, pool) == r) &&
            (r.pos > k && r.pos > pos ==> GetEntries(same, d[..k], pos, count, pool) == Bad)
    decreases count
  {
    hide GetEntry;
    if count > 0 {
      var e := GetEntry(d, pos);
      EntryCut(d, pos, k);
      EntriesCut(same, d, e.pos, count - 1, AddEntry(same, pool, e.value), k);
    }
  }

  lemma CaptureCut(d: seq<Byte>, pos: nat, k: nat)
    requires k <= |d| && GetCapture(d, pos).Got?
    ensures var r := GetCapture(d, pos); pos < r.pos && GetCapture(d[..k], pos) == if r.pos <= k then r else Bad
  {
    hide ReadU16;
    ReadCut(d, pos + 1, k);
  }

  lemma {:induction false} CapturesCut(d: seq<Byte>, pos: nat, count: nat, cs: seq<Capture>, k: nat)
    requires k <= |d| && GetCaptures(d, pos, count, cs).Got?
    ensures var r := GetCaptures(d, pos, count, cs);
            pos <= r.pos && (r.pos <= k ==> GetCaptures(d[..k], pos, count, cs) == r) &&
            (r.pos > k && r.pos > pos ==> GetCaptures(d[..k], pos, count, cs) == Bad)
    decreases count
  {
    hide GetCapture;
    if count > 0 {
      var c := GetCapture(d, pos);
      CaptureCut(d, pos, k);
      CapturesCut(d, c.pos, count - 1, cs + [c.value], k);
    }
  }

  lemma {:induction false} RecordCut(d: seq<Byte>, pos: nat, k: nat)
    requires k <= |d| && GetRecord(d, pos).Got?
    ensures var r := GetRecord(d, pos); pos < r.pos && GetRecord(d[..k], pos) == if r.pos <= k then r else Bad
  {
    hide ReadU16; hide ReadU32; hide GetCaptures;
    CapturesCut(d, pos + 16, d[pos + 15], [], k);
    ReadCut(d, pos, k);
    ReadCut(d, pos + 3, k);
    ReadCut(d, pos + 5, k);
    ReadCut(d, pos + 7, k);
    ReadCut(d, pos + 11, k);
  }

  lemma {:induction false} RecordsCut(d: seq<Byte>, pos: nat, count: nat, fs: seq<Record>, k: nat)
    requires k <= |d| && GetRecords(d, pos, count, fs).Got?
    ensures var r := GetRecords(d, pos, count, fs);
            pos <= r.pos && (r.pos <= k ==> GetRecords(d[..k], pos, count, fs) == r) &&
            (r.pos > k && r.pos > pos ==> GetRecords(d[..k], pos, count, fs) == Bad)
    decreases count
  {
    hide GetRecord;
    if count > 0 {
      var f := GetRecord(d, pos);
      RecordCut(d, pos, k);
      RecordsCut(d, f.pos, count - 1, fs + [f.value], k);
    }
  }

  lemma {:induction false} DebugsCut(d: seq<Byte>, pos: nat, count: nat, ds: seq<DebugEntry>, k: nat)
    requires k <= |d| && GetDebugs(d, pos, count, ds).Got?
    ensures var r := GetDebugs(d, pos, count, ds);
            pos <= r.pos && (r.pos > k && r.pos > pos ==> GetDebugs(d[..k], pos, count, ds) == Bad)
    decreases count
  {
    hide ReadU16; hide ReadU32; hide FromBytes;
    if count > 0 {
      var e := GetDebug(d, pos);
      DebugsCut(d, e.pos, count - 1, ds + [e.value], k);
      if e.pos <= k {
        ReadCut(d, pos, k);
        ReadCut(d, pos + 2, k);
        ReadCut(d, pos + 6, k);
        SliceCut(d, pos + 10, 8, k);
      }
    }
  }

  lemma {:induction false} CoreCut(same: Sameness, d: seq<Byte>, k: nat)
    requires k <= |d| && GetCore(same, d).Got?
    ensures GetCore(same, d[..k]) == if GetCore(same, d).pos <= k then GetCore(same, d) else Bad
  {
    hide ReadU16; hide ReadU32; hide GetEntries; hide GetRecords;
    var c := d[..k];
    if k >= 12 {
      assert c[..4] == d[..4];
      ReadCut(d, 8, k);
      ReadCut(d, 10, k);
      EntriesCut(same, d, 12, ReadU16(d, 8), [], k);
      var es := GetEntries(same, d, 12, ReadU16(d, 8), []);
      RecordsCut(d, es.pos, ReadU16(d, 10), [], k);
      var fs := GetRecords(d, es.pos, ReadU16(d, 10), []);
      ReadCut(d, fs.pos, k);
      var n := GetU32(d, fs.pos);
      if n.pos + n.value <= k {
        SliceCut(d, n.pos, n.value, k);
      }
    } else {
      CoreBeyondHeader(same, d);
    }
  }

  lemma CoreBeyondHeader(same: Sameness, d: seq<Byte>)
    requires GetCore(same, d).Got?
    ensures GetCore(same, d).pos >= 12
  {
    hide GetEntry; hide GetRecord; hide ReadU16; hide ReadU32;
    EntriesCut(same, d, 12, ReadU16(d, 8), [], |d|);
    var es := GetEntries(same, d, 12, ReadU16(d, 8), []);
    RecordsCut(d, es.pos, ReadU16(d, 10), [], |d|);
  }

  /** No truncated file is accepted, except the one cut right before the debug section. */
  lemma {:induction false} TruncatedRejected(same: Sameness, f: File, k: nat)
    requires FileFits(f) && k < |Encode(f)|
    ensures Parse(same, Encode(f)[..k]) ==
            if k == |EncodeCore(f)| then Accepted(f.(constants := AddAll(same, [], f.constants), debug := [])) else Malformed
  {
    hide EncodeCore; hide GetCore; hide GetDebugs; hide PutDebugs; hide U32; hide ReadU32; hide AddAll;
    var d, core, tail := Encode(f), EncodeCore(f), U32(|f.debug|) + PutDebugs(f.debug);
    assert d[0..0 + |core|] == core && d[|core|..|core| + |tail|] == tail;
    CoreReads(same, d, f);
    CoreCut(same, d, k);
    if k > |core| {
      HoldsThen(d, |core|, U32(|f.debug|), PutDebugs(f.debug));
      U32RoundTrip(|f.debug|, d, |core|);
      ReadCut(d, |core|, k);
      DebugsRead(d, |core| + 4, f.debug, []);
      DebugsCut(d, |core| + 4, |f.debug|, [], k);
    }
  }

  // ----- The writer and the reader as they run -----

  class Writer {
    var out: seq<Byte>

    constructor ()
      ensures out == []
    {
      out := [];
    }

    method U8(b: Byte)
      modifies this
      ensures out == old(out) + [b]
    {
      out := out + [b];
    }

    method Word16(v: nat)
      modifies this
      ensures out == old(out) + U16(v)
    {
      U8(v % 256);
      U8(v / 256 % 256);
    }

    method Word32(v: nat)
      modifies this
      ensures out == old(out) + U32(v)
    {
      var u := v % TWO_32;
      U8(u % 256);
      U8(u / 256 % 256);
      U8(u / 65536 % 256);
      U8(u / 16777216 % 256);
    }

    /** Eight bytes, low first, shifting the word down. */
    method Word64(v: nat)
      modifies this
      ensures out == old(out) + ToBytes(v, 8)
    {
      var u, i := v, 0;
      while i < 8
        invariant 0 <= i <= 8 && old(out) + ToBytes(v, 8) == out + ToBytes(u, 8 - i)
      {
        U8(u % 256);
        u := u / 256;
        i := i + 1;
      }
    }

    method Bytes(s: seq<Byte>)
      modifies this
      ensures out == old(out) + s
    {
      var i := 0;
      while i < |s|
        invariant 0 <= i <= |s| && out == old(out) + s[..i]
      {
        U8(s[i]);
        i := i + 1;
      }
      assert s[..i] == s;
    }

    /** A length, then that many bytes. */
    method Text(s: seq<Byte>)
      modifies this
      ensures out == old(out) + (U32(|s|) + s)
    {
      hide U32;
      Word32(|s|);
      Bytes(s);
    }

    method OneEntry(e: Entry)
      modifies this
      ensures out == old(out) + PutEntry(e)
    {
      hide ToUnsigned; hide U32; hide ToBytes;
      U8(Tag(e));
      match e {
        case NullEntry =>
        case BoolEntry(b) => U8(if b then 1 else 0);
        case IntEntry(i) => Word64(ToUnsigned(i));
        case FloatEntry(bits) => Bytes(bits);
        case StringEntry(s) => Text(s);
      }
      assert out == old(out) + [Tag(e)] + PutPayload(e);
    }

    method Entries(es: seq<Entry>)
      modifies this
      ensures out == old(out) + PutEntries(es)
    {
      hide PutEntry;
      var i := 0;
      while i < |es|
        invariant 0 <= i <= |es| && old(out) + PutEntries(es) == out + PutEntries(es[i..])
      {
        ghost var before := out;
        assert es[i..][1..] == es[i + 1..];
        OneEntry(es[i]);
        assert before + (PutEntry(es[i]) + PutEntries(es[i + 1..])) == out + PutEntries(es[i + 1..]);
        i := i + 1;
      }
    }

    method OneCapture(c: Capture)
      modifies this
      ensures out == old(out) + PutCapture(c)
    {
      U8(if c.Local? then 1 else 0);
      Word16(c.index);
    }

    method Captures(cs: seq<Capture>)
      modifies this
      ensures out == old(out) + PutCaptures(cs)
    {
      hide PutCapture;
      var i := 0;
      while i < |cs|
        invariant 0 <= i <= |cs| && old(out) + PutCaptures(cs) == out + PutCaptures(cs[i..])
      {
        ghost var before := out;
        assert cs[i..][1..] == cs[i + 1..];
        OneCapture(cs[i]);
        assert before + (PutCapture(cs[i]) + PutCaptures(cs[i + 1..])) == out + PutCaptures(cs[i + 1..]);
        i := i + 1;
      }
    }

    method Fields(f: Record)
      modifies this
      ensures out == old(out) + PutFields(f)
    {
      Word16(f.nameIdx);
      U8(f.arity % 256);
      Word16(f.localCount);
      Word16(f.maxStack);
      Word32(f.codeOffset);
      Word32(f.codeLength);
      U8(|f.captures| % 256);
    }

    method Records(fs: seq<Record>)
      modifies this
      ensures out == old(out) + PutRecords(fs)
    {
      hide PutFields; hide PutCaptures;
      var i := 0;
      while i < |fs|
        invariant 0 <= i <= |fs| && old(out) + PutRecords(fs) == out + PutRecords(fs[i..])
      {
        ghost var before := out;
        assert fs[i..][1..] == fs[i + 1..];
        Fields(fs[i]);
        Captures(fs[i].captures);
        assert before + (PutFields(fs[i]) + PutCaptures(fs[i].captures) + PutRecords(fs[i + 1..])) == out + PutRecords(fs[i + 1..]);
        i := i + 1;
      }
    }

    method OneDebug(e: DebugEntry)
      modifies this
      ensures out == old(out) + PutDebug(e)
    {
      hide U16; hide U32; hide ToBytes;
      Word16(e.funcIdx);
      Word32(e.start);
      Word32(e.end);
      Word64(e.element);
    }

    method Debugs(ds: seq<DebugEntry>)
      modifies this
      ensures out == old(out) + PutDebugs(ds)
    {
      hide PutDebug;
      var i := 0;
      while i < |ds|
        invariant 0 <= i <= |ds| && old(out) + PutDebugs(ds) == out + PutDebugs(ds[i..])
      {
        ghost var before := out;
        assert ds[i..][1..] == ds[i + 1..];
        OneDebug(ds[i]);
        assert before + (PutDebug(ds[i]) + PutDebugs(ds[i + 1..])) == out + PutDebugs(ds[i + 1..]);
        i := i + 1;
      }
    }
  }

  method Write(f: File) returns (bytes: seq<Byte>)
    ensures bytes == Encode(f)
  {
    hide U16; hide U32; hide PutEntries; hide PutRecords; hide PutDebugs;
    var w := new Writer();
    w.Bytes(HEADER);
    w.Word16(|f.constants|);
    w.Word16(|f.functions|);
    w.Entries(f.constants);
    w.Records(f.functions);
    w.Word32(|f.code|);
    w.Bytes(f.code);
    w.Word32(|f.debug|);
    w.Debugs(f.debug);
    bytes := w.out;
    var a := HEADER + U16(|f.constants|) + U16(|f.functions|) + PutEntries(f.constants) + PutRecords(f.functions);
    assert a + U32(|f.code|) + f.code == EncodeCore(f);
    assert EncodeCore(f) + U32(|f.debug|) + PutDebugs(f.debug) == Encode(f);
  }

  /** How reading a table ended. */
  datatype Status = Fine | Failed | Overran

  predicate Reports<T(==)>(r: Parsed<seq<T>>, s: Status, table: seq<T>, pos: nat) {
    if r.Overrun? then s.Overran?
    else if r.Bad? then s.Failed?
    else s.Fine? && r == Got(table, pos)
  }

  /** A cursor over the bytes; reads past the end fail and leave it where it is. */
  class Reader {
    const data: seq<Byte>
    var pos: nat

    constructor (data: seq<Byte>)
      ensures this.data == data && pos == 0
    {
      this.data := data;
      pos := 0;
    }

    method Byte8() returns (ok: bool, v: Byte)
      modifies this
      ensures ok == GetU8(data, old(pos)).Got?
      ensures if ok then GetU8(data, old(pos)) == Got(v, pos) else pos == old(pos)
    {
      if pos >= |data| { return false, 0; }
      v := data[pos];
      pos := pos + 1;
      ok := true;
    }

    method Word16() returns (ok: bool, v: nat)
      modifies this
      ensures ok == GetU16(data, old(pos)).Got?
      ensures if ok then GetU16(data, old(pos)) == Got(v, pos) else pos == old(pos)
    {
      if pos + 2 > |data| { return false, 0; }
      v := ReadU16(data, pos);
      pos := pos + 2;
      ok := true;
    }

    method Word32() returns (ok: bool, v: nat)
      modifies this
      ensures ok == GetU32(data, old(pos)).Got?
      ensures if ok then GetU32(data, old(pos)) == Got(v, pos) else pos == old(pos)
    {
      if pos + 4 > |data| { return false, 0; }
      v := ReadU32(data, pos);
      pos := pos + 4;
      ok := true;
    }

    method Chunk(n: nat) returns (ok: bool, s: seq<Byte>)
      modifies this
      ensures ok == GetBytes(data, old(pos), n).Got?
      ensures if ok then GetBytes(data, old(pos), n) == Got(s, pos) else pos == old(pos)
    {
      if pos + n > |data| { return false, []; }
      s := data[pos..pos + n];
      pos := pos + n;
      ok := true;
    }

    /** Eight bytes combined low first. */
    method Word64() returns (ok: bool, v: nat)
      modifies this
      ensures ok == GetBytes(data, old(pos), 8).Got?
      ensures ok ==> GetBytes(data, old(pos), 8).value == data[old(pos)..old(pos) + 8] && pos == old(pos) + 8
      ensures ok ==> v == FromBytes(data[old(pos)..old(pos) + 8])
    {
      if pos + 8 > |data| { return false, 0; }
      ghost var s := data[pos..pos + 8];
      var i := 8;
      v := 0;
      while i > 0
        invariant 0 <= i <= 8 && v == FromBytes(s[i..]) && pos == old(pos)
      {
        i := i - 1;
        assert s[i..][1..] == s[i + 1..] && s[i] == data[pos + i];
        var b: int := data[pos + i];
        v := b + 256 * v;
      }
      assert s[0..] == s;
      pos := pos + 8;
      ok := true;
    }

    method OneEntry() returns (ok: bool, e: Entry)
      modifies this
      ensures ok == GetEntry(data, old(pos)).Got?
      ensures ok ==> GetEntry(data, old(pos)) == Got(e, pos)
    {
      hide FromBytes; hide ReadU32;
      e := NullEntry;
      var tag;
      ok, tag := Byte8();
      if !ok { return; }
      if tag == 0 {
      } else if tag == 1 {
        var v;
        ok, v := Byte8();
        if ok { e := BoolEntry(v != 0); }
      } else if tag == 2 {
        var v;
        ok, v := Word64();
        if ok {
          EightBytes();
          e := IntEntry(ToSigned(v));
        }
      } else if tag == 3 {
        var s;
        ok, s := Chunk(8);
        if ok { e := FloatEntry(s); }
      } else if tag == 4 {
        var n;
        ok, n := Word32();
        if ok {
          var s;
          ok, s := Chunk(n);
          if ok { e := StringEntry(s); }
        }
      } else {
        ok := false;
      }
    }

    method Entries(same: Sameness, count: nat) returns (status: Status, pool: seq<Entry>)
      modifies this
      ensures Reports(GetEntries(same, data, old(pos), count, []), status, pool, pos)
    {
      hide GetEntry; hide AddEntry;
      pool := [];
      status := Fine;
      ghost var all := GetEntries(same, data, pos, count, []);
      var i := 0;
      while i < count
        invariant 0 <= i <= count && status.Fine? && all == GetEntries(same, data, pos, count - i, pool)
      {
        var ok, e := OneEntry();
        if !ok { return Failed, pool; }
        pool := Intern(same, pool, e);
        if |pool| > TABLE_MAX { return Overran, pool; }
        i := i + 1;
      }
    }

    method OneCapture() returns (ok: bool, c: Capture)
      modifies this
      ensures ok == GetCapture(data, old(pos)).Got?
      ensures ok ==> GetCapture(data, old(pos)) == Got(c, pos)
    {
      hide ReadU16;
      c := Local(0);
      var isLocal, index;
      ok, isLocal := Byte8();
      if !ok { return; }
      ok, index := Word16();
      c := if isLocal != 0 then Local(index) else Enclosing(index);
    }

    method Captures(count: nat) returns (ok: bool, cs: seq<Capture>)
      modifies this
      ensures ok == GetCaptures(data, old(pos), count, []).Got?
      ensures ok ==> GetCaptures(data, old(pos), count, []) == Got(cs, pos)
    {
      hide GetCapture;
      cs := [];
      ok := true;
      ghost var all := GetCaptures(data, pos, count, []);
      var i := 0;
      while i < count
        invariant 0 <= i <= count && ok && all == GetCaptures(data, pos, count - i, cs)
      {
        var c;
        ok, c := OneCapture();
        if !ok { return; }
        cs := cs + [c];
        i := i + 1;
      }
    }

    method OneRecord() returns (ok: bool, f: Record)
      modifies this
      ensures ok == GetRecord(data, old(pos)).Got?
      ensures ok ==> GetRecord(data, old(pos)) == Got(f, pos)
    {
      hide ReadU16; hide ReadU32; hide GetCaptures;
      f := Record(0, 0, 0, 0, 0, 0, []);
      var nameIdx, arity, localCount, maxStack, codeOffset, codeLength, n, cs;
      ok, nameIdx := Word16();
      if !ok { return; }
      ok, arity := Byte8();
      if !ok { return; }
      ok, localCount := Word16();
      if !ok { return; }
      ok, maxStack := Word16();
      if !ok { return; }
      ok, codeOffset := Word32();
      if !ok { return; }
      ok, codeLength := Word32();
      if !ok { return; }
      ok, n := Byte8();
      if !ok { return; }
      ok, cs := Captures(n);
      if !ok { return; }
      f := Record(nameIdx, arity, localCount, maxStack, codeOffset, codeLength, cs);
    }

    method Records(count: nat) returns (status: Status, fs: seq<Record>)
      modifies this
      ensures Reports(GetRecords(data, old(pos), count, []), status, fs, pos)
    {
      hide GetRecord;
      fs := [];
      status := Fine;
      ghost var all := GetRecords(data, pos, count, []);
      var i := 0;
      while i < count
        invariant 0 <= i <= count && status.Fine? && all == GetRecords(data, pos, count - i, fs)
      {
        var ok, f := OneRecord();
        if !ok { return Failed, fs; }
        if |fs| >= TABLE_MAX { return Overran, fs; }
        fs := fs + [f];
        i := i + 1;
      }
    }

    method OneDebug() returns (ok: bool, e: DebugEntry)
      modifies this
      ensures ok == GetDebug(data, old(pos)).Got?
      ensures ok ==> GetDebug(data, old(pos)) == Got(e, pos)
    {
      hide ReadU16; hide ReadU32; hide FromBytes;
      e := DebugEntry(0, 0, 0, 0);
      var func, start, end, element;
      ok, func := Word16();
      if !ok { return; }
      ok, start := Word32();
      if !ok { return; }
      ok, end := Word32();
      if !ok { return; }
      ok, element := Word64();
      if !ok { return; }
      e := DebugEntry(func, start, end, element);
    }

    method Debugs(count: nat) returns (status: Status, ds: seq<DebugEntry>)
      modifies this
      ensures Reports(GetDebugs(data, old(pos), count, []), status, ds, pos)
    {
      hide GetDebug;
      ds := [];
      status := Fine;
      ghost var all := GetDebugs(data, pos, count, []);
      var i := 0;
      while i < count
        invariant 0 <= i <= count && status.Fine? && all == GetDebugs(data, pos, count - i, ds)
      {
        var ok, e := OneDebug();
        if !ok { return Failed, ds; }
        if |ds| >= TWO_31 { return Overran, ds; }
        ds := ds + [e];
        i := i + 1;
      }
    }

    /** Magic, version, flags and the two counts. */
    method Header() returns (ok: bool, constants: nat, functions: nat)
      requires pos == 0
      modifies this
      ensures ok == (|data| >= 12 && data[..4] == MAGIC)
      ensures ok ==> pos == 12 && constants == ReadU16(data, 8) && functions == ReadU16(data, 10)
    {
      hide ReadU16;
      constants, functions := 0, 0;
      var magic, word;
      ok, magic := Chunk(4);
      if !ok || magic != MAGIC { return false, 0, 0; }
      ok, word := Word16();
      if !ok { return; }
      ok, word := Word16();
      if !ok { return; }
      ok, constants := Word16();
      if !ok { return; }
      ok, functions := Word16();
    }
  }

  /** Adds a constant unless an equal one is there. */
  method Intern(same: Sameness, pool: seq<Entry>, e: Entry) returns (r: seq<Entry>)
    ensures r == AddEntry(same, pool, e)
  {
    var i := 0;
    assert pool[0..] == pool;
    while i < |pool|
      invariant 0 <= i <= |pool| && FindEntry(same, pool, e) == i + FindEntry(same, pool[i..], e)
    {
      assert pool[i..][1..] == pool[i + 1..];
      if Same(same, pool[i], e) { return pool; }
      i := i + 1;
    }
    r := pool + [e];
  }

  function Unread(s: Status): Reading
    requires !s.Fine?
  {
    if s.Overran? then Outgrown else Malformed
  }

  method Read(same: Sameness, data: seq<Byte>) returns (r: Reading)
    ensures r == Parse(same, data)
  {
    hide ReadU16; hide ReadU32; hide GetEntries; hide GetRecords; hide GetDebugs;
    var reader := new Reader(data);
    var ok, constants, functions := reader.Header();
    if !ok { return Malformed; }
    var status, pool, table, n, code, ds;
    status, pool := reader.Entries(same, constants);
    if !status.Fine? { return Unread(status); }
    status, table := reader.Records(functions);
    if !status.Fine? { return Unread(status); }
    ok, n := reader.Word32();
    if !ok { return Malformed; }
    ok, code := reader.Chunk(n);
    if !ok { return Malformed; }
    ds := [];
    if reader.pos < |data| {
      ok, n := reader.Word32();
      if !ok { return Malformed; }
      status, ds := reader.Debugs(n);
      if !status.Fine? { return Unread(status); }
    }
    r := Accepted(File(pool, table, code, ds));
  }
}
