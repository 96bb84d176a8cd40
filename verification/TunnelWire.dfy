/**
 The hand-written protobuf coding of a tunnel: internal/proto/messages_tunnel.go over internal/proto/helpers.go.
 The wire primitives of the protowire library are written out as its format defines them; strings are their bytes.
 */
module TunnelWire {
  import opened ByteStrings

  type UInt32 = x: int | 0 <= x < TWO32
  type Int32 = x: int | -0x8000_0000 <= x < 0x8000_0000

  const TWO64: nat := 0x1_0000_0000_0000_0000
  const MAX_FIELD_NUMBER: nat := 0x7fff_ffff

  const VARINT_TYPE: nat := 0
  const FIXED64_TYPE: nat := 1
  const BYTES_TYPE: nat := 2
  const FIXED32_TYPE: nat := 5

  // ---------------------------------------------------------------- wire primitives

  function AppendVarint(v: nat): (b: Bytes)
    ensures b != []
  {
    if v < 128 then [v] else [v % 128 + 128] + AppendVarint(v / 128)
  }

  /** The value and the bytes it takes; at most ten bytes, the tenth carrying one bit. */
  function ConsumeVarint(b: Bytes, left: nat): (r: Option<(nat, nat)>)
    ensures r.Some? ==> 0 < r.value.1 <= |b|
  {
    if b == [] || left == 0 then None
    else if b[0] < 128 then
      if left == 1 && b[0] > 1 then None else Some((b[0], 1))
    else
      match ConsumeVarint(b[1..], left - 1)
      case None => None
      case Some((v, n)) => Some((b[0] - 128 + 128 * v, n + 1))
  }

  function VarintBound(left: nat): (r: nat)
    ensures left > 0 ==> r >= 2
  {
    if left == 0 then 0 else if left == 1 then 2 else 128 * VarintBound(left - 1)
  }

  lemma {:induction false} VarintRoundTrip(v: nat, left: nat, rest: Bytes)
    requires v < VarintBound(left)
    ensures ConsumeVarint(AppendVarint(v) + rest, left) == Some((v, |AppendVarint(v)|))
    decreases left
  {
    if v >= 128 {
      var tail := AppendVarint(v / 128);
      assert (AppendVarint(v) + rest)[1..] == tail + rest;
      VarintRoundTrip(v / 128, left - 1, rest);
    }
  }

  /** What is read fits: an eleventh byte, or a tenth above 1, is refused. */
  lemma {:induction false} VarintFits(b: Bytes, left: nat)
    ensures var r := ConsumeVarint(b, left); r.Some? ==> r.value.0 < VarintBound(left) && r.value.1 <= left
    decreases left
  {
    if b != [] && left > 0 && b[0] >= 128 {
      VarintFits(b[1..], left - 1);
    }
  }

  lemma TenBytesHold64Bits()
    ensures VarintBound(10) == TWO64
  {
    assert VarintBound(9) == 128 * VarintBound(8);
    assert VarintBound(8) == 128 * VarintBound(7);
    assert VarintBound(7) == 128 * VarintBound(6);
    assert VarintBound(6) == 128 * VarintBound(5);
    assert VarintBound(5) == 128 * VarintBound(4);
    assert VarintBound(4) == 128 * VarintBound(3);
    assert VarintBound(3) == 128 * VarintBound(2);
  }

  function ConsumeBytes(b: Bytes): (r: Option<(Bytes, nat)>)
    ensures r.Some? ==> 0 < r.value.1 <= |b|
  {
    match ConsumeVarint(b, 10)
    case None => None
    case Some((len, n)) => if len > |b| - n then None else Some((b[n..n + len], n + len))
  }

  /** How many bytes the value of a field takes, or None for a malformed one. */
  function ConsumeFieldValue(wireType: nat, b: Bytes): (r: Option<nat>)
    ensures r.Some? ==> 0 < r.value <= |b|
  {
    if wireType == VARINT_TYPE then
      match ConsumeVarint(b, 10)
      case None => None
      case Some((_, n)) => Some(n)
    else if wireType == FIXED32_TYPE then (if |b| < 4 then None else Some(4))
    else if wireType == FIXED64_TYPE then (if |b| < 8 then None else Some(8))
    else if wireType == BYTES_TYPE then
      match ConsumeBytes(b)
      case None => None
      case Some((_, n)) => Some(n)
    else None
  }

  /** A field on the wire: its number, the bytes of its value, and what follows. */
  function ConsumeField(b: Bytes): (r: Option<(nat, Bytes, Bytes)>)
    ensures r.Some? ==> |r.value.2| < |b|
  {
    match ConsumeVarint(b, 10)
    case None => None
    case Some((tag, n)) =>
      var num := tag / 8;
      if num == 0 || num > MAX_FIELD_NUMBER then None
      else
        match ConsumeFieldValue(tag % 8, b[n..])
        case None => None
        case Some(m) => Some((num, b[n..n + m], b[n + m..]))
  }

  function ReadVarint(field: Bytes): (r: Option<nat>) {
    match ConsumeVarint(field, 10)
    case None => None
    case Some((v, _)) => Some(v)
  }

  function ReadBytes(field: Bytes): (r: Option<Bytes>) {
    match ConsumeBytes(field)
    case None => None
    case Some((v, _)) => Some(v)
  }

  // ---------------------------------------------------------------- fields

  /** The fixed kinds are read and skipped, but no field of a tunnel is written so. */
  datatype Field =
    | VarintField(num: nat, value: nat)
    | BytesField(num: nat, bytes: Bytes)
    | FixedField(num: nat, bits: Bytes)
  {
    predicate Valid() {
      && 0 < num <= MAX_FIELD_NUMBER
      && (VarintField? ==> value < TWO64)
      && (BytesField? ==> |bytes| < TWO64)
      && (FixedField? ==> |bits| == 4 || |bits| == 8)
    }

    function Kind(): nat {
      match this
      case VarintField(_, _) => VARINT_TYPE
      case BytesField(_, _) => BYTES_TYPE
      case FixedField(_, b) => if |b| == 4 then FIXED32_TYPE else FIXED64_TYPE
    }

    function Value(): Bytes {
      match this
      case VarintField(_, v) => AppendVarint(v)
      case BytesField(_, b) => AppendVarint(|b|) + b
      case FixedField(_, b) => b
    }

    function Encoded(): Bytes {
      AppendVarint(num * 8 + Kind()) + Value()
    }
  }

  lemma ReadsValue(f: Field, rest: Bytes)
    requires f.Valid()
    ensures f.VarintField? ==> ReadVarint(f.Value()) == Some(f.value)
    ensures f.BytesField? ==> ReadBytes(f.Value()) == Some(f.bytes)
    ensures ConsumeFieldValue(f.Kind(), f.Value() + rest) == Some(|f.Value()|)
  {
    TenBytesHold64Bits();
    match f
    case VarintField(_, v) =>
      VarintRoundTrip(v, 10, []);
      VarintRoundTrip(v, 10, rest);
      assert AppendVarint(v) + [] == AppendVarint(v);
    case BytesField(_, b) =>
      var len := AppendVarint(|b|);
      VarintRoundTrip(|b|, 10, b);
      VarintRoundTrip(|b|, 10, b + rest);
      Assoc(len, b, rest);
      assert (len + b)[|len|..|len| + |b|] == b;
    case FixedField(_, _) =>
  }

  lemma ConsumesEncoded(f: Field, rest: Bytes)
    requires f.Valid()
    ensures ConsumeField(f.Encoded() + rest) == Some((f.num, f.Value(), rest))
  {
    TenBytesHold64Bits();
    var kind := f.Kind();
    var v := f.num * 8 + kind;
    assert v / 8 == f.num && v % 8 == kind;
    var tag, value := AppendVarint(v), f.Value();
    Assoc(tag, value, rest);
    VarintRoundTrip(v, 10, value + rest);
    ReadsValue(f, rest);
    Splits(tag, value, rest);
  }

  lemma Splits(tag: Bytes, value: Bytes, rest: Bytes)
    ensures var b := tag + (value + rest);
      && b[|tag|..] == value + rest
      && b[|tag|..|tag| + |value|] == value
      && b[|tag| + |value|..] == rest
  {
  }

  function EncodedAll(fs: seq<Field>): Bytes {
    if fs == [] then [] else fs[0].Encoded() + EncodedAll(fs[1..])
  }

  lemma {:induction false} EncodedSplit(a: seq<Field>, b: seq<Field>)
    ensures EncodedAll(a + b) == EncodedAll(a) + EncodedAll(b)
  {
    if a == [] {
      assert a + b == b;
    } else {
      assert (a + b)[1..] == a[1..] + b;
      EncodedSplit(a[1..], b);
      Assoc(a[0].Encoded(), EncodedAll(a[1..]), EncodedAll(b));
    }
  }

  // ---------------------------------------------------------------- messages

  datatype Tunnel = Tunnel(
    source: Option<Bytes>,
    endpoint: Option<Bytes>,
    id: UInt32,
    enabled: bool,
    sender: UInt32,
    receiver: UInt32,
    tunnelType: Int32,
    password: Bytes,
    username: Bytes,
    isCompressed: bool,
    encryptionMethod: Bytes,
    customMapping: Option<map<Bytes, Bytes>>)

  const EMPTY := Tunnel(None, None, 0, false, 0, 0, 0, [], [], false, [], Some(map[]))

  /** uint64(int64(v)): negative values are sign-extended. */
  function SignExtended(v: Int32): (r: nat)
    ensures r < TWO64
  {
    if v < 0 then v + TWO64 else v
  }

  /** int32(v): the low 32 bits read as a signed number. */
  function AsInt32(v: nat): Int32 {
    var low := v % TWO32;
    if low < 0x8000_0000 then low else low - TWO32
  }

  lemma SignExtensionRoundTrip(v: Int32)
    ensures AsInt32(SignExtended(v)) == v
  {
    if v < 0 {
      assert v + TWO64 == (v + TWO32) + 0xffff_ffff * TWO32;
    }
  }

  /** A point has one field, its address. */
  function SetPointField(addr: Bytes, num: nat, field: Bytes): Option<Bytes> {
    if num == 1 then ReadBytes(field) else Some(addr)
  }

  function UnmarshalPoint(data: Bytes, addr: Bytes): Option<Bytes>
    decreases |data|
  {
    if data == [] then Some(addr)
    else
      match ConsumeField(data)
      case None => None
      case Some((num, field, rest)) =>
        match SetPointField(addr, num, field)
        case None => None
        case Some(next) => UnmarshalPoint(rest, next)
  }

  function SetEntryField(entry: (Bytes, Bytes), num: nat, field: Bytes): Option<(Bytes, Bytes)> {
    if num == 1 then
      match ReadBytes(field)
      case None => None
      case Some(key) => Some((key, entry.1))
    else if num == 2 then
      match ReadBytes(field)
      case None => None
      case Some(value) => Some((entry.0, value))
    else Some(entry)
  }

  function UnmarshalEntry(data: Bytes, entry: (Bytes, Bytes)): Option<(Bytes, Bytes)>
    decreases |data|
  {
    if data == [] then Some(entry)
    else
      match ConsumeField(data)
      case None => None
      case Some((num, field, rest)) =>
        match SetEntryField(entry, num, field)
        case None => None
        case Some(next) => UnmarshalEntry(rest, next)
  }

  /** The switch of unmarshalTunnel; the wire type of a field is not looked at. */
  function SetField(m: Tunnel, num: nat, field: Bytes): Option<Tunnel> {
    if num in {3, 4, 5, 6, 7, 10} then
      match ReadVarint(field)
      case None => None
      case Some(v) => Some(SetNumber(m, num, v))
    else if num in {1, 2, 8, 9, 11, 12} then
      match ReadBytes(field)
      case None => None
      case Some(raw) => SetBytes(m, num, raw)
    else Some(m)
  }

  function SetNumber(m: Tunnel, num: nat, v: nat): Tunnel {
    match num
    case 3 => m.(id := v % TWO32)
    case 4 => m.(enabled := v != 0)
    case 5 => m.(sender := v % TWO32)
    case 6 => m.(receiver := v % TWO32)
    case 7 => m.(tunnelType := AsInt32(v))
    case 10 => m.(isCompressed := v != 0)
    case _ => m
  }

  function SetBytes(m: Tunnel, num: nat, raw: Bytes): Option<Tunnel> {
    match num
    case 1 => (match UnmarshalPoint(raw, []) case None => None case Some(addr) => Some(m.(source := Some(addr))))
    case 2 => (match UnmarshalPoint(raw, []) case None => None case Some(addr) => Some(m.(endpoint := Some(addr))))
    case 8 => Some(m.(password := raw))
    case 9 => Some(m.(username := raw))
    case 11 => Some(m.(encryptionMethod := raw))
    case 12 =>
      (match UnmarshalEntry(raw, ([], []))
       case None => None
       case Some((k, v)) =>
         var known := if m.customMapping.Some? then m.customMapping.value else map[];
         Some(m.(customMapping := Some(known[k := v]))))
    case _ => Some(m)
  }

  function Unmarshal(data: Bytes, m: Tunnel): Option<Tunnel>
    decreases |data|
  {
    if data == [] then Some(m)
    else
      match ConsumeField(data)
      case None => None
      case Some((num, field, rest)) =>
        match SetField(m, num, field)
        case None => None
        case Some(next) => Unmarshal(rest, next)
  }

  method UnmarshalTunnel(data: Bytes) returns (r: Option<Tunnel>)
    ensures r == Unmarshal(data, EMPTY)
  {
    var msg, left := EMPTY, data;
    while |left| > 0
      invariant Unmarshal(data, EMPTY) == Unmarshal(left, msg)
      decreases |left|
    {
      var consumed := ConsumeField(left);
      if consumed.None? {
        return None;
      }
      var (num, field, rest) := consumed.value;
      var next := SetField(msg, num, field);
      if next.None? {
        return None;
      }
      msg, left := next.value, rest;
    }
    r := Some(msg);
  }

  // ---------------------------------------------------------------- writing

  /** A field is written only if its value is not the default. */
  function Num(num: nat, v: nat): seq<Field> {
    if v == 0 then [] else [VarintField(num, v)]
  }

  function Str(num: nat, b: Bytes): seq<Field> {
    if b == [] then [] else [BytesField(num, b)]
  }

  function Flag(b: bool): (r: nat)
    ensures r < 2
  {
    if b then 1 else 0
  }

  function Point(num: nat, p: Option<Bytes>): seq<Field> {
    if p.None? then [] else Str(num, EncodedAll(Str(1, p.value)))
  }

  function Entry(key: Bytes, value: Bytes): seq<Field> {
    Str(12, EncodedAll(Str(1, key) + Str(2, value)))
  }

  function Entries(es: seq<(Bytes, Bytes)>): seq<Field> {
    if es == [] then [] else Entry(es[0].0, es[0].1) + Entries(es[1..])
  }

  /** The fields in the order marshalTunnel writes them, the mapping in the order its iteration happens to take. */
  function Fields(t: Tunnel, es: seq<(Bytes, Bytes)>): seq<Field> {
    Point(1, t.source) + (Point(2, t.endpoint) + HeadFields(t, es))
  }

  function HeadFields(t: Tunnel, es: seq<(Bytes, Bytes)>): seq<Field> {
    Num(3, t.id) + (Num(4, Flag(t.enabled)) + (Num(5, t.sender) + (Num(6, t.receiver) + TailFields(t, es))))
  }

  function TailFields(t: Tunnel, es: seq<(Bytes, Bytes)>): seq<Field> {
    Num(7, SignExtended(t.tunnelType)) + (Str(8, t.password) + (Str(9, t.username)
    + (Num(10, Flag(t.isCompressed)) + (Str(11, t.encryptionMethod) + Entries(es)))))
  }

  /** Appends one optional field; rest is what is still to be written. */
  method AppendField(b: Bytes, fs: seq<Field>, ghost rest: seq<Field>) returns (r: Bytes)
    requires |fs| <= 1
    ensures r + EncodedAll(rest) == b + EncodedAll(fs + rest)
  {
    EncodedSplit(fs, rest);
    Assoc(b, EncodedAll(fs), EncodedAll(rest));
    if |fs| == 0 {
      assert b + [] == b;
      return b;
    }
    var f := fs[0];
    r := b + AppendVarint(f.num * 8 + f.Kind());
    Assoc(b, AppendVarint(f.num * 8 + f.Kind()), f.Value());
    r := r + f.Value();
    assert f.Encoded() + [] == f.Encoded();
  }

  method MarshalTunnel(t: Tunnel, es: seq<(Bytes, Bytes)>) returns (b: Bytes)
    ensures b == EncodedAll(Fields(t, es))
  {
    b := [];
    ghost var all := Fields(t, es);
    assert [] + EncodedAll(all) == EncodedAll(all);
    ghost var tail := TailFields(t, es);
    ghost var head := HeadFields(t, es);
    b := AppendField(b, Point(1, t.source), Point(2, t.endpoint) + head);
    b := AppendField(b, Point(2, t.endpoint), head);
    b := AppendField(b, Num(3, t.id), Num(4, Flag(t.enabled)) + (Num(5, t.sender) + (Num(6, t.receiver) + tail)));
    b := AppendField(b, Num(4, Flag(t.enabled)), Num(5, t.sender) + (Num(6, t.receiver) + tail));
    b := AppendField(b, Num(5, t.sender), Num(6, t.receiver) + tail);
    b := AppendField(b, Num(6, t.receiver), tail);
    b := MarshalTail(b, t, es);
  }

  method MarshalTail(start: Bytes, t: Tunnel, es: seq<(Bytes, Bytes)>) returns (b: Bytes)
    ensures b == start + EncodedAll(TailFields(t, es))
  {
    ghost var last := Str(11, t.encryptionMethod) + Entries(es);
    b := AppendField(start, Num(7, SignExtended(t.tunnelType)),
                     Str(8, t.password) + (Str(9, t.username) + (Num(10, Flag(t.isCompressed)) + last)));
    b := AppendField(b, Str(8, t.password), Str(9, t.username) + (Num(10, Flag(t.isCompressed)) + last));
    b := AppendField(b, Str(9, t.username), Num(10, Flag(t.isCompressed)) + last);
    b := AppendField(b, Num(10, Flag(t.isCompressed)), last);
    b := AppendField(b, Str(11, t.encryptionMethod), Entries(es));
    b := MarshalEntries(b, es);
  }

  method MarshalEntries(start: Bytes, es: seq<(Bytes, Bytes)>) returns (b: Bytes)
    ensures b == start + EncodedAll(Entries(es))
  {
    b := start;
    ghost var goal := b + EncodedAll(Entries(es));
    var i := 0;
    assert es[0..] == es;
    while i < |es|
      invariant 0 <= i <= |es|
      invariant b + EncodedAll(Entries(es[i..])) == goal
    {
      assert es[i..][1..] == es[i + 1..];
      b := AppendField(b, Entry(es[i].0, es[i].1), Entries(es[i + 1..]));
      i := i + 1;
    }
    assert b + [] == b;
  }

  // ---------------------------------------------------------------- reading what was written

  predicate AllValid(fs: seq<Field>) {
    forall i :: 0 <= i < |fs| ==> fs[i].Valid()
  }

  /** What a list of fields makes of a message. */
  function Apply(m: Tunnel, fs: seq<Field>): Option<Tunnel>
    decreases |fs|
  {
    if fs == [] then Some(m)
    else
      match SetField(m, fs[0].num, fs[0].Value())
      case None => None
      case Some(next) => Apply(next, fs[1..])
  }

  lemma {:induction false} UnmarshalApplies(m: Tunnel, fs: seq<Field>)
    requires AllValid(fs)
    ensures Unmarshal(EncodedAll(fs), m) == Apply(m, fs)
    decreases |fs|
  {
    if fs != [] {
      ConsumesEncoded(fs[0], EncodedAll(fs[1..]));
      var next := SetField(m, fs[0].num, fs[0].Value());
      if next.Some? {
        UnmarshalApplies(next.value, fs[1..]);
      }
    }
  }

  lemma {:induction false} ApplyThen(m: Tunnel, a: seq<Field>, next: Tunnel, b: seq<Field>)
    requires Apply(m, a) == Some(next)
    ensures Apply(m, a + b) == Apply(next, b)
    decreases |a|
  {
    if a == [] {
      assert a + b == b;
    } else {
      assert (a + b)[1..] == a[1..] + b;
      ApplyThen(SetField(m, a[0].num, a[0].Value()).value, a[1..], next, b);
    }
  }

  lemma AppliesNum(m: Tunnel, num: nat, v: nat)
    requires num in {3, 4, 5, 6, 7, 10} && v < TWO64
    ensures Apply(m, Num(num, v)) == Some(if v == 0 then m else SetNumber(m, num, v))
  {
    if v != 0 {
      ReadsValue(VarintField(num, v), []);
      assert Num(num, v)[1..] == [];
    }
  }

  lemma AppliesStr(m: Tunnel, num: nat, b: Bytes)
    requires num in {1, 2, 8, 9, 11, 12} && |b| < TWO64
    ensures Apply(m, Str(num, b)) == if b == [] then Some(m) else SetBytes(m, num, b)
  {
    if b != [] {
      ReadsValue(BytesField(num, b), []);
      assert Str(num, b)[1..] == [];
      var done := SetBytes(m, num, b);
      if done.Some? {
        assert Apply(done.value, []) == done;
      }
    }
  }

  const MAX_STRING: nat := 0x1000_0000_0000_0000

  lemma {:induction false} AppendVarintShort(v: nat, left: nat)
    requires v < VarintBound(left)
    ensures |AppendVarint(v)| <= left
    decreases left
  {
    if v >= 128 {
      AppendVarintShort(v / 128, left - 1);
    }
  }

  lemma StrShort(num: nat, b: Bytes)
    requires 0 < num < 16 && |b| <= MAX_STRING
    ensures |EncodedAll(Str(num, b))| <= |b| + 20
    ensures b != [] ==> EncodedAll(Str(num, b)) == BytesField(num, b).Encoded() && EncodedAll(Str(num, b)) != []
  {
    TenBytesHold64Bits();
    AppendVarintShort(num * 8 + BYTES_TYPE, 10);
    AppendVarintShort(|b|, 10);
    if b != [] {
      var e := BytesField(num, b).Encoded();
      assert Str(num, b)[1..] == [];
      assert e + [] == e;
    }
  }

  lemma ReadsPoint(addr: Bytes)
    requires addr != [] && |addr| <= MAX_STRING
    ensures UnmarshalPoint(EncodedAll(Str(1, addr)), []) == Some(addr)
  {
    StrShort(1, addr);
    var f := BytesField(1, addr);
    ConsumesEncoded(f, []);
    assert f.Encoded() + [] == f.Encoded();
    ReadsValue(f, []);
  }

  lemma ReadsEntry(key: Bytes, value: Bytes)
    requires |key| <= MAX_STRING && |value| <= MAX_STRING
    ensures var raw := EncodedAll(Str(1, key) + Str(2, value));
      && |raw| <= |key| + |value| + 40
      && (raw == [] <==> key == [] && value == [])
      && UnmarshalEntry(raw, ([], [])) == Some((key, value))
  {
    EncodedSplit(Str(1, key), Str(2, value));
    StrShort(1, key);
    StrShort(2, value);
    var second := EncodedAll(Str(2, value));
    ReadsEntryValue(key, value);
    if key != [] {
      var f := BytesField(1, key);
      ConsumesEncoded(f, second);
      ReadsValue(f, []);
    } else {
      assert EncodedAll(Str(1, key)) + second == second;
    }
  }

  lemma ReadsEntryValue(key: Bytes, value: Bytes)
    requires |value| <= MAX_STRING
    ensures UnmarshalEntry(EncodedAll(Str(2, value)), (key, [])) == Some((key, value))
  {
    if value != [] {
      StrShort(2, value);
      var f := BytesField(2, value);
      ConsumesEncoded(f, []);
      assert f.Encoded() + [] == f.Encoded();
      ReadsValue(f, []);
    }
  }

  // ---------------------------------------------------------------- the mapping

  /** The entries one after another, without the one whose key and value are both empty. */
  function Added(known: map<Bytes, Bytes>, es: seq<(Bytes, Bytes)>): map<Bytes, Bytes>
    decreases |es|
  {
    if es == [] then known
    else Added(if es[0] == ([], []) then known else known[es[0].0 := es[0].1], es[1..])
  }

  predicate ShortEntries(es: seq<(Bytes, Bytes)>) {
    forall i :: 0 <= i < |es| ==> |es[i].0| <= MAX_STRING && |es[i].1| <= MAX_STRING
  }

  lemma {:induction false} AppliesEntries(m: Tunnel, es: seq<(Bytes, Bytes)>)
    requires m.customMapping.Some? && ShortEntries(es)
    ensures Apply(m, Entries(es)) == Some(m.(customMapping := Some(Added(m.customMapping.value, es))))
    decreases |es|
  {
    if es != [] {
      var (k, v) := es[0];
      var raw := EncodedAll(Str(1, k) + Str(2, v));
      ReadsEntry(k, v);
      AppliesStr(m, 12, raw);
      var next := if es[0] == ([], []) then m else m.(customMapping := Some(m.customMapping.value[k := v]));
      ApplyThen(m, Entry(k, v), next, Entries(es[1..]));
      AppliesEntries(next, es[1..]);
    }
  }

  /** An order in which the entries of a map can be visited. */
  ghost predicate Enumerates(es: seq<(Bytes, Bytes)>, m: map<Bytes, Bytes>) {
    && (forall i, j :: 0 <= i < j < |es| ==> es[i].0 != es[j].0)
    && (forall k, v :: (k, v) in es <==> k in m && m[k] == v)
  }

  lemma {:induction false} AddedLookup(known: map<Bytes, Bytes>, es: seq<(Bytes, Bytes)>)
    requires forall i, j :: 0 <= i < j < |es| ==> es[i].0 != es[j].0
    requires forall i :: 0 <= i < |es| ==> es[i].0 !in known
    ensures var a := Added(known, es);
      && (forall k :: k in known ==> k in a && a[k] == known[k])
      && (forall i :: 0 <= i < |es| && es[i] != ([], []) ==> es[i].0 in a && a[es[i].0] == es[i].1)
      && (forall k :: k in a && k !in known ==> (k, a[k]) in es && (k, a[k]) != ([], []))
    decreases |es|
  {
    if es != [] {
      var next := if es[0] == ([], []) then known else known[es[0].0 := es[0].1];
      AddedLookup(next, es[1..]);
    }
  }

  function WithoutEmptyEntry(m: map<Bytes, Bytes>): map<Bytes, Bytes> {
    map k | k in m && !(k == [] && m[k] == []) :: m[k]
  }

  lemma AddedAll(es: seq<(Bytes, Bytes)>, m: map<Bytes, Bytes>)
    requires Enumerates(es, m)
    ensures Added(map[], es) == WithoutEmptyEntry(m)
  {
    AddedLookup(map[], es);
    var a, w := Added(map[], es), WithoutEmptyEntry(m);
    forall k | k in w
      ensures k in a && a[k] == w[k]
    {
      assert (k, m[k]) in es;
      var i :| 0 <= i < |es| && es[i] == (k, m[k]);
    }
    assert forall k :: k in a ==> (k, a[k]) in es && k in w;
  }

  // ---------------------------------------------------------------- the round trip

  predicate InMemory(t: Tunnel) {
    && (t.source.Some? ==> |t.source.value| <= MAX_STRING)
    && (t.endpoint.Some? ==> |t.endpoint.value| <= MAX_STRING)
    && |t.password| <= MAX_STRING && |t.username| <= MAX_STRING && |t.encryptionMethod| <= MAX_STRING
  }

  function NormalPoint(p: Option<Bytes>): Option<Bytes> {
    if p == Some([]) then None else p
  }

  function MappingOf(t: Tunnel): map<Bytes, Bytes> {
    if t.customMapping.None? then map[] else t.customMapping.value
  }

  /** What the wire keeps: no empty points, a mapping that is never nil, no entry of two empty strings. */
  function Normalised(t: Tunnel): Tunnel {
    t.(source := NormalPoint(t.source), endpoint := NormalPoint(t.endpoint),
       customMapping := Some(WithoutEmptyEntry(MappingOf(t))))
  }

  lemma AppliesPoint(m: Tunnel, num: nat, p: Option<Bytes>)
    requires num == 1 || num == 2
    requires p.Some? ==> |p.value| <= MAX_STRING
    ensures Apply(m, Point(num, p)) == Some(
      if NormalPoint(p).None? then m else if num == 1 then m.(source := p) else m.(endpoint := p))
  {
    if NormalPoint(p).Some? {
      ReadsPoint(p.value);
      StrShort(1, p.value);
      AppliesStr(m, num, EncodedAll(Str(1, p.value)));
    }
  }

  lemma AppliesTail(t: Tunnel, m: Tunnel, es: seq<(Bytes, Bytes)>)
    requires InMemory(t) && ShortEntries(es)
    requires m.tunnelType == 0 && m.password == m.username == m.encryptionMethod == [] && !m.isCompressed
    requires m.customMapping == Some(map[])
    ensures Apply(m, TailFields(t, es)) == Some(m.(tunnelType := t.tunnelType, password := t.password,
      username := t.username, isCompressed := t.isCompressed, encryptionMethod := t.encryptionMethod,
      customMapping := Some(Added(map[], es))))
  {
    var last := Str(11, t.encryptionMethod) + Entries(es);
    var m1 := m.(tunnelType := t.tunnelType);
    SignExtensionRoundTrip(t.tunnelType);
    AppliesNum(m, 7, SignExtended(t.tunnelType));
    ApplyThen(m, Num(7, SignExtended(t.tunnelType)), m1,
      Str(8, t.password) + (Str(9, t.username) + (Num(10, Flag(t.isCompressed)) + last)));
    var m2 := m1.(password := t.password);
    AppliesStr(m1, 8, t.password);
    ApplyThen(m1, Str(8, t.password), m2, Str(9, t.username) + (Num(10, Flag(t.isCompressed)) + last));
    var m3 := m2.(username := t.username);
    AppliesStr(m2, 9, t.username);
    ApplyThen(m2, Str(9, t.username), m3, Num(10, Flag(t.isCompressed)) + last);
    var m4 := m3.(isCompressed := t.isCompressed);
    AppliesNum(m3, 10, Flag(t.isCompressed));
    ApplyThen(m3, Num(10, Flag(t.isCompressed)), m4, last);
    var m5 := m4.(encryptionMethod := t.encryptionMethod);
    AppliesStr(m4, 11, t.encryptionMethod);
    ApplyThen(m4, Str(11, t.encryptionMethod), m5, Entries(es));
    AppliesEntries(m5, es);
  }

  lemma AppliesHead(t: Tunnel, m: Tunnel, es: seq<(Bytes, Bytes)>)
    requires m.id == m.sender == m.receiver == 0 && !m.enabled
    ensures Apply(m, HeadFields(t, es)) == Apply(
      m.(id := t.id, enabled := t.enabled, sender := t.sender, receiver := t.receiver), TailFields(t, es))
  {
    var tail := TailFields(t, es);
    assert t.id % TWO32 == t.id && t.sender % TWO32 == t.sender && t.receiver % TWO32 == t.receiver;
    var m1 := m.(id := t.id);
    AppliesNum(m, 3, t.id);
    ApplyThen(m, Num(3, t.id), m1, Num(4, Flag(t.enabled)) + (Num(5, t.sender) + (Num(6, t.receiver) + tail)));
    var m2 := m1.(enabled := t.enabled);
    AppliesNum(m1, 4, Flag(t.enabled));
    ApplyThen(m1, Num(4, Flag(t.enabled)), m2, Num(5, t.sender) + (Num(6, t.receiver) + tail));
    var m3 := m2.(sender := t.sender);
    AppliesNum(m2, 5, t.sender);
    ApplyThen(m2, Num(5, t.sender), m3, Num(6, t.receiver) + tail);
    AppliesNum(m3, 6, t.receiver);
    ApplyThen(m3, Num(6, t.receiver), m3.(receiver := t.receiver), tail);
  }

  lemma {:induction false} EntriesValid(es: seq<(Bytes, Bytes)>)
    requires ShortEntries(es)
    ensures AllValid(Entries(es))
  {
    if es != [] {
      ReadsEntry(es[0].0, es[0].1);
      EntriesValid(es[1..]);
    }
  }

  lemma AllValidAppend(a: seq<Field>, b: seq<Field>)
    requires AllValid(a) && AllValid(b)
    ensures AllValid(a + b)
  {
  }

  lemma FieldsValid(t: Tunnel, es: seq<(Bytes, Bytes)>)
    requires InMemory(t) && ShortEntries(es)
    ensures AllValid(Fields(t, es))
  {
    var last := Str(11, t.encryptionMethod) + Entries(es);
    EntriesValid(es);
    AllValidAppend(Str(11, t.encryptionMethod), Entries(es));
    AllValidAppend(Num(10, Flag(t.isCompressed)), last);
    AllValidAppend(Str(9, t.username), Num(10, Flag(t.isCompressed)) + last);
    AllValidAppend(Str(8, t.password), Str(9, t.username) + (Num(10, Flag(t.isCompressed)) + last));
    AllValidAppend(Num(7, SignExtended(t.tunnelType)),
      Str(8, t.password) + (Str(9, t.username) + (Num(10, Flag(t.isCompressed)) + last)));
    HeadValid(t, es);
    PointValid(1, t.source);
    PointValid(2, t.endpoint);
    AllValidAppend(Point(2, t.endpoint), HeadFields(t, es));
    AllValidAppend(Point(1, t.source), Point(2, t.endpoint) + HeadFields(t, es));
  }

  lemma PointValid(num: nat, p: Option<Bytes>)
    requires 0 < num < 16
    requires p.Some? ==> |p.value| <= MAX_STRING
    ensures AllValid(Point(num, p))
  {
    if p.Some? {
      StrShort(1, p.value);
    }
  }

  lemma HeadValid(t: Tunnel, es: seq<(Bytes, Bytes)>)
    requires AllValid(TailFields(t, es))
    ensures AllValid(HeadFields(t, es))
  {
    var tail := TailFields(t, es);
    AllValidAppend(Num(6, t.receiver), tail);
    AllValidAppend(Num(5, t.sender), Num(6, t.receiver) + tail);
    AllValidAppend(Num(4, Flag(t.enabled)), Num(5, t.sender) + (Num(6, t.receiver) + tail));
    AllValidAppend(Num(3, t.id), Num(4, Flag(t.enabled)) + (Num(5, t.sender) + (Num(6, t.receiver) + tail)));
  }

  /**
   Whatever the field values and whatever the order in which the mapping was visited, the tunnel is read back as it
   was, up to what the wire does not keep. Go strings are shorter than the bound of InMemory.
   */
  lemma TunnelRoundTrip(t: Tunnel, es: seq<(Bytes, Bytes)>)
    requires InMemory(t) && ShortEntries(es)
    requires Enumerates(es, MappingOf(t))
    ensures Unmarshal(EncodedAll(Fields(t, es)), EMPTY) == Some(Normalised(t))
  {
    FieldsValid(t, es);
    UnmarshalApplies(EMPTY, Fields(t, es));
    var m1 := EMPTY.(source := NormalPoint(t.source));
    AppliesPoint(EMPTY, 1, t.source);
    ApplyThen(EMPTY, Point(1, t.source), m1, Point(2, t.endpoint) + HeadFields(t, es));
    var m2 := m1.(endpoint := NormalPoint(t.endpoint));
    AppliesPoint(m1, 2, t.endpoint);
    ApplyThen(m1, Point(2, t.endpoint), m2, HeadFields(t, es));
    AppliesHead(t, m2, es);
    var m3 := m2.(id := t.id, enabled := t.enabled, sender := t.sender, receiver := t.receiver);
    AppliesTail(t, m3, es);
    AddedAll(es, MappingOf(t));
  }

  lemma {:induction false} VarintCut(v: nat, n: nat, left: nat)
    requires n < |AppendVarint(v)|
    ensures ConsumeVarint(AppendVarint(v)[..n], left) == None
    decreases left
  {
    if n > 0 && left > 0 {
      assert AppendVarint(v)[..n][1..] == AppendVarint(v / 128)[..n - 1];
      VarintCut(v / 128, n - 1, left - 1);
    }
  }

  lemma ValueCut(f: Field, n: nat)
    requires f.Valid() && n < |f.Value()|
    ensures ConsumeFieldValue(f.Kind(), f.Value()[..n]) == None
  {
    match f
    case VarintField(_, v) => VarintCut(v, n, 10);
    case BytesField(_, b) =>
      var len := AppendVarint(|b|);
      if n < |len| {
        VarintCut(|b|, n, 10);
        assert (len + b)[..n] == len[..n];
      } else {
        TenBytesHold64Bits();
        VarintRoundTrip(|b|, 10, b[..n - |len|]);
        assert (len + b)[..n] == len + b[..n - |len|];
      }
    case FixedField(_, _) =>
  }

  /** A field that breaks off anywhere is malformed. */
  lemma FieldCut(f: Field, n: nat)
    requires f.Valid() && n < |f.Encoded()|
    ensures ConsumeField(f.Encoded()[..n]) == None
  {
    var v := f.num * 8 + f.Kind();
    var tag := AppendVarint(v);
    if n < |tag| {
      assert f.Encoded()[..n] == tag[..n];
      VarintCut(v, n, 10);
    } else {
      TenBytesHold64Bits();
      var value := f.Value()[..n - |tag|];
      assert f.Encoded()[..n] == tag + value;
      VarintRoundTrip(v, 10, value);
      assert (tag + value)[|tag|..] == value;
      ValueCut(f, n - |tag|);
    }
  }

  /** So a message that breaks off inside a field is refused, whatever came before. */
  lemma {:induction false} TruncatedIsRefused(m: Tunnel, before: seq<Field>, f: Field, n: nat)
    requires AllValid(before) && f.Valid() && 0 < n < |f.Encoded()|
    ensures Unmarshal(EncodedAll(before) + f.Encoded()[..n], m) == None
    decreases |before|
  {
    var cut := f.Encoded()[..n];
    if before == [] {
      assert [] + cut == cut;
      FieldCut(f, n);
    } else {
      var data := EncodedAll(before) + cut;
      Assoc(before[0].Encoded(), EncodedAll(before[1..]), cut);
      ConsumesEncoded(before[0], EncodedAll(before[1..]) + cut);
      assert data == before[0].Encoded() + (EncodedAll(before[1..]) + cut);
      var next := SetField(m, before[0].num, before[0].Value());
      if next.Some? {
        TruncatedIsRefused(next.value, before[1..], f, n);
      }
    }
  }

  lemma ForeignTag(num: nat, kind: nat, rest: Bytes)
    requires kind < 8 && num * 8 + kind < TWO64 && (num == 0 || num >= 0x8000_0000 || kind in {4, 6, 7})
    ensures ConsumeField(AppendVarint(num * 8 + kind) + rest) == None
  {
    TenBytesHold64Bits();
    var tag := num * 8 + kind;
    assert tag / 8 == num && tag % 8 == kind;
    VarintRoundTrip(tag, 10, rest);
  }

  /** Neither is there a field with number 0 or above 2^31 - 1, nor one that begins with the end of a group. */
  lemma ForeignTagIsRefused(m: Tunnel, num: nat, kind: nat, rest: Bytes)
    requires kind < 8 && num * 8 + kind < TWO64 && (num == 0 || num >= 0x8000_0000 || kind in {4, 6, 7})
    ensures Unmarshal(AppendVarint(num * 8 + kind) + rest, m) == None
  {
    ForeignTag(num, kind, rest);
  }

  /** Within a point or an entry, too, other fields are skipped. */
  lemma InnerUnknownSkipped(f: Field, rest: Bytes, addr: Bytes, entry: (Bytes, Bytes))
    requires f.Valid()
    ensures f.num != 1 ==> UnmarshalPoint(f.Encoded() + rest, addr) == UnmarshalPoint(rest, addr)
    ensures f.num != 1 && f.num != 2 ==> UnmarshalEntry(f.Encoded() + rest, entry) == UnmarshalEntry(rest, entry)
  {
    ConsumesEncoded(f, rest);
  }

  /** Fields with numbers the reader does not know change nothing, wherever they stand. */
  lemma UnknownFieldSkipped(before: seq<Field>, unknown: Field, after: seq<Field>)
    requires AllValid(before) && AllValid(after) && unknown.Valid() && unknown.num > 12
    ensures Unmarshal(EncodedAll(before + ([unknown] + after)), EMPTY) == Unmarshal(EncodedAll(before + after), EMPTY)
  {
    UnmarshalApplies(EMPTY, before + ([unknown] + after));
    UnmarshalApplies(EMPTY, before + after);
    SkipsUnknown(EMPTY, before, unknown, after);
  }

  lemma {:induction false} SkipsUnknown(m: Tunnel, before: seq<Field>, unknown: Field, after: seq<Field>)
    requires unknown.num > 12
    ensures Apply(m, before + ([unknown] + after)) == Apply(m, before + after)
    decreases |before|
  {
    if before == [] {
      assert before + ([unknown] + after) == [unknown] + after && before + after == after;
      assert ([unknown] + after)[1..] == after;
    } else {
      assert (before + ([unknown] + after))[1..] == before[1..] + ([unknown] + after);
      assert (before + after)[1..] == before[1..] + after;
      var next := SetField(m, before[0].num, before[0].Value());
      if next.Some? {
        SkipsUnknown(next.value, before[1..], unknown, after);
      }
    }
  }
}
