// Fixed-width little-endian integers, and the packed row codec
// (include/dbsp_packed_row.hpp).
module LittleEndian {
  import opened Buckets

  function Pow256(w: nat): (p: nat)
    ensures p >= 1
  {
    if w == 0 then 1 else 256 * Pow256(w - 1)
  }

  // The w low bytes of n, lowest first.
  function Put(n: nat, w: nat): (b: Bytes)
    ensures |b| == w
  {
    if w == 0 then [] else [n % 256] + Put(n / 256, w - 1)
  }

  function Get(b: Bytes): nat {
    if b == [] then 0 else b[0] + 256 * Get(b[1..])
  }

  lemma {:induction false} GetBound(b: Bytes)
    ensures Get(b) < Pow256(|b|)
  {
    if b != [] {
      GetBound(b[1..]);
    }
  }

  // A number that fits its width is read back.
  lemma {:induction false} Fits(n: nat, w: nat)
    requires n < Pow256(w)
    ensures Get(Put(n, w)) == n
  {
    if w > 0 {
      Fits(n / 256, w - 1);
      assert Put(n, w)[1..] == Put(n / 256, w - 1);
    }
  }
}

// Byte strings laid end to end, and what stands at a position.
module ByteStrings {
  import opened Buckets

  function Concat(parts: seq<Bytes>): Bytes {
    if parts == [] then [] else Concat(parts[..|parts| - 1]) + parts[|parts| - 1]
  }

  lemma ConcatPush(parts: seq<Bytes>, x: Bytes)
    ensures Concat(parts + [x]) == Concat(parts) + x
  {
    assert (parts + [x])[..|parts|] == parts;
  }

  // The bytes from p on start with `what`.
  predicate StartsAt(b: Bytes, p: nat, what: Bytes) {
    p + |what| <= |b| && b[p..p + |what|] == what
  }

  lemma StartsSplit(b: Bytes, p: nat, x: Bytes, y: Bytes)
    requires StartsAt(b, p, x + y)
    ensures StartsAt(b, p, x) && StartsAt(b, p + |x|, y)
  {
    assert b[p..p + |x|] == b[p..p + |x + y|][..|x|] == x;
    assert b[p + |x|..p + |x| + |y|] == b[p..p + |x + y|][|x|..] == y;
  }

  // Every part stands where the parts before it end.
  lemma {:induction false} PartStarts(b: Bytes, p: nat, parts: seq<Bytes>, i: nat)
    requires i < |parts| && StartsAt(b, p, Concat(parts))
    ensures StartsAt(b, p + |Concat(parts[..i])|, parts[i])
  {
    var n := |parts| - 1;
    StartsSplit(b, p, Concat(parts[..n]), parts[n]);
    if i < n {
      assert parts[..n][..i] == parts[..i];
      PartStarts(b, p, parts[..n], i);
    }
  }
}

// Rows as self-describing bytes.
module PackedRow {
  import opened Rows
  import opened Buckets
  import opened LittleEndian
  import opened ByteStrings

  // Fixed-width types; integers as two's complement, floats as bit patterns.
  datatype Kind = I8 | I16 | I32 | I64 | U32 | U64 | F32 | F64 | Date | Timestamp

  datatype Val =
    | NullOf(typeId: Byte)
    | Boolean(b: bool)
    | Fixed(kind: Kind, bits: nat)
    | Varchar(s: Bytes)
    | Unsupported(id: nat)

  function Width(k: Kind): nat {
    match k
    case I8 => 1
    case I16 => 2
    case I32 => 4
    case I64 => 8
    case U32 => 4
    case U64 => 8
    case F32 => 4
    case F64 => 8
    case Date => 4
    case Timestamp => 8
  }

  function TagOf(k: Kind): Byte {
    match k
    case I32 => 3
    case I64 => 4
    case F64 => 5
    case Date => 7
    case Timestamp => 8
    case F32 => 9
    case I16 => 10
    case I8 => 11
    case U32 => 12
    case U64 => 13
  }

  function KindOf(tag: Byte): Option<Kind> {
    if tag == 3 then Some(I32)
    else if tag == 4 then Some(I64)
    else if tag == 5 then Some(F64)
    else if tag == 7 then Some(Date)
    else if tag == 8 then Some(Timestamp)
    else if tag == 9 then Some(F32)
    else if tag == 10 then Some(I16)
    else if tag == 11 then Some(I8)
    else if tag == 12 then Some(U32)
    else if tag == 13 then Some(U64)
    else None
  }

  const T_NULL: Byte := 0
  const T_BOOL_F: Byte := 1
  const T_BOOL_T: Byte := 2
  const T_VARCHAR: Byte := 6

  // Values of the machine types, and text whose length fits 32 bits.
  predicate Storable(v: Val) {
    && (v.Fixed? ==> v.bits < Pow256(Width(v.kind)))
    && (v.Varchar? ==> |v.s| < Pow256(4))
    && !v.Unsupported?
  }

  function EncodeValue(v: Val): (b: Bytes) {
    match v
    case NullOf(t) => [T_NULL, t]
    case Boolean(b) => [if b then T_BOOL_T else T_BOOL_F]
    case Fixed(k, bits) => [TagOf(k)] + Put(bits, Width(k))
    case Varchar(s) => [T_VARCHAR] + Put(|s|, 4) + s
    case Unsupported(_) => []
  }

  function Parts(vs: seq<Val>): (r: seq<Bytes>)
    ensures |r| == |vs|
  {
    if vs == [] then [] else Parts(vs[..|vs| - 1]) + [EncodeValue(vs[|vs| - 1])]
  }

  lemma {:induction false} PartAt(vs: seq<Val>, i: nat)
    requires i < |vs|
    ensures Parts(vs)[i] == EncodeValue(vs[i]) && Parts(vs)[..i + 1] == Parts(vs)[..i] + [EncodeValue(vs[i])]
  {
    if i < |vs| - 1 {
      PartAt(vs[..|vs| - 1], i);
    }
    assert Parts(vs)[..i + 1] == Parts(vs)[..i] + [Parts(vs)[i]];
  }

  function EncodedRow(vs: seq<Val>): Bytes {
    Put(|vs|, 4) + Concat(Parts(vs))
  }

  // One value of each type as bytes: its tag and its bytes, lowest first.
  lemma OneByte()
    ensures EncodeValue(Fixed(I8, 254)) == [11, 254]
    ensures EncodeValue(Boolean(false)) == [1] && EncodeValue(Boolean(true)) == [2]
    ensures forall t: Byte :: EncodeValue(NullOf(t)) == [0, t]
  {
  }

  lemma TwoBytes()
    ensures EncodeValue(Fixed(I16, 258)) == [10, 2, 1]
  {
  }

  lemma FourBytes()
    ensures Put(66051, 4) == [3, 2, 1, 0]
    ensures EncodeValue(Fixed(I32, 66051)) == [3] + Put(66051, 4) && EncodeValue(Fixed(U32, 66051)) == [12] + Put(66051, 4)
    ensures EncodeValue(Fixed(F32, 66051)) == [9] + Put(66051, 4) && EncodeValue(Fixed(Date, 66051)) == [7] + Put(66051, 4)
  {
  }

  lemma EightBytes()
    ensures Put(66051, 8) == [3, 2, 1, 0, 0, 0, 0, 0]
    ensures EncodeValue(Fixed(I64, 66051)) == [4] + Put(66051, 8) && EncodeValue(Fixed(U64, 66051)) == [13] + Put(66051, 8)
    ensures EncodeValue(Fixed(F64, 66051)) == [5] + Put(66051, 8) && EncodeValue(Fixed(Timestamp, 66051)) == [8] + Put(66051, 8)
  {
  }

  // A text stands behind its length, and the values of a row one behind the
  // other, behind their number.
  lemma CountsGoFirst(s: Bytes, vs: seq<Val>, v: Val)
    requires |s| < 256 && |vs| < 256
    ensures EncodeValue(Varchar(s)) == [6, |s|, 0, 0, 0] + s
    ensures EncodedRow(vs)[..4] == [|vs|, 0, 0, 0]
    ensures EncodedRow(vs + [v])[4..] == EncodedRow(vs)[4..] + EncodeValue(v)
  {
    SmallCount(|s|);
    SmallCount(|vs|);
    assert (vs + [v])[..|vs|] == vs;
    ConcatPush(Parts(vs), EncodeValue(v));
    assert EncodedRow(vs)[4..] == Concat(Parts(vs)) && EncodedRow(vs + [v])[4..] == Concat(Parts(vs + [v]));
  }

  lemma SmallCount(n: nat)
    requires n < 256
    ensures Put(n, 4) == [n, 0, 0, 0]
  {
    assert Put(0, 3) == [0] + Put(0, 2) && Put(0, 2) == [0] + Put(0, 1) && Put(0, 1) == [0];
  }

  // encode_row: None when a value has no encoding.
  method EncodeRow(vs: seq<Val>) returns (out: Option<Bytes>)
    ensures out.None? <==> exists i :: 0 <= i < |vs| && vs[i].Unsupported?
    ensures out.Some? ==> out.value == EncodedRow(vs)
  {
    var b := Put(|vs|, 4);
    for i := 0 to |vs|
      invariant forall j :: 0 <= j < i ==> !vs[j].Unsupported?
      invariant b == Put(|vs|, 4) + Concat(Parts(vs)[..i])
    {
      if vs[i].Unsupported? {
        return None;
      }
      PartAt(vs, i);
      ConcatPush(Parts(vs)[..i], EncodeValue(vs[i]));
      b := b + EncodeValue(vs[i]);
    }
    assert Parts(vs)[..|vs|] == Parts(vs);
    return Some(b);
  }

  // ---- decoding ----

  // A fixed-width number at p.
  method GetRaw(b: Bytes, p: nat, w: nat) returns (n: nat)
    requires p + w <= |b|
    ensures n == Get(b[p..p + w])
  {
    n := 0;
    var i := w;
    while i > 0
      invariant 0 <= i <= w && n == Get(b[p + i..p + w])
    {
      i := i - 1;
      assert b[p + i..p + w][1..] == b[p + i + 1..p + w];
      n := b[p + i] + 256 * n;
    }
  }

  // The tag of an encoded value, and the type of a NULL behind it.
  lemma ValueHead(b: Bytes, p: nat, v: Val)
    requires !v.Unsupported? && StartsAt(b, p, EncodeValue(v))
    ensures p < |b| && b[p] == EncodeValue(v)[0]
    ensures v.NullOf? ==> p + 1 < |b| && b[p + 1] == v.typeId
  {
    var e := EncodeValue(v);
    assert b[p] == b[p..p + |e|][0];
    if v.NullOf? {
      assert b[p + 1] == b[p..p + |e|][1];
    }
  }

  // decode_value, where an encoded value starts at p. A tag the encoder
  // never writes decodes to an untyped NULL.
  method DecodeValue(b: Bytes, p: nat, ghost v: Val) returns (r: Val, q: nat)
    requires Storable(v) && StartsAt(b, p, EncodeValue(v))
    ensures r == v && q == p + |EncodeValue(v)|
  {
    ValueHead(b, p, v);
    var tag := b[p];
    q := p + 1;
    if tag == T_NULL {
      return NullOf(b[q]), q + 1;
    } else if tag == T_BOOL_F {
      return Boolean(false), q;
    } else if tag == T_BOOL_T {
      return Boolean(true), q;
    } else if tag == T_VARCHAR {
      r, q := DecodeText(b, p, v);
    } else {
      r, q := DecodeFixed(b, p, KindOf(tag).value, v);
    }
  }

  method DecodeText(b: Bytes, p: nat, ghost v: Val) returns (r: Val, q: nat)
    requires v.Varchar? && Storable(v) && StartsAt(b, p, EncodeValue(v))
    ensures r == v && q == p + |EncodeValue(v)|
  {
    StartsSplit(b, p, [T_VARCHAR] + Put(|v.s|, 4), v.s);
    StartsSplit(b, p, [T_VARCHAR], Put(|v.s|, 4));
    var n := GetRaw(b, p + 1, 4);
    Fits(|v.s|, 4);
    r, q := Varchar(b[p + 5..p + 5 + n]), p + 5 + n;
  }

  method DecodeFixed(b: Bytes, p: nat, k: Kind, ghost v: Val) returns (r: Val, q: nat)
    requires v.Fixed? && v.kind == k && Storable(v) && StartsAt(b, p, EncodeValue(v))
    ensures r == v && q == p + |EncodeValue(v)|
  {
    StartsSplit(b, p, [TagOf(k)], Put(v.bits, Width(k)));
    var n := GetRaw(b, p + 1, Width(k));
    Fits(v.bits, Width(k));
    r, q := Fixed(k, n), p + 1 + Width(k);
  }

  predicate StorableRow(vs: seq<Val>) {
    |vs| < Pow256(4) && forall i :: 0 <= i < |vs| ==> Storable(vs[i])
  }

  method DecodeNext(b: Bytes, ghost p: nat, q0: nat, ghost row: seq<Val>, ghost i: nat) returns (v: Val, q: nat)
    requires i < |row| && Storable(row[i]) && StartsAt(b, p, Concat(Parts(row)))
    requires q0 == p + |Concat(Parts(row)[..i])|
    ensures v == row[i] && q == p + |Concat(Parts(row)[..i + 1])|
  {
    PartStarts(b, p, Parts(row), i);
    PartAt(row, i);
    ConcatPush(Parts(row)[..i], EncodeValue(row[i]));
    v, q := DecodeValue(b, q0, row[i]);
  }

  // decode_values: a row's bytes anywhere in a buffer give the row back and
  // leave the position behind them.
  method DecodeRow(b: Bytes, p: nat, ghost row: seq<Val>) returns (vs: seq<Val>, q: nat)
    requires StorableRow(row) && StartsAt(b, p, EncodedRow(row))
    ensures vs == row && q == p + |EncodedRow(row)|
  {
    StartsSplit(b, p, Put(|row|, 4), Concat(Parts(row)));
    var n := GetRaw(b, p, 4);
    Fits(|row|, 4);
    vs, q := [], p + 4;
    for i := 0 to n
      invariant vs == row[..i] && q == p + 4 + |Concat(Parts(row)[..i])|
    {
      var v;
      v, q := DecodeNext(b, p + 4, q, row, i);
      vs := vs + [v];
    }
    assert row[..n] == row && Parts(row)[..n] == Parts(row);
  }

  // ---- canonical and prefix-free ----

  // Bytes that start with the encodings of two values start with one value.
  lemma ValueUnique(b: Bytes, p: nat, v: Val, w: Val)
    requires Storable(v) && Storable(w) && StartsAt(b, p, EncodeValue(v)) && StartsAt(b, p, EncodeValue(w))
    ensures v == w
  {
    ValueHead(b, p, v);
    ValueHead(b, p, w);
    if v.Fixed? {
      SameFixed(b, p, v, w);
    } else if v.Varchar? {
      SameText(b, p, v.s, w.s);
    }
  }

  lemma SameFixed(b: Bytes, p: nat, v: Val, w: Val)
    requires Storable(v) && Storable(w) && v.Fixed? && w.Fixed? && v.kind == w.kind
    requires StartsAt(b, p, EncodeValue(v)) && StartsAt(b, p, EncodeValue(w))
    ensures v == w
  {
    StartsSplit(b, p, [TagOf(v.kind)], Put(v.bits, Width(v.kind)));
    StartsSplit(b, p, [TagOf(w.kind)], Put(w.bits, Width(w.kind)));
    Fits(v.bits, Width(v.kind));
    Fits(w.bits, Width(w.kind));
  }

  lemma SameText(b: Bytes, p: nat, s: Bytes, t: Bytes)
    requires |s| < Pow256(4) && |t| < Pow256(4)
    requires StartsAt(b, p, EncodeValue(Varchar(s))) && StartsAt(b, p, EncodeValue(Varchar(t)))
    ensures s == t
  {
    StartsSplit(b, p, [T_VARCHAR] + Put(|s|, 4), s);
    StartsSplit(b, p, [T_VARCHAR], Put(|s|, 4));
    StartsSplit(b, p, [T_VARCHAR] + Put(|t|, 4), t);
    StartsSplit(b, p, [T_VARCHAR], Put(|t|, 4));
    Fits(|s|, 4);
    Fits(|t|, 4);
  }

  lemma {:induction false} ValuesUnique(b: Bytes, p: nat, vs: seq<Val>, ws: seq<Val>, n: nat)
    requires StorableRow(vs) && StorableRow(ws) && |vs| == |ws| && n <= |vs|
    requires StartsAt(b, p, Concat(Parts(vs))) && StartsAt(b, p, Concat(Parts(ws)))
    ensures vs[..n] == ws[..n] && Parts(vs)[..n] == Parts(ws)[..n]
  {
    if n > 0 {
      ValuesUnique(b, p, vs, ws, n - 1);
      NextUnique(b, p, vs, ws, n - 1);
      assert vs[..n] == vs[..n - 1] + [vs[n - 1]] && ws[..n] == ws[..n - 1] + [ws[n - 1]];
    }
  }

  lemma NextUnique(b: Bytes, p: nat, vs: seq<Val>, ws: seq<Val>, i: nat)
    requires i < |vs| && i < |ws| && Storable(vs[i]) && Storable(ws[i])
    requires StartsAt(b, p, Concat(Parts(vs))) && StartsAt(b, p, Concat(Parts(ws))) && Parts(vs)[..i] == Parts(ws)[..i]
    ensures vs[i] == ws[i] && Parts(vs)[..i + 1] == Parts(ws)[..i + 1]
  {
    PartAt(vs, i);
    PartAt(ws, i);
    SamePart(b, p, Parts(vs), Parts(ws), i, vs[i], ws[i]);
  }

  lemma SamePart(b: Bytes, p: nat, ps: seq<Bytes>, qs: seq<Bytes>, i: nat, v: Val, w: Val)
    requires i < |ps| && i < |qs| && Storable(v) && Storable(w) && ps[i] == EncodeValue(v) && qs[i] == EncodeValue(w)
    requires StartsAt(b, p, Concat(ps)) && StartsAt(b, p, Concat(qs)) && ps[..i] == qs[..i]
    ensures v == w
  {
    PartStarts(b, p, ps, i);
    PartStarts(b, p, qs, i);
    ValueUnique(b, p + |Concat(ps[..i])|, v, w);
  }

  // Equal bytes mean equal rows, so encoded rows may serve as map keys; and
  // no row's encoding is the beginning of another's.
  lemma RowBytesAreCanonical(vs: seq<Val>, ws: seq<Val>, x: Bytes, y: Bytes)
    requires StorableRow(vs) && StorableRow(ws) && EncodedRow(vs) + x == EncodedRow(ws) + y
    ensures vs == ws && x == y
  {
    var b := EncodedRow(vs) + x;
    assert StartsAt(b, 0, EncodedRow(vs)) && StartsAt(b, 0, EncodedRow(ws));
    StartsSplit(b, 0, Put(|vs|, 4), Concat(Parts(vs)));
    StartsSplit(b, 0, Put(|ws|, 4), Concat(Parts(ws)));
    Fits(|vs|, 4);
    Fits(|ws|, 4);
    ValuesUnique(b, 4, vs, ws, |vs|);
    assert vs[..|vs|] == vs && ws[..|ws|] == ws;
    assert x == b[|EncodedRow(vs)|..] && y == b[|EncodedRow(ws)|..];
  }

  lemma {:induction false} GetAtMost(n: nat, w: nat)
    ensures Get(Put(n, w)) <= n
  {
    if w > 0 {
      GetAtMost(n / 256, w - 1);
      assert Put(n, w)[1..] == Put(n / 256, w - 1);
    }
  }

  // The 32-bit length field is the limit: the text a decoder takes from the
  // encoding is the text encoded exactly when its length fits.
  lemma TextLengthIff(s: Bytes)
    ensures var e := EncodeValue(Varchar(s));
            var n := Get(e[1..5]);
            5 + n <= |e| && (e[5..5 + n] == s <==> |s| < Pow256(4))
  {
    var e := EncodeValue(Varchar(s));
    assert e == [T_VARCHAR] + Put(|s|, 4) + s;
    assert e[1..5] == Put(|s|, 4) && e[5..] == s;
    GetBound(Put(|s|, 4));
    GetAtMost(|s|, 4);
    if |s| < Pow256(4) {
      Fits(|s|, 4);
    }
  }

  // types_ok: the gate for packed storage.
  datatype Type = BooleanType | FixedType(kind: Kind) | VarcharType | OtherType(id: nat)

  predicate TypesOk(ts: seq<Type>) {
    ts != [] && forall i :: 0 <= i < |ts| ==> !ts[i].OtherType?
  }
}
