/** The snapshot checksum: key and string bytes XORed into sixteen slots. */
module Checksum {
  import opened Types

  // ----- the bytes of a string (UTF-8) -----

  function Utf8(c: char): (u: seq<nat>)
    ensures forall i :: 0 <= i < |u| ==> u[i] < 256
  {
    var n := c as int;
    var sixes := n / 0x40;
    var twelves := sixes / 0x40;
    if n < 0x80 then [n]
    else if n < 0x800 then [0xC0 + sixes, 0x80 + n % 0x40]
    else if n < 0x1_0000 then [0xE0 + twelves, 0x80 + sixes % 0x40, 0x80 + n % 0x40]
    else [0xF0 + twelves / 0x40, 0x80 + twelves % 0x40, 0x80 + sixes % 0x40, 0x80 + n % 0x40]
  }

  /** The encoding is undone by reading the length off the leading byte and six bits off each further
      one, and it is the shortest that can hold the character. */
  lemma Utf8Decodes(c: char)
    ensures var u, n := Utf8(c), c as int;
            && 1 <= |u| <= 4
            && (|u| == 1 ==> n == u[0] < 128)
            && (|u| == 2 ==> 192 <= u[0] < 224 && n == (u[0] - 192) * 64 + u[1] - 128)
            && (|u| == 3 ==> 224 <= u[0] < 240 && n == (u[0] - 224) * 4096 + (u[1] - 128) * 64 + u[2] - 128)
            && (|u| == 4 ==>
                  240 <= u[0] < 248
                  && n == (u[0] - 240) * 262144 + (u[1] - 128) * 4096 + (u[2] - 128) * 64 + u[3] - 128)
            && (forall i :: 0 < i < |u| ==> 128 <= u[i] < 192)
            && (|u| > 1 ==> n >= if |u| == 2 then 128 else if |u| == 3 then 2048 else 65536)
  {
  }

  function Bytes(s: string): seq<bv8> {
    if s == "" then [] else
    var u := Utf8(s[|s| - 1]);
    Bytes(s[..|s| - 1]) + seq(|u|, i requires 0 <= i < |u| => u[i] as bv8)
  }

  /** The bytes of a text are those of its characters, in order. */
  lemma {:induction false} BytesAppend(s: string, t: string)
    ensures Bytes(s + t) == Bytes(s) + Bytes(t)
    ensures |s| == 1 ==> |Bytes(s)| == |Utf8(s[0])|
    ensures |s| == 1 ==> forall i :: 0 <= i < |Bytes(s)| ==> Bytes(s)[i] == Utf8(s[0])[i] as bv8
    decreases |t|
  {
    hide Utf8;
    if |s| == 1 { assert s[..0] == ""; }
    if t == "" {
      assert s + t == s;
    } else {
      assert (s + t)[..|s + t| - 1] == s + t[..|t| - 1];
      BytesAppend(s, t[..|t| - 1]);
    }
  }

  // ----- contributions -----

  function Xor(a: bv8, b: bv8): bv8 { a ^ b }

  lemma XorLaws(a: bv8, b: bv8, c: bv8)
    ensures Xor(Xor(a, b), c) == Xor(Xor(a, c), b) == Xor(a, Xor(b, c))
    ensures Xor(Xor(a, b), b) == a && Xor(a, 0) == a && Xor(a, b) == a ^ b
  {
  }

  /** What bytes laid out from slot `offset` round the sixteen slots leave in slot `j`. */
  function Column(bytes: seq<bv8>, offset: nat, j: nat): bv8 {
    if bytes == [] then 0 else
    var n := |bytes| - 1;
    Xor(Column(bytes[..n], offset, j), if (n + offset) % 16 == j then bytes[n] else 0)
  }

  function ValueByte(v: Value, j: nat): bv8 {
    if v.raw.Str? then Column(Bytes(v.raw.s), 8, j) else 0
  }

  function EntryByte(k: string, v: Value, j: nat): bv8 {
    Xor(Column(Bytes(k), 0, j), ValueByte(v, j))
  }

  /** Slot `j` of the checksum, the entries taken in some order. */
  ghost function Sum(data: Data, j: nat): bv8
    decreases |data|
  {
    if data.Keys == {} then 0 else
    var k :| k in data.Keys;
    Xor(Sum(data - {k}, j), EntryByte(k, data[k], j))
  }

  /** Which entry is taken first does not matter. */
  lemma {:induction false} SumWith(data: Data, k: string, j: nat)
    requires k in data
    ensures Sum(data, j) == Xor(Sum(data - {k}, j), EntryByte(k, data[k], j))
    decreases |data|
  {
    hide EntryByte, Xor;
    var l :| l in data && Sum(data, j) == Xor(Sum(data - {l}, j), EntryByte(l, data[l], j));
    if k != l {
      SumWith(data - {l}, k, j);
      SumWith(data - {k}, l, j);
      assert data - {l} - {k} == data - {k} - {l};
      XorLaws(Sum(data - {l} - {k}, j), EntryByte(k, data[k], j), EntryByte(l, data[l], j));
    }
  }

  /** Removing an entry XORs out exactly its contribution. */
  lemma RemoveEntry(data: Data, k: string, j: nat)
    requires k in data
    ensures Sum(data - {k}, j) == Xor(Sum(data, j), EntryByte(k, data[k], j))
  {
    SumWith(data, k, j);
    XorLaws(Sum(data - {k}, j), EntryByte(k, data[k], j), 0);
  }

  // ----- what a change of the data does to the checksum -----

  /** Changing one byte changes one slot, by the difference of the two bytes. */
  lemma {:induction false} ColumnChange(a: seq<bv8>, b: seq<bv8>, offset: nat, i: nat, j: nat)
    requires |a| == |b| && i < |a| && forall k :: 0 <= k < |a| && k != i ==> a[k] == b[k]
    ensures Column(b, offset, j) == Xor(Column(a, offset, j), if j == (i + offset) % 16 then Xor(a[i], b[i]) else 0)
    decreases |a|
  {
    hide Xor;
    var n := |a| - 1;
    if i < n {
      ColumnChange(a[..n], b[..n], offset, i, j);
      XorLaws(Column(a[..n], offset, j), if j == (i + offset) % 16 then Xor(a[i], b[i]) else 0,
              if (n + offset) % 16 == j then a[n] else 0);
    } else {
      assert a[..n] == b[..n];
      XorReplaced(Column(a[..n], offset, j), a[n], b[n]);
    }
  }

  lemma XorReplaced(s: bv8, a: bv8, b: bv8)
    ensures Xor(Xor(s, a), Xor(a, b)) == Xor(s, b) && Xor(Xor(s, 0), 0) == Xor(s, 0)
  {
  }

  lemma SumReplaced(data: Data, k: string, v: Value, j: nat)
    requires k in data
    ensures Sum(data[k := v], j) == Xor(Xor(Sum(data, j), EntryByte(k, data[k], j)), EntryByte(k, v, j))
  {
    hide EntryByte, Xor;
    SumWith(data[k := v], k, j);
    RemoveEntry(data, k, j);
    assert data[k := v] - {k} == data - {k};
  }

  /** When byte `i` of a string value changes, exactly slot `(i + 8) % 16` of the checksum changes. */
  lemma ValueByteChanged(data: Data, k: string, v: Value, i: nat, j: nat)
    requires k in data && data[k].raw.Str? && v.raw.Str?
    requires var a, b := Bytes(data[k].raw.s), Bytes(v.raw.s);
             && |a| == |b| && i < |a| && a[i] != b[i]
             && forall n :: 0 <= n < |a| && n != i ==> a[n] == b[n]
    ensures j < 16 ==> (Sum(data[k := v], j) != Sum(data, j) <==> j == (i + 8) % 16)
    ensures j == (i + 8) % 16 ==>
              Sum(data[k := v], j) == Xor(Sum(data, j), Xor(Bytes(data[k].raw.s)[i], Bytes(v.raw.s)[i]))
  {
    hide Bytes, Column, Xor;
    var a, b := Bytes(data[k].raw.s), Bytes(v.raw.s);
    SumReplaced(data, k, v, j);
    ColumnChange(a, b, 8, i, j);
    XorChange(Sum(data, j), Column(Bytes(k), 0, j), Column(a, 8, j), if j == (i + 8) % 16 then Xor(a[i], b[i]) else 0);
    XorApart(a[i], b[i]);
  }

  lemma XorChange(s: bv8, k: bv8, x: bv8, d: bv8)
    ensures Xor(Xor(s, Xor(k, x)), Xor(k, Xor(x, d))) == Xor(s, d)
    ensures Xor(s, d) != s <==> d != 0
  {
  }

  lemma KeyChange(s: bv8, v: bv8, x: bv8, d: bv8)
    ensures Xor(Xor(s, Xor(x, v)), Xor(Xor(x, d), v)) == Xor(s, d)
    ensures Xor(s, d) != s <==> d != 0
  {
  }

  lemma XorApart(a: bv8, b: bv8)
    ensures Xor(a, b) != 0 <==> a != b
  {
  }

  /** When byte `i` of a key changes, exactly slot `i % 16` changes. */
  lemma KeyByteChanged(data: Data, k: string, l: string, i: nat, j: nat)
    requires k in data && l !in data
    requires var a, b := Bytes(k), Bytes(l);
             && |a| == |b| && i < |a| && a[i] != b[i]
             && forall n :: 0 <= n < |a| && n != i ==> a[n] == b[n]
    ensures var data' := (data - {k})[l := data[k]];
            j < 16 ==> (Sum(data', j) != Sum(data, j) <==> j == i % 16)
  {
    hide Bytes, Column, ValueByte, Xor;
    var a, b := Bytes(k), Bytes(l);
    var data' := (data - {k})[l := data[k]];
    SumWith(data', l, j);
    assert data' - {l} == data - {k};
    RemoveEntry(data, k, j);
    ColumnChange(a, b, 0, i, j);
    KeyChange(Sum(data, j), ValueByte(data[k], j), Column(a, 0, j), if j == i % 16 then Xor(a[i], b[i]) else 0);
    XorApart(a[i], b[i]);
  }

  /** Of values that are no strings the checksum sees nothing. */
  lemma NonStringsUnseen(data: Data, k: string, v: Value, j: nat)
    requires k in data && !data[k].raw.Str? && !v.raw.Str?
    ensures Sum(data[k := v], j) == Sum(data, j)
  {
    SumReplaced(data, k, v, j);
  }

  // ----- the loops -----

  /** One inner loop: XOR the bytes into the array, wrapping round from `offset`. */
  method XorInto(sum: array<bv8>, bytes: seq<bv8>, offset: nat)
    requires sum.Length == 16
    modifies sum
    ensures forall j :: 0 <= j < 16 ==> sum[j] == Xor(old(sum[j]), Column(bytes, offset, j))
  {
    assert bytes[..0] == [];
    for i := 0 to |bytes|
      invariant forall j :: 0 <= j < 16 ==> sum[j] == Xor(old(sum[j]), Column(bytes[..i], offset, j))
    {
      var slot := (i + offset) % 16;
      ghost var before := sum[..];
      sum[slot] := sum[slot] ^ bytes[i];
      assert bytes[..i + 1][..i] == bytes[..i];
      forall j | 0 <= j < 16 ensures sum[j] == Xor(old(sum[j]), Column(bytes[..i + 1], offset, j)) {
        assert before[j] == Xor(old(sum[j]), Column(bytes[..i], offset, j));
        XorLaws(old(sum[j]), Column(bytes[..i], offset, j), if slot == j then bytes[i] else 0);
      }
    }
    assert bytes[..|bytes|] == bytes;
  }

  method XorEntry(sum: array<bv8>, k: string, v: Value)
    requires sum.Length == 16
    modifies sum
    ensures forall j :: 0 <= j < 16 ==> sum[j] == Xor(old(sum[j]), EntryByte(k, v, j))
  {
    hide Column, Bytes, Xor;
    ghost var before := sum[..];
    XorInto(sum, Bytes(k), 0);
    ghost var between := sum[..];
    if v.raw.Str? {
      XorInto(sum, Bytes(v.raw.s), 8);
    }
    forall j | 0 <= j < 16 ensures sum[j] == Xor(before[j], EntryByte(k, v, j)) {
      assert between[j] == Xor(before[j], Column(Bytes(k), 0, j));
      XorLaws(before[j], Column(Bytes(k), 0, j), ValueByte(v, j));
      XorLaws(between[j], 0, 0);
    }
  }

  /** computeChecksum: the entries come in any order, the result is the same. */
  method ComputeChecksum(data: Data) returns (r: seq<bv8>)
    ensures |r| == 16 && forall j :: 0 <= j < 16 ==> r[j] == Sum(data, j)
  {
    hide EntryByte, Xor;
    var sum := new bv8[16](_ => 0);
    var todo := data.Keys;
    assert data - todo == map[];
    while todo != {}
      invariant todo <= data.Keys
      invariant forall j :: 0 <= j < 16 ==> sum[j] == Sum(data - todo, j)
      decreases |todo|
    {
      var k :| k in todo;
      ghost var done := data - (todo - {k});
      ghost var before := sum[..];
      XorEntry(sum, k, data[k]);
      forall j | 0 <= j < 16 ensures sum[j] == Sum(done, j) {
        SumWith(done, k, j);
        assert done - {k} == data - todo;
        assert before[j] == Sum(data - todo, j);
      }
      todo := todo - {k};
    }
    assert data - todo == data;
    r := sum[..];
  }
}
