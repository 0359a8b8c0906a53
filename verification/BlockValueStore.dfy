/** The packed store of the values of one basic block: data of several widths in one buffer of bytes, long
    doubles in a vector of their own, and a bit for each instruction that has a value. */
module BlockValueStore {
  import opened Common

  datatype Kind = NoValue | Integer | Pointer | FloatKind | DoubleKind | LongDouble
  {
    predicate IsData() { Integer? || Pointer? || FloatKind? || DoubleKind? }

    /** The bytes that a value takes in the buffer: integers and pointers are stored in 64 bits. */
    function Width(): nat {
      if Integer? || Pointer? || DoubleKind? then 8 else if FloatKind? then 4 else 0
    }
  }

  /** The record of an instruction: an offset in the buffer, an index in the long doubles, or nothing. */
  datatype Record = NoRecord | DataOffset(value: nat) | APFloatIndex(value: nat)

  /** Bytes in front of instruction `i`. */
  function Offset(kinds: seq<Kind>, i: nat): nat
    requires i <= |kinds|
  {
    if i == 0 then 0 else Offset(kinds, i - 1) + kinds[i - 1].Width()
  }

  /** Long doubles in front of instruction `i`. */
  function LongDoubles(kinds: seq<Kind>, i: nat): nat
    requires i <= |kinds|
  {
    if i == 0 then 0 else LongDoubles(kinds, i - 1) + if kinds[i - 1].LongDouble? then 1 else 0
  }

  function RecordOf(kinds: seq<Kind>, i: nat): Record
    requires i < |kinds|
  {
    if kinds[i].LongDouble? then APFloatIndex(LongDoubles(kinds, i))
    else if kinds[i].IsData() then DataOffset(Offset(kinds, i))
    else NoRecord
  }

  lemma {:induction false} OffsetsGrow(kinds: seq<Kind>, i: nat, j: nat)
    requires i < j <= |kinds|
    ensures Offset(kinds, i) + kinds[i].Width() <= Offset(kinds, j)
    ensures LongDoubles(kinds, i) + (if kinds[i].LongDouble? then 1 else 0) <= LongDoubles(kinds, j)
    decreases j
  {
    if i + 1 < j {
      OffsetsGrow(kinds, i, j - 1);
    }
  }

  /** The layout of a block: no two instructions share a byte or a long double, and all fit. */
  lemma LayoutApart(kinds: seq<Kind>, i: nat, j: nat)
    requires i < |kinds| && j < |kinds| && i != j
    ensures kinds[i].IsData() && kinds[j].IsData() ==>
              || RecordOf(kinds, i).value + kinds[i].Width() <= RecordOf(kinds, j).value
              || RecordOf(kinds, j).value + kinds[j].Width() <= RecordOf(kinds, i).value
    ensures kinds[i].LongDouble? && kinds[j].LongDouble? ==> RecordOf(kinds, i).value != RecordOf(kinds, j).value
    ensures kinds[i].IsData() ==> RecordOf(kinds, i).value + kinds[i].Width() <= Offset(kinds, |kinds|)
    ensures kinds[i].LongDouble? ==> RecordOf(kinds, i).value < LongDoubles(kinds, |kinds|)
  {
    OffsetsGrow(kinds, i, |kinds|);
    if i < j {
      OffsetsGrow(kinds, i, j);
    } else {
      OffsetsGrow(kinds, j, i);
    }
  }

  class BasicBlockInfo {
    const base: nat
    ghost const kinds: seq<Kind>
    const records: seq<Record>
    const instructionCount: nat
    const longDoubleCount: nat
    const totalDataSize: nat

    ghost predicate Valid() {
      && instructionCount == |records| == |kinds|
      && longDoubleCount == LongDoubles(kinds, |kinds|)
      && totalDataSize == Offset(kinds, |kinds|)
      && forall i | 0 <= i < |kinds| :: records[i] == RecordOf(kinds, i)
    }

    constructor (firstIndex: nat, withKinds: seq<Kind>)
      ensures Valid() && base == firstIndex && kinds == withKinds
    {
      var list: seq<Record> := [];
      var longDoubles, size, n := 0, 0, 0;
      while n < |withKinds|
        invariant 0 <= n <= |withKinds| && |list| == n
        invariant longDoubles == LongDoubles(withKinds, n) && size == Offset(withKinds, n)
        invariant forall i | 0 <= i < n :: list[i] == RecordOf(withKinds, i)
      {
        if withKinds[n].LongDouble? {
          list := list + [APFloatIndex(longDoubles)];
          longDoubles := longDoubles + 1;
        } else if withKinds[n].IsData() {
          list := list + [DataOffset(size)];
          size := size + withKinds[n].Width();
        } else {
          list := list + [NoRecord];
        }
        n := n + 1;
      }
      base, kinds, records, instructionCount, longDoubleCount, totalDataSize :=
        firstIndex, withKinds, list, n, longDoubles, size;
    }
  }

  /** A value as it is stored: the bytes of a datum, or an opaque long double. */
  datatype Stored = Data(bytes: seq<Byte>) | Long(bits: nat)

  type View = map<nat, Stored>

  /** What the source asserts of a value that is present already: `==` in the type of the instruction. */
  predicate SameDatum(kind: Kind, a: seq<Byte>, b: seq<Byte>) {
    if kind.FloatKind? then SingleEquals(FromLittle(a), FromLittle(b))
    else if kind.DoubleKind? then DoubleEquals(FromLittle(a), FromLittle(b))
    else a == b
  }

  /** The value of an instruction is where its record says. */
  ghost predicate Holds(kinds: seq<Kind>, i: nat, value: Stored, data: seq<Byte>, longDoubles: seq<nat>) {
    && i < |kinds|
    && if kinds[i].LongDouble? then
         LongDoubles(kinds, i) < |longDoubles| && value == Long(longDoubles[LongDoubles(kinds, i)])
       else
         && kinds[i].IsData() && Offset(kinds, i) + kinds[i].Width() <= |data|
         && value == Data(data[Offset(kinds, i)..Offset(kinds, i) + kinds[i].Width()])
  }

  ghost predicate Represents(kinds: seq<Kind>, view: View, data: seq<Byte>, longDoubles: seq<nat>) {
    forall i | i in view :: Holds(kinds, i, view[i], data, longDoubles)
  }

  /** Storing a datum stores its value, and leaves those of the other instructions. */
  lemma StoreData(kinds: seq<Kind>, view: View, data: seq<Byte>, longDoubles: seq<nat>, i: nat, bytes: seq<Byte>)
    requires Represents(kinds, view, data, longDoubles) && |data| == Offset(kinds, |kinds|)
    requires i < |kinds| && kinds[i].IsData() && |bytes| == kinds[i].Width()
    ensures Offset(kinds, i) + |bytes| <= |data|
    ensures Represents(kinds, view[i := Data(bytes)], Splice(data, Offset(kinds, i), bytes), longDoubles)
  {
    hide Offset, LongDoubles, Splice;
    OffsetsGrow(kinds, i, |kinds|);
    var after := Splice(data, Offset(kinds, i), bytes);
    assert after[Offset(kinds, i)..Offset(kinds, i) + |bytes|] == bytes;
    forall j | j in view && j != i ensures Holds(kinds, j, view[j], after, longDoubles) {
      assert Holds(kinds, j, view[j], data, longDoubles);
      LayoutApart(kinds, i, j);
      if kinds[j].IsData() {
        var at, w := Offset(kinds, j), kinds[j].Width();
        assert after[at..at + w] == data[at..at + w];
      }
    }
  }

  lemma StoreLong(kinds: seq<Kind>, view: View, data: seq<Byte>, longDoubles: seq<nat>, i: nat, value: nat)
    requires Represents(kinds, view, data, longDoubles) && |longDoubles| == LongDoubles(kinds, |kinds|)
    requires i < |kinds| && kinds[i].LongDouble?
    ensures LongDoubles(kinds, i) < |longDoubles|
    ensures Represents(kinds, view[i := Long(value)], data, longDoubles[LongDoubles(kinds, i) := value])
  {
    hide Offset, LongDoubles;
    OffsetsGrow(kinds, i, |kinds|);
    forall j | j in view && j != i
      ensures Holds(kinds, j, view[j], data, longDoubles[LongDoubles(kinds, i) := value])
    {
      assert Holds(kinds, j, view[j], data, longDoubles);
      LayoutApart(kinds, i, j);
    }
  }

  class BasicBlockStore {
    const info: BasicBlockInfo
    const data: array<Byte>
    var valuesSet: seq<bool>
    var longDoubles: seq<nat>
    /** The map from instructions of the block to their values that the rest represents. */
    ghost var view: View

    ghost predicate Valid()
      reads this, data
    {
      && info.Valid()
      && data.Length == info.totalDataSize
      && |valuesSet| == info.instructionCount && |longDoubles| == info.longDoubleCount
      && (forall i | 0 <= i < |valuesSet| :: valuesSet[i] <==> i in view)
      && Represents(info.kinds, view, data[..], longDoubles)
    }

    constructor (withInfo: BasicBlockInfo)
      requires withInfo.Valid()
      ensures Valid() && info == withInfo && view == map[] && fresh(data)
    {
      info := withInfo;
      data := new Byte[withInfo.totalDataSize];
      valuesSet := seq(withInfo.instructionCount, _ => false);
      longDoubles := seq(withInfo.longDoubleCount, _ => 0);
      view := map[];
    }

    method WriteBytes(offset: nat, bytes: seq<Byte>)
      requires offset + |bytes| <= data.Length
      modifies data
      ensures data[..] == Splice(old(data[..]), offset, bytes)
    {
      var n := 0;
      while n < |bytes|
        invariant 0 <= n <= |bytes|
        invariant forall k | 0 <= k < data.Length ::
                    data[k] == if offset <= k < offset + n then bytes[k - offset] else old(data[k])
      {
        data[offset + n] := bytes[n];
        n := n + 1;
      }
    }

    /** A datum is stored once. Setting it again does nothing: the source asserts that it is equal, so a NaN
        must not be set again, and a zero keeps the sign that it has. */
    method SetData(i: nat, bytes: seq<Byte>)
      requires Valid() && i < |info.kinds| && (info.kinds[i].IsData() ==> |bytes| == info.kinds[i].Width())
      requires info.kinds[i].IsData() && i in view && view[i].Data? ==>
                 SameDatum(info.kinds[i], view[i].bytes, bytes)
      modifies this, data
      ensures Valid()
      ensures info.kinds[i].IsData() ==>
                view == if i in old(view) then old(view) else old(view)[i := Data(bytes)]
      ensures !info.kinds[i].IsData() ==> view == old(view)
    {
      var record := info.records[i];
      if record.DataOffset? && !valuesSet[i] {
        StoreData(info.kinds, view, data[..], longDoubles, i, bytes);
        WriteBytes(record.value, bytes);
        valuesSet := valuesSet[i := true];
        view := view[i := Data(bytes)];
      }
    }

    /** A long double is overwritten. */
    method SetAPFloat(i: nat, value: nat)
      requires Valid() && i < |info.kinds|
      modifies this
      ensures Valid()
      ensures info.kinds[i].LongDouble? ==> view == old(view)[i := Long(value)]
      ensures !info.kinds[i].LongDouble? ==> view == old(view)
    {
      var record := info.records[i];
      if record.APFloatIndex? {
        StoreLong(info.kinds, view, data[..], longDoubles, i, value);
        longDoubles := longDoubles[record.value := value];
        valuesSet := valuesSet[i := true];
        view := view[i := Long(value)];
      }
    }

    /** Read a datum of `width` bytes, which is that of the type asked for. */
    method GetData(i: nat, width: nat) returns (r: Option<seq<Byte>>)
      requires Valid() && i < |info.kinds| && (info.kinds[i].IsData() ==> width == info.kinds[i].Width())
      ensures r == if i in view && view[i].Data? then Some(view[i].bytes) else None
    {
      var record := info.records[i];
      if !valuesSet[i] { return None; }
      assert Holds(info.kinds, i, view[i], data[..], longDoubles);
      if !record.DataOffset? { return None; }
      assert data[..][record.value..record.value + width] == data[record.value..record.value + width];
      r := Some(data[record.value..record.value + width]);
    }

    method GetAPFloat(i: nat) returns (r: Option<nat>)
      requires Valid() && i < |info.kinds|
      ensures r == if i in view && view[i].Long? then Some(view[i].bits) else None
    {
      var record := info.records[i];
      if !valuesSet[i] { return None; }
      assert Holds(info.kinds, i, view[i], data[..], longDoubles);
      if !record.APFloatIndex? { return None; }
      r := Some(longDoubles[record.value]);
    }

    method HasValue(i: nat) returns (r: bool)
      requires Valid() && i < |info.kinds|
      ensures r <==> i in view
    {
      r := valuesSet[i];
    }
  }
}
