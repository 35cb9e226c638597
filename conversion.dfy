/**
 * What the emitted conversion methods do at run time. Every enum E of a
 * schema gets FromDB, ToDB and Value methods that read the two tables the
 * protobuf compiler generates beside it: E_value (value name to number) and
 * E_name (number to value name). Prefix is the enum's SCREAMING_SNAKE name,
 * so a value named COLOR_RED is stored in the database as RED.
 */
module Conversion {
  import opened GoStrings

  /** Go's int32, the representation of every protobuf enum. */
  newtype int32 = x: int | -0x8000_0000 <= x < 0x8000_0000

  /** The E_value and E_name tables of one enum. */
  datatype EnumTables = EnumTables(value: map<string, int32>, name: map<int32, string>)

  /** E_name[x]: a number without an entry reads as Go's zero string. */
  function NameOf(t: EnumTables, x: int32): (r: string)
    ensures x in t.name ==> r == t.name[x]
    ensures x !in t.name ==> r == ""
  {
    if x in t.name then t.name[x] else ""
  }

  /**
   * FromDB: the stored key itself if it names a value, else the key with
   * Prefix_ in front of it, else 0. It never reports an error.
   */
  function FromDB(t: EnumTables, prefix: string, key: string): (r: int32)
    ensures key in t.value ==> r == t.value[key]
    ensures key !in t.value && prefix + "_" + key in t.value ==> r == t.value[prefix + "_" + key]
    ensures key !in t.value && prefix + "_" + key !in t.value ==> r == 0
  {
    if key in t.value then t.value[key]
    else if prefix + "_" + key in t.value then t.value[prefix + "_" + key]
    else 0
  }

  /** ToDB: the value's name with one leading Prefix_ removed, if it has one. */
  function ToDB(t: EnumTables, prefix: string, x: int32): (r: string)
    ensures prefix + "_" <= NameOf(t, x) ==> prefix + "_" + r == NameOf(t, x)
    ensures !(prefix + "_" <= NameOf(t, x)) ==> r == NameOf(t, x)
  {
    TrimPrefix(NameOf(t, x), prefix + "_")
  }

  /** Value: the value's full name, prefix included. */
  function Value(t: EnumTables, x: int32): (r: string)
    ensures x in t.name ==> r == t.name[x]
    ensures x !in t.name ==> r == ""
  {
    NameOf(t, x)
  }

  /** The two tables describe the same enum: each numbered name maps back to its number. */
  predicate Consistent(t: EnumTables)
  {
    forall x :: x in t.name ==> t.name[x] in t.value && t.value[t.name[x]] == x
  }

  /** No value name n exists alongside prefix_n, so a stripped name reads back unambiguously. */
  predicate Unambiguous(t: EnumTables, prefix: string)
  {
    forall n :: n in t.value ==> prefix + "_" + n !in t.value
  }

  /** Reading back the full name that Value returns yields the number again. */
  lemma ValueRoundTrip(t: EnumTables, prefix: string, x: int32)
    requires Consistent(t) && x in t.name
    ensures FromDB(t, prefix, Value(t, x)) == x
  {
    assert Value(t, x) in t.value;
  }

  /**
   * Reading back what ToDB stored yields the number again, as long as no
   * value name is also the stripped form of another.
   */
  lemma ToDBRoundTrip(t: EnumTables, prefix: string, x: int32)
    requires Consistent(t) && Unambiguous(t, prefix) && x in t.name
    ensures FromDB(t, prefix, ToDB(t, prefix, x)) == x
  {
    var full := t.name[x];
    var stored := ToDB(t, prefix, x);
    assert full in t.value && t.value[full] == x;
    if prefix + "_" <= full {
      assert prefix + "_" + stored == full;
      assert stored !in t.value;
    } else {
      assert stored == full;
    }
  }

  /**
   * Without that condition the round trip fails: in an enum COLOR with
   * values COLOR_RED = 0 and RED = 1, ToDB stores COLOR_RED as "RED",
   * which FromDB reads back as 1.
   */
  lemma ToDBRoundTripNeedsUnambiguous()
    ensures var t := EnumTables(map["COLOR_RED" := 0, "RED" := 1], map[0 := "COLOR_RED", 1 := "RED"]);
            Consistent(t) && !Unambiguous(t, "COLOR") &&
            ToDB(t, "COLOR", 0) == "RED" && FromDB(t, "COLOR", ToDB(t, "COLOR", 0)) == 1
  {
    var t := EnumTables(map["COLOR_RED" := 0, "RED" := 1], map[0 := "COLOR_RED", 1 := "RED"]);
    assert "COLOR" + "_" == "COLOR_";
    assert "COLOR_" + "RED" == "COLOR_RED";
    assert "COLOR_" <= "COLOR_RED";
    assert ToDB(t, "COLOR", 0) == "RED";
    assert "RED" in t.value;
  }

  /** Only one copy of the prefix is removed: COLOR_COLOR_RED is stored as COLOR_RED. */
  lemma ToDBStripsOnce()
    ensures var t := EnumTables(map["COLOR_COLOR_RED" := 1], map[1 := "COLOR_COLOR_RED"]);
            ToDB(t, "COLOR", 1) == "COLOR_RED"
  {
    assert "COLOR" + "_" == "COLOR_";
    assert "COLOR_" + "COLOR_RED" == "COLOR_COLOR_RED";
  }

  /**
   * A value of an emitted enum type: FromDB stores the number it decodes
   * through the receiver pointer, ToDB and Value only read it.
   */
  class EnumVar {
    var x: int32

    constructor (x0: int32)
      ensures x == x0
    {
      x := x0;
    }

    /** Decodes bytes into the receiver; the error result is always nil. */
    method DecodeFromDB(t: EnumTables, prefix: string, bytes: string)
      modifies this
      ensures x == FromDB(t, prefix, bytes)
    {
      var value: int32 := 0;
      if bytes in t.value {
        value := t.value[bytes];
      } else if prefix + "_" + bytes in t.value {
        value := t.value[prefix + "_" + bytes];
      }
      x := value;
    }

    /** Encodes the receiver; the error result is always nil. */
    method EncodeToDB(t: EnumTables, prefix: string) returns (bytes: string)
      ensures bytes == ToDB(t, prefix, x)
    {
      var name := NameOf(t, x);
      bytes := TrimPrefix(name, prefix + "_");
    }
  }
}
