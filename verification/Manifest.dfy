/** The manifest serializer: a stateful object driven over the serde data model, its outcome as a function, and exactly
    which values it accepts. */
module Manifest {
  import opened Common

  datatype Error = Unsupported(what: string) | NoneUnsupported | NestedMapUnsupported | Custom(message: string)

  /** The serde data model. `Float` carries its shortest decimal text; `Refuses` is a value whose own Serialize
      implementation reports a custom error. */
  datatype Value =
    | Bool(b: bool) | Signed(i: int) | Unsigned(n: nat) | Float(text: string) | Char(c: char) | Str(s: string)
    | Bytes | NoValue | SomeValue(inner: Value) | Unit | UnitStruct | UnitVariant(variant: string)
    | NewtypeStruct(inner: Value) | NewtypeVariant(inner: Value)
    | Sequence(items: seq<Value>) | Tuple(items: seq<Value>)
    | TupleStruct(items: seq<Value>) | TupleVariant(items: seq<Value>)
    | Map(entries: seq<Entry>) | Struct(fields: seq<Field>) | StructVariant(fields: seq<Field>)
    | Refuses(message: string)

  datatype Field = Field(key: string, value: Value)

  datatype Entry = Entry(key: Value, value: Value)

  // ----- numbers -----

  function Digit(d: nat): char
    requires d < 10
  {
    ('0' as int + d) as char
  }

  predicate IsDigit(c: char) { '0' <= c <= '9' }

  function Decimal(n: nat): (s: string)
    ensures s != "" && forall i :: 0 <= i < |s| ==> IsDigit(s[i])
  {
    if n < 10 then [Digit(n)] else Decimal(n / 10) + [Digit(n % 10)]
  }

  function SignedDecimal(i: int): string {
    if i < 0 then "-" + Decimal(-i) else Decimal(i)
  }

  /** The value of a digit string. */
  function Value10(s: string): nat
    requires forall i :: 0 <= i < |s| ==> IsDigit(s[i])
  {
    if s == "" then 0 else
    assert IsDigit(s[|s| - 1]);
    10 * Value10(s[..|s| - 1]) + ((s[|s| - 1] as int) - ('0' as int))
  }

  /** The decimal text of a number is the one digit string with its value that has no leading zero. */
  lemma {:induction false} DecimalIsCanonical(n: nat)
    ensures Value10(Decimal(n)) == n
    ensures Decimal(n)[0] == '0' <==> n == 0
    ensures n == 0 ==> Decimal(n) == "0"
  {
    if n >= 10 {
      DecimalIsCanonical(n / 10);
      var s := Decimal(n);
      assert s[..|s| - 1] == Decimal(n / 10);
    } else {
      assert Decimal(n)[..0] == "";
    }
  }

  lemma SignedDecimalIsCanonical(i: int)
    ensures i < 0 <==> SignedDecimal(i)[0] == '-'
    ensures i < 0 ==> SignedDecimal(i)[1..] == Decimal(-i)
    ensures i >= 0 ==> SignedDecimal(i) == Decimal(i)
  {
  }

  // ----- what serialization does, as a function -----

  /** The text appended, the flag afterwards, and the result. */
  datatype Outcome = Outcome(text: string, seenMap: bool, result: Result<(), Error>)

  function Good(text: string, seen: bool): Outcome { Outcome(text, seen, Ok(())) }

  function Bad(error: Error, seen: bool): Outcome { Outcome("", seen, Err(error)) }

  function After(text: string, o: Outcome): Outcome { o.(text := text + o.text) }

  function Ser(v: Value, seen: bool): Outcome
    decreases v, 1
  {
    match v
    case Bool(b) => Good(if b then "1" else "0", seen)
    case Signed(i) => Good(SignedDecimal(i), seen)
    case Unsigned(n) => Good(Decimal(n), seen)
    case Float(text) => Good(text, seen)
    case Char(c) => Good([c], seen)
    case Str(s) => Good(s, seen)
    case Bytes => Bad(Unsupported("Byte sequence"), seen)
    case NoValue => Bad(NoneUnsupported, seen)
    case SomeValue(inner) => Ser(inner, seen)
    case Unit | UnitStruct => Bad(Unsupported("Unit"), seen)
    case UnitVariant(variant) => Good(variant, seen)
    case NewtypeStruct(inner) => Ser(inner, seen)
    case NewtypeVariant(_) => Bad(Unsupported("Newtype variant"), seen)
    case Sequence(_) | Tuple(_) | TupleStruct(_) => Bad(Unsupported("Sequence"), seen)
    case TupleVariant(_) => Bad(Unsupported("Tuple variant"), seen)
    case Map(entries) => if seen then Bad(NestedMapUnsupported, seen) else SerEntries(entries)
    case Struct(fields) => if seen then Bad(NestedMapUnsupported, seen) else SerFields(fields)
    case StructVariant(_) => Bad(Unsupported("Struct variant"), seen)
    case Refuses(message) => Bad(Custom(message), seen)
  }

  /** "key: value" and a newline, or all up to the failure. */
  function SerField(f: Field): Outcome
    decreases f, 2
  {
    match f case Field(key, value) =>
    var o := Ser(value, true);
    Outcome(key + ": " + o.text + if o.result.Ok? then "\n" else "", o.seenMap, o.result)
  }

  /** "key: value" without a newline, or all up to the failure. */
  function SerEntry(e: Entry): Outcome
    decreases e, 2
  {
    match e case Entry(key, value) =>
    var k := Ser(key, true);
    if k.result.Err? then k else After(k.text + ": ", Ser(value, true))
  }

  /** One line a field. */
  function SerFields(fields: seq<Field>): Outcome
    decreases fields, 0
  {
    if fields == [] then Good("", true) else
    var o := SerField(fields[0]);
    if o.result.Err? then o else After(o.text, SerFields(fields[1..]))
  }

  /** A newline comes only at the end of the map, none between entries. */
  function SerEntries(entries: seq<Entry>): Outcome
    decreases entries, 0
  {
    if entries == [] then Good("\n", true) else
    var o := SerEntry(entries[0]);
    if o.result.Err? then o else After(o.text, SerEntries(entries[1..]))
  }

  // ----- the serializer object -----

  class Serializer {
    var output: string
    var seenMap: bool

    constructor ()
      ensures output == "" && !seenMap
    {
      output, seenMap := "", false;
    }

    /** Drives the serializer over a value: the output only grows, by the text of the outcome, also on failure. */
    method Serialize(v: Value) returns (r: Result<(), Error>)
      modifies this
      ensures output == old(output) + Ser(v, old(seenMap)).text
      ensures seenMap == Ser(v, old(seenMap)).seenMap
      ensures r == Ser(v, old(seenMap)).result
      decreases v, 1
    {
      r := Ok(());
      match v {
        case Bool(b) => output := output + if b then "1" else "0";
        case Signed(i) => output := output + SignedDecimal(i);
        case Unsigned(n) => output := output + Decimal(n);
        case Float(text) => output := output + text;
        case Char(c) => output := output + [c];
        case Str(s) => output := output + s;
        case Bytes => r := Err(Unsupported("Byte sequence"));
        case NoValue => r := Err(NoneUnsupported);
        case SomeValue(inner) => r := Serialize(inner);
        case Unit => r := Err(Unsupported("Unit"));
        case UnitStruct => r := Err(Unsupported("Unit"));
        case UnitVariant(variant) => output := output + variant;
        case NewtypeStruct(inner) => r := Serialize(inner);
        case NewtypeVariant(_) => r := Err(Unsupported("Newtype variant"));
        case Sequence(_) => r := Err(Unsupported("Sequence"));
        case Tuple(_) => r := Err(Unsupported("Sequence"));
        case TupleStruct(_) => r := Err(Unsupported("Sequence"));
        case TupleVariant(_) => r := Err(Unsupported("Tuple variant"));
        case Map(entries) =>
          if seenMap {
            r := Err(NestedMapUnsupported);
          } else {
            seenMap := true;
            ContainersSetFlag([], entries);
            r := SerializeEntries(entries);
          }
        case Struct(fields) =>
          if seenMap {
            r := Err(NestedMapUnsupported);
          } else {
            seenMap := true;
            ContainersSetFlag(fields, []);
            r := SerializeFields(fields);
          }
        case StructVariant(_) => r := Err(Unsupported("Struct variant"));
        case Refuses(message) => r := Err(Custom(message));
      }
    }

    method SerializeFields(fields: seq<Field>) returns (r: Result<(), Error>)
      requires seenMap
      modifies this
      ensures seenMap && r == SerFields(fields).result
      ensures output == old(output) + SerFields(fields).text
      decreases fields, 0
    {
      for k := 0 to |fields|
        invariant seenMap
        invariant SerFields(fields).result == SerFields(fields[k..]).result
        invariant old(output) + SerFields(fields).text == output + SerFields(fields[k..]).text
      {
        assert fields[k..][1..] == fields[k + 1..];
        r := SerializeField(fields[k]);
        if r.Err? {
          return;
        }
      }
      r := Ok(());
    }

    method SerializeField(f: Field) returns (r: Result<(), Error>)
      requires seenMap
      modifies this
      ensures seenMap && r == SerField(f).result
      ensures output == old(output) + SerField(f).text
      decreases f, 2
    {
      match f case Field(key, value) =>
      output := output + key;
      output := output + ": ";
      FlagStays(value);
      r := Serialize(value);
      if r.Ok? {
        output := output + "\n";
      }
    }

    method SerializeEntries(entries: seq<Entry>) returns (r: Result<(), Error>)
      requires seenMap
      modifies this
      ensures seenMap && r == SerEntries(entries).result
      ensures output == old(output) + SerEntries(entries).text
      decreases entries, 0
    {
      for k := 0 to |entries|
        invariant seenMap
        invariant SerEntries(entries).result == SerEntries(entries[k..]).result
        invariant old(output) + SerEntries(entries).text == output + SerEntries(entries[k..]).text
      {
        assert entries[k..][1..] == entries[k + 1..];
        r := SerializeEntry(entries[k]);
        if r.Err? {
          return;
        }
      }
      output := output + "\n";
      r := Ok(());
    }

    method SerializeEntry(e: Entry) returns (r: Result<(), Error>)
      requires seenMap
      modifies this
      ensures seenMap && r == SerEntry(e).result
      ensures output == old(output) + SerEntry(e).text
      decreases e, 2
    {
      match e case Entry(key, value) =>
      FlagStays(key);
      FlagStays(value);
      r := Serialize(key);
      if r.Err? {
        return;
      }
      output := output + ": ";
      r := Serialize(value);
    }
  }

  lemma {:induction false} FlagStays(v: Value)
    ensures Ser(v, true).seenMap
  {
    match v
    case SomeValue(inner) => FlagStays(inner);
    case NewtypeStruct(inner) => FlagStays(inner);
    case _ =>
  }

  lemma {:induction false} ContainersSetFlag(fields: seq<Field>, entries: seq<Entry>)
    ensures SerFields(fields).seenMap && SerEntries(entries).seenMap
    decreases |fields| + |entries|
  {
    if fields != [] {
      FlagStays(fields[0].value);
      ContainersSetFlag(fields[1..], entries);
    } else if entries != [] {
      FlagStays(entries[0].key);
      FlagStays(entries[0].value);
      ContainersSetFlag(fields, entries[1..]);
    }
  }

  // ----- the accepted values -----

  /** Scalars, and wrappers around them. */
  predicate Scalar(v: Value) {
    match v
    case Bool(_) | Signed(_) | Unsigned(_) | Float(_) | Char(_) | Str(_) | UnitVariant(_) => true
    case SomeValue(inner) => Scalar(inner)
    case NewtypeStruct(inner) => Scalar(inner)
    case _ => false
  }

  /** Scalars, or one struct or map of scalars, in any wrappers. */
  predicate Flat(v: Value) {
    match v
    case SomeValue(inner) => Flat(inner)
    case NewtypeStruct(inner) => Flat(inner)
    case Struct(fields) => forall k :: 0 <= k < |fields| ==> Scalar(fields[k].value)
    case Map(entries) => forall k :: 0 <= k < |entries| ==> Scalar(entries[k].key) && Scalar(entries[k].value)
    case _ => Scalar(v)
  }

  lemma {:induction false} ScalarsAcceptedInside(v: Value)
    ensures Ser(v, true).result.Ok? <==> Scalar(v)
  {
    match v
    case SomeValue(inner) => ScalarsAcceptedInside(inner);
    case NewtypeStruct(inner) => ScalarsAcceptedInside(inner);
    case _ =>
  }

  lemma {:induction false} FieldsAccepted(fields: seq<Field>)
    ensures SerFields(fields).result.Ok? <==> forall k :: 0 <= k < |fields| ==> Scalar(fields[k].value)
  {
    if fields != [] {
      ScalarsAcceptedInside(fields[0].value);
      FieldsAccepted(fields[1..]);
      assert forall k :: 0 < k < |fields| ==> fields[k] == fields[1..][k - 1];
    }
  }

  lemma {:induction false} EntriesAccepted(entries: seq<Entry>)
    ensures SerEntries(entries).result.Ok?
            <==> forall k :: 0 <= k < |entries| ==> Scalar(entries[k].key) && Scalar(entries[k].value)
  {
    if entries != [] {
      ScalarsAcceptedInside(entries[0].key);
      ScalarsAcceptedInside(entries[0].value);
      EntriesAccepted(entries[1..]);
      assert forall k :: 0 < k < |entries| ==> entries[k] == entries[1..][k - 1];
    }
  }

  /** A fresh serializer accepts exactly the flat values. */
  lemma {:induction false} AcceptedIsFlat(v: Value)
    ensures Ser(v, false).result.Ok? <==> Flat(v)
  {
    match v
    case SomeValue(inner) => AcceptedIsFlat(inner);
    case NewtypeStruct(inner) => AcceptedIsFlat(inner);
    case Struct(fields) => FieldsAccepted(fields);
    case Map(entries) => EntriesAccepted(entries);
    case _ => LeafAccepted(v);
  }

  /** Neither a wrapper nor a container. */
  lemma LeafAccepted(v: Value)
    requires !v.SomeValue? && !v.NewtypeStruct? && !v.Struct? && !v.Map?
    ensures Ser(v, false).result.Ok? <==> Scalar(v)
    ensures Flat(v) <==> Scalar(v)
  {
  }
}
