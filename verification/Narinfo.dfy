/** The narinfo record, its printed form, a reader for that form written against the format, and the round trip. */
module Narinfo {
  import opened Common
  import opened Manifest

  // ----- reading lines -----

  predicate NewlineFree(s: string) { '\n' !in s }

  /** Where the first c is, or the length. */
  function Find(s: string, c: char): (k: nat)
    ensures k <= |s| && c !in s[..k] && (k < |s| ==> s[k] == c)
  {
    if s == "" || s[0] == c then 0 else 1 + Find(s[1..], c)
  }

  function Split(s: string, c: char): seq<string>
    decreases |s|
  {
    var k := Find(s, c);
    if k == |s| then [s] else [s[..k]] + Split(s[k + 1..], c)
  }

  /** Where the first ": " is, or the length. */
  function FindColon(s: string): (k: nat)
    ensures k <= |s|
  {
    if |s| < 2 then |s|
    else if s[0] == ':' && s[1] == ' ' then 0
    else 1 + FindColon(s[1..])
  }

  type Pairs = seq<(string, string)>

  /** Lines, each ended by a newline and split at its first ": ". */
  function Read(s: string): Option<Pairs>
    decreases |s|
  {
    if s == "" then Some([]) else
    var end := Find(s, '\n');
    if end == |s| then None else
    var line := s[..end];
    var colon := FindColon(line);
    if colon == |line| then None else
    match Read(s[end + 1..])
    case None => None
    case Some(rest) =>
      if colon + 2 <= |line| then Some([(line[..colon], line[colon + 2..])] + rest) else None
  }

  predicate GoodKey(key: string) { forall i :: 0 <= i < |key| ==> key[i] != '\n' && key[i] != ':' }

  lemma {:induction false} FindFirst(s: string, rest: string, c: char)
    requires c !in s
    ensures Find(s + [c] + rest, c) == |s|
  {
    if s != "" {
      assert (s + [c] + rest)[1..] == s[1..] + [c] + rest;
      FindFirst(s[1..], rest, c);
    }
  }

  lemma {:induction false} FindAbsent(s: string, c: char)
    requires c !in s
    ensures Find(s, c) == |s|
  {
    if s != "" {
      FindAbsent(s[1..], c);
    }
  }

  lemma {:induction false} FindColonFirst(key: string, value: string)
    requires ':' !in key
    ensures FindColon(key + ": " + value) == |key|
  {
    var s := key + ": " + value;
    if key != "" {
      assert s[1..] == key[1..] + ": " + value;
      FindColonFirst(key[1..], value);
    }
  }

  // ----- the round trip of a struct -----

  predicate Printable(f: Field) {
    GoodKey(f.key) && Scalar(f.value) && NewlineFree(Ser(f.value, true).text)
  }

  predicate AllPrintable(fields: seq<Field>) {
    forall k :: 0 <= k < |fields| ==> Printable(fields[k])
  }

  function TextPairs(fields: seq<Field>): (ps: Pairs)
    ensures |ps| == |fields|
    ensures forall k :: 0 <= k < |fields| ==> ps[k] == (fields[k].key, Ser(fields[k].value, true).text)
  {
    if fields == [] then [] else [(fields[0].key, Ser(fields[0].value, true).text)] + TextPairs(fields[1..])
  }

  lemma ReadLine(key: string, value: string, rest: string)
    requires GoodKey(key) && NewlineFree(value)
    ensures Read(key + ": " + value + "\n" + rest)
            == match Read(rest) case None => None case Some(ps) => Some([(key, value)] + ps)
  {
    var line := key + ": " + value;
    var s := line + "\n" + rest;
    FindFirst(line, rest, '\n');
    FindColonFirst(key, value);
    assert s[..|line|] == line && s[|line| + 1..] == rest;
    assert line[..|key|] == key && line[|key| + 2..] == value;
  }

  /** Reading what the serializer printed for a struct of newline-free scalars gives back every key with its text. */
  lemma StructRoundTrip(fields: seq<Field>)
    requires AllPrintable(fields)
    ensures Ser(Struct(fields), false).result.Ok?
    ensures Read(Ser(Struct(fields), false).text) == Some(TextPairs(fields))
  {
    StructIsFields(fields);
    FieldsRoundTrip(fields);
  }

  lemma StructIsFields(fields: seq<Field>)
    ensures Ser(Struct(fields), false) == SerFields(fields)
  {
  }

  lemma {:induction false} FieldsRoundTrip(fields: seq<Field>)
    requires AllPrintable(fields)
    ensures SerFields(fields).result.Ok? && Read(SerFields(fields).text) == Some(TextPairs(fields))
  {
    if fields != [] {
      var f := fields[0];
      assert Printable(f);
      ScalarsAcceptedInside(f.value);
      FieldsRoundTrip(fields[1..]);
      ReadLine(f.key, Ser(f.value, true).text, SerFields(fields[1..]).text);
    }
  }

  // ----- when a map reads back -----

  function KeyText(e: Entry): string { Ser(e.key, true).text }

  function ValueText(e: Entry): string { Ser(e.value, true).text }

  predicate EntryPrintable(e: Entry) {
    Scalar(e.key) && GoodKey(KeyText(e)) && Scalar(e.value) && NewlineFree(ValueText(e))
  }

  predicate AllEntriesPrintable(es: seq<Entry>) {
    forall k :: 0 <= k < |es| ==> EntryPrintable(es[k])
  }

  function EntryPairs(es: seq<Entry>): (ps: Pairs)
    ensures |ps| == |es|
  {
    if es == [] then [] else [(KeyText(es[0]), ValueText(es[0]))] + EntryPairs(es[1..])
  }

  /** All entries on one line. */
  function EntriesLine(es: seq<Entry>): string {
    if es == [] then "" else KeyText(es[0]) + ": " + (ValueText(es[0]) + EntriesLine(es[1..]))
  }

  lemma {:induction false} LineIsNewlineFree(es: seq<Entry>)
    requires AllEntriesPrintable(es)
    ensures NewlineFree(EntriesLine(es))
  {
    if es != [] {
      assert EntryPrintable(es[0]);
      LineIsNewlineFree(es[1..]);
    }
  }

  lemma SerEntryText(e: Entry)
    requires EntryPrintable(e)
    ensures SerEntry(e).result.Ok? && SerEntry(e).text == KeyText(e) + ": " + ValueText(e)
  {
    ScalarsAcceptedInside(e.key);
    ScalarsAcceptedInside(e.value);
  }

  lemma {:induction false} EntriesPrintOneLine(es: seq<Entry>)
    requires AllEntriesPrintable(es)
    ensures SerEntries(es).result.Ok? && SerEntries(es).text == EntriesLine(es) + "\n"
  {
    if es != [] {
      SerEntryText(es[0]);
      EntriesPrintOneLine(es[1..]);
      var k, v, line := KeyText(es[0]) + ": ", ValueText(es[0]), EntriesLine(es[1..]);
      assert SerEntries(es).text == (k + v) + (line + "\n");
      Associate(k + v, line, "\n");
      Associate(k, v, line);
    }
  }

  lemma ReadOnlyLine(key: string, value: string)
    requires GoodKey(key) && NewlineFree(value)
    ensures Read(key + ": " + value + "\n") == Some([(key, value)])
  {
    ReadLine(key, value, "");
    assert Read("") == Some([]);
    assert [(key, value)] + [] == [(key, value)];
    assert key + ": " + value + "\n" + "" == key + ": " + value + "\n";
  }

  lemma LineReads(es: seq<Entry>)
    requires es != [] && AllEntriesPrintable(es)
    ensures Read(EntriesLine(es) + "\n") == Some([(KeyText(es[0]), ValueText(es[0]) + EntriesLine(es[1..]))])
  {
    assert EntryPrintable(es[0]);
    LineIsNewlineFree(es[1..]);
    ReadOnlyLine(KeyText(es[0]), ValueText(es[0]) + EntriesLine(es[1..]));
  }

  lemma EmptyLineDoesNotRead()
    ensures Read("\n") == None
  {
    assert Find("\n", '\n') == 0;
  }

  /** Exactly the maps of one entry read back. An empty map prints an empty line, which does not read; of a longer one,
      whose entries have no newline between them, only the first key is left. */
  lemma MapReadsBackIfSingle(es: seq<Entry>)
    requires AllEntriesPrintable(es)
    ensures Ser(Map(es), false).result.Ok?
    ensures Read(Ser(Map(es), false).text) == Some(EntryPairs(es)) <==> |es| == 1
    ensures es != [] ==> Read(Ser(Map(es), false).text) == Some([(KeyText(es[0]), ValueText(es[0]) + EntriesLine(es[1..]))])
  {
    EntriesPrintOneLine(es);
    MapIsEntries(es);
    if es == [] {
      EmptyLineDoesNotRead();
    } else {
      LineReads(es);
      if |es| == 1 {
        SinglePair(es);
      }
    }
  }

  lemma MapIsEntries(es: seq<Entry>)
    ensures Ser(Map(es), false) == SerEntries(es)
  {
  }

  lemma SinglePair(es: seq<Entry>)
    requires |es| == 1
    ensures EntryPairs(es) == [(KeyText(es[0]), ValueText(es[0]) + EntriesLine(es[1..]))]
  {
    assert es[1..] == [];
    assert ValueText(es[0]) + "" == ValueText(es[0]);
  }

  /** Two maps that print alike. */
  lemma MapsPrintAlike()
    ensures Ser(Map([Entry(Str("a"), Str("b")), Entry(Str("c"), Str("d"))]), false)
            == Ser(Map([Entry(Str("a"), Str("bc: d"))]), false)
  {
    var two := [Entry(Str("a"), Str("b")), Entry(Str("c"), Str("d"))];
    assert two[1..] == [Entry(Str("c"), Str("d"))];
    assert SerEntries(two[1..]).text == "c: d\n";
  }

  // ----- numbers and lists -----

  function DigitValue(c: char): Option<nat> {
    if IsDigit(c) then Some((c as int) - ('0' as int)) else None
  }

  function ReadDecimal(s: string): Option<nat> {
    if s == "" then None
    else match DigitValue(s[|s| - 1])
      case None => None
      case Some(d) =>
        if |s| == 1 then Some(d)
        else match ReadDecimal(s[..|s| - 1])
          case None => None
          case Some(high) => Some(10 * high + d)
  }

  lemma {:induction false} DecimalRoundTrip(n: nat)
    ensures ReadDecimal(Decimal(n)) == Some(n)
    ensures NewlineFree(Decimal(n))
  {
    if n >= 10 {
      DecimalRoundTrip(n / 10);
      var s := Decimal(n);
      assert s[..|s| - 1] == Decimal(n / 10) && s[|s| - 1] == Digit(n % 10);
    }
  }

  /** Elements with a blank between them. */
  function Join(items: seq<string>): string {
    if items == [] then "" else if |items| == 1 then items[0] else items[0] + " " + Join(items[1..])
  }

  function ReadList(s: string): seq<string> { if s == "" then [] else Split(s, ' ') }

  predicate BlankFree(s: string) { ' ' !in s }

  predicate AllBlankFree(items: seq<string>) { forall k :: 0 <= k < |items| ==> BlankFree(items[k]) }

  predicate AllNewlineFree(items: seq<string>) { forall k :: 0 <= k < |items| ==> NewlineFree(items[k]) }

  /** The pieces of a split text have no separator in them. */
  lemma {:induction false} SplitPieces(s: string, c: char)
    ensures forall k :: 0 <= k < |Split(s, c)| ==> c !in Split(s, c)[k]
    decreases |s|
  {
    var k := Find(s, c);
    if k < |s| {
      SplitPieces(s[k + 1..], c);
    }
  }

  lemma SplitIsEmptyText(s: string, c: char)
    ensures Split(s, c) != [] && (Split(s, c) == [""] ==> s == "")
  {
    var k := Find(s, c);
    assert k < |s| ==> |Split(s, c)| > 1;
    assert k == |s| ==> Split(s, c) == [s];
  }

  lemma {:induction false} SplitNewlineFree(s: string, c: char)
    requires NewlineFree(s)
    ensures AllNewlineFree(Split(s, c))
    decreases |s|
  {
    var k := Find(s, c);
    if k < |s| {
      SplitNewlineFree(s[k + 1..], c);
    }
  }

  lemma {:induction false} SplitJoin(items: seq<string>)
    requires items != [] && AllBlankFree(items)
    ensures Split(Join(items), ' ') == items
  {
    assert BlankFree(items[0]);
    if |items| == 1 {
      FindAbsent(items[0], ' ');
    } else {
      var rest := Join(items[1..]);
      SplitJoin(items[1..]);
      FindFirst(items[0], rest, ' ');
      var s := items[0] + " " + rest;
      assert s[..|items[0]|] == items[0] && s[|items[0]| + 1..] == rest;
    }
  }

  lemma {:induction false} JoinNewlineFree(items: seq<string>)
    requires AllNewlineFree(items)
    ensures NewlineFree(Join(items))
  {
    if items != [] {
      assert NewlineFree(items[0]);
      JoinNewlineFree(items[1..]);
    }
  }

  /** A printed list reads back exactly if its items are free of blanks and it is not the list of one empty item. */
  lemma JoinRoundTrip(items: seq<string>)
    ensures ReadList(Join(items)) == items <==> items != [""] && AllBlankFree(items)
  {
    var s := Join(items);
    SplitPieces(s, ' ');
    SplitIsEmptyText(s, ' ');
    if items != [] && items != [""] && AllBlankFree(items) {
      SplitJoin(items);
      assert |items| > 1 ==> s[|items[0]|] == ' ';
    }
  }

  // ----- the record -----

  datatype Compression = Uncompressed | Xz | Bzip2 | Brotli | Zstd

  function CompressionName(c: Compression): string {
    match c
    case Uncompressed => "none"
    case Xz => "xz"
    case Bzip2 => "bzip2"
    case Brotli => "br"
    case Zstd => "zstd"
  }

  function ReadCompression(s: string): Option<Compression> {
    if s == "none" then Some(Uncompressed)
    else if s == "xz" then Some(Xz)
    else if s == "bzip2" then Some(Bzip2)
    else if s == "br" then Some(Brotli)
    else if s == "zstd" then Some(Zstd)
    else None
  }

  /** A path prints as text only if it is valid UTF-8. */
  datatype PathBuf = Utf8(text: string) | NotUtf8

  datatype NarInfo = NarInfo(
    storePath: PathBuf, url: string, compression: Compression, fileHash: Option<string>, fileSize: Option<nat>,
    narHash: string, narSize: nat, references: seq<string>, system: Option<string>, deriver: Option<string>,
    signature: Option<string>, ca: Option<string>, provenance: Option<string>)

  /** A field of the record as serialized: absent when skipped. */
  datatype Column = Column(key: string, value: Option<Value>)

  function PathValue(p: PathBuf): Value {
    if p.Utf8? then Str(p.text) else Refuses("path contains invalid UTF-8 characters")
  }

  function Text(o: Option<string>): Option<Value> {
    if o.Some? then Some(Str(o.value)) else None
  }

  function Size(o: Option<nat>): Option<Value> {
    if o.Some? then Some(Unsigned(o.value)) else None
  }

  /** The fields in declaration order. */
  function Columns(n: NarInfo): seq<Column> {
    [Column("StorePath", Some(PathValue(n.storePath))),
     Column("URL", Some(Str(n.url))),
     Column("Compression", Some(UnitVariant(CompressionName(n.compression)))),
     Column("FileHash", Text(n.fileHash)),
     Column("FileSize", Size(n.fileSize)),
     Column("NarHash", Some(Str(n.narHash))),
     Column("NarSize", Some(Unsigned(n.narSize))),
     Column("References", Some(Str(Join(n.references)))),
     Column("System", Text(n.system)),
     Column("Deriver", Text(n.deriver)),
     Column("Sig", Text(n.signature)),
     Column("CA", Text(n.ca)),
     Column("Provenance", Text(n.provenance))]
  }

  function Present(cs: seq<Column>): seq<Field> {
    if cs == [] then []
    else if cs[0].value.Some? then [Field(cs[0].key, cs[0].value.value)] + Present(cs[1..])
    else Present(cs[1..])
  }

  function ToValue(n: NarInfo): Value { Struct(Present(Columns(n))) }

  /** to_string: None stands for the panic of its `expect`. */
  method ToString(n: NarInfo) returns (r: Option<string>)
    ensures r.Some? <==> n.storePath.Utf8?
    ensures r.Some? ==> r.value == PrintLines(LinesOf(n))
    ensures r.Some? && WellFormed(n) ==> Read(r.value) == Some(LinesOf(n))
  {
    var serializer := new Serializer();
    var result := serializer.Serialize(ToValue(n));
    AcceptedIsFlat(ToValue(n));
    NarInfoIsFlat(n);
    if result.Err? {
      return None;
    }
    NarInfoPrintsItsLines(n);
    if WellFormed(n) {
      LinesReadBack(n);
    }
    r := Some(serializer.output);
  }

  lemma {:induction false} PresentScalars(cs: seq<Column>)
    ensures (forall k :: 0 <= k < |Present(cs)| ==> Scalar(Present(cs)[k].value))
            <==> forall k :: 0 <= k < |cs| && cs[k].value.Some? ==> Scalar(cs[k].value.value)
  {
    if cs != [] {
      PresentScalars(cs[1..]);
      var fields, rest := Present(cs), Present(cs[1..]);
      assert forall k :: 0 < k < |cs| ==> cs[k] == cs[1..][k - 1];
      assert forall k :: 0 <= k < |cs[1..]| ==> cs[1..][k] == cs[k + 1];
      if cs[0].value.Some? {
        assert fields[0] == Field(cs[0].key, cs[0].value.value);
        assert forall k :: 0 < k < |fields| ==> fields[k] == rest[k - 1];
        assert forall k :: 0 <= k < |rest| ==> rest[k] == fields[k + 1];
      }
    }
  }

  /** A narinfo is in the accepted grammar exactly if its store path is UTF-8. */
  lemma NarInfoIsFlat(n: NarInfo)
    ensures Flat(ToValue(n)) <==> n.storePath.Utf8?
  {
    PresentScalars(Columns(n));
    ColumnsScalar(n);
  }

  lemma ColumnsScalar(n: NarInfo)
    ensures forall k :: 0 < k < |Columns(n)| && Columns(n)[k].value.Some? ==> Scalar(Columns(n)[k].value.value)
    ensures Columns(n)[0].value == Some(PathValue(n.storePath))
    ensures Scalar(PathValue(n.storePath)) <==> n.storePath.Utf8?
  {
  }

  // ----- the printed text -----

  function PrintLines(ps: Pairs): string {
    if ps == [] then "" else ps[0].0 + ": " + ps[0].1 + "\n" + PrintLines(ps[1..])
  }

  function OptLine(key: string, o: Option<string>): Pairs {
    if o.Some? then [(key, o.value)] else []
  }

  /** The lines of a narinfo: the present fields under their names, in the order of the record. */
  function LinesOf(n: NarInfo): Pairs
    requires n.storePath.Utf8?
  {
    [("StorePath", n.storePath.text), ("URL", n.url), ("Compression", CompressionName(n.compression))]
    + (OptLine("FileHash", n.fileHash)
       + OptLine("FileSize", if n.fileSize.Some? then Some(Decimal(n.fileSize.value)) else None))
    + [("NarHash", n.narHash), ("NarSize", Decimal(n.narSize)), ("References", Join(n.references))]
    + (OptLine("System", n.system) + OptLine("Deriver", n.deriver))
    + (OptLine("Sig", n.signature) + OptLine("CA", n.ca) + OptLine("Provenance", n.provenance))
  }

  lemma {:induction false} FieldsPrintLines(fields: seq<Field>)
    requires forall k :: 0 <= k < |fields| ==> Scalar(fields[k].value)
    ensures SerFields(fields).text == PrintLines(TextPairs(fields))
  {
    if fields != [] {
      ScalarsAcceptedInside(fields[0].value);
      FieldsPrintLines(fields[1..]);
    }
  }

  function ColumnLine(c: Column): Pairs { OptLine(c.key, ColumnText(c)) }

  function ColumnLines(cs: seq<Column>): Pairs {
    if cs == [] then [] else ColumnLine(cs[0]) + ColumnLines(cs[1..])
  }

  lemma {:induction false} ColumnLinesAreThePresent(cs: seq<Column>)
    ensures TextPairs(Present(cs)) == ColumnLines(cs)
  {
    if cs != [] {
      TailPairs(cs);
      ColumnLinesAreThePresent(cs[1..]);
    }
  }

  lemma {:induction false} ColumnLinesAppend(a: seq<Column>, b: seq<Column>)
    ensures ColumnLines(a + b) == ColumnLines(a) + ColumnLines(b)
  {
    if a == [] {
      assert a + b == b;
    } else {
      assert (a + b)[1..] == a[1..] + b;
      ColumnLinesAppend(a[1..], b);
    }
  }

  lemma TwoLines(a: Column, b: Column)
    ensures ColumnLines([a, b]) == ColumnLine(a) + ColumnLine(b)
  {
    assert [a, b][1..] == [b] && [b][1..] == [];
    assert ColumnLines([b]) == ColumnLine(b) + ColumnLines([]);
    assert ColumnLine(b) + [] == ColumnLine(b);
  }

  lemma ThreeLines(a: Column, b: Column, c: Column)
    ensures ColumnLines([a, b, c]) == ColumnLine(a) + ColumnLine(b) + ColumnLine(c)
  {
    assert [a, b, c][1..] == [b, c];
    TwoLines(b, c);
    Associate(ColumnLine(a), ColumnLine(b), ColumnLine(c));
  }

  function ColumnsHead(n: NarInfo): seq<Column> {
    [Column("StorePath", Some(PathValue(n.storePath))), Column("URL", Some(Str(n.url))),
     Column("Compression", Some(UnitVariant(CompressionName(n.compression))))]
  }

  function ColumnsNar(n: NarInfo): seq<Column> {
    [Column("NarHash", Some(Str(n.narHash))), Column("NarSize", Some(Unsigned(n.narSize))),
     Column("References", Some(Str(Join(n.references))))]
  }

  lemma HeadLines(n: NarInfo)
    requires n.storePath.Utf8?
    ensures ColumnLines(ColumnsHead(n))
            == [("StorePath", n.storePath.text), ("URL", n.url), ("Compression", CompressionName(n.compression))]
  {
    var cs := ColumnsHead(n);
    ThreeLines(cs[0], cs[1], cs[2]);
  }

  lemma NarLines(n: NarInfo)
    ensures ColumnLines(ColumnsNar(n))
            == [("NarHash", n.narHash), ("NarSize", Decimal(n.narSize)), ("References", Join(n.references))]
  {
    var cs := ColumnsNar(n);
    ThreeLines(cs[0], cs[1], cs[2]);
  }

  lemma OptLines(n: NarInfo)
    ensures ColumnLine(Column("FileHash", Text(n.fileHash))) == OptLine("FileHash", n.fileHash)
    ensures ColumnLine(Column("FileSize", Size(n.fileSize)))
            == OptLine("FileSize", if n.fileSize.Some? then Some(Decimal(n.fileSize.value)) else None)
    ensures ColumnLine(Column("System", Text(n.system))) == OptLine("System", n.system)
    ensures ColumnLine(Column("Deriver", Text(n.deriver))) == OptLine("Deriver", n.deriver)
    ensures ColumnLine(Column("Sig", Text(n.signature))) == OptLine("Sig", n.signature)
    ensures ColumnLine(Column("CA", Text(n.ca))) == OptLine("CA", n.ca)
    ensures ColumnLine(Column("Provenance", Text(n.provenance))) == OptLine("Provenance", n.provenance)
  {
  }

  lemma ColumnsInPieces(n: NarInfo)
    ensures Columns(n)
            == ColumnsHead(n)
               + [Column("FileHash", Text(n.fileHash)), Column("FileSize", Size(n.fileSize))]
               + ColumnsNar(n)
               + [Column("System", Text(n.system)), Column("Deriver", Text(n.deriver))]
               + [Column("Sig", Text(n.signature)), Column("CA", Text(n.ca)), Column("Provenance", Text(n.provenance))]
  {
  }

  lemma FivePieces(a: seq<Column>, b: seq<Column>, c: seq<Column>, d: seq<Column>, e: seq<Column>)
    ensures ColumnLines(a + b + c + d + e)
            == ColumnLines(a) + ColumnLines(b) + ColumnLines(c) + ColumnLines(d) + ColumnLines(e)
  {
    ColumnLinesAppend(a + b + c + d, e);
    ColumnLinesAppend(a + b + c, d);
    ColumnLinesAppend(a + b, c);
    ColumnLinesAppend(a, b);
  }

  lemma LinesAreTheColumns(n: NarInfo)
    requires n.storePath.Utf8?
    ensures ColumnLines(Columns(n)) == LinesOf(n)
  {
    var file := [Column("FileHash", Text(n.fileHash)), Column("FileSize", Size(n.fileSize))];
    var origin := [Column("System", Text(n.system)), Column("Deriver", Text(n.deriver))];
    var last := [Column("Sig", Text(n.signature)), Column("CA", Text(n.ca)), Column("Provenance", Text(n.provenance))];
    ColumnsInPieces(n);
    FivePieces(ColumnsHead(n), file, ColumnsNar(n), origin, last);
    HeadLines(n);
    NarLines(n);
    TwoLines(file[0], file[1]);
    TwoLines(origin[0], origin[1]);
    ThreeLines(last[0], last[1], last[2]);
    OptLines(n);
  }

  /** What is printed for any narinfo with a UTF-8 path: exactly its lines, in order. */
  lemma NarInfoPrintsItsLines(n: NarInfo)
    requires n.storePath.Utf8?
    ensures Ser(ToValue(n), false).text == PrintLines(LinesOf(n))
  {
    NarInfoIsFlat(n);
    StructIsFields(Present(Columns(n)));
    FieldsPrintLines(Present(Columns(n)));
    ColumnLinesAreThePresent(Columns(n));
    LinesAreTheColumns(n);
  }

  // ----- reading a narinfo -----

  function Get(ps: Pairs, key: string): Option<string> {
    if ps == [] then None else if ps[0].0 == key then Some(ps[0].1) else Get(ps[1..], key)
  }

  function ReadNarInfo(s: string): Option<NarInfo> {
    match Read(s)
    case None => None
    case Some(ps) =>
      match (Get(ps, "StorePath"), Get(ps, "URL"), Get(ps, "Compression"),
             Get(ps, "NarHash"), Get(ps, "NarSize"), Get(ps, "References"))
      case (Some(path), Some(url), Some(compression), Some(narHash), Some(narSize), Some(references)) =>
        var fileSize := Get(ps, "FileSize");
        (match (ReadCompression(compression), ReadDecimal(narSize))
         case (Some(c), Some(size)) =>
           if fileSize.Some? && ReadDecimal(fileSize.value).None? then None else
           Some(NarInfo(
             Utf8(path), url, c, Get(ps, "FileHash"), if fileSize.Some? then ReadDecimal(fileSize.value) else None,
             narHash, size, ReadList(references), Get(ps, "System"), Get(ps, "Deriver"),
             Get(ps, "Sig"), Get(ps, "CA"), Get(ps, "Provenance")))
         case _ => None)
      case _ => None
  }

  predicate OptNewlineFree(o: Option<string>) { o.Some? ==> NewlineFree(o.value) }

  /** Values fit on their lines and the references can be told apart. */
  predicate WellFormed(n: NarInfo) {
    && n.storePath.Utf8? && NewlineFree(n.storePath.text)
    && NewlineFree(n.url) && NewlineFree(n.narHash)
    && OptNewlineFree(n.fileHash) && OptNewlineFree(n.system) && OptNewlineFree(n.deriver)
    && OptNewlineFree(n.signature) && OptNewlineFree(n.ca) && OptNewlineFree(n.provenance)
    && AllNewlineFree(n.references) && AllBlankFree(n.references) && n.references != [""]
  }

  predicate DistinctKeys(cs: seq<Column>) {
    forall i, j :: 0 <= i < j < |cs| ==> cs[i].key != cs[j].key
  }

  predicate ColumnPrintable(c: Column) {
    GoodKey(c.key) && (c.value.Some? ==> Scalar(c.value.value) && NewlineFree(Ser(c.value.value, true).text))
  }

  lemma {:induction false} PresentPrintable(cs: seq<Column>)
    requires forall k :: 0 <= k < |cs| ==> ColumnPrintable(cs[k])
    ensures AllPrintable(Present(cs))
  {
    if cs != [] {
      assert ColumnPrintable(cs[0]);
      PresentPrintable(cs[1..]);
    }
  }

  lemma {:induction false} GetAbsent(cs: seq<Column>, key: string)
    requires forall k :: 0 <= k < |cs| ==> cs[k].key != key
    ensures Get(TextPairs(Present(cs)), key) == None
  {
    if cs != [] {
      GetAbsent(cs[1..], key);
      TailPairs(cs);
    }
  }

  lemma TailPairs(cs: seq<Column>)
    requires cs != []
    ensures cs[0].value.Some? ==>
              TextPairs(Present(cs)) == [(cs[0].key, Ser(cs[0].value.value, true).text)] + TextPairs(Present(cs[1..]))
  {
    if cs[0].value.Some? {
      assert Present(cs)[1..] == Present(cs[1..]);
    }
  }

  function ColumnText(c: Column): Option<string> {
    if c.value.Some? then Some(Ser(c.value.value, true).text) else None
  }

  /** Looking a key up in what was printed gives its column's text, or nothing if the column was skipped. */
  lemma {:induction false} GetColumn(cs: seq<Column>, i: nat)
    requires DistinctKeys(cs) && i < |cs|
    ensures Get(TextPairs(Present(cs)), cs[i].key) == ColumnText(cs[i])
  {
    TailPairs(cs);
    if i == 0 {
      if cs[0].value.None? {
        GetAbsent(cs[1..], cs[0].key);
      }
    } else {
      GetColumn(cs[1..], i - 1);
    }
  }

  // ----- the round trip -----

  lemma FirstKeysAreGood()
    ensures GoodKey("StorePath") && GoodKey("URL") && GoodKey("Compression") && GoodKey("FileHash")
    ensures GoodKey("FileSize") && GoodKey("NarHash") && GoodKey("NarSize")
  {
  }

  lemma LastKeysAreGood()
    ensures GoodKey("References") && GoodKey("System") && GoodKey("Deriver")
    ensures GoodKey("Sig") && GoodKey("CA") && GoodKey("Provenance")
  {
  }

  lemma KeysAreGood(n: NarInfo)
    ensures forall k :: 0 <= k < |Columns(n)| ==> GoodKey(Columns(n)[k].key)
  {
    FirstKeysAreGood();
    LastKeysAreGood();
  }

  predicate ValuePrintable(o: Option<Value>) {
    o.Some? ==> Scalar(o.value) && NewlineFree(Ser(o.value, true).text)
  }

  lemma TextPrintable(o: Option<string>)
    requires OptNewlineFree(o)
    ensures ValuePrintable(Text(o))
  {
  }

  lemma SizePrintable(o: Option<nat>)
    ensures ValuePrintable(Size(o))
  {
    if o.Some? {
      DecimalRoundTrip(o.value);
    }
  }

  lemma RequiredPrintable(n: NarInfo)
    requires WellFormed(n)
    ensures ValuePrintable(Some(PathValue(n.storePath)))
    ensures ValuePrintable(Some(UnitVariant(CompressionName(n.compression))))
    ensures ValuePrintable(Some(Unsigned(n.narSize)))
    ensures ValuePrintable(Some(Str(Join(n.references))))
  {
    DecimalRoundTrip(n.narSize);
    JoinNewlineFree(n.references);
  }

  lemma ColumnsPrintable(n: NarInfo)
    requires WellFormed(n)
    ensures forall k :: 0 <= k < |Columns(n)| ==> ColumnPrintable(Columns(n)[k])
  {
    KeysAreGood(n);
    RequiredPrintable(n);
    TextPrintable(n.fileHash);
    SizePrintable(n.fileSize);
    TextPrintable(n.system);
    TextPrintable(n.deriver);
    TextPrintable(n.signature);
    TextPrintable(n.ca);
    TextPrintable(n.provenance);
    forall k | 0 <= k < |Columns(n)|
      ensures ValuePrintable(Columns(n)[k].value)
    {
    }
  }

  lemma ColumnsDistinct(n: NarInfo)
    ensures DistinctKeys(Columns(n))
  {
  }

  lemma FetchAt(n: NarInfo, i: nat)
    requires i < |Columns(n)|
    ensures Fetched(n, Columns(n)[i].key) == ColumnText(Columns(n)[i])
  {
    ColumnsDistinct(n);
    GetColumn(Columns(n), i);
  }

  function Fetched(n: NarInfo, key: string): Option<string> { Get(TextPairs(Present(Columns(n))), key) }

  lemma FetchFirst(n: NarInfo)
    requires n.storePath.Utf8?
    ensures Fetched(n, "StorePath") == Some(n.storePath.text)
    ensures Fetched(n, "URL") == Some(n.url)
    ensures Fetched(n, "Compression") == Some(CompressionName(n.compression))
  {
    FetchAt(n, 0);
    FetchAt(n, 1);
    FetchAt(n, 2);
  }

  lemma FetchFileHash(n: NarInfo)
    ensures Fetched(n, "FileHash") == n.fileHash
  {
    FetchAt(n, 3);
  }

  lemma FetchFileSize(n: NarInfo)
    ensures Fetched(n, "FileSize") == if n.fileSize.Some? then Some(Decimal(n.fileSize.value)) else None
  {
    FetchAt(n, 4);
  }

  lemma FetchNar(n: NarInfo)
    ensures Fetched(n, "NarHash") == Some(n.narHash)
    ensures Fetched(n, "NarSize") == Some(Decimal(n.narSize))
  {
    FetchAt(n, 5);
    FetchAt(n, 6);
  }

  lemma FetchReferences(n: NarInfo)
    ensures Fetched(n, "References") == Some(Join(n.references))
  {
    FetchAt(n, 7);
  }

  lemma FetchSystem(n: NarInfo)
    ensures Fetched(n, "System") == n.system
  {
    FetchAt(n, 8);
  }

  lemma FetchOrigin(n: NarInfo)
    ensures Fetched(n, "Deriver") == n.deriver
    ensures Fetched(n, "Sig") == n.signature
  {
    FetchAt(n, 9);
    FetchAt(n, 10);
  }

  lemma FetchLast(n: NarInfo)
    ensures Fetched(n, "CA") == n.ca
    ensures Fetched(n, "Provenance") == n.provenance
  {
    FetchAt(n, 11);
    FetchAt(n, 12);
  }

  lemma CompressionRoundTrip(c: Compression)
    ensures ReadCompression(CompressionName(c)) == Some(c)
  {
  }

  /** Read line by line, the printed form is the lines it was made of. */
  lemma LinesReadBack(n: NarInfo)
    requires WellFormed(n)
    ensures Read(Ser(ToValue(n), false).text) == Some(LinesOf(n))
  {
    ColumnsPrintable(n);
    PresentPrintable(Columns(n));
    StructRoundTrip(Present(Columns(n)));
    ColumnLinesAreThePresent(Columns(n));
    LinesAreTheColumns(n);
  }

  lemma WellFormedReadsBack(n: NarInfo)
    requires WellFormed(n)
    ensures Ser(ToValue(n), false).result.Ok?
    ensures ReadNarInfo(Ser(ToValue(n), false).text) == Some(n)
  {
    ColumnsPrintable(n);
    PresentPrintable(Columns(n));
    StructRoundTrip(Present(Columns(n)));
    FetchFirst(n);
    FetchFileHash(n);
    FetchFileSize(n);
    FetchNar(n);
    FetchReferences(n);
    FetchSystem(n);
    FetchOrigin(n);
    FetchLast(n);
    CompressionRoundTrip(n.compression);
    DecimalRoundTrip(n.narSize);
    if n.fileSize.Some? {
      DecimalRoundTrip(n.fileSize.value);
    }
    JoinRoundTrip(n.references);
  }

  predicate ValuesNewlineFree(ps: Pairs) {
    forall k :: 0 <= k < |ps| ==> NewlineFree(ps[k].1)
  }

  lemma {:induction false} ReadValuesAreNewlineFree(s: string)
    ensures Read(s).Some? ==> ValuesNewlineFree(Read(s).value)
    decreases |s|
  {
    var end := Find(s, '\n');
    if end < |s| {
      ReadValuesAreNewlineFree(s[end + 1..]);
    }
  }

  lemma {:induction false} GetNewlineFree(ps: Pairs, key: string)
    requires ValuesNewlineFree(ps)
    ensures OptNewlineFree(Get(ps, key))
  {
    if ps != [] {
      GetNewlineFree(ps[1..], key);
    }
  }

  lemma ReadListIsGood(s: string)
    requires NewlineFree(s)
    ensures AllNewlineFree(ReadList(s)) && AllBlankFree(ReadList(s)) && ReadList(s) != [""]
  {
    SplitPieces(s, ' ');
    SplitIsEmptyText(s, ' ');
    SplitNewlineFree(s, ' ');
  }

  /** Nothing but well-formed records is ever read, whatever the text. */
  lemma ReaderYieldsWellFormed(s: string)
    ensures ReadNarInfo(s).Some? ==> WellFormed(ReadNarInfo(s).value)
  {
    ReadValuesAreNewlineFree(s);
    if ReadNarInfo(s).Some? {
      var ps := Read(s).value;
      RequiredNewlineFree(ps);
      OptionalNewlineFree(ps);
      ReadListIsGood(Get(ps, "References").value);
    }
  }

  lemma RequiredNewlineFree(ps: Pairs)
    requires ValuesNewlineFree(ps)
    ensures OptNewlineFree(Get(ps, "StorePath")) && OptNewlineFree(Get(ps, "URL"))
    ensures OptNewlineFree(Get(ps, "NarHash")) && OptNewlineFree(Get(ps, "References"))
  {
    GetNewlineFree(ps, "StorePath");
    GetNewlineFree(ps, "URL");
    GetNewlineFree(ps, "NarHash");
    GetNewlineFree(ps, "References");
  }

  lemma OptionalNewlineFree(ps: Pairs)
    requires ValuesNewlineFree(ps)
    ensures OptNewlineFree(Get(ps, "FileHash")) && OptNewlineFree(Get(ps, "System")) && OptNewlineFree(Get(ps, "Deriver"))
    ensures OptNewlineFree(Get(ps, "Sig")) && OptNewlineFree(Get(ps, "CA")) && OptNewlineFree(Get(ps, "Provenance"))
  {
    GetNewlineFree(ps, "FileHash");
    GetNewlineFree(ps, "System");
    GetNewlineFree(ps, "Deriver");
    GetNewlineFree(ps, "Sig");
    GetNewlineFree(ps, "CA");
    GetNewlineFree(ps, "Provenance");
  }

  /** Reading back a printed narinfo recovers every field (the texts, which optional fields were absent, the sizes, the
      compression and the list of references) exactly if the record is well-formed. */
  lemma NarInfoRoundTrip(n: NarInfo)
    ensures ReadNarInfo(Ser(ToValue(n), false).text) == Some(n) <==> WellFormed(n)
  {
    ReaderYieldsWellFormed(Ser(ToValue(n), false).text);
    if WellFormed(n) {
      WellFormedReadsBack(n);
    }
  }

  lemma PrinterIsInjective(n: NarInfo, m: NarInfo)
    requires WellFormed(n) && WellFormed(m)
    requires Ser(ToValue(n), false).text == Ser(ToValue(m), false).text
    ensures n == m
  {
    NarInfoRoundTrip(n);
    NarInfoRoundTrip(m);
  }

  /** What happens outside them: a newline in a value forges another field, and the one empty reference vanishes. */
  lemma ForgedFields(key: string, a: string, other: string, b: string)
    ensures SerFields([Field(key, Str(a + "\n" + other + ": " + b))])
            == SerFields([Field(key, Str(a)), Field(other, Str(b))])
    ensures Join([""]) == Join([])
  {
    var one, two := Field(key, Str(a + "\n" + other + ": " + b)), [Field(key, Str(a)), Field(other, Str(b))];
    LastLine(one);
    assert two[1..] == [Field(other, Str(b))];
    LastLine(Field(other, Str(b)));
    assert SerFields(two) == After(SerField(two[0]).text, SerFields(two[1..]));
    assert key + ": " + (a + "\n" + other + ": " + b) + "\n" == (key + ": " + a + "\n") + (other + ": " + b + "\n");
  }

  lemma LastLine(f: Field)
    requires f.value.Str?
    ensures SerFields([f]) == Good(f.key + ": " + f.value.s + "\n", true)
  {
    assert [f][1..] == [];
    assert SerField(f).text + "" == SerField(f).text;
  }

  // ----- the narinfo the worker uploads -----

  datatype PathInfo = PathInfo(
    narHash: string, narSize: nat, references: seq<string>, ca: Option<string>, provenance: Option<string>)

  function PathInfoToNarInfo(fullPath: PathBuf, info: PathInfo, url: string): NarInfo {
    NarInfo(fullPath, url, Zstd, None, None, info.narHash, info.narSize, info.references, None, None, None,
            info.ca, info.provenance)
  }

  /** What a client reads from the narinfo of an uploaded path: the URL the NAR was stored under, and no file hash, file
      size, system, deriver or signature. */
  lemma UploadedNarInfoReadsBack(fullPath: PathBuf, info: PathInfo, url: string)
    requires WellFormed(PathInfoToNarInfo(fullPath, info, url))
    ensures var r := ReadNarInfo(Ser(ToValue(PathInfoToNarInfo(fullPath, info, url)), false).text);
            && r.Some? && r.value.url == url && r.value.storePath == fullPath && r.value.compression == Zstd
            && r.value.narHash == info.narHash && r.value.narSize == info.narSize
            && r.value.references == info.references && r.value.ca == info.ca && r.value.provenance == info.provenance
            && r.value.fileHash.None? && r.value.fileSize.None? && r.value.system.None?
            && r.value.deriver.None? && r.value.signature.None?
  {
    NarInfoRoundTrip(PathInfoToNarInfo(fullPath, info, url));
  }
}
