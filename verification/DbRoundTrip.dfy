/** Parsing undoes printing, wherever whitespace is put. */
module DbRoundTrip {
  import opened Common
  import opened DbText
  import opened DbParser
  import opened DbGrammar
  import opened RouteTypes

  predicate Printable(f: Feature) {
    '"' !in f.name && IsInt32(f.location.latitude) && IsInt32(f.location.longitude)
  }

  predicate AllPrintable(fs: seq<Feature>) {
    forall i :: 0 <= i < |fs| ==> Printable(fs[i])
  }

  function RawOf(f: Feature): Raw {
    Raw(Decimal(f.location.latitude), Decimal(f.location.longitude), f.name)
  }

  function RawsOf(fs: seq<Feature>): seq<Raw> {
    seq(|fs|, i requires 0 <= i < |fs| => RawOf(fs[i]))
  }

  /** The fixed form the parser's comment asks for. */
  function PrintFeature(f: Feature): string {
    "{\"location\":{\"latitude\":" + Decimal(f.location.latitude)
    + ",\"longitude\":" + Decimal(f.location.longitude) + "},\"name\":\"" + f.name + "\"}"
  }

  function PrintFeatures(fs: seq<Feature>): string {
    if fs == [] then ""
    else if |fs| == 1 then PrintFeature(fs[0])
    else PrintFeature(fs[0]) + "," + PrintFeatures(fs[1..])
  }

  function Print(fs: seq<Feature>): string {
    "[" + PrintFeatures(fs) + "]"
  }

  /** What the parser can recover: whitespace is removed inside names as well. */
  function Squeezed(f: Feature): Feature {
    f.(name := Strip(f.name))
  }

  function AllSqueezed(fs: seq<Feature>): seq<Feature> {
    seq(|fs|, i requires 0 <= i < |fs| => Squeezed(fs[i]))
  }

  /** What a printed number looks like to the parser, whatever it reads numbers with. */
  lemma NumberLooks(v: int)
    ensures (forall i :: 0 <= i < |Decimal(v)| ==> !EndsNumber(Decimal(v)[i])) && Tight(Decimal(v))
  {
    DecimalCharacters(v);
    forall i | 0 <= i < |Decimal(v)| ensures !EndsNumber(Decimal(v)[i]) && !IsSpace(Decimal(v)[i]) {
      assert IsDigit(Decimal(v)[i]) || Decimal(v)[i] == '-';
    }
  }

  lemma NumberPrinted(v: int)
    requires IsInt32(v)
    ensures IsNumber(JSON, Decimal(v)) && JSON.number(Decimal(v)) == Some(v) && Int32(v) == v && Tight(Decimal(v))
  {
    StolOfDecimal(v);
    Int32Same(v);
    NumberLooks(v);
  }

  lemma RawPrinted(f: Feature)
    requires Printable(f)
    ensures RawOk(JSON, RawOf(f)) && Value(JSON, RawOf(f)) == f
  {
    NumberPrinted(f.location.latitude);
    NumberPrinted(f.location.longitude);
  }

  lemma AllReadBack(fs: seq<Feature>)
    requires AllPrintable(fs)
    ensures AllOk(JSON, RawsOf(fs)) && forall i :: 0 <= i < |fs| ==> ReadsBack(JSON, fs[i])
  {
    forall i | 0 <= i < |fs| ensures RawOk(JSON, RawsOf(fs)[i]) && ReadsBack(JSON, fs[i]) {
      RawPrinted(fs[i]);
    }
  }

  predicate ReadsBack(x: Syntax, f: Feature) {
    RawOk(x, RawOf(f)) && Value(x, RawOf(f)) == f
  }

  lemma {:induction false} ValuesPrinted(x: Syntax, fs: seq<Feature>)
    requires AllOk(x, RawsOf(fs)) && forall i :: 0 <= i < |fs| ==> ReadsBack(x, fs[i])
    ensures Values(x, RawsOf(fs)) == fs
    decreases |fs|
  {
    if fs != [] {
      assert ReadsBack(x, fs[0]);
      assert RawsOf(fs)[1..] == RawsOf(fs[1..]);
      ValuesPrinted(x, fs[1..]);
      assert fs == [fs[0]] + fs[1..];
    }
  }

  // ----- whitespace

  lemma StripThen(a: string, b: string)
    requires Tight(a)
    ensures Strip(a + b) == a + Strip(b)
  {
    StripConcat(a, b);
    StripTight(a);
  }

  predicate TightSyntax(x: Syntax) {
    Tight(x.Opening()) && Tight(x.Middle()) && Tight(x.Naming())
  }

  lemma StripRecord(x: Syntax, f: Feature, tail: string)
    requires TightSyntax(x) && Printable(f)
    ensures Strip(With(x, RawOf(f), tail)) == With(x, RawOf(Squeezed(f)), Strip(tail))
  {
    var w := RawOf(f);
    var named := w.name + ("\"" + tail);
    NumberPrinted(f.location.latitude);
    NumberPrinted(f.location.longitude);
    StripThen("\"", tail);
    StripConcat(w.name, "\"" + tail);
    StripThen(x.Naming(), named);
    StripThen(w.lon, x.Naming() + named);
    StripThen(x.Middle(), w.lon + (x.Naming() + named));
    StripThen(w.lat, x.Middle() + (w.lon + (x.Naming() + named)));
    StripThen(x.Opening(), w.lat + (x.Middle() + (w.lon + (x.Naming() + named))));
  }

  /** The printed forms of the rest of a list are the rest of the printed forms. */
  lemma RawsTail(fs: seq<Feature>)
    requires fs != []
    ensures RawsOf(fs)[0] == RawOf(fs[0]) && RawsOf(fs)[1..] == RawsOf(fs[1..])
    ensures AllSqueezed(fs)[0] == Squeezed(fs[0]) && AllSqueezed(fs)[1..] == AllSqueezed(fs[1..])
  {
  }

  lemma StripNext(x: Syntax, f: Feature, more: string, stripped: string)
    requires TightSyntax(x) && Printable(f) && Strip(more) == stripped
    ensures Strip(With(x, RawOf(f), "}," + more)) == With(x, RawOf(Squeezed(f)), "}," + stripped)
  {
    StripRecord(x, f, "}," + more);
    StripThen("},", more);
  }

  lemma {:induction false} StripRecords(x: Syntax, fs: seq<Feature>)
    requires TightSyntax(x) && fs != [] && AllPrintable(fs)
    ensures Strip(Records(x, RawsOf(fs), "}]")) == Records(x, RawsOf(AllSqueezed(fs)), "}]")
    decreases |fs|
  {
    RawsTail(fs);
    RawsTail(AllSqueezed(fs));
    if |fs| == 1 {
      StripRecord(x, fs[0], "}]");
      StripTight("}]");
    } else {
      StripRecords(x, fs[1..]);
      StripNext(x, fs[0], Records(x, RawsOf(fs[1..]), "}]"), Records(x, RawsOf(AllSqueezed(fs[1..])), "}]"));
    }
  }

  lemma SqueezedPrintable(fs: seq<Feature>)
    requires AllPrintable(fs)
    ensures AllPrintable(AllSqueezed(fs))
  {
    forall i | 0 <= i < |fs| ensures Printable(Squeezed(fs[i])) {
      StripIsTight(fs[i].name);
    }
  }

  lemma JsonIsTight()
    ensures TightSyntax(JSON)
  {
    assert Tight(JSON.location) && Tight(JSON.latitude) && Tight(JSON.longitude) && Tight(JSON.name);
  }

  lemma PrintedRecord(f: Feature)
    ensures PrintFeature(f) == RecordText(RawOf(f)) + "}"
  {
    assert "\"}" == "\"" + "}";
  }

  lemma PrintedLast(f: Feature)
    ensures PrintFeature(f) + "]" == RecordText(RawOf(f)) + "}]"
  {
    PrintedRecord(f);
    Closed(RecordText(RawOf(f)));
  }

  lemma Closed(text: string)
    ensures text + "}" + "]" == text + "}]"
  {
  }

  lemma PrintedNext(f: Feature, more: string, rest: string)
    requires more + "]" == rest
    ensures PrintFeature(f) + "," + more + "]" == RecordText(RawOf(f)) + ("}," + rest)
  {
    PrintedRecord(f);
    Separated(RecordText(RawOf(f)), more);
  }

  lemma Separated(text: string, more: string)
    ensures text + "}" + "," + more + "]" == text + ("}," + (more + "]"))
  {
  }

  /** A printed list is a text of the grammar. */
  lemma {:induction false} PrintedRecords(fs: seq<Feature>)
    requires fs != []
    ensures PrintFeatures(fs) + "]" == Written(RawsOf(fs), "}]")
    decreases |fs|
  {
    RawsTail(fs);
    if |fs| == 1 {
      PrintedLast(fs[0]);
    } else {
      PrintedRecords(fs[1..]);
      PrintedNext(fs[0], PrintFeatures(fs[1..]), Written(RawsOf(fs[1..]), "}]"));
    }
  }

  /** The printed list, without whitespace, spells the squeezed one. */
  lemma PrintSpells(fs: seq<Feature>)
    requires fs != [] && AllPrintable(fs)
    ensures Strip(Print(fs)) == "[" + Records(JSON, RawsOf(AllSqueezed(fs)), "}]")
  {
    JsonIsTight();
    PrintedRecords(fs);
    RecordsAreText(RawsOf(fs), "}]");
    assert Print(fs) == "[" + Records(JSON, RawsOf(fs), "}]");
    StripThen("[", Records(JSON, RawsOf(fs), "}]"));
    StripRecords(JSON, fs);
  }

  /** Main result.  For every list of features with int32 coordinates and quote-free names, and every text that differs
      from its printed form only in whitespace, anywhere, the parser returns the same list in order, with the
      whitespace gone from the names; the empty list included. */
  lemma ParseUndoesPrint(fs: seq<Feature>, text: string)
    requires AllPrintable(fs) && Strip(text) == Strip(Print(fs))
    ensures Parsed(text) == Ok(AllSqueezed(fs))
  {
    if fs == [] {
      assert AllSqueezed(fs) == [];
      assert Print(fs) == "[" + "]" by {
        assert "[" + "" == "[";
      }
      EmptyList(text);
    } else {
      PrintSpells(fs);
      SqueezedPrintable(fs);
      AllReadBack(AllSqueezed(fs));
      ValuesPrinted(JSON, AllSqueezed(fs));
      RawsSpelled(AllSqueezed(fs), text);
    }
  }

  lemma RawsSpelled(fs: seq<Feature>, text: string)
    requires fs != [] && AllOk(JSON, RawsOf(fs)) && Values(JSON, RawsOf(fs)) == fs
    requires Strip(text) == "[" + Records(JSON, RawsOf(fs), "}]")
    ensures Parsed(text) == Ok(fs)
  {
    ReadableIsOk(RawsOf(fs));
    RecordsAreText(RawsOf(fs), "}]");
    FeaturesAreValues(RawsOf(fs));
    SpelledIsParsed(text, RawsOf(fs), "}]");
  }

  /** Main result: blanks put into the printed form, anywhere, do not matter. */
  lemma BlanksDoNotMatter(fs: seq<Feature>, text: string)
    requires AllPrintable(fs) && Padded(text, Print(fs))
    ensures Parsed(text) == Ok(AllSqueezed(fs))
  {
    PaddedStrips(text, Print(fs));
    ParseUndoesPrint(fs, text);
  }

  /** A database of one feature, in full. */
  function OneText(lat: string, lon: string, name: string): string {
    "[{\"location\":{\"latitude\":" + lat + ",\"longitude\":" + lon + "},\"name\":\"" + name + "\"}]"
  }

  lemma OneFeature(a: int, b: int, n: string)
    requires IsInt32(a) && IsInt32(b) && '"' !in n && NoBlanks(n)
    ensures Parsed(OneText(Decimal(a), Decimal(b), n)) == Ok([Feature(n, Point(a, b))])
  {
    var f := Feature(n, Point(a, b));
    OneIsPrinted(f);
    NamesStay([f]);
    ParseUndoesPrint([f], Print([f]));
  }

  lemma OneIsPrinted(f: Feature)
    ensures Print([f]) == OneText(Decimal(f.location.latitude), Decimal(f.location.longitude), f.name)
  {
    var lat, lon := Decimal(f.location.latitude), Decimal(f.location.longitude);
    assert "[{\"location\":{\"latitude\":" == "[" + "{\"location\":{\"latitude\":";
    assert "\"}]" == "\"}" + "]";
    Bracketed("{\"location\":{\"latitude\":", lat, ",\"longitude\":", lon, "},\"name\":\"", f.name, "\"}");
  }

  lemma Bracketed(a: string, b: string, c: string, d: string, e: string, f: string, g: string)
    ensures ("[" + a) + b + c + d + e + f + (g + "]") == "[" + (a + b + c + d + e + f + g) + "]"
  {
  }

  /** Names without blanks come back as they are. */
  lemma NamesStay(fs: seq<Feature>)
    requires forall i :: 0 <= i < |fs| ==> NoBlanks(fs[i].name)
    ensures AllSqueezed(fs) == fs
  {
    forall i | 0 <= i < |fs| ensures Squeezed(fs[i]) == fs[i] {
      assert NoBlanks(fs[i].name);
      StripTight(fs[i].name);
    }
  }

  lemma EmptyList(text: string)
    requires Strip(text) == Strip("[" + "]")
    ensures Parsed(text) == Ok([])
  {
    StripThen("[", "]");
    StripTight("]");
    Eaten("[", "]");
    assert ParseRecord(JSON, "]") == Reject by {
      assert JSON.Opening()[0] == '{';
    }
  }
}
