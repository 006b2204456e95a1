/** Which texts the database parser accepts, stated as a grammar and proved in both directions. */
module DbGrammar {
  import opened Common
  import opened DbText
  import opened DbParser
  import opened RouteTypes

  /** The variable parts of a record. */
  datatype Raw = Raw(lat: string, lon: string, name: string)

  predicate IsNumber(x: Syntax, t: string) {
    ',' !in t && '}' !in t && x.number(t).Some?
  }

  predicate RawOk(x: Syntax, w: Raw) {
    IsNumber(x, w.lat) && IsNumber(x, w.lon) && '"' !in w.name
  }

  function Value(x: Syntax, w: Raw): Feature
    requires RawOk(x, w)
  {
    Feature(w.name, Point(Int32(x.number(w.lat).value), Int32(x.number(w.lon).value)))
  }

  /** A record up to the closing quote of its name, and what comes after it. */
  function With(x: Syntax, w: Raw, tail: string): string {
    x.Opening() + (w.lat + (x.Middle() + (w.lon + (x.Naming() + (w.name + ("\"" + tail))))))
  }

  /** How the last record of a text may end. */
  predicate Ending(last: string) {
    last == "}," || (|last| == 2 && last[1] == ']')
  }

  /** One or more records, all but the last followed by `},`. */
  function Records(x: Syntax, ws: seq<Raw>, last: string): string
    requires ws != []
  {
    With(x, ws[0], if |ws| == 1 then last else "}," + Records(x, ws[1..], last))
  }

  predicate AllOk(x: Syntax, ws: seq<Raw>) {
    forall i :: 0 <= i < |ws| ==> RawOk(x, ws[i])
  }

  function Values(x: Syntax, ws: seq<Raw>): seq<Feature>
    requires AllOk(x, ws)
  {
    if ws == [] then [] else [Value(x, ws[0])] + Values(x, ws[1..])
  }

  // ----- every text of the grammar is parsed

  lemma NameAccepted(name: string, tail: string, lat: int, lon: int)
    requires '"' !in name && tail != ""
    ensures ParseName(name + ("\"" + tail), lat, lon)
         == match AfterName(tail)
            case None => Reject
            case Some(next) => Ok(Record(Feature(name, Point(Int32(lat), Int32(lon))), next))
  {
    var rest := name + ("\"" + tail);
    assert rest[|name|] == '"';
    UnquotedIs(rest, |name|);
    assert rest[..|name|] == name;
    assert rest[|name| + 1..] == tail;
  }

  lemma Eaten(literal: string, tail: string)
    ensures Eat(literal + tail, literal) == Some(tail)
  {
    assert (literal + tail)[|literal|..] == tail;
  }

  lemma NumberEnds(t: string, tail: string)
    requires ',' !in t && '}' !in t && tail != "" && (tail[0] == ',' || tail[0] == '}')
    ensures NumberText(t + tail) == t && (t + tail)[|t|..] == tail
  {
    assert (t + tail)[|t|] == tail[0];
    NumberTextIs(t + tail, |t|);
    assert (t + tail)[..|t|] == t;
  }

  lemma LongitudeAccepted(x: Syntax, w: Raw, tail: string, lat: int)
    requires RawOk(x, w) && tail != ""
    ensures ParseLongitude(x, x.Middle() + (w.lon + (x.Naming() + (w.name + ("\"" + tail)))), lat)
         == ParseName(w.name + ("\"" + tail), lat, x.number(w.lon).value)
  {
    var named := w.name + ("\"" + tail);
    Eaten(x.Middle(), w.lon + (x.Naming() + named));
    assert (x.Naming() + named)[0] == '}';
    NumberEnds(w.lon, x.Naming() + named);
    Eaten(x.Naming(), named);
  }

  lemma RecordAccepted(x: Syntax, w: Raw, tail: string)
    requires RawOk(x, w) && tail != ""
    ensures ParseRecord(x, With(x, w, tail))
         == match AfterName(tail)
            case None => Reject
            case Some(next) => Ok(Record(Value(x, w), next))
  {
    var located := x.Middle() + (w.lon + (x.Naming() + (w.name + ("\"" + tail))));
    Eaten(x.Opening(), w.lat + located);
    assert located[0] == ',';
    NumberEnds(w.lat, located);
    LongitudeAccepted(x, w, tail, x.number(w.lat).value);
    NameAccepted(w.name, tail, x.number(w.lat).value, x.number(w.lon).value);
  }

  predicate Reads(x: Syntax, rest: string, fs: seq<Feature>) {
    ParseRecords(x, rest) == Ok(fs)
  }

  lemma OneMore(x: Syntax, rest: string, f: Feature, next: string, fs: seq<Feature>)
    requires ParseRecord(x, rest) == Ok(Record(f, next)) && Reads(x, next, fs)
    ensures Reads(x, rest, [f] + fs)
  {
    ParseRecordAdvances(x, rest);
  }

  lemma EndingEnds(last: string)
    requires Ending(last)
    ensures AfterName(last) == Some("")
  {
    assert last == "}," ==> last[2..] == "";
  }

  lemma NothingLeft(x: Syntax)
    ensures Reads(x, "", [])
  {
  }

  lemma LastAccepted(x: Syntax, w: Raw, last: string)
    requires RawOk(x, w) && Ending(last)
    ensures Reads(x, With(x, w, last), [Value(x, w)])
  {
    RecordAccepted(x, w, last);
    EndingEnds(last);
    OnlyOne(x, With(x, w, last), Value(x, w));
  }

  lemma OnlyOne(x: Syntax, rest: string, f: Feature)
    requires ParseRecord(x, rest) == Ok(Record(f, ""))
    ensures Reads(x, rest, [f])
  {
    NothingLeft(x);
    OneMore(x, rest, f, "", []);
    assert [f] + [] == [f];
  }

  lemma NextAccepted(x: Syntax, w: Raw, more: string, fs: seq<Feature>)
    requires RawOk(x, w) && Reads(x, more, fs)
    ensures Reads(x, With(x, w, "}," + more), [Value(x, w)] + fs)
  {
    RecordAccepted(x, w, "}," + more);
    Eaten("},", more);
    OneMore(x, With(x, w, "}," + more), Value(x, w), more, fs);
  }

  lemma {:induction false} RecordsAccepted(x: Syntax, ws: seq<Raw>, last: string)
    requires ws != [] && AllOk(x, ws) && Ending(last)
    ensures Reads(x, Records(x, ws, last), Values(x, ws))
    decreases |ws|
  {
    if |ws| == 1 {
      LastAccepted(x, ws[0], last);
      var f := Value(x, ws[0]);
      assert Values(x, ws) == [f] by {
        assert ws[1..] == [];
        assert [f] + [] == [f];
      }
    } else {
      var more, fs := Records(x, ws[1..], last), Values(x, ws[1..]);
      RecordsAccepted(x, ws[1..], last);
      NextAccepted(x, ws[0], more, fs);
      assert Values(x, ws) == [Value(x, ws[0])] + fs;
      assert Records(x, ws, last) == With(x, ws[0], "}," + more);
    }
  }

  // ----- every parsed text is in the grammar

  lemma NameFound(rest: string, lat: int, lon: int) returns (name: string, tail: string)
    requires ParseName(rest, lat, lon).Ok?
    ensures '"' !in name && rest == name + ("\"" + tail)
    ensures AfterName(tail) == Some(ParseName(rest, lat, lon).value.rest)
    ensures ParseName(rest, lat, lon).value.feature == Feature(name, Point(Int32(lat), Int32(lon)))
  {
    name := Unquoted(rest);
    tail := rest[|name| + 1..];
    assert rest == rest[..|name|] + ([rest[|name|]] + tail);
    assert rest[..|name|] == name;
  }

  lemma EatenFrom(rest: string, literal: string)
    requires Eat(rest, literal).Some?
    ensures rest == literal + Eat(rest, literal).value
  {
  }

  lemma NumberFound(rest: string)
    ensures rest == NumberText(rest) + rest[|NumberText(rest)|..]
  {
  }

  lemma LongitudeFound(x: Syntax, rest: string, lat: int) returns (lon: string, name: string, tail: string)
    requires ParseLongitude(x, rest, lat).Ok?
    ensures IsNumber(x, lon) && '"' !in name
    ensures rest == x.Middle() + (lon + (x.Naming() + (name + ("\"" + tail))))
    ensures AfterName(tail) == Some(ParseLongitude(x, rest, lat).value.rest)
    ensures ParseLongitude(x, rest, lat).value.feature == Feature(name, Point(Int32(lat), Int32(x.number(lon).value)))
  {
    EatenFrom(rest, x.Middle());
    var r := Eat(rest, x.Middle()).value;
    lon := NumberText(r);
    NumberFound(r);
    EatenFrom(r[|lon|..], x.Naming());
    name, tail := NameFound(Eat(r[|lon|..], x.Naming()).value, lat, x.number(lon).value);
  }

  lemma RecordFound(x: Syntax, rest: string) returns (w: Raw, tail: string)
    requires ParseRecord(x, rest).Ok?
    ensures RawOk(x, w) && rest == With(x, w, tail)
    ensures AfterName(tail) == Some(ParseRecord(x, rest).value.rest)
    ensures ParseRecord(x, rest).value.feature == Value(x, w)
  {
    EatenFrom(rest, x.Opening());
    var r := Eat(rest, x.Opening()).value;
    var lat := NumberText(r);
    NumberFound(r);
    var lon, name;
    lon, name, tail := LongitudeFound(x, r[|lat|..], x.number(lat).value);
    w := Raw(lat, lon, name);
  }

  /** The list splits into its first record and the rest. */
  lemma FirstFound(x: Syntax, rest: string, fs: seq<Feature>)
    returns (w: Raw, tail: string, next: string, more: seq<Feature>)
    requires rest != "" && Reads(x, rest, fs)
    ensures RawOk(x, w) && rest == With(x, w, tail) && AfterName(tail) == Some(next) && |next| < |rest|
    ensures Reads(x, next, more) && fs == [Value(x, w)] + more
  {
    w, tail := RecordFound(x, rest);
    next := ParseRecord(x, rest).value.rest;
    ParseRecordAdvances(x, rest);
    more := ParseRecords(x, next).value;
  }

  lemma RecordsMore(x: Syntax, w: Raw, others: seq<Raw>, last: string)
    requires RawOk(x, w) && others != [] && AllOk(x, others)
    ensures var ws := [w] + others;
            && AllOk(x, ws) && Values(x, ws) == [Value(x, w)] + Values(x, others)
            && Records(x, ws, last) == With(x, w, "}," + Records(x, others, last))
  {
    assert ([w] + others)[1..] == others;
  }

  lemma RecordsOne(x: Syntax, w: Raw, last: string)
    requires RawOk(x, w)
    ensures AllOk(x, [w]) && Values(x, [w]) == [Value(x, w)] + [] && Records(x, [w], last) == With(x, w, last)
  {
    assert [w][1..] == [];
  }

  lemma {:induction false} RecordsFound(x: Syntax, rest: string, fs: seq<Feature>) returns (ws: seq<Raw>, last: string)
    requires rest != "" && Reads(x, rest, fs)
    ensures ws != [] && AllOk(x, ws) && Ending(last) && rest == Records(x, ws, last) && fs == Values(x, ws)
    decreases |rest|
  {
    var w, tail, next, more := FirstFound(x, rest, fs);
    if next == "" {
      ws, last := [w], tail;
      RecordsOne(x, w, last);
    } else {
      assert tail == "}," + next;
      var others;
      others, last := RecordsFound(x, next, more);
      ws := [w] + others;
      RecordsMore(x, w, others, last);
    }
  }

  // ----- the text itself

  /** A record as the database has it, up to the closing quote of its name. */
  function RecordText(w: Raw): string {
    "{\"location\":{\"latitude\":" + w.lat + ",\"longitude\":" + w.lon + "},\"name\":\"" + w.name + "\""
  }

  /** One or more records, all but the last followed by `},`. */
  function Written(ws: seq<Raw>, last: string): string
    requires ws != []
  {
    RecordText(ws[0]) + if |ws| == 1 then last else "}," + Written(ws[1..], last)
  }

  predicate Readable(w: Raw) {
    && ',' !in w.lat && '}' !in w.lat && Stol(w.lat).Some?
    && ',' !in w.lon && '}' !in w.lon && Stol(w.lon).Some?
    && '"' !in w.name
  }

  predicate AllReadable(ws: seq<Raw>) {
    forall i :: 0 <= i < |ws| ==> Readable(ws[i])
  }

  function FeatureOf(w: Raw): Feature
    requires Readable(w)
  {
    Feature(w.name, Point(Int32(Stol(w.lat).value), Int32(Stol(w.lon).value)))
  }

  function FeaturesOf(ws: seq<Raw>): seq<Feature>
    requires AllReadable(ws)
  {
    seq(|ws|, i requires 0 <= i < |ws| => FeatureOf(ws[i]))
  }

  lemma OpeningText()
    ensures JSON.Opening() == "{\"location\":{\"latitude\":"
  {
    assert "{" + JSON.latitude == "{\"latitude\":";
    assert JSON.location + "{\"latitude\":" == "\"location\":{\"latitude\":";
    assert "{" + "\"location\":{\"latitude\":" == "{\"location\":{\"latitude\":";
  }

  lemma MiddleText()
    ensures JSON.Middle() == ",\"longitude\":"
  {
  }

  lemma NamingText()
    ensures JSON.Naming() == "},\"name\":\""
  {
    assert JSON.name + "\"" == "\"name\":\"";
  }

  /** The member strings of the parser, put together. */
  lemma JsonText()
    ensures JSON.Opening() == "{\"location\":{\"latitude\":" && JSON.Middle() == ",\"longitude\":"
    ensures JSON.Naming() == "},\"name\":\"" && forall t: string :: JSON.number(t) == Stol(t)
  {
    OpeningText();
    MiddleText();
    NamingText();
  }

  lemma Regrouped(a: string, b: string, c: string, d: string, e: string, f: string, g: string)
    ensures a + b + c + d + e + f + "\"" + g == a + (b + (c + (d + (e + (f + ("\"" + g))))))
  {
  }

  lemma RecordIsText(w: Raw, tail: string)
    ensures With(JSON, w, tail) == RecordText(w) + tail
  {
    JsonText();
    Regrouped(JSON.Opening(), w.lat, JSON.Middle(), w.lon, JSON.Naming(), w.name, tail);
  }

  lemma {:induction false} RecordsAreText(ws: seq<Raw>, last: string)
    requires ws != []
    ensures Records(JSON, ws, last) == Written(ws, last)
    decreases |ws|
  {
    if |ws| == 1 {
      RecordIsText(ws[0], last);
    } else {
      RecordsAreText(ws[1..], last);
      RecordIsText(ws[0], "}," + Written(ws[1..], last));
    }
  }

  lemma ReadableIsOk(ws: seq<Raw>)
    ensures AllReadable(ws) <==> AllOk(JSON, ws)
  {
    JsonText();
    forall i | 0 <= i < |ws| ensures Readable(ws[i]) <==> RawOk(JSON, ws[i]) {
    }
  }

  lemma {:induction false} ValuesAt(x: Syntax, ws: seq<Raw>, i: nat)
    requires AllOk(x, ws) && i < |ws|
    ensures |Values(x, ws)| == |ws| && Values(x, ws)[i] == Value(x, ws[i])
    decreases |ws|
  {
    if |ws| == 1 {
      assert ws[1..] == [];
    } else {
      ValuesAt(x, ws[1..], if i == 0 then 0 else i - 1);
    }
  }

  lemma ReadableValue(w: Raw)
    requires Readable(w)
    ensures RawOk(JSON, w) && Value(JSON, w) == FeatureOf(w)
  {
    JsonText();
  }

  lemma FeaturesAreValues(ws: seq<Raw>)
    requires AllReadable(ws)
    ensures AllOk(JSON, ws) && Values(JSON, ws) == FeaturesOf(ws)
  {
    ReadableIsOk(ws);
    forall i: nat | i < |ws| ensures |Values(JSON, ws)| == |ws| && Values(JSON, ws)[i] == FeaturesOf(ws)[i] {
      ValuesAt(JSON, ws, i);
      ReadableValue(ws[i]);
    }
  }

  /** `ws` and `last` spell the whitespace-free database. */
  predicate Spells(text: string, ws: seq<Raw>, last: string) {
    ws != [] && AllReadable(ws) && Ending(last) && Strip(text) == "[" + Written(ws, last)
  }

  /** Main result.  The database yields n > 0 features exactly when, without whitespace, it is `[` and n records of
      which all but the last end in `},` and the last ends in `},` or in any one character and `]`; the features
      are the values of the records in order.  Every other text yields the empty list or an exception from
      `std::stol`, never a part of the records. */
  lemma ParsedExactly(text: string, fs: seq<Feature>)
    requires fs != []
    ensures Parsed(text) == Ok(fs) <==> exists ws, last :: Spells(text, ws, last) && FeaturesOf(ws) == fs
    ensures (forall ws, last :: !Spells(text, ws, last)) ==> Parsed(text) == Ok([]) || Parsed(text) == Throw
  {
    if Parsed(text).Ok? && Parsed(text).value != [] {
      var ws, last := ParsedSpells(text);
      assert Spells(text, ws, last) && FeaturesOf(ws) == Parsed(text).value;
    }
    forall ws, last | Spells(text, ws, last) ensures Parsed(text) == Ok(FeaturesOf(ws)) {
      SpelledIsParsed(text, ws, last);
    }
  }

  lemma ParsedSpells(text: string) returns (ws: seq<Raw>, last: string)
    requires Parsed(text).Ok? && Parsed(text).value != []
    ensures Spells(text, ws, last) && FeaturesOf(ws) == Parsed(text).value
  {
    var s := Strip(text);
    EatenFrom(s, "[");
    ws, last := RecordsFound(JSON, Eat(s, "[").value, Parsed(text).value);
    RecordsAreText(ws, last);
    ReadableIsOk(ws);
    FeaturesAreValues(ws);
  }

  lemma SpelledIsParsed(text: string, ws: seq<Raw>, last: string)
    requires Spells(text, ws, last)
    ensures Parsed(text) == Ok(FeaturesOf(ws))
  {
    FeaturesAreValues(ws);
    RecordsAreText(ws, last);
    Eaten("[", Records(JSON, ws, last));
    RecordsAccepted(JSON, ws, last);
  }
}
