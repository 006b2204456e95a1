/** On which texts the database parser throws, stated as a grammar and proved in both directions. */
module DbThrows {
  import opened Common
  import opened DbText
  import opened DbParser
  import opened DbGrammar

  /** A record that stops at a number `std::stol` refuses: its latitude, or its longitude after a good latitude. */
  datatype Bad = BadLatitude(text: string, tail: string) | BadLongitude(lat: string, text: string, tail: string)

  /** `t` is scanned as a number: it runs up to the first comma or brace, or to the end of the text. */
  predicate Delimited(t: string, tail: string) {
    ',' !in t && '}' !in t && (tail == "" || tail[0] == ',' || tail[0] == '}')
  }

  predicate BadOk(x: Syntax, b: Bad) {
    && Delimited(b.text, b.tail) && x.number(b.text).None?
    && (b.BadLongitude? ==> IsNumber(x, b.lat))
  }

  function Spelled(x: Syntax, b: Bad): string {
    match b
    case BadLatitude(t, tail) => x.Opening() + (t + tail)
    case BadLongitude(lat, t, tail) => x.Opening() + (lat + (x.Middle() + (t + tail)))
  }

  /** Records that are each followed by `},`, and what comes after them. */
  function Leading(x: Syntax, ws: seq<Raw>, tail: string): string {
    if ws == [] then tail else With(x, ws[0], "}," + Leading(x, ws[1..], tail))
  }

  predicate Throws(x: Syntax, rest: string) {
    ParseRecords(x, rest) == Throw
  }

  lemma NumberStops(t: string, tail: string)
    requires Delimited(t, tail)
    ensures NumberText(t + tail) == t && (t + tail)[|t|..] == tail
  {
    if tail == "" {
      assert t + tail == t;
      NumberTextIs(t, |t|);
      assert t[..|t|] == t;
    } else {
      NumberEnds(t, tail);
    }
  }

  lemma BadThrows(x: Syntax, b: Bad)
    requires BadOk(x, b)
    ensures ParseRecord(x, Spelled(x, b)) == Throw
  {
    match b {
      case BadLatitude(t, tail) =>
        Eaten(x.Opening(), t + tail);
        NumberStops(t, tail);
      case BadLongitude(lat, t, tail) =>
        var located := x.Middle() + (t + tail);
        Eaten(x.Opening(), lat + located);
        assert located[0] == ',';
        NumberStops(lat, located);
        Eaten(x.Middle(), t + tail);
        NumberStops(t, tail);
    }
  }

  lemma BadFound(x: Syntax, rest: string) returns (b: Bad)
    requires ParseRecord(x, rest) == Throw
    ensures BadOk(x, b) && rest == Spelled(x, b)
  {
    EatenFrom(rest, x.Opening());
    var r := Eat(rest, x.Opening()).value;
    var t := NumberText(r);
    NumberFound(r);
    if x.number(t).None? {
      b := BadLatitude(t, r[|t|..]);
    } else {
      EatenFrom(r[|t|..], x.Middle());
      var v := Eat(r[|t|..], x.Middle()).value;
      var lon := NumberText(v);
      NumberFound(v);
      b := BadLongitude(t, lon, v[|lon|..]);
    }
  }

  lemma ThrowsNow(x: Syntax, rest: string)
    requires ParseRecord(x, rest) == Throw && rest != ""
    ensures Throws(x, rest)
  {
  }

  lemma ThrowsLater(x: Syntax, w: Raw, more: string)
    requires RawOk(x, w) && Throws(x, more)
    ensures Throws(x, With(x, w, "}," + more))
  {
    RecordAccepted(x, w, "}," + more);
    Eaten("},", more);
    ParseRecordAdvances(x, With(x, w, "}," + more));
  }

  lemma {:induction false} LeadingThrows(x: Syntax, ws: seq<Raw>, b: Bad)
    requires AllOk(x, ws) && BadOk(x, b)
    ensures Throws(x, Leading(x, ws, Spelled(x, b)))
    decreases |ws|
  {
    if ws == [] {
      BadThrows(x, b);
      ThrowsNow(x, Spelled(x, b));
    } else {
      LeadingThrows(x, ws[1..], b);
      ThrowsLater(x, ws[0], Leading(x, ws[1..], Spelled(x, b)));
    }
  }

  lemma RestThrows(x: Syntax, rest: string)
    requires Throws(x, rest) && ParseRecord(x, rest) != Throw
    ensures ParseRecord(x, rest).Ok?
    ensures var next := ParseRecord(x, rest).value.rest; Throws(x, next) && next != "" && |next| < |rest|
  {
    ParseRecordAdvances(x, rest);
  }

  lemma Separator(tail: string, next: string)
    requires AfterName(tail) == Some(next) && next != ""
    ensures tail == "}," + next
  {
  }

  /** The first record parses and the exception comes from a later one. */
  lemma LaterFound(x: Syntax, rest: string) returns (w: Raw, next: string)
    requires Throws(x, rest) && ParseRecord(x, rest) != Throw
    ensures RawOk(x, w) && rest == With(x, w, "}," + next) && Throws(x, next) && |next| < |rest|
  {
    RestThrows(x, rest);
    next := ParseRecord(x, rest).value.rest;
    var tail;
    w, tail := RecordFound(x, rest);
    Separator(tail, next);
  }

  lemma {:induction false} ThrowsFound(x: Syntax, rest: string) returns (ws: seq<Raw>, b: Bad)
    requires Throws(x, rest)
    ensures AllOk(x, ws) && BadOk(x, b) && rest == Leading(x, ws, Spelled(x, b))
    decreases |rest|
  {
    if ParseRecord(x, rest) == Throw {
      b := BadFound(x, rest);
      ws := [];
    } else {
      var w, next := LaterFound(x, rest);
      var others;
      others, b := ThrowsFound(x, next);
      ws := [w] + others;
      assert ws[1..] == others;
    }
  }

  // ----- the text itself

  predicate Refused(b: Bad) {
    && Delimited(b.text, b.tail) && Stol(b.text).None?
    && (b.BadLongitude? ==> ',' !in b.lat && '}' !in b.lat && Stol(b.lat).Some?)
  }

  /** A record up to the refused number, and what comes after it. */
  function BadText(b: Bad): string {
    match b
    case BadLatitude(t, tail) => "{\"location\":{\"latitude\":" + t + tail
    case BadLongitude(lat, t, tail) => "{\"location\":{\"latitude\":" + lat + ",\"longitude\":" + t + tail
  }

  function LeadingText(ws: seq<Raw>, tail: string): string {
    if ws == [] then tail else RecordText(ws[0]) + "}," + LeadingText(ws[1..], tail)
  }

  lemma BadIsText(b: Bad)
    ensures Spelled(JSON, b) == BadText(b) && (Refused(b) <==> BadOk(JSON, b))
  {
    JsonText();
    match b {
      case BadLatitude(t, tail) =>
        assert JSON.Opening() + (t + tail) == JSON.Opening() + t + tail;
      case BadLongitude(lat, t, tail) =>
        assert JSON.Opening() + (lat + (JSON.Middle() + (t + tail)))
            == JSON.Opening() + lat + JSON.Middle() + t + tail;
    }
  }

  lemma {:induction false} LeadingIsText(ws: seq<Raw>, tail: string)
    ensures Leading(JSON, ws, tail) == LeadingText(ws, tail)
    decreases |ws|
  {
    if ws != [] {
      LeadingIsText(ws[1..], tail);
      var more := LeadingText(ws[1..], tail);
      RecordIsText(ws[0], "}," + more);
      assert RecordText(ws[0]) + ("}," + more) == RecordText(ws[0]) + "}," + more;
    }
  }

  /** The text is whole records and then one whose number is refused. */
  predicate SpellsBad(text: string, ws: seq<Raw>, b: Bad) {
    AllReadable(ws) && Refused(b) && Strip(text) == "[" + LeadingText(ws, BadText(b))
  }

  lemma BadIsThrown(text: string, ws: seq<Raw>, b: Bad)
    requires SpellsBad(text, ws, b)
    ensures Parsed(text) == Throw
  {
    ReadableIsOk(ws);
    BadIsText(b);
    LeadingIsText(ws, Spelled(JSON, b));
    Eaten("[", Leading(JSON, ws, Spelled(JSON, b)));
    LeadingThrows(JSON, ws, b);
  }

  lemma ThrownIsBad(text: string) returns (ws: seq<Raw>, b: Bad)
    requires Parsed(text) == Throw
    ensures SpellsBad(text, ws, b)
  {
    var s := Strip(text);
    EatenFrom(s, "[");
    ws, b := ThrowsFound(JSON, Eat(s, "[").value);
    ReadableIsOk(ws);
    BadIsText(b);
    LeadingIsText(ws, Spelled(JSON, b));
  }

  /** Main result: the parser throws exactly on the texts that, without whitespace, are `[`, records each followed
      by `},`, and then a record up to a latitude or longitude that `std::stol` refuses; so it yields the empty list
      exactly on the texts of neither grammar. */
  lemma ThrowsExactly(text: string)
    ensures Parsed(text) == Throw <==> exists ws, b :: SpellsBad(text, ws, b)
    ensures Parsed(text) == Ok([]) <==>
            (forall ws, last :: !Spells(text, ws, last)) && (forall ws, b :: !SpellsBad(text, ws, b))
  {
    if Parsed(text) == Throw {
      var ws, b := ThrownIsBad(text);
      assert SpellsBad(text, ws, b);
    }
    forall ws, b | SpellsBad(text, ws, b) ensures Parsed(text) == Throw {
      BadIsThrown(text, ws, b);
    }
    forall ws, last | Spells(text, ws, last) ensures Parsed(text) == Ok(FeaturesOf(ws)) && FeaturesOf(ws) != [] {
      SpelledIsParsed(text, ws, last);
    }
    if Parsed(text).Ok? && Parsed(text).value != [] {
      var ws, last := ParsedSpells(text);
      assert Spells(text, ws, last);
    }
  }
}
