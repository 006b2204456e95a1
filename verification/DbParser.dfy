/** The cursor parser for the feature database.

    `ParseRecord` and `ParseRecords` say what the parser does to the text that is left; `Parser` and `ParseDb`
    are the code, which works with a cursor and never copies the rest.  A failed `Match` moves the cursor too,
    possibly past the end; the code is safe because it never looks at the text again after a failure.
 */
module DbParser {
  import opened Common
  import opened DbText
  import opened RouteTypes

  /** The member strings `location_`, `latitude_`, `longitude_` and `name_`, and the function that reads a number. */
  datatype Syntax = Syntax(location: string, latitude: string, longitude: string, name: string,
                           number: string -> Option<int>) {
    function Opening(): string { "{" + (location + ("{" + latitude)) }
    function Middle(): string { "," + longitude }
    function Naming(): string { "}," + (name + "\"") }
  }

  const JSON := Syntax("\"location\":", "\"latitude\":", "\"longitude\":", "\"name\":", Stol)

  /** A value, a syntax error, or an exception thrown by `std::stol`. */
  datatype Outcome<T> = Ok(value: T) | Reject | Throw

  datatype Record = Record(feature: Feature, rest: string)

  function Eat(rest: string, literal: string): Option<string> {
    if literal <= rest then Some(rest[|literal|..]) else None
  }

  predicate EndsNumber(c: char) {
    c == ',' || c == '}'
  }

  /** The text before the first comma or brace. */
  function NumberText(rest: string): (t: string)
    ensures t <= rest && (|t| < |rest| ==> rest[|t|] == ',' || rest[|t|] == '}')
    ensures ',' !in t && '}' !in t
  {
    if rest == "" || EndsNumber(rest[0]) then "" else [rest[0]] + NumberText(rest[1..])
  }

  /** The text before the first quote. */
  function Unquoted(rest: string): (t: string)
    ensures t <= rest && (|t| < |rest| ==> rest[|t|] == '"')
    ensures '"' !in t
  {
    if rest == "" || rest[0] == '"' then "" else [rest[0]] + Unquoted(rest[1..])
  }

  /** What must follow the name of a record: `},` or, at the very end of the text, any character and `]`. */
  function AfterName(rest: string): Option<string> {
    if "}," <= rest then Some(rest[2..])
    else if |rest| == 2 && rest[1] == ']' then Some("")
    else None
  }

  /** From the opening quote's successor to the end of the record. */
  function ParseName(rest: string, lat: int, lon: int): Outcome<Record> {
    var name := Unquoted(rest);
    if |rest| <= |name| + 1 then Reject
    else match AfterName(rest[|name| + 1..])
         case None => Reject
         case Some(next) => Ok(Record(Feature(name, Point(Int32(lat), Int32(lon))), next))
  }

  function ParseLongitude(x: Syntax, rest: string, lat: int): Outcome<Record> {
    match Eat(rest, x.Middle())
    case None => Reject
    case Some(r) =>
      var t := NumberText(r);
      match x.number(t)
      case None => Throw
      case Some(lon) =>
        match Eat(r[|t|..], x.Naming())
        case None => Reject
        case Some(n) => ParseName(n, lat, lon)
  }

  /** One record. */
  function ParseRecord(x: Syntax, rest: string): Outcome<Record> {
    match Eat(rest, x.Opening())
    case None => Reject
    case Some(r) =>
      var t := NumberText(r);
      match x.number(t)
      case None => Throw
      case Some(lat) => ParseLongitude(x, r[|t|..], lat)
  }

  /** A successful record is never empty. */
  lemma ParseLongitudeAdvances(x: Syntax, rest: string, lat: int)
    ensures ParseLongitude(x, rest, lat).Ok? ==> |ParseLongitude(x, rest, lat).value.rest| < |rest|
  {
  }

  lemma ParseRecordAdvances(x: Syntax, rest: string)
    ensures ParseRecord(x, rest).Ok? ==> |ParseRecord(x, rest).value.rest| < |rest|
  {
    if ParseRecord(x, rest).Ok? {
      var r := Eat(rest, x.Opening()).value;
      var t := NumberText(r);
      ParseLongitudeAdvances(x, r[|t|..], x.number(t).value);
    }
  }

  /** A record in front of the outcome of the rest. */
  function Prepended(f: Feature, rest: Outcome<seq<Feature>>): Outcome<seq<Feature>> {
    match rest
    case Ok(fs) => Ok([f] + fs)
    case Reject => Reject
    case Throw => Throw
  }

  /** All records up to the end of the text. */
  function ParseRecords(x: Syntax, rest: string): Outcome<seq<Feature>>
    decreases |rest|
  {
    if rest == "" then Ok([])
    else
      ParseRecordAdvances(x, rest);
      match ParseRecord(x, rest)
      case Reject => Reject
      case Throw => Throw
      case Ok(Record(f, next)) => Prepended(f, ParseRecords(x, next))
  }

  /** Where the list starts with a record, its outcome is that record and the outcome of the rest. */
  predicate StartsWith(x: Syntax, rest: string, f: Feature, next: string) {
    ParseRecords(x, rest) == Prepended(f, ParseRecords(x, next))
  }

  lemma FirstRecord(x: Syntax, rest: string)
    requires rest != ""
    ensures ParseRecord(x, rest).Ok? ==>
              StartsWith(x, rest, ParseRecord(x, rest).value.feature, ParseRecord(x, rest).value.rest)
    ensures ParseRecord(x, rest).Reject? ==> ParseRecords(x, rest) == Reject
    ensures ParseRecord(x, rest).Throw? ==> ParseRecords(x, rest) == Throw
  {
  }

  /** The whole database: any syntax error gives the empty list. */
  function Parsed(text: string): Outcome<seq<Feature>> {
    match Eat(Strip(text), "[")
    case None => Ok([])
    case Some(rest) => if ParseRecords(JSON, rest).Reject? then Ok([]) else ParseRecords(JSON, rest)
  }

  // ----- the code

  /** `std::string::substr`, which throws when `pos` is past the end. */
  function Substr(s: string, pos: nat, n: nat): string
    requires pos <= |s|
  {
    s[pos..if pos + n <= |s| then pos + n else |s|]
  }

  /** `std::string::operator[]`, defined up to and including the length. */
  function CharAt(s: string, i: nat): char
    requires i <= |s|
  {
    if i < |s| then s[i] else '\0'
  }

  lemma EatIsSubstr(s: string, pos: nat, literal: string)
    requires pos <= |s|
    ensures Substr(s, pos, |literal|) == literal <==> Eat(s[pos..], literal).Some?
    ensures Substr(s, pos, |literal|) == literal ==> pos + |literal| <= |s|
    ensures Substr(s, pos, |literal|) == literal ==> Eat(s[pos..], literal).value == s[pos + |literal|..]
  {
    if literal <= s[pos..] {
      assert s[pos..pos + |literal|] == s[pos..][..|literal|];
    }
  }

  lemma EatTwice(rest: string, a: string, b: string)
    ensures Eat(rest, a + b) == match Eat(rest, a) case None => None case Some(r) => Eat(r, b)
  {
    if a <= rest {
      assert rest == a + rest[|a|..];
      if b <= rest[|a|..] {
        assert rest == a + b + rest[|a| + |b|..];
      }
      if a + b <= rest {
        assert rest[|a|..] == b + rest[|a + b|..];
      }
    }
    assert a + b <= rest ==> a <= rest by {
      if a + b <= rest {
        assert rest == a + (b + rest[|a + b|..]);
      }
    }
  }

  lemma {:induction false} NumberTextIs(rest: string, n: nat)
    requires n <= |rest| && (n < |rest| ==> EndsNumber(rest[n]))
    requires forall i :: 0 <= i < n ==> !EndsNumber(rest[i])
    ensures NumberText(rest) == rest[..n]
    decreases n
  {
    if n > 0 {
      NumberTextIs(rest[1..], n - 1);
      assert rest[..n] == [rest[0]] + rest[1..][..n - 1];
    }
  }

  lemma {:induction false} UnquotedIs(rest: string, n: nat)
    requires n <= |rest| && (n < |rest| ==> rest[n] == '"')
    requires forall i :: 0 <= i < n ==> rest[i] != '"'
    ensures Unquoted(rest) == rest[..n]
    decreases n
  {
    if n > 0 {
      UnquotedIs(rest[1..], n - 1);
      assert rest[..n] == [rest[0]] + rest[1..][..n - 1];
    }
  }

  class Parser {
    const syntax: Syntax
    var db: string
    var current: nat
    var failed: bool

    /** Until something fails, the cursor is inside the text. */
    ghost predicate Valid()
      reads this
    {
      !failed ==> current <= |db|
    }

    /** The text not yet read. */
    ghost function Rest(): string
      reads this`current, this`db
      requires current <= |db|
    {
      db[current..]
    }

    constructor (text: string)
      ensures syntax == JSON && Valid() && db == Strip(text)
      ensures failed <==> Eat(db, "[").None?
      ensures current == 1
    {
      syntax := JSON;
      db, current, failed := Strip(text), 0, false;
      new;
      EatIsSubstr(db, 0, "[");
      assert db[0..] == db;
      var eq := Match("[");
      if !eq {
        failed := true;
      }
    }

    predicate Finished()
      reads this
    {
      current >= |db|
    }

    /** The cursor moves on whether or not the text matches. */
    method Match(literal: string) returns (eq: bool)
      requires current <= |db|
      modifies this`current
      ensures current == old(current) + |literal|
      ensures eq <==> Eat(old(Rest()), literal).Some?
      ensures eq ==> current <= |db| && Eat(old(Rest()), literal) == Some(Rest())
    {
      EatIsSubstr(db, current, literal);
      eq := Substr(db, current, |literal|) == literal;
      current := current + |literal|;
    }

    /** The loop of `ReadLong`. */
    method ScanNumber() returns (t: string)
      requires current <= |db|
      modifies this`current
      ensures old(current) <= current <= |db|
      ensures t == NumberText(old(Rest())) && Rest() == old(Rest())[|t|..]
    {
      var start := current;
      while current != |db| && CharAt(db, current) != ',' && CharAt(db, current) != '}'
        invariant start <= current <= |db|
        invariant forall i :: start <= i < current ==> !EndsNumber(db[i])
      {
        current := current + 1;
      }
      NumberTextIs(db[start..], current - start);
      t := Substr(db, start, current - start);
      assert t == db[start..][..current - start];
    }

    method ReadLong() returns (l: Option<int>)
      requires current <= |db|
      modifies this`current
      ensures old(current) <= current <= |db|
      ensures Rest() == old(Rest())[|NumberText(old(Rest()))|..]
      ensures l == syntax.number(NumberText(old(Rest())))
    {
      var t := ScanNumber();
      l := syntax.number(t);
    }

    /** `current_++` up to and including the closing quote. */
    method SkipName()
      requires current <= |db|
      modifies this`current
      ensures old(current) <= current <= |db|
      ensures var n := |Unquoted(old(Rest()))|;
              current == if n < |old(Rest())| then old(current) + n + 1 else |db|
    {
      ghost var start := current;
      while current != |db|
        invariant start <= current <= |db|
        invariant forall i :: start <= i < current ==> db[i] != '"'
      {
        current := current + 1;
        if CharAt(db, current - 1) == '"' {
          UnquotedIs(db[start..], current - 1 - start);
          return;
        }
      }
      UnquotedIs(db[start..], current - start);
    }

    /** `Match("{")`, `Match(location_)`, `Match("{")`, `Match(latitude_)`, stopping at the first failure. */
    method MatchOpening() returns (eq: bool)
      requires current <= |db|
      modifies this`current
      ensures old(current) < current
      ensures eq <==> Eat(old(Rest()), syntax.Opening()).Some?
      ensures eq ==> current <= |db| && Eat(old(Rest()), syntax.Opening()) == Some(Rest())
    {
      EatTwice(Rest(), "{", syntax.location + ("{" + syntax.latitude));
      eq := Match("{");
      if eq {
        EatTwice(Rest(), syntax.location, "{" + syntax.latitude);
        eq := Match(syntax.location);
      }
      if eq {
        EatTwice(Rest(), "{", syntax.latitude);
        eq := Match("{");
      }
      if eq {
        eq := Match(syntax.latitude);
      }
    }

    /** `Match(",")` and `Match(longitude_)`. */
    method MatchLongitude() returns (eq: bool)
      requires current <= |db|
      modifies this`current
      ensures old(current) < current
      ensures eq <==> Eat(old(Rest()), syntax.Middle()).Some?
      ensures eq ==> current <= |db| && Eat(old(Rest()), syntax.Middle()) == Some(Rest())
    {
      EatTwice(Rest(), ",", syntax.longitude);
      eq := Match(",");
      if eq {
        eq := Match(syntax.longitude);
      }
    }

    /** `Match("},")`, `Match(name_)` and `Match` of the opening quote. */
    method MatchName() returns (eq: bool)
      requires current <= |db|
      modifies this`current
      ensures old(current) < current
      ensures eq <==> Eat(old(Rest()), syntax.Naming()).Some?
      ensures eq ==> current <= |db| && Eat(old(Rest()), syntax.Naming()) == Some(Rest())
    {
      EatTwice(Rest(), "},", syntax.name + "\"");
      eq := Match("},");
      if eq {
        EatTwice(Rest(), syntax.name, "\"");
        eq := Match(syntax.name);
      }
      if eq {
        eq := Match("\"");
      }
    }

    /** What an attempt to parse a record leaves behind. */
    ghost predicate Reached(r: Outcome<Feature>, spec: Outcome<Record>)
      reads this`current, this`db
    {
      match spec
      case Ok(Record(f, next)) => r == Ok(f) && current <= |db| && Rest() == next
      case Reject => r == Reject
      case Throw => r == Throw && current <= |db|
    }

    /** What follows the name: `},`, or any character and `]` at the very end. */
    method FinishName() returns (ended: bool)
      requires current < |db|
      modifies this`current
      ensures ended <==> AfterName(old(Rest())).Some?
      ensures ended ==> current <= |db| && AfterName(old(Rest())) == Some(Rest())
      ensures old(current) <= current
    {
      ghost var after := Rest();
      var eq := Match("},");
      assert eq <==> "}," <= after;
      if !eq && !(CharAt(db, current - 1) == ']' && current == |db|) {
        return false;
      }
      assert !eq ==> Rest() == "" && |after| == 2 && after[1] == ']';
      return true;
    }

    /** The name, and the end of the record. */
    method FinishRecord(lat: int, lon: int) returns (r: Outcome<Feature>)
      requires current <= |db|
      modifies this`current
      ensures Reached(r, ParseName(old(Rest()), lat, lon)) && old(current) <= current
    {
      var nameStart := current;
      SkipName();
      if current == |db| {
        return Reject;
      }
      var name := Substr(db, nameStart, current - nameStart - 1);
      ghost var rest := db[nameStart..];
      assert name == rest[..|Unquoted(rest)|] == Unquoted(rest);
      assert Rest() == rest[|name| + 1..];
      var ended := FinishName();
      if !ended {
        return Reject;
      }
      r := Ok(Feature(name, Point(Int32(lat), Int32(lon))));
    }

    method FinishCoordinates(lat: int) returns (r: Outcome<Feature>)
      requires current <= |db|
      modifies this`current
      ensures Reached(r, ParseLongitude(syntax, old(Rest()), lat)) && old(current) <= current
    {
      var eq := MatchLongitude();
      if !eq {
        return Reject;
      }
      var lon := ReadLong();
      if lon.None? {
        return Throw;
      }
      eq := MatchName();
      if !eq {
        return Reject;
      }
      r := FinishRecord(lat, lon.value);
    }

    /** All of a record. */
    method ParseFields() returns (r: Outcome<Feature>)
      requires current <= |db|
      modifies this`current
      ensures Reached(r, ParseRecord(syntax, old(Rest()))) && old(current) < current
    {
      var eq := MatchOpening();
      if !eq {
        return Reject;
      }
      var lat := ReadLong();
      if lat.None? {
        return Throw;
      }
      r := FinishCoordinates(lat.value);
    }

    /** One record.  The cursor is never used again after a failure, so no `substr` starts past the end and no index
        exceeds the length; a success moves it strictly forward. */
    method TryParseOne() returns (r: Outcome<Feature>)
      requires Valid()
      modifies this`current, this`failed
      ensures Valid()
      ensures old(failed || current >= |db|) ==> r == Reject && failed
      ensures old(!failed && current < |db|) ==> Reached(r, ParseRecord(syntax, old(Rest()))) && (r.Reject? ==> failed)
      ensures r.Ok? ==> !failed && old(current) < current <= |db|
    {
      if failed || Finished() {
        failed := true;
        return Reject;
      }
      r := ParseFields();
      if r.Reject? {
        failed := true;
      }
    }
  }

  /** The outcome of the whole text when `done` records precede the rest. */
  function Onto(done: seq<Feature>, rest: Outcome<seq<Feature>>): Outcome<seq<Feature>> {
    match rest
    case Ok(fs) => Ok(done + fs)
    case Reject => Reject
    case Throw => Throw
  }

  lemma OntoPrepended(done: seq<Feature>, f: Feature, rest: Outcome<seq<Feature>>)
    ensures Onto(done, Prepended(f, rest)) == Onto(done + [f], rest)
  {
    if rest.Ok? {
      assert done + ([f] + rest.value) == done + [f] + rest.value;
    }
  }

  /** One turn of the loop: the record is appended to the list, or the outcome is final. */
  method ParseNext(parser: Parser, features: seq<Feature>) returns (r: Outcome<seq<Feature>>)
    requires parser.Valid() && !parser.Finished()
    modifies parser
    ensures parser.Valid() && parser.db == old(parser.db)
    ensures r.Ok? ==> !old(parser.failed) && !parser.failed && parser.current > old(parser.current)
    ensures old(parser.failed) ==> r == Reject
    ensures !old(parser.failed) ==>
              Onto(features, ParseRecords(parser.syntax, old(parser.Rest())))
              == if r.Ok? then Onto(r.value, ParseRecords(parser.syntax, parser.Rest())) else r
  {
    ghost var rest := parser.Rest();
    FirstRecord(parser.syntax, rest);
    var f := parser.TryParseOne();
    match f
    case Ok(feature) =>
      OntoPrepended(features, feature, ParseRecords(parser.syntax, parser.Rest()));
      r := Ok(features + [feature]);
    case Reject => r := Reject;
    case Throw => r := Throw;
  }

  lemma OntoEnd(x: Syntax, features: seq<Feature>)
    ensures Onto(features, ParseRecords(x, "")) == Ok(features)
  {
    assert features + [] == features;
  }

  lemma OntoNothing(all: Outcome<seq<Feature>>)
    ensures Onto([], all) == all
  {
    if all.Ok? {
      assert [] + all.value == all.value;
    }
  }

  /** The loop: fills the list record by record; a failed record clears it. */
  method ParseList(parser: Parser) returns (r: Outcome<seq<Feature>>)
    requires parser.Valid()
    modifies parser
    ensures old(parser.failed) ==> r == Ok([])
    ensures !old(parser.failed) ==>
              var all := ParseRecords(parser.syntax, old(parser.Rest())); r == if all.Reject? then Ok([]) else all
  {
    var features: seq<Feature> := [];
    ghost var all := if parser.failed then Reject else ParseRecords(parser.syntax, parser.Rest());
    OntoNothing(all);
    while !parser.Finished()
      invariant parser.Valid() && parser.failed == old(parser.failed) && parser.db == old(parser.db)
      invariant parser.failed ==> features == [] && all == Reject
      invariant !parser.failed ==> all == Onto(features, ParseRecords(parser.syntax, parser.Rest()))
      decreases |parser.db| - parser.current
    {
      var next := ParseNext(parser, features);
      match next
      case Ok(fs) => features := fs;
      case Reject => return Ok([]);
      case Throw => return Throw;
    }
    if !parser.failed {
      assert parser.Rest() == "";
      OntoEnd(parser.syntax, features);
    }
    r := Ok(features);
  }

  method ParseDb(text: string) returns (r: Outcome<seq<Feature>>)
    ensures r == Parsed(text)
    ensures !r.Reject?
  {
    var content := Strip(text);
    StripTwice(text);
    var parser := new Parser(content);
    r := ParseList(parser);
  }
}
