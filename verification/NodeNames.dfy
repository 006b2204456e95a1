/** The names the Node generator invents: module aliases for files, identifiers for message types. */
module NodeNames {
  import opened TextReplace

  function MapChars(f: char -> char, s: string): string {
    seq(|s|, i requires 0 <= i < |s| => f(s[i]))
  }

  /** Replacing one character by another everywhere is a pointwise map. */
  lemma {:induction false} SingleCharacter(s: string, a: char, b: char)
    ensures ReplaceAll(s, [a], [b]) == MapChars(c => if c == a then b else c, s)
    decreases |s|
  {
    if s != "" {
      SingleCharacter(s[1..], a, b);
      assert [a] <= s <==> s[0] == a;
    }
  }

  // ----- module aliases

  function AliasChar(c: char): char {
    if c == '-' then '$' else if c == '/' || c == '.' then '_' else c
  }

  function Alias(filename: string): string {
    MapChars(AliasChar, ProtoStripped(filename)) + "_pb"
  }

  /** Three passes over the whole name act as one simultaneous map: no pass sees a character an earlier one wrote. */
  method ModuleAlias(filename: string) returns (alias: string)
    ensures alias == Alias(filename)
  {
    var basename := StripProto(filename);
    ghost var name := basename;
    basename := StringReplace(basename, "-", "$", true);
    SingleCharacter(name, '-', '$');
    ghost var first := basename;
    basename := StringReplace(basename, "/", "_", true);
    SingleCharacter(first, '/', '_');
    ghost var second := basename;
    basename := StringReplace(basename, ".", "_", true);
    SingleCharacter(second, '.', '_');
    assert basename == MapChars(AliasChar, name);
    alias := basename + "_pb";
  }

  /** The alias, character by character. */
  lemma AliasSpelled(f: string)
    ensures
      var s, a := ProtoStripped(f), Alias(f);
      && |a| == |s| + 3 && a[|s|..] == "_pb"
      && forall i :: 0 <= i < |s| ==>
           if s[i] == '-' then a[i] == '$' else if s[i] == '/' || s[i] == '.' then a[i] == '_' else a[i] == s[i]
  {
    var s, a := ProtoStripped(f), Alias(f);
    assert a[|s|..] == "_pb";
    assert a[..|s|] == MapChars(AliasChar, s);
    forall i | 0 <= i < |s| ensures a[i] == AliasChar(s[i]) {
      assert a[i] == a[..|s|][i];
    }
  }

  /** Two names of equal length that differ only in characters `f` identifies. */
  ghost predicate Confused(f: char -> char, s: string, t: string) {
    |s| == |t| && forall i :: 0 <= i < |s| ==> f(s[i]) == f(t[i])
  }

  lemma MapsAgree(f: char -> char, s: string, t: string)
    ensures MapChars(f, s) == MapChars(f, t) <==> Confused(f, s, t)
  {
    if MapChars(f, s) == MapChars(f, t) {
      assert |s| == |MapChars(f, s)| == |t|;
      forall i | 0 <= i < |s| ensures f(s[i]) == f(t[i]) {
        assert MapChars(f, s)[i] == MapChars(f, t)[i];
      }
    }
  }

  predicate Separators(c: char, d: char) {
    c in {'/', '.', '_'} && d in {'/', '.', '_'}
  }

  predicate Dashes(c: char, d: char) {
    c in {'-', '$'} && d in {'-', '$'}
  }

  /** Main result: exactly which files share an alias. */
  lemma AliasCollision(f: string, g: string)
    ensures
      var s, t := ProtoStripped(f), ProtoStripped(g);
      Alias(f) == Alias(g) <==>
      |s| == |t| && forall i :: 0 <= i < |s| ==> s[i] == t[i] || Separators(s[i], t[i]) || Dashes(s[i], t[i])
  {
    var s, t := ProtoStripped(f), ProtoStripped(g);
    var a, b := MapChars(AliasChar, s), MapChars(AliasChar, t);
    assert (a + "_pb")[..|a|] == a && (b + "_pb")[..|b|] == b;
    assert |Alias(f)| == |a| + 3 && |Alias(g)| == |b| + 3;
    MapsAgree(AliasChar, s, t);
    assert forall c, d :: AliasChar(c) == AliasChar(d) <==> c == d || Separators(c, d) || Dashes(c, d);
  }

  predicate Plain(s: string) {
    '_' !in s && '.' !in s && '$' !in s
  }

  /** On names without `_`, `.` and `$` (beyond the suffix), the alias determines the file name up to its suffix. */
  lemma PlainAliasesDiffer(f: string, g: string)
    requires Plain(ProtoStripped(f)) && Plain(ProtoStripped(g))
    ensures Alias(f) == Alias(g) <==> ProtoStripped(f) == ProtoStripped(g)
  {
    var s, t := ProtoStripped(f), ProtoStripped(g);
    AliasCollision(f, g);
    if Alias(f) == Alias(g) {
      forall i | 0 <= i < |s| ensures s[i] == t[i] {
        assert s[i] in s && t[i] in t;
      }
    }
  }

  lemma StrippedOf(name: string)
    ensures ProtoStripped(name + ".proto") == name
  {
    var file := name + ".proto";
    assert file[|name|..] == ".proto";
    if |file| >= 11 {
      assert file[|file| - 11..][10] == 'o' && ".protodevel"[10] == 'l';
    }
  }

  /** Where a directory ends in the name does not show in the alias: for every `x` and `y` the two files collide. */
  lemma AliasesCollide(x: string, y: string)
    ensures Alias(x + "/" + y + ".proto") == Alias(x + "_" + y + ".proto")
    ensures x + "/" + y + ".proto" != x + "_" + y + ".proto"
  {
    var s, t := x + "/" + y, x + "_" + y;
    StrippedOf(s);
    StrippedOf(t);
    AliasCollision(s + ".proto", t + ".proto");
    assert (s + ".proto")[|x|] == '/' && (t + ".proto")[|x|] == '_';
  }

  // ----- identifiers of message types

  function IdentifierChar(c: char): char {
    if c == '.' then '_' else c
  }

  function Identifier(fullName: string): string {
    MapChars(IdentifierChar, fullName)
  }

  method MessageIdentifierName(name: string) returns (identifier: string)
    ensures identifier == Identifier(name)
    ensures |identifier| == |name| && forall i :: 0 <= i < |name| ==>
              if name[i] == '.' then identifier[i] == '_' else identifier[i] == name[i]
  {
    identifier := StringReplace(name, ".", "_", true);
    SingleCharacter(name, '.', '_');
    assert identifier == MapChars(IdentifierChar, name);
  }

  /** Exactly which message types share an identifier. */
  lemma IdentifierCollision(s: string, t: string)
    ensures Identifier(s) == Identifier(t) <==>
            |s| == |t| && forall i :: 0 <= i < |s| ==> s[i] == t[i] || (s[i] in {'.', '_'} && t[i] in {'.', '_'})
  {
    MapsAgree(IdentifierChar, s, t);
    assert forall c, d :: IdentifierChar(c) == IdentifierChar(d) <==> c == d || (c in {'.', '_'} && d in {'.', '_'});
  }
}
