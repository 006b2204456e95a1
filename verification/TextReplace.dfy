/** The string helpers shared by the code generators. */
module TextReplace {

  // ----- StringReplace

  predicate OccursAt(s: string, from: string, k: nat) {
    k + |from| <= |s| && s[k..k + |from|] == from
  }

  predicate NoneBefore(s: string, from: string, n: nat) {
    forall k: nat :: k < n ==> !OccursAt(s, from, k)
  }

  /** Leftmost, non-overlapping replacement that goes on behind each replaced occurrence. */
  function ReplaceAll(s: string, from: string, to: string): string
    requires from != ""
    decreases |s|
  {
    if s == "" then ""
    else if from <= s then to + ReplaceAll(s[|from|..], from, to)
    else [s[0]] + ReplaceAll(s[1..], from, to)
  }

  /** Replacement of the first occurrence only. */
  function ReplaceFirst(s: string, from: string, to: string): string
    decreases |s|
  {
    if from <= s then to + s[|from|..]
    else if s == "" then ""
    else [s[0]] + ReplaceFirst(s[1..], from, to)
  }

  /** `std::string::find`; the length of `s` plus one stands for `npos`. */
  method Find(s: string, from: string, pos: nat) returns (k: nat)
    requires pos <= |s|
    ensures pos <= k <= |s| + 1
    ensures k <= |s| ==> OccursAt(s, from, k)
    ensures forall i :: pos <= i < k ==> !OccursAt(s, from, i)
  {
    k := pos;
    while k + |from| <= |s|
      invariant pos <= k <= |s| + 1
      invariant forall i :: pos <= i < k ==> !OccursAt(s, from, i)
    {
      if s[k..k + |from|] == from {
        return;
      }
      k := k + 1;
    }
    k := |s| + 1;
  }

  /** Occurrences behind `done` are the occurrences in the rest. */
  lemma OccursBehind(done: string, rest: string, from: string, k: nat)
    ensures OccursAt(rest, from, k) <==> OccursAt(done + rest, from, |done| + k)
  {
    if k + |from| <= |rest| {
      assert (done + rest)[|done| + k..|done| + k + |from|] == rest[k..k + |from|];
    }
  }

  lemma NoneBehind(done: string, rest: string, from: string, n: nat)
    requires forall k :: |done| <= k < |done| + n ==> !OccursAt(done + rest, from, k)
    ensures NoneBefore(rest, from, n)
  {
    forall k: nat | k < n ensures !OccursAt(rest, from, k) {
      OccursBehind(done, rest, from, k);
      assert !OccursAt(done + rest, from, |done| + k);
    }
  }

  /** Text before the first occurrence is copied. */
  lemma {:induction false} CopiedAll(a: string, b: string, from: string, to: string)
    requires from != "" && NoneBefore(a + b, from, |a|)
    ensures ReplaceAll(a + b, from, to) == a + ReplaceAll(b, from, to)
    decreases |a|
  {
    if a == "" {
      assert a + b == b;
    } else {
      HeadCopied(a, b, from, to);
      CopiedAll(a[1..], b, from, to);
      Reattach(a, ReplaceAll(b, from, to));
    }
  }

  lemma {:induction false} CopiedFirst(a: string, b: string, from: string, to: string)
    requires NoneBefore(a + b, from, |a|)
    ensures ReplaceFirst(a + b, from, to) == a + ReplaceFirst(b, from, to)
    decreases |a|
  {
    if a == "" {
      assert a + b == b;
    } else {
      HeadCopied(a, b, from, to);
      CopiedFirst(a[1..], b, from, to);
      Reattach(a, ReplaceFirst(b, from, to));
    }
  }

  lemma HeadCopied(a: string, b: string, from: string, to: string)
    requires a != "" && NoneBefore(a + b, from, |a|)
    ensures NoneBefore(a[1..] + b, from, |a| - 1)
    ensures from != "" ==> ReplaceAll(a + b, from, to) == [a[0]] + ReplaceAll(a[1..] + b, from, to)
    ensures ReplaceFirst(a + b, from, to) == [a[0]] + ReplaceFirst(a[1..] + b, from, to)
  {
    var s := a + b;
    assert s[1..] == a[1..] + b && s == s[..1] + s[1..];
    NoneBehind(s[..1], s[1..], from, |a| - 1);
    assert !OccursAt(s, from, 0);
    assert !(from <= s);
  }

  lemma Reattach(a: string, r: string)
    requires a != ""
    ensures [a[0]] + (a[1..] + r) == a + r
  {
  }

  lemma FoundAll(s: string, from: string, to: string, k: nat)
    requires from != "" && OccursAt(s, from, k) && NoneBefore(s, from, k)
    ensures ReplaceAll(s, from, to) == s[..k] + (to + ReplaceAll(s[k + |from|..], from, to))
  {
    assert s == s[..k] + s[k..];
    CopiedAll(s[..k], s[k..], from, to);
    HeadReplaced(s[k..], from, to);
    assert s[k..][|from|..] == s[k + |from|..];
  }

  /** Only the first occurrence is replaced. */
  lemma FoundFirst(s: string, from: string, to: string, k: nat)
    requires OccursAt(s, from, k) && NoneBefore(s, from, k)
    ensures ReplaceFirst(s, from, to) == s[..k] + (to + s[k + |from|..])
  {
    assert s == s[..k] + s[k..];
    CopiedFirst(s[..k], s[k..], from, to);
    HeadReplaced(s[k..], from, to);
    assert s[k..][|from|..] == s[k + |from|..];
  }

  lemma HeadReplaced(s: string, from: string, to: string)
    requires from <= s
    ensures from != "" ==> ReplaceAll(s, from, to) == to + ReplaceAll(s[|from|..], from, to)
    ensures ReplaceFirst(s, from, to) == to + s[|from|..]
  {
  }

  lemma NotFound(s: string, from: string, to: string)
    requires NoneBefore(s, from, |s| + 1)
    ensures from != "" ==> ReplaceAll(s, from, to) == s
    ensures ReplaceFirst(s, from, to) == s
  {
    assert !OccursAt(s, from, |s|);
    assert s + "" == s;
    CopiedFirst(s, "", from, to);
    if from != "" {
      CopiedAll(s, "", from, to);
    }
  }

  /** The text done so far, followed by the text still to search once that is replaced, is the result. */
  ghost predicate OnWay(done: string, rest: string, text: string, from: string, to: string, replaceAll: bool) {
    if replaceAll then from != "" && done + ReplaceAll(rest, from, to) == ReplaceAll(text, from, to)
    else done == "" && rest == text
  }

  /** One replacement in place, seen as text done and text still to search. */
  lemma Splice(done: string, rest: string, from: string, to: string, j: nat)
    requires OccursAt(rest, from, j)
    ensures var str, k := done + rest, |done| + j;
            str[..k] + to + str[k + |from|..] == done + (rest[..j] + to) + rest[j + |from|..]
  {
    var str := done + rest;
    assert str[..|done| + j] == done + rest[..j];
    assert str[|done| + j + |from|..] == rest[j + |from|..];
  }

  lemma ReplacedOne(done: string, rest: string, text: string, from: string, to: string, replaceAll: bool, j: nat)
    requires OnWay(done, rest, text, from, to, replaceAll)
    requires OccursAt(rest, from, j) && NoneBefore(rest, from, j)
    ensures replaceAll ==> OnWay(done + (rest[..j] + to), rest[j + |from|..], text, from, to, replaceAll)
    ensures !replaceAll ==> done + (rest[..j] + to) + rest[j + |from|..] == ReplaceFirst(text, from, to)
  {
    if replaceAll {
      FoundAll(rest, from, to, j);
      Regroup(done, rest[..j], to, ReplaceAll(rest[j + |from|..], from, to));
    } else {
      FoundFirst(rest, from, to, j);
      Regroup(done, rest[..j], to, rest[j + |from|..]);
    }
  }

  lemma Regroup(a: string, b: string, c: string, d: string)
    ensures a + (b + c) + d == a + (b + (c + d))
  {
  }

  /** Nothing more is found behind what is done. */
  lemma ReplacedLast(done: string, rest: string, text: string, from: string, to: string, replaceAll: bool)
    requires OnWay(done, rest, text, from, to, replaceAll)
    requires forall i :: |done| <= i <= |done + rest| ==> !OccursAt(done + rest, from, i)
    ensures done + rest == if replaceAll then ReplaceAll(text, from, to) else ReplaceFirst(text, from, to)
  {
    NoneBehind(done, rest, from, |rest| + 1);
    NotFound(rest, from, to);
  }

  /** The occurrence at `k` is replaced: what is done then, and what is left to search. */
  lemma ReplacedNext(done: string, rest: string, text: string, from: string, to: string, replaceAll: bool, k: nat)
    returns (done': string, rest': string)
    requires OnWay(done, rest, text, from, to, replaceAll) && |done| <= k && OccursAt(done + rest, from, k)
    requires forall i :: |done| <= i < k ==> !OccursAt(done + rest, from, i)
    ensures |done'| == k + |to| && |rest'| <= |rest| - |from|
    ensures var str := done + rest; str[..k] + to + str[k + |from|..] == done' + rest'
    ensures replaceAll ==> OnWay(done', rest', text, from, to, replaceAll)
    ensures !replaceAll ==> done' + rest' == ReplaceFirst(text, from, to)
  {
    var j: nat := k - |done|;
    NoneBehind(done, rest, from, j);
    OccursBehind(done, rest, from, j);
    ReplacedOne(done, rest, text, from, to, replaceAll, j);
    Splice(done, rest, from, to, j);
    done', rest' := done + (rest[..j] + to), rest[j + |from|..];
  }

  /** The in-place loop.  With `replaceAll` the search goes on behind the inserted text, so the loop ends for every
      non-empty `from`; with an empty one it would find `from` again for ever. */
  method StringReplace(text: string, from: string, to: string, replaceAll: bool) returns (str: string)
    requires replaceAll ==> from != ""
    ensures str == if replaceAll then ReplaceAll(text, from, to) else ReplaceFirst(text, from, to)
  {
    str := text;
    var pos := 0;
    ghost var done, rest := "", text;
    while true
      invariant pos == |done| && str == done + rest && OnWay(done, rest, text, from, to, replaceAll)
      decreases |rest|
    {
      var k := Find(str, from, pos);
      if k > |str| {
        ReplacedLast(done, rest, text, from, to, replaceAll);
        return;
      }
      done, rest := ReplacedNext(done, rest, text, from, to, replaceAll, k);
      str := str[..k] + to + str[k + |from|..];
      pos := k + |to|;
      if !replaceAll {
        return;
      }
    }
  }

  // ----- what replacement means: cut at the occurrences, join with the replacement

  function Join(parts: seq<string>, glue: string): string
    requires parts != []
  {
    if |parts| == 1 then parts[0] else parts[0] + glue + Join(parts[1..], glue)
  }

  /** `parts` is a text cut at the leftmost, non-overlapping occurrences of `from`. */
  predicate CutAt(parts: seq<string>, from: string) {
    && parts != []
    && (forall p :: 0 <= p < |parts| - 1 ==> NoneBefore(parts[p] + from, from, |parts[p]|))
    && NoneBefore(parts[|parts| - 1], from, |parts[|parts| - 1]| + 1)
  }

  /** The first cut of a text. */
  lemma FirstCut(head: string, tail: string, from: string, to: string)
    requires from != "" && NoneBefore(head + from, from, |head|)
    ensures ReplaceAll(head + from + tail, from, to) == head + to + ReplaceAll(tail, from, to)
  {
    var s := head + from + tail;
    forall k: nat | k < |head| ensures !OccursAt(s, from, k) {
      assert s[k..k + |from|] == (head + from)[k..k + |from|];
      assert !OccursAt(head + from, from, k);
    }
    assert s[|head|..|head| + |from|] == from;
    FoundAll(s, from, to, |head|);
    assert s[|head| + |from|..] == tail && s[..|head|] == head;
    Regroup("", head, to, ReplaceAll(tail, from, to));
  }

  lemma CutTail(parts: seq<string>, from: string)
    requires CutAt(parts, from) && |parts| > 1
    ensures CutAt(parts[1..], from) && NoneBefore(parts[0] + from, from, |parts[0]|)
  {
    assert parts[1..][|parts| - 2] == parts[|parts| - 1];
    forall p | 0 <= p < |parts| - 2 ensures NoneBefore(parts[1..][p] + from, from, |parts[1..][p]|) {
      assert parts[1..][p] == parts[p + 1];
    }
  }

  /** Main result, one half: whatever the cut, replacing is joining with the replacement instead; inserted text is never
      looked at, even where it contains `from`. */
  lemma {:induction false} ReplaceIsJoin(parts: seq<string>, from: string, to: string)
    requires from != "" && CutAt(parts, from)
    ensures ReplaceAll(Join(parts, from), from, to) == Join(parts, to)
    decreases |parts|
  {
    if |parts| == 1 {
      NotFound(parts[0], from, to);
    } else {
      CutTail(parts, from);
      ReplaceIsJoin(parts[1..], from, to);
      FirstCut(parts[0], Join(parts[1..], from), from, to);
    }
  }

  /** Main result, other half: every text can be cut. */
  lemma {:induction false} EveryTextIsCut(s: string, from: string) returns (parts: seq<string>)
    requires from != ""
    ensures CutAt(parts, from) && Join(parts, from) == s
    decreases |s|
  {
    var k := FirstOccurrence(s, from);
    if k > |s| {
      parts := [s];
    } else {
      var more := EveryTextIsCut(s[k + |from|..], from);
      parts := [s[..k]] + more;
      assert parts[1..] == more;
      assert s == s[..k] + from + s[k + |from|..];
      forall i: nat | i < k ensures !OccursAt(s[..k] + from, from, i) {
        assert (s[..k] + from)[i..i + |from|] == s[i..i + |from|];
        assert !OccursAt(s, from, i);
      }
      assert parts[|parts| - 1] == more[|more| - 1];
    }
  }

  lemma FirstOccurrence(s: string, from: string) returns (k: nat)
    ensures k <= |s| + 1 && NoneBefore(s, from, k)
    ensures k <= |s| ==> OccursAt(s, from, k)
  {
    k := 0;
    while k <= |s| && !OccursAt(s, from, k)
      invariant k <= |s| + 1 && NoneBefore(s, from, k)
    {
      k := k + 1;
    }
  }

  // ----- prefixes and suffixes

  predicate EndsWith(s: string, suffix: string) {
    |suffix| <= |s| && s[|s| - |suffix|..] == suffix
  }

  method StripSuffix(filename: string, suffix: string) returns (stripped: string, found: bool)
    ensures found <==> EndsWith(filename, suffix)
    ensures filename == stripped + if found then suffix else ""
  {
    stripped := filename;
    if |filename| >= |suffix| && filename[|filename| - |suffix|..] == suffix {
      stripped := filename[..|filename| - |suffix|];
      return stripped, true;
    }
    return filename, false;
  }

  function WithoutPrefix(name: string, prefix: string): string {
    if prefix <= name then name[|prefix|..] else name
  }

  method StripPrefix(name: string, prefix: string) returns (stripped: string, found: bool)
    ensures found <==> prefix <= name
    ensures stripped == WithoutPrefix(name, prefix) && name == (if found then prefix else "") + stripped
  {
    if |name| >= |prefix| && name[..|prefix|] == prefix {
      return name[|prefix|..], true;
    }
    return name, false;
  }

  /** The name without `.protodevel` or, failing that, `.proto`. */
  function ProtoStripped(filename: string): string {
    if EndsWith(filename, ".protodevel") then filename[..|filename| - 11]
    else if EndsWith(filename, ".proto") then filename[..|filename| - 6]
    else filename
  }

  method StripProto(filename: string) returns (name: string)
    ensures name == ProtoStripped(filename)
    ensures filename == name + ".protodevel" ||
            (!EndsWith(filename, ".protodevel") && filename == name + ".proto") ||
            (!EndsWith(filename, ".protodevel") && !EndsWith(filename, ".proto") && filename == name)
  {
    var found;
    name, found := StripSuffix(filename, ".protodevel");
    if !found {
      name, found := StripSuffix(name, ".proto");
    }
  }

  // ----- letter case

  function Lower(c: char): char {
    if 'A' <= c <= 'Z' then c - 'A' + 'a' else c
  }

  function LowercaseFirst(s: string): string {
    if s == "" then "" else [Lower(s[0])] + s[1..]
  }

  method LowercaseFirstLetter(s: string) returns (r: string)
    ensures r == LowercaseFirst(s)
    ensures |r| == |s| && forall i :: 1 <= i < |s| ==> r[i] == s[i]
    ensures s != "" ==> r[0] as int == s[0] as int + if 65 <= s[0] as int <= 90 then 32 else 0
  {
    if s == "" {
      return s;
    }
    r := s[0 := Lower(s[0])];
  }

  /** Exactly which names become the same: those that differ in the case of the first letter at most. */
  lemma LowercaseCollision(s: string, t: string)
    ensures LowercaseFirst(s) == LowercaseFirst(t) <==>
            s == t || (s != "" && t != "" && Lower(s[0]) == Lower(t[0]) && s[1..] == t[1..])
  {
    if s != "" && t != "" {
      assert LowercaseFirst(s)[1..] == s[1..] && LowercaseFirst(t)[1..] == t[1..];
      assert LowercaseFirst(s)[0] == Lower(s[0]) && LowercaseFirst(t)[0] == Lower(t[0]);
    }
  }
}
