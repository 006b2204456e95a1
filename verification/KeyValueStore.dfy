/** The key/value service and the client-side interceptor that caches its answers. */
module KeyValueStore {
  import opened Common

  datatype Pair = Pair(key: string, value: string)

  /** `c_str()` handed to `strcmp`: the key up to its first NUL. */
  function CStr(s: string): string {
    if s == "" || s[0] == '\0' then "" else [s[0]] + CStr(s[1..])
  }

  /** The value of the first pair whose key compares equal, or the empty string. */
  function Answer(table: seq<Pair>, key: string): string {
    if table == [] then ""
    else if CStr(key) == CStr(table[0].key) then table[0].value
    else Answer(table[1..], key)
  }

  /** The key is cut at its first NUL. */
  lemma {:induction false} CStrExactly(s: string, t: string)
    ensures t == CStr(s) <==> t <= s && '\0' !in t && (|t| < |s| ==> s[|t|] == '\0')
    decreases |s|
  {
    if s != "" && s[0] != '\0' {
      CStrExactly(s[1..], CStr(s[1..]));
      if t != "" {
        CStrExactly(s[1..], t[1..]);
        assert t == [t[0]] + t[1..];
        CutBehind(s, t);
      }
    }
  }

  lemma CutBehind(s: string, t: string)
    requires s != "" && t != ""
    ensures t <= s <==> t[0] == s[0] && t[1..] <= s[1..]
    ensures '\0' !in t <==> t[0] != '\0' && '\0' !in t[1..]
  {
    assert t == [t[0]] + t[1..];
  }

  /** The answer is the value of the first pair with an equal key; without one it is empty. */
  lemma {:induction false} FirstPair(table: seq<Pair>, key: string) returns (i: nat)
    ensures i <= |table| && forall j :: 0 <= j < i ==> CStr(table[j].key) != CStr(key)
    ensures i < |table| ==> CStr(table[i].key) == CStr(key)
    ensures Answer(table, key) == if i < |table| then table[i].value else ""
    decreases |table|
  {
    if table == [] || CStr(key) == CStr(table[0].key) {
      i := 0;
    } else {
      i := FirstPair(table[1..], key);
      i := i + 1;
    }
  }

  function Answers(table: seq<Pair>, keys: seq<string>): seq<string> {
    seq(|keys|, i requires 0 <= i < |keys| => Answer(table, keys[i]))
  }

  /** The linear search of the server. */
  method GetValueFromMap(table: seq<Pair>, key: string) returns (value: string)
    ensures value == Answer(table, key)
  {
    for i := 0 to |table|
      invariant Answer(table, key) == Answer(table[i..], key)
    {
      if CStr(key) == CStr(table[i].key) {
        return table[i].value;
      }
      assert table[i..][1..] == table[i + 1..];
    }
    value := "";
  }

  /** The handler of the server: reads until the stream ends, writing one answer per request. */
  method ServeValues(table: seq<Pair>, requests: seq<string>) returns (responses: seq<string>)
    ensures responses == Answers(table, requests)
  {
    responses := [];
    for i := 0 to |requests|
      invariant responses == Answers(table, requests[..i])
    {
      var value := GetValueFromMap(table, requests[i]);
      responses := responses + [value];
      assert requests[..i + 1] == requests[..i] + [requests[i]];
    }
    assert requests[..|requests|] == requests;
  }

  /** What a read comes to: a response, or waiting for one that the server does not send. */
  datatype Outcome = Value(value: string) | Blocked

  /** A stream to the server: what was written, and how many answers were read. */
  class ServerStream {
    const table: seq<Pair>
    var requests: seq<string>
    var taken: nat
    var closed: bool

    constructor (table: seq<Pair>)
      ensures this.table == table && requests == [] && taken == 0 && !closed
    {
      this.table := table;
      requests, taken, closed := [], 0, false;
    }

    method Write(key: string)
      modifies this`requests
      ensures requests == old(requests) + [key]
    {
      requests := requests + [key];
    }

    /** Answers arrive in the order of the requests; a read without a request waits for one. */
    method Read() returns (r: Outcome)
      modifies this`taken
      ensures old(taken) < |requests| ==> r == Value(Answer(table, requests[old(taken)])) && taken == old(taken) + 1
      ensures old(taken) >= |requests| ==> r == Blocked && taken == old(taken)
    {
      if taken < |requests| {
        var value := GetValueFromMap(table, requests[taken]);
        taken := taken + 1;
        return Value(value);
      }
      return Blocked;
    }

    method WritesDone()
      modifies this`closed
      ensures closed
    {
      closed := true;
    }
  }

  // ----- the interceptor

  /** The hook points `Intercept` looks at. */
  datatype Hook = SendInitialMetadata | SendMessage | SendClose | RecvMessage | RecvStatus

  /** A batch of operations: the message being sent, what its serialized form deserializes to if it does, and
      whether the status received is OK. */
  datatype Batch = Batch(hooks: set<Hook>, message: Option<string>, serialized: Option<string>, ok: bool)

  function KeyOf(batch: Batch): string
    requires batch.message.None? ==> batch.serialized.Some?
  {
    if batch.message.Some? then batch.message.value else batch.serialized.value
  }

  /** What the cache and the response field hold, and what has been asked of the server. */
  datatype Cache = Cache(entries: map<string, string>, response: string, upstream: seq<string>)

  const Empty := Cache(map[], "", [])

  /** A message is sent: the cached value, or the server's answer, becomes the response. */
  function Sent(table: seq<Pair>, c: Cache, key: string): Cache {
    if key in c.entries then c.(response := c.entries[key])
    else Cache(c.entries[key := Answer(table, key)], Answer(table, key), c.upstream + [key])
  }

  /** Every entry is the server's answer, and the keys asked upstream are exactly those cached, each once. */
  ghost predicate Faithful(table: seq<Pair>, c: Cache) {
    && (forall k :: k in c.entries ==> c.entries[k] == Answer(table, k))
    && (forall k :: k in c.upstream <==> k in c.entries)
    && (forall i, j :: 0 <= i < j < |c.upstream| ==> c.upstream[i] != c.upstream[j])
  }

  lemma SentKeeps(table: seq<Pair>, c: Cache, key: string)
    requires Faithful(table, c)
    ensures Faithful(table, Sent(table, c, key)) && Sent(table, c, key).response == Answer(table, key)
  {
  }

  class CachingInterceptor {
    var stream: ServerStream?
    var cachedMap: map<string, string>
    var response: string

    ghost predicate Valid()
      reads this, stream
    {
      stream != null ==> stream.taken == |stream.requests|
    }

    ghost function View(): Cache
      reads this, stream
    {
      Cache(cachedMap, response, if stream == null then [] else stream.requests)
    }

    constructor ()
      ensures Valid() && View() == Empty && stream == null
    {
      stream, cachedMap, response := null, map[], "";
    }

    /** The key of the message being sent, from the message itself or from its serialized form, which must
        deserialize. */
    method RequestedKey(batch: Batch) returns (key: string)
      requires batch.message.None? ==> batch.serialized.Some?
      ensures key == KeyOf(batch)
      ensures batch.message == Some(key) || (batch.message.None? && batch.serialized == Some(key))
    {
      if batch.message.Some? {
        key := batch.message.value;
      } else {
        key := batch.serialized.value;
      }
    }

    /** One batch.  `received` is what the client's read will see, `ok` the status it will see, and `table` the server a
        new stream is opened to.  The hijacked call never reaches the server itself. */
    method Intercept(batch: Batch, table: seq<Pair>) returns (received: string, ok: bool, hijack: bool)
      requires Valid() && (stream == null <==> SendInitialMetadata in batch.hooks)
      requires SendMessage in batch.hooks && batch.message.None? ==> batch.serialized.Some?
      modifies this, stream
      ensures Valid() && stream != null && (if old(stream) == null then fresh(stream) else stream == old(stream))
      ensures stream.table == if old(stream) == null then table else old(stream.table)
      ensures hijack <==> SendInitialMetadata in batch.hooks
      ensures View() ==
              if SendMessage in batch.hooks then Sent(stream.table, old(View()), KeyOf(batch)) else old(View())
      ensures received == if RecvMessage in batch.hooks then response else ""
      ensures ok <==> batch.ok || RecvStatus in batch.hooks
    {
      hijack := false;
      if SendInitialMetadata in batch.hooks {
        hijack := true;
        stream := new ServerStream(table);
      }
      if SendMessage in batch.hooks {
        var key := RequestedKey(batch);
        if key in cachedMap {
          response := cachedMap[key];
        } else {
          stream.Write(key);
          var read := stream.Read();
          response := read.value;
          cachedMap := cachedMap[key := response];
        }
      }
      if SendClose in batch.hooks {
        stream.WritesDone();
      }
      received := if RecvMessage in batch.hooks then response else "";
      ok := batch.ok;
      if RecvStatus in batch.hooks {
        ok := true;
      }
    }
  }

  // ----- the client's loop through the interceptor

  /** The keys in order of their first appearance. */
  function FirstSeen(keys: seq<string>): seq<string> {
    if keys == [] then []
    else var front, key := keys[..|keys| - 1], keys[|keys| - 1];
         FirstSeen(front) + if key in front then [] else [key]
  }

  lemma {:induction false} FirstSeenIsDistinct(keys: seq<string>)
    ensures forall k :: k in FirstSeen(keys) <==> k in keys
    ensures forall i, j :: 0 <= i < j < |FirstSeen(keys)| ==> FirstSeen(keys)[i] != FirstSeen(keys)[j]
    decreases |keys|
  {
    if keys != [] {
      FirstSeenIsDistinct(keys[..|keys| - 1]);
      assert keys == keys[..|keys| - 1] + [keys[|keys| - 1]];
    }
  }

  /** Each key is there once, and they are in the order in which they first appear: at the positions `at`, which are
      those of the keys that have not appeared before. */
  lemma {:induction false} FirstSeenExactly(keys: seq<string>) returns (at: seq<nat>)
    ensures Picks(keys, at, FirstSeen(keys))
    ensures forall i: nat :: i < |keys| ==> (i in at <==> keys[i] !in keys[..i])
    decreases |keys|
  {
    if keys == [] {
      at := [];
    } else {
      var n := |keys| - 1;
      var front, key := keys[..n], keys[n];
      at := FirstSeenExactly(front);
      PicksSkip(front, key, at, FirstSeen(front));
      PicksTake(front, key, at, FirstSeen(front));
      assert keys == front + [key];
      assert forall i :: 0 <= i <= n ==> front[..i] == keys[..i];
      if key !in front {
        at := at + [n];
      }
    }
  }

  /** The cache after a sequence of sends. */
  function SentAll(table: seq<Pair>, keys: seq<string>): Cache {
    if keys == [] then Empty else Sent(table, SentAll(table, keys[..|keys| - 1]), keys[|keys| - 1])
  }

  /** After any sends every entry is the server's answer, the response is the answer to the last key, and the keys
      asked of the server are the distinct keys in order of first appearance. */
  lemma {:induction false} CacheIsFaithful(table: seq<Pair>, keys: seq<string>)
    ensures var c := SentAll(table, keys);
            && Faithful(table, c) && c.upstream == FirstSeen(keys)
            && c.response == if keys == [] then "" else Answer(table, keys[|keys| - 1])
    decreases |keys|
  {
    if keys != [] {
      var front, key := keys[..|keys| - 1], keys[|keys| - 1];
      CacheIsFaithful(table, front);
      SentKeeps(table, SentAll(table, front), key);
      FirstSeenIsDistinct(front);
    }
  }

  /** One write and one read of the client. */
  method Exchange(cache: CachingInterceptor, key: string) returns (value: string)
    requires cache.Valid() && cache.stream != null
    modifies cache, cache.stream
    ensures cache.Valid() && cache.stream == old(cache.stream)
    ensures cache.View() == Sent(cache.stream.table, old(cache.View()), key) && value == cache.response
  {
    var _, _, _ := cache.Intercept(Batch({SendMessage}, Some(key), None, false), []);
    var received, _, _ := cache.Intercept(Batch({RecvMessage}, None, None, false), []);
    value := received;
  }

  /** The client's write/read loop.  Through the interceptor it reads exactly what the server itself would answer,
      while the server is asked for each distinct key once, in order of first appearance. */
  method GetValues(table: seq<Pair>, keys: seq<string>) returns (values: seq<string>, upstream: seq<string>)
    ensures values == Answers(table, keys)
    ensures upstream == FirstSeen(keys)
  {
    var cache := new CachingInterceptor();
    var _, _, _ := cache.Intercept(Batch({SendInitialMetadata}, None, None, false), table);
    values := [];
    for i := 0 to |keys|
      invariant cache.Valid() && fresh(cache) && cache.stream != null && fresh(cache.stream)
      invariant cache.stream.table == table
      invariant cache.View() == SentAll(table, keys[..i])
      invariant values == Answers(table, keys[..i])
    {
      OneMoreKey(table, keys, i);
      OneMoreAnswer(table, keys, i);
      var value := Exchange(cache, keys[i]);
      values := values + [value];
    }
    assert keys[..|keys|] == keys;
    CacheIsFaithful(table, keys);
    var _, _, _ := cache.Intercept(Batch({SendClose}, None, None, false), table);
    upstream := cache.stream.requests;
  }

  lemma OneMoreKey(table: seq<Pair>, keys: seq<string>, i: nat)
    requires i < |keys|
    ensures SentAll(table, keys[..i + 1]) == Sent(table, SentAll(table, keys[..i]), keys[i])
    ensures SentAll(table, keys[..i + 1]).response == Answer(table, keys[i])
  {
    var done := keys[..i + 1];
    assert done[..i] == keys[..i] && done[i] == keys[i];
    CacheIsFaithful(table, done);
  }

  lemma OneMoreAnswer(table: seq<Pair>, keys: seq<string>, i: nat)
    requires i < |keys|
    ensures Answers(table, keys[..i + 1]) == Answers(table, keys[..i]) + [Answer(table, keys[i])]
  {
    assert keys[..i + 1] == keys[..i] + [keys[i]];
  }

  // ----- clients that do not alternate writes and reads

  datatype Op = Write(key: string) | Read

  /** What a client reads through the interceptor. */
  function Through(table: seq<Pair>, c: Cache, ops: seq<Op>): seq<Outcome>
    decreases |ops|
  {
    if ops == [] then []
    else match ops[0]
         case Write(key) => Through(table, Sent(table, c, key), ops[1..])
         case Read => [Value(c.response)] + Through(table, c, ops[1..])
  }

  /** What it reads from the server itself, which answers in order; `taken` answers have been read.  With every answer
      read, the server waits for a request and the client for a response: nothing follows. */
  function Direct(table: seq<Pair>, written: seq<string>, taken: nat, ops: seq<Op>): seq<Outcome>
    decreases |ops|
  {
    if ops == [] then []
    else match ops[0]
         case Write(key) => Direct(table, written + [key], taken, ops[1..])
         case Read =>
           if taken < |written|
           then [Value(Answer(table, written[taken]))] + Direct(table, written, taken + 1, ops[1..])
           else [Blocked]
  }

  /** At every read there is an unanswered key, and the oldest is, as a C string, the key written last. */
  predicate InStep(written: seq<string>, taken: nat, ops: seq<Op>)
    decreases |ops|
  {
    ops == [] ||
    match ops[0]
    case Write(key) => InStep(written + [key], taken, ops[1..])
    case Read =>
      && taken < |written| && CStr(written[taken]) == CStr(written[|written| - 1])
      && InStep(written, taken + 1, ops[1..])
  }

  lemma {:induction false} AnswerOfEqual(table: seq<Pair>, a: string, b: string)
    requires CStr(a) == CStr(b)
    ensures Answer(table, a) == Answer(table, b)
    decreases |table|
  {
    if table != [] {
      AnswerOfEqual(table[1..], a, b);
    }
  }

  ghost predicate Reflects(table: seq<Pair>, c: Cache, written: seq<string>) {
    Faithful(table, c) && c.response == if written == [] then "" else Answer(table, written[|written| - 1])
  }

  lemma {:induction false} InStepAgrees(table: seq<Pair>, c: Cache, written: seq<string>, taken: nat, ops: seq<Op>)
    requires Reflects(table, c, written) && InStep(written, taken, ops)
    ensures Through(table, c, ops) == Direct(table, written, taken, ops)
    decreases |ops|
  {
    if ops != [] {
      match ops[0]
      case Write(key) =>
        SentKeeps(table, c, key);
        InStepAgrees(table, Sent(table, c, key), written + [key], taken, ops[1..]);
      case Read =>
        AnswerOfEqual(table, written[taken], written[|written| - 1]);
        InStepAgrees(table, c, written, taken + 1, ops[1..]);
    }
  }

  /** A server for which an out-of-step read shows. */
  lemma {:induction false} OutOfStepDiffers(written: seq<string>, taken: nat, ops: seq<Op>) returns (table: seq<Pair>)
    requires !InStep(written, taken, ops)
    ensures forall c :: Reflects(table, c, written) ==> Through(table, c, ops) != Direct(table, written, taken, ops)
    decreases |ops|
  {
    match ops[0]
    case Write(key) =>
      table := OutOfStepDiffers(written + [key], taken, ops[1..]);
      forall c | Reflects(table, c, written) ensures Through(table, c, ops) != Direct(table, written, taken, ops) {
        SentKeeps(table, c, key);
      }
    case Read =>
      if taken >= |written| {
        table := [];
        forall c | Reflects(table, c, written) ensures Through(table, c, ops) != Direct(table, written, taken, ops) {
          assert Through(table, c, ops)[0].Value? && Direct(table, written, taken, ops)[0] == Blocked;
        }
      } else if CStr(written[taken]) != CStr(written[|written| - 1]) {
        table := [Pair(written[|written| - 1], "x")];
        assert Answer(table, written[|written| - 1]) == "x";
        assert Answer(table, written[taken]) == "" by { assert table[1..] == []; }
        forall c | Reflects(table, c, written) ensures Through(table, c, ops) != Direct(table, written, taken, ops) {
          assert Through(table, c, ops)[0] == Value("x") && Direct(table, written, taken, ops)[0] == Value("");
        }
      } else {
        table := OutOfStepDiffers(written, taken + 1, ops[1..]);
        forall c | Reflects(table, c, written) ensures Through(table, c, ops) != Direct(table, written, taken, ops) {
          assert Through(table, c, ops)[1..] == Through(table, c, ops[1..]);
          assert Direct(table, written, taken, ops)[1..] == Direct(table, written, taken + 1, ops[1..]);
        }
      }
  }

  /** Main result.  The interceptor is transparent, for every server, to exactly those clients whose reads are in step
      with their writes; clients that alternate the two are. */
  lemma TransparentIffInStep(ops: seq<Op>)
    ensures (forall table :: Through(table, Empty, ops) == Direct(table, [], 0, ops)) <==> InStep([], 0, ops)
  {
    assert forall table :: Reflects(table, Empty, []);
    if InStep([], 0, ops) {
      forall table ensures Through(table, Empty, ops) == Direct(table, [], 0, ops) {
        InStepAgrees(table, Empty, [], 0, ops);
      }
    } else {
      var table := OutOfStepDiffers([], 0, ops);
      assert Through(table, Empty, ops) != Direct(table, [], 0, ops);
    }
  }

  /** The client of the example: one read after each write. */
  function Alternate(keys: seq<string>): seq<Op> {
    if keys == [] then [] else [Write(keys[0]), Read] + Alternate(keys[1..])
  }

  lemma {:induction false} AlternatingIsInStep(written: seq<string>, keys: seq<string>)
    ensures InStep(written, |written|, Alternate(keys))
    decreases |keys|
  {
    if keys != [] {
      var ops, next := Alternate(keys), written + [keys[0]];
      AlternatingIsInStep(next, keys[1..]);
      assert ops[1..] == [Read] + Alternate(keys[1..]);
      assert ops[1..][1..] == Alternate(keys[1..]);
      assert InStep(next, |written|, ops[1..]);
    }
  }
}
