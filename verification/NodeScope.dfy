/** Every name the generated module uses is declared in its one scope, and when it also stands for the right thing. */
module NodeScope {
  import opened Common
  import opened TextReplace
  import opened NodeNames
  import opened NodePaths
  import opened NodeModule
  import opened NodeLinks

  // ----- looking a name up in several lists of declarations

  lemma {:induction false} LookupConcat<T>(a: seq<Binding<T>>, b: seq<Binding<T>>, name: string)
    ensures Lookup(a + b, name) == if Lookup(b, name).Some? then Lookup(b, name) else Lookup(a, name)
    decreases |b|
  {
    if b == [] {
      assert a + b == a;
    } else {
      LookupConcat(a, b[..|b| - 1], name);
      assert (a + b)[..|a + b| - 1] == a + b[..|b| - 1];
    }
  }

  function Means<T>(found: Option<T>, meaning: T -> Meaning): Option<Meaning> {
    if found.None? then None else Some(meaning(found.value))
  }

  lemma {:induction false} LookupVariables<T>(bs: seq<Binding<T>>, meaning: T -> Meaning, name: string)
    ensures Lookup(Variables(bs, meaning), name) == Means(Lookup(bs, name), meaning)
    decreases |bs|
  {
    if bs != [] {
      LookupVariables(bs[..|bs| - 1], meaning, name);
      assert Variables(bs, meaning)[..|bs| - 1] == Variables(bs[..|bs| - 1], meaning);
    }
  }

  lemma NamesApart(id: string, other: string)
    ensures SerializerName(id) != DeserializerName(other)
    ensures SerializerName(id) == SerializerName(other) <==> id == other
    ensures DeserializerName(id) == DeserializerName(other) <==> id == other
  {
    assert SerializerName(id)[0] == 's' && DeserializerName(other)[0] == 'd';
    assert SerializerName(id)[10..] == id && SerializerName(other)[10..] == other;
    assert DeserializerName(id)[12..] == id && DeserializerName(other)[12..] == other;
  }

  /** The functions of a name are those of the last transformer printed for it. */
  lemma {:induction false} LookupFunctions(bs: seq<Binding<Transformer>>, id: string)
    ensures Lookup(Functions(bs), SerializerName(id)) == Means(Lookup(bs, id), t => Serializer(t))
    ensures Lookup(Functions(bs), DeserializerName(id)) == Means(Lookup(bs, id), t => Deserializer(t))
    decreases |bs|
  {
    if bs != [] {
      var init, last := bs[..|bs| - 1], bs[|bs| - 1];
      LookupFunctions(init, id);
      LookupPair(last, id);
      LookupConcat(Functions(init), FunctionsOf(last), SerializerName(id));
      LookupConcat(Functions(init), FunctionsOf(last), DeserializerName(id));
    }
  }

  lemma LookupPair(b: Binding<Transformer>, id: string)
    ensures Lookup(FunctionsOf(b), SerializerName(id)) == if b.name == id then Some(Serializer(b.value)) else None
    ensures Lookup(FunctionsOf(b), DeserializerName(id)) == if b.name == id then Some(Deserializer(b.value)) else None
  {
    NamesApart(b.name, id);
    NamesApart(id, b.name);
    var pair := FunctionsOf(b);
    assert pair == [pair[0]] + [pair[1]];
    LookupConcat([pair[0]], [pair[1]], SerializerName(id));
    LookupConcat([pair[0]], [pair[1]], DeserializerName(id));
    assert [pair[0]][..0] == [] && [pair[1]][..0] == [];
  }

  /** Functions never stand for what is required. */
  lemma {:induction false} FunctionsAreFunctions(bs: seq<Binding<Transformer>>, name: string)
    ensures Lookup(Functions(bs), name).Some? ==> !Lookup(Functions(bs), name).value.Required?
    decreases |bs|
  {
    if bs != [] {
      var init, last := bs[..|bs| - 1], bs[|bs| - 1];
      FunctionsAreFunctions(init, name);
      LookupConcat(Functions(init), FunctionsOf(last), name);
      LookupFinds(FunctionsOf(last), name);
    }
  }

  lemma LookupScope(m: Module, i: nat, name: string)
    requires i <= |m.services|
    ensures Lookup(Scope(m, i), name) ==
            if Lookup(m.services[..i], name).Some? then Some(ServiceObject(Lookup(m.services[..i], name).value))
            else if Lookup(m.imports, name).Some? then Some(Required(Lookup(m.imports, name).value))
            else Lookup(Functions(m.transformers), name)
  {
    var functions := Functions(m.transformers);
    var imports := Variables(m.imports, path => Required(path));
    var services := Variables(m.services[..i], entries => ServiceObject(entries));
    LookupConcat(functions + imports, services, name);
    LookupConcat(functions, imports, name);
    LookupVariables(m.imports, path => Required(path), name);
    LookupVariables(m.services[..i], entries => ServiceObject(entries), name);
  }

  // ----- serializers and deserializers in scope

  /** Service `i` uses the message type. */
  predicate Uses(file: FileDescriptor, i: nat, m: Message) {
    i < |file.services| && m in UsedBy(file.services[i].methods)
  }

  lemma {:induction false} UsedSomewhere(services: seq<Service>, m: Message)
    ensures m in Used(services) <==> exists i :: 0 <= i < |services| && m in UsedBy(services[i].methods)
    decreases |services|
  {
    if services != [] {
      var init, last := services[..|services| - 1], services[|services| - 1];
      UsedSomewhere(init, m);
      if m in UsedBy(last.methods) {
        assert services[|services| - 1] == last;
      }
      if i :| 0 <= i < |init| && m in UsedBy(init[i].methods) {
        assert services[i] == init[i];
      }
    }
  }

  /** When object `i` is built, the two names that an entry uses for the message type stand for the functions of that
      type. */
  predicate ServedAt(generated: Module, i: nat, m: Message)
    requires i <= |generated.services|
  {
    var id, t := Identifier(m.fullName), Transformer(m.fullName, ObjectPath(m));
    && Lookup(Scope(generated, i), SerializerName(id)) == Some(Serializer(t))
    && Lookup(Scope(generated, i), DeserializerName(id)) == Some(Deserializer(t))
  }

  /** No import and no earlier service takes the name. */
  ghost predicate Free(file: FileDescriptor, i: nat, name: string)
    requires i <= |file.services|
  {
    && (forall f :: Loads(file, f) ==> Alias(f) != name)
    && (forall j :: 0 <= j < i ==> file.services[j].name + "Service" != name)
  }

  ghost predicate ClearAt(file: FileDescriptor, i: nat, m: Message)
    requires i <= |file.services|
  {
    Free(file, i, SerializerName(Identifier(m.fullName))) && Free(file, i, DeserializerName(Identifier(m.fullName)))
  }

  lemma DeclaredImports(file: FileDescriptor, name: string)
    requires name != "grpc"
    ensures Lookup([GRPC] + ImportsOf(file.name, Imported(file)), name)
         == Lookup(ImportsOf(file.name, Imported(file)), name)
    ensures Lookup(ImportsOf(file.name, Imported(file)), name).Some? <==>
            exists f :: Loads(file, f) && Alias(f) == name
  {
    ImportedIsLoaded(file);
    var bs := ImportsOf(file.name, Imported(file));
    LookupConcat([GRPC], bs, name);
    assert [GRPC][..0] == [];
    LookupFinds(bs, name);
    if f :| f in Imported(file) && Alias(f) == name {
      var k :| 0 <= k < |Imported(file)| && Imported(file)[k] == f;
      assert bs[k].name in Declared(bs);
    }
    if name in Declared(bs) {
      var k :| 0 <= k < |bs| && bs[k].name == name;
      assert Imported(file)[k] in Imported(file);
    }
  }

  lemma DeclaredServices(file: FileDescriptor, i: nat, name: string)
    requires i <= |file.services|
    ensures Lookup(ObjectsOf(file.services)[..i], name).Some? <==>
            exists j :: 0 <= j < i && file.services[j].name + "Service" == name
  {
    var bs := ObjectsOf(file.services)[..i];
    LookupFinds(bs, name);
    if j :| 0 <= j < i && file.services[j].name + "Service" == name {
      assert bs[j].name in Declared(bs);
    }
    if name in Declared(bs) {
      var j :| 0 <= j < |bs| && bs[j].name == name;
      assert file.services[j].name + "Service" == name;
    }
  }

  /** A name that is not free stands for a module or a service object, a free one for its function. */
  lemma FunctionInScope(generated: Module, file: FileDescriptor, i: nat, name: string)
    requires IsModuleFor(generated, file) && i <= |file.services| && name != "grpc"
    ensures if Free(file, i, name)
            then Lookup(Scope(generated, i), name) == Lookup(Functions(generated.transformers), name)
            else
              var found := Lookup(Scope(generated, i), name);
              found.Some? && (found.value.Required? || found.value.ServiceObject?)
  {
    LookupScope(generated, i, name);
    DeclaredImports(file, name);
    DeclaredServices(file, i, name);
  }

  lemma ServedWhenClear(generated: Module, file: FileDescriptor, i: nat, m: Message)
    requires IsModuleFor(generated, file) && i <= |file.services|
    ensures ServedAt(generated, i, m) <==> ClearAt(file, i, m) && Served(generated.transformers, m)
  {
    var id := Identifier(m.fullName);
    assert SerializerName(id)[0] == 's' && DeserializerName(id)[0] == 'd' && "grpc"[0] == 'g';
    FunctionInScope(generated, file, i, SerializerName(id));
    FunctionInScope(generated, file, i, DeserializerName(id));
    LookupFunctions(generated.transformers, id);
  }

  ghost predicate AllServed(generated: Module, file: FileDescriptor)
    requires |generated.services| == |file.services|
  {
    forall i, m :: Uses(file, i, m) ==> ServedAt(generated, i, m)
  }

  ghost predicate AllClear(file: FileDescriptor) {
    forall i, m :: Uses(file, i, m) ==> ClearAt(file, i, m)
  }

  /** Main result: when the service objects are built, each message type is handled by its own functions, in
      whatever order these are printed, exactly when no two of the types differ only in dots and underscores, and no
      import and no earlier service takes the name of a function that is used. */
  lemma TransformersAreRight(generated: Module, file: FileDescriptor)
    requires IsModuleFor(generated, file) && Pool(Used(file.services))
    ensures AllServed(generated, file) <==> Separate(Used(file.services)) && AllClear(file)
  {
    var bs, ms := generated.transformers, Used(file.services);
    ServedIffSeparate(bs, ms);
    forall i, m | Uses(file, i, m) ensures ServedAt(generated, i, m) <==> ClearAt(file, i, m) && Served(bs, m) {
      ServedWhenClear(generated, file, i, m);
    }
    forall i, m | Uses(file, i, m) ensures m in ms {
      UsedSomewhere(file.services, m);
    }
    if AllServed(generated, file) {
      forall m | m in ms ensures Served(bs, m) {
        UsedSomewhere(file.services, m);
        var i :| 0 <= i < |file.services| && m in UsedBy(file.services[i].methods);
        assert Uses(file, i, m);
      }
    }
  }

  // ----- entries

  lemma {:induction false} TypesUsed(methods: seq<Method>, k: nat)
    requires k < |methods|
    ensures methods[k].input in UsedBy(methods) && methods[k].output in UsedBy(methods)
    decreases |methods|
  {
    var init, last := methods[..|methods| - 1], methods[|methods| - 1];
    if k < |init| {
      TypesUsed(init, k);
      assert init[k] == methods[k];
    } else {
      var both := [last.input, last.output];
      assert both[0] in both && both[1] in both;
    }
  }

  /** The name stands for a function for the message type, which constructs `nodeName`. */
  predicate Handles(generated: Module, i: nat, id: string, fullName: string, nodeName: string)
    requires i <= |generated.services|
  {
    && Lookup(Scope(generated, i), "serialize_" + id) == Some(Serializer(Transformer(fullName, nodeName)))
    && Lookup(Scope(generated, i), "deserialize_" + id) == Some(Deserializer(Transformer(fullName, nodeName)))
  }

  /** Main result: where the functions are right, each method of each service has its entry, in order, with its own name
      but for the case of the first letter; the request side of the entry names the type of the input and the functions
      for it, the response side those of the output. */
  lemma EntriesAreRight(generated: Module, file: FileDescriptor, i: nat, k: nat)
    requires IsModuleFor(generated, file) && Pool(Used(file.services))
    requires Separate(Used(file.services)) && AllClear(file)
    requires i < |file.services| && k < |file.services[i].methods|
    ensures |generated.services| == |file.services|
    ensures generated.services[i].name == file.services[i].name + "Service"
    ensures |generated.services[i].value| == |file.services[i].methods|
    ensures var e, m := generated.services[i].value[k], file.services[i].methods[k];
            && e.key == LowercaseFirst(m.name)
            && e.requestType == ObjectPath(m.input) && e.responseType == ObjectPath(m.output)
            && Handles(generated, i, e.requestId, m.input.fullName, e.requestType)
            && Handles(generated, i, e.responseId, m.output.fullName, e.responseType)
  {
    var methods := file.services[i].methods;
    assert generated.services[i] == ObjectOf(file.services[i]);
    TypesUsed(methods, k);
    TransformersAreRight(generated, file);
    assert Uses(file, i, methods[k].input) && Uses(file, i, methods[k].output);
  }

  lemma MapConcat(f: char -> char, s: string, t: string)
    ensures MapChars(f, s + t) == MapChars(f, s) + MapChars(f, t)
  {
  }

  lemma MapSame(f: char -> char, g: char -> char, s: string)
    requires forall c :: c in s ==> f(c) == g(c)
    ensures MapChars(f, s) == MapChars(g, s)
  {
    forall i | 0 <= i < |s| ensures f(s[i]) == g(s[i]) {
      assert s[i] in s;
    }
  }

  lemma PlainPrefix()
    ensures MapChars(AliasChar, "serialize_") == "serialize_"
  {
    var s := "serialize_";
    forall i | 0 <= i < |s| ensures AliasChar(s[i]) == s[i] {
      assert s[i] in s;
      assert forall c :: c in s ==> c != '-' && c != '/' && c != '.';
    }
  }

  lemma SuffixOfBoth(x: string)
    ensures Identifier(x + ".pb") == MapChars(IdentifierChar, x) + "_pb"
  {
    MapConcat(IdentifierChar, x, ".pb");
    assert ".pb"[0] == '.' && ".pb"[1] == 'p' && ".pb"[2] == 'b';
    assert MapChars(IdentifierChar, ".pb") == "_pb";
  }

  lemma HiddenName(x: string)
    requires '-' !in x && '/' !in x
    ensures Alias(SerializerName(x) + ".proto") == SerializerName(Identifier(x + ".pb"))
  {
    StrippedOf(SerializerName(x));
    MapConcat(AliasChar, "serialize_", x);
    PlainPrefix();
    MapSame(AliasChar, IdentifierChar, x);
    SuffixOfBoth(x);
  }

  lemma ServiceName(x: string)
    requires '.' !in x
    ensures SerializerName(x) + "Service" == SerializerName(Identifier(x + "Service"))
  {
    var s := x + "Service";
    assert '.' !in "Service";
    forall i | 0 <= i < |s| ensures IdentifierChar(s[i]) == s[i] {
      assert s[i] in s;
    }
    assert Identifier(s) == s;
    assert SerializerName(x) + "Service" == "serialize_" + s;
  }

  /** A name that is taken is not served. */
  lemma TakenIsNotServed(generated: Module, file: FileDescriptor, i: nat, m: Message)
    requires IsModuleFor(generated, file) && Uses(file, i, m)
    requires !Free(file, i, SerializerName(Identifier(m.fullName)))
    ensures !AllServed(generated, file)
  {
    ServedWhenClear(generated, file, i, m);
  }

  /** Failing inputs, for every x without dashes and slashes: a file that imports serialize_x.proto and uses a message
      type x.pb gets a module that calls the import in place of the serializer. */
  lemma ImportHidesSerializer(generated: Module, file: FileDescriptor, i: nat, m: Message, x: string)
    requires IsModuleFor(generated, file) && Uses(file, i, m) && m.fullName == x + ".pb"
    requires '-' !in x && '/' !in x && Loads(file, SerializerName(x) + ".proto")
    ensures !AllServed(generated, file)
  {
    HiddenName(x);
    TakenIsNotServed(generated, file, i, m);
  }

  /** Failing inputs, for every x without dots: a service named serialize_x, and a later one that uses a message type
      xService. */
  lemma ServiceHidesSerializer(generated: Module, file: FileDescriptor, j: nat, i: nat, m: Message, x: string)
    requires IsModuleFor(generated, file) && Uses(file, i, m) && m.fullName == x + "Service" && '.' !in x
    requires j < i && file.services[j].name == SerializerName(x)
    ensures !AllServed(generated, file)
  {
    ServiceName(x);
    TakenIsNotServed(generated, file, i, m);
  }

  // ----- methods in a service object

  /** The methods of a service object under their keys; of two with the same key the later one replaces the earlier. */
  function Keyed(methods: seq<Method>): seq<Binding<Method>> {
    seq(|methods|, i requires 0 <= i < |methods| => Binding(EntryOf(methods[i]).key, methods[i]))
  }

  /** The names differ in the case of the first letter at most. */
  predicate SameKey(s: string, t: string) {
    s == t || (s != "" && t != "" && Lower(s[0]) == Lower(t[0]) && s[1..] == t[1..])
  }

  lemma KeyedAre(methods: seq<Method>)
    ensures forall m :: m in methods ==> Binding(LowercaseFirst(m.name), m) in Keyed(methods)
    ensures forall b :: b in Keyed(methods) ==> b.value in methods && b.name == LowercaseFirst(b.value.name)
  {
    var bs := Keyed(methods);
    forall m | m in methods ensures Binding(LowercaseFirst(m.name), m) in bs {
      var i :| 0 <= i < |methods| && methods[i] == m;
      assert bs[i] == Binding(LowercaseFirst(m.name), m);
    }
    forall b | b in bs ensures b.value in methods && b.name == LowercaseFirst(b.value.name) {
      var i :| 0 <= i < |bs| && bs[i] == b;
      assert methods[i] == b.value;
    }
  }

  /** No key is used twice. */
  ghost predicate KeysDiffer(methods: seq<Method>) {
    forall m, n :: m in methods && n in methods && SameKey(m.name, n.name) ==> m == n
  }

  lemma KeysCollide(methods: seq<Method>)
    ensures KeysDiffer(methods) <==>
            forall b, c :: b in Keyed(methods) && c in Keyed(methods) && b.name == c.name ==> b.value == c.value
  {
    var bs := Keyed(methods);
    KeyedAre(methods);
    forall m, n | m in methods && n in methods
      ensures SameKey(m.name, n.name) <==> LowercaseFirst(m.name) == LowercaseFirst(n.name)
    {
      LowercaseCollision(m.name, n.name);
    }
    if forall b, c :: b in bs && c in bs && b.name == c.name ==> b.value == c.value {
      forall m, n | m in methods && n in methods && SameKey(m.name, n.name) ensures m == n {
        assert Binding(LowercaseFirst(m.name), m) in bs && Binding(LowercaseFirst(n.name), n) in bs;
      }
    }
  }

  /** Main result: every method of a service is found under its key exactly when no two of them have names that differ
      in the case of the first letter at most. */
  lemma MethodsAreFound(methods: seq<Method>)
    ensures (forall m :: m in methods ==> Lookup(Keyed(methods), LowercaseFirst(m.name)) == Some(m)) <==>
            KeysDiffer(methods)
  {
    var bs := Keyed(methods);
    KeyedAre(methods);
    KeysCollide(methods);
    LookupIsRight(bs);
    if forall m :: m in methods ==> Lookup(bs, LowercaseFirst(m.name)) == Some(m) {
      forall b | b in bs ensures Lookup(bs, b.name) == Some(b.value) {
        assert b.value in methods;
      }
    } else {
      var m :| m in methods && Lookup(bs, LowercaseFirst(m.name)) != Some(m);
      assert Binding(LowercaseFirst(m.name), m) in bs;
    }
  }

  // ----- modules in scope

  lemma AliasIsNoService(file: string, service: string)
    ensures Alias(file) != service + "Service" && Alias(file) != "grpc"
  {
    var a, b := Alias(file), service + "Service";
    assert a[|a| - 1] == 'b' && b[|b| - 1] == 'e' && "grpc"[3] == 'c';
  }

  /** An alias stands for a module exactly when an import declares it, and then for the last such import. */
  lemma AliasInScope(generated: Module, file: FileDescriptor, i: nat, f: string)
    requires IsModuleFor(generated, file) && i <= |file.services|
    ensures var found := Lookup(Scope(generated, i), Alias(f));
            var imported := Lookup(ImportsOf(file.name, Imported(file)), Alias(f));
            && (found.Some? && found.value.Required? <==> imported.Some?)
            && (imported.Some? ==> found == Some(Required(imported.value)))
  {
    LookupScope(generated, i, Alias(f));
    AliasIsNoService(f, "");
    DeclaredImports(file, Alias(f));
    DeclaredServices(file, i, Alias(f));
    forall j | 0 <= j < i ensures file.services[j].name + "Service" != Alias(f) {
      AliasIsNoService(f, file.services[j].name);
    }
    FunctionsAreFunctions(generated.transformers, Alias(f));
  }

  /** The alias of the file stands for the generated module of that file. */
  predicate StandsFor(generated: Module, file: FileDescriptor, i: nat, f: string)
    requires i <= |generated.services|
  {
    Lookup(Scope(generated, i), Alias(f)) == Some(Required(RelativePath(file.name, JsMessageFilename(f))))
  }

  /** No two of the files loaded share an alias, unless they differ in the suffix only. */
  ghost predicate AliasesDiffer(file: FileDescriptor) {
    forall f, g :: Loads(file, f) && Loads(file, g) && Alias(f) == Alias(g) ==> ProtoStripped(f) == ProtoStripped(g)
  }

  /** Main result: after the imports, whatever service is being built, the alias of each loaded file stands for that
      file exactly when the aliases tell the loaded files apart. */
  lemma ImportsAreRight(generated: Module, file: FileDescriptor, i: nat)
    requires IsModuleFor(generated, file) && i <= |file.services|
    ensures (forall f :: Loads(file, f) ==> StandsFor(generated, file, i, f)) <==> AliasesDiffer(file)
  {
    ImportedIsLoaded(file);
    ImportsIffDistinguished(file.name, Imported(file));
    forall f | f in Imported(file)
      ensures StandsFor(generated, file, i, f) <==>
              Lookup(ImportsOf(file.name, Imported(file)), Alias(f))
              == Some(RelativePath(file.name, JsMessageFilename(f)))
    {
      AliasInScope(generated, file, i, f);
    }
  }

  /** The alias used for the message type stands for some module. */
  predicate HasModule(generated: Module, i: nat, m: Message)
    requires i <= |generated.services|
  {
    var found := Lookup(Scope(generated, i), Alias(m.file));
    found.Some? && found.value.Required?
  }

  ghost predicate AliasImported(file: FileDescriptor, m: Message) {
    exists f :: Loads(file, f) && Alias(f) == Alias(m.file)
  }

  /** Main result: the aliases used for message types all stand for modules exactly when each type's file has an
      alias in common with a loaded file, in particular when it is the file itself, with messages of its own, or a
      direct dependency. */
  lemma AliasesAreImported(generated: Module, file: FileDescriptor, i: nat)
    requires IsModuleFor(generated, file) && i <= |file.services|
    ensures (forall m :: m in Used(file.services) ==> HasModule(generated, i, m)) <==>
            (forall m :: m in Used(file.services) ==> AliasImported(file, m))
    ensures forall m :: m in Used(file.services) && m.file == file.name && file.messageCount > 0 ==>
              HasModule(generated, i, m)
    ensures forall m :: m in Used(file.services) && m.file in file.dependencies ==> HasModule(generated, i, m)
  {
    ImportedIsLoaded(file);
    forall m | m in Used(file.services) ensures HasModule(generated, i, m) <==> AliasImported(file, m) {
      AliasInScope(generated, file, i, m.file);
      AliasDeclared(file.name, Imported(file), m.file);
    }
  }

  /** The type's file, or one that differs from it in the suffix only, is loaded. */
  ghost predicate DefinedIn(file: FileDescriptor, m: Message) {
    || (ProtoStripped(file.name) == ProtoStripped(m.file) && file.messageCount > 0)
    || exists f :: f in file.dependencies && ProtoStripped(f) == ProtoStripped(m.file)
  }

  lemma DefinedIsLoaded(file: FileDescriptor, m: Message)
    ensures DefinedIn(file, m) <==> exists f :: Loads(file, f) && ProtoStripped(f) == ProtoStripped(m.file)
  {
    if ProtoStripped(file.name) == ProtoStripped(m.file) && file.messageCount > 0 {
      assert Loads(file, file.name);
    } else if f :| f in file.dependencies && ProtoStripped(f) == ProtoStripped(m.file) {
      assert Loads(file, f);
    }
  }

  /** Main result: where aliases do not collide, every message type is found in its own module exactly when each is
      defined in the file itself, which must then have messages of its own at top level, or in a direct dependency. */
  lemma TypesAreLinked(generated: Module, file: FileDescriptor, i: nat)
    requires IsModuleFor(generated, file) && i <= |file.services|
    requires forall f, m :: Loads(file, f) && m in Used(file.services) && Alias(f) == Alias(m.file) ==>
               ProtoStripped(f) == ProtoStripped(m.file)
    ensures
      (forall m :: m in Used(file.services) ==> StandsFor(generated, file, i, m.file)) <==>
      (forall m :: m in Used(file.services) ==> DefinedIn(file, m))
  {
    ImportedIsLoaded(file);
    forall m | m in Used(file.services)
      ensures StandsFor(generated, file, i, m.file) <==> DefinedIn(file, m)
    {
      DefinedIsLoaded(file, m);
      TypeIsLinked(file.name, Imported(file), m.file);
      AliasInScope(generated, file, i, m.file);
    }
  }

  /** A linked type is loaded from the generated file of its own .proto, wherever the tree is installed, unless that
      file counts as well known; then it comes from the package. */
  lemma LinkedTypeLoads(generated: Module, file: FileDescriptor, i: nat, m: Message, root: seq<string>)
    requires i <= |generated.services| && StandsFor(generated, file, i, m.file)
    requires Clean(Directories(file.name)) && Clean(Components(JsMessageFilename(m.file)))
    ensures
      var loaded := Require(Directory(root, file.name), Lookup(Scope(generated, i), Alias(m.file)).value.path);
      loaded == if "google/protobuf" <= ProtoStripped(m.file) + "_pb.js"
                then Package("google-protobuf/" + ProtoStripped(m.file) + "_pb.js")
                else File(root + Components(ProtoStripped(m.file) + "_pb.js"))
  {
    RelativePathLeadsThere(root, file.name, JsMessageFilename(m.file));
    assert "google-protobuf/" + ProtoStripped(m.file) + "_pb.js" == "google-protobuf/" + JsMessageFilename(m.file);
  }

  lemma NoModule(generated: Module, file: FileDescriptor, i: nat, m: Message, b: string)
    requires IsModuleFor(generated, file) && i <= |file.services| && Imported(file) == [b] && Alias(b) != Alias(m.file)
    ensures !HasModule(generated, i, m)
  {
    AliasInScope(generated, file, i, m.file);
    AliasDeclared(file.name, Imported(file), m.file);
  }

  /** A type that reaches a file through a public import of its only dependency has no module to be looked up in. */
  lemma PublicImportIsMissed(generated: Module, file: FileDescriptor, i: nat, m: Message)
    requires IsModuleFor(generated, file) && m in Used(file.services) && i <= |file.services|
    requires file.messageCount == 0 && file.dependencies == ["b.proto"] && m.file == "c.proto"
    ensures !HasModule(generated, i, m)
  {
    BAndCDiffer();
    NoModule(generated, file, i, m, "b.proto");
  }

  lemma BAndCDiffer()
    ensures Alias("b.proto") != Alias("c.proto")
  {
    StrippedOf("b");
    StrippedOf("c");
    assert "b" + ".proto" == "b.proto" && "c" + ".proto" == "c.proto";
    assert "b"[0] == 'b' && "c"[0] == 'c';
    AliasCollision("b" + ".proto", "c" + ".proto");
  }
}
