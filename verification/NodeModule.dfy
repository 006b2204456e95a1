/** The declarations and uses in the module that the Node generator prints for one file. */
module NodeModule {
  import opened Common
  import opened TextReplace
  import opened NodeNames
  import opened NodePaths

  datatype Message = Message(fullName: string, file: string, package: string)

  datatype Method = Method(name: string, input: Message, output: Message)

  datatype Service = Service(name: string, methods: seq<Method>)

  datatype FileDescriptor =
    FileDescriptor(name: string, messageCount: nat, dependencies: seq<string>, services: seq<Service>)

  /** A `var` or `function` of the module; a later one of the same name replaces the earlier. */
  datatype Binding<T> = Binding(name: string, value: T)

  /** What the pair of functions for a message type checks for and constructs. */
  datatype Transformer = Transformer(expected: string, nodeName: string)

  /** One method of a service object: its key, the types it mentions and the functions it refers to. */
  datatype Entry = Entry(key: string, requestType: string, responseType: string, requestId: string, responseId: string)

  /** `imports` and `services` are `var` statements, each of `transformers` a pair of functions. */
  datatype Module = Module(
    imports: seq<Binding<string>>,
    transformers: seq<Binding<Transformer>>,
    services: seq<Binding<seq<Entry>>>)

  // ----- what a name stands for once the module is loaded

  function Lookup<T>(bs: seq<Binding<T>>, name: string): Option<T>
    decreases |bs|
  {
    if bs == [] then None
    else if bs[|bs| - 1].name == name then Some(bs[|bs| - 1].value)
    else Lookup(bs[..|bs| - 1], name)
  }

  function Declared<T>(bs: seq<Binding<T>>): set<string> {
    set i | 0 <= i < |bs| :: bs[i].name
  }

  /** A name stands for something exactly when it is declared, and then for one of its declarations. */
  lemma {:induction false} LookupFinds<T>(bs: seq<Binding<T>>, name: string)
    ensures Lookup(bs, name).Some? <==> name in Declared(bs)
    ensures Lookup(bs, name).Some? ==> Binding(name, Lookup(bs, name).value) in bs
    decreases |bs|
  {
    if bs != [] {
      var last, init := bs[|bs| - 1], bs[..|bs| - 1];
      assert bs == init + [last];
      LookupFinds(init, name);
      assert Declared(bs) == Declared(init) + {last.name};
      if last.name == name {
        assert last in bs && last == Binding(name, last.value);
      }
    }
  }

  /** Each declaration is what its name stands for exactly when no name is declared with two meanings. */
  lemma LookupIsRight<T>(bs: seq<Binding<T>>)
    ensures (forall b :: b in bs ==> Lookup(bs, b.name) == Some(b.value)) <==>
            (forall b, c :: b in bs && c in bs && b.name == c.name ==> b.value == c.value)
  {
    if forall b, c :: b in bs && c in bs && b.name == c.name ==> b.value == c.value {
      forall b | b in bs ensures Lookup(bs, b.name) == Some(b.value) {
        LookupFinds(bs, b.name);
        assert b.name in Declared(bs);
      }
    }
    if forall b :: b in bs ==> Lookup(bs, b.name) == Some(b.value) {
      forall b, c | b in bs && c in bs && b.name == c.name ensures b.value == c.value {
        assert Some(b.value) == Lookup(bs, b.name) == Some(c.value);
      }
    }
  }

  // ----- the message types used

  function UsedBy(methods: seq<Method>): seq<Message> {
    if methods == [] then []
    else UsedBy(methods[..|methods| - 1]) + [methods[|methods| - 1].input, methods[|methods| - 1].output]
  }

  function Used(services: seq<Service>): seq<Message> {
    if services == [] then [] else Used(services[..|services| - 1]) + UsedBy(services[|services| - 1].methods)
  }

  function Gather(ms: seq<Message>): map<string, Message> {
    if ms == [] then map[] else Gather(ms[..|ms| - 1])[ms[|ms| - 1].fullName := ms[|ms| - 1]]
  }

  lemma GatherNext(ms: seq<Message>, m: Message)
    ensures Gather(ms + [m]) == Gather(ms)[m.fullName := m]
  {
    assert (ms + [m])[..|ms|] == ms;
  }

  method GetAllMessages(services: seq<Service>) returns (types: map<string, Message>)
    ensures types == Gather(Used(services))
  {
    types := map[];
    for i := 0 to |services|
      invariant types == Gather(Used(services[..i]))
    {
      types := AddService(types, Used(services[..i]), services[i]);
      assert services[..i + 1][..i] == services[..i];
    }
    assert services[..|services|] == services;
  }

  method AddService(types0: map<string, Message>, ghost before: seq<Message>, service: Service)
    returns (types: map<string, Message>)
    requires types0 == Gather(before)
    ensures types == Gather(before + UsedBy(service.methods))
  {
    types := types0;
    var methods := service.methods;
    assert before + UsedBy(methods[..0]) == before;
    for j := 0 to |methods|
      invariant types == Gather(before + UsedBy(methods[..j]))
    {
      ghost var sofar := before + UsedBy(methods[..j]);
      var input, output := methods[j].input, methods[j].output;
      types := types[input.fullName := input];
      GatherNext(sofar, input);
      types := types[output.fullName := output];
      GatherNext(sofar + [input], output);
      assert methods[..j + 1][..j] == methods[..j];
      assert sofar + [input] + [output] == before + UsedBy(methods[..j + 1]);
    }
    assert methods[..|methods|] == methods;
  }

  /** The collected types are the used ones, each under its full name. */
  lemma {:induction false} GatherIsUsed(ms: seq<Message>)
    ensures forall name :: name in Gather(ms) <==> exists m :: m in ms && m.fullName == name
    ensures forall name :: name in Gather(ms) ==> Gather(ms)[name] in ms && Gather(ms)[name].fullName == name
    decreases |ms|
  {
    if ms != [] {
      var last, init := ms[|ms| - 1], ms[..|ms| - 1];
      assert ms == init + [last];
      GatherIsUsed(init);
      assert last in ms;
      assert forall m :: m in ms <==> m in init || m == last;
    }
  }

  /** Full names identify messages, as they do in every descriptor pool. */
  ghost predicate Pool(ms: seq<Message>) {
    forall m, n :: m in ms && n in ms && m.fullName == n.fullName ==> m == n
  }

  // ----- printing

  function ObjectPath(m: Message): string {
    Alias(m.file) + "." + WithoutPrefix(m.fullName, m.package + ".")
  }

  method NodeObjectPath(m: Message) returns (path: string)
    ensures path == ObjectPath(m)
    ensures m.package + "." <= m.fullName ==>
              exists n :: m.fullName == m.package + "." + n && path == Alias(m.file) + "." + n
    ensures !(m.package + "." <= m.fullName) ==> path == Alias(m.file) + "." + m.fullName
  {
    var alias := ModuleAlias(m.file);
    var name, _ := StripPrefix(m.fullName, m.package + ".");
    path := alias + "." + name;
  }

  /** Within one file the object paths tell the message types apart. */
  lemma ObjectPathsDiffer(m: Message, n: Message)
    requires m.file == n.file && m.package == n.package
    requires m.package + "." <= m.fullName <==> n.package + "." <= n.fullName
    ensures ObjectPath(m) == ObjectPath(n) <==> m.fullName == n.fullName
  {
    var prefix, start := m.package + ".", Alias(m.file) + ".";
    var s, t := WithoutPrefix(m.fullName, prefix), WithoutPrefix(n.fullName, prefix);
    assert (start + s)[|start|..] == s && (start + t)[|start|..] == t;
    if prefix <= m.fullName {
      assert m.fullName == prefix + s && n.fullName == prefix + t;
    }
  }

  function TransformerOf(m: Message): Binding<Transformer> {
    Binding(Identifier(m.fullName), Transformer(m.fullName, ObjectPath(m)))
  }

  method PrintMessageTransformer(m: Message) returns (b: Binding<Transformer>)
    ensures b == TransformerOf(m)
  {
    var identifier := MessageIdentifierName(m.fullName);
    var nodeName := NodeObjectPath(m);
    b := Binding(identifier, Transformer(m.fullName, nodeName));
  }

  predicate PrintedFor(b: Binding<Transformer>, messages: map<string, Message>) {
    b.value.expected in messages && b == TransformerOf(messages[b.value.expected])
  }

  function Expected(bs: seq<Binding<Transformer>>): set<string> {
    set i | 0 <= i < |bs| :: bs[i].value.expected
  }

  /** One transformer for each of the keys, in some order. */
  predicate Lists(bs: seq<Binding<Transformer>>, messages: map<string, Message>, keys: set<string>) {
    |bs| == |keys| && Expected(bs) == keys && forall i :: 0 <= i < |bs| ==> PrintedFor(bs[i], messages)
  }

  method PrintTransformers(services: seq<Service>) returns (bs: seq<Binding<Transformer>>)
    ensures Lists(bs, Gather(Used(services)), Gather(Used(services)).Keys)
  {
    var messages := GetAllMessages(services);
    GatherIsUsed(Used(services));
    bs := PrintEach(messages);
  }

  method PrintEach(messages: map<string, Message>) returns (bs: seq<Binding<Transformer>>)
    requires forall name :: name in messages ==> messages[name].fullName == name
    ensures Lists(bs, messages, messages.Keys)
  {
    bs := [];
    var left := messages.Keys;
    PrintedNone(messages);
    while left != {}
      invariant PrintedBut(bs, messages, left)
      decreases |left|
    {
      var k :| k in left;
      var b := PrintMessageTransformer(messages[k]);
      PrintedNext(bs, messages, left, k);
      bs := bs + [b];
      left := left - {k};
    }
    PrintedAll(bs, messages);
  }

  /** All but the keys left have been printed. */
  predicate PrintedBut(bs: seq<Binding<Transformer>>, messages: map<string, Message>, left: set<string>) {
    left <= messages.Keys && Lists(bs, messages, messages.Keys - left)
  }

  lemma PrintedNone(messages: map<string, Message>)
    ensures PrintedBut([], messages, messages.Keys)
  {
  }

  lemma PrintedNext(bs: seq<Binding<Transformer>>, messages: map<string, Message>, left: set<string>, k: string)
    requires PrintedBut(bs, messages, left) && k in left && messages[k].fullName == k
    ensures PrintedBut(bs + [TransformerOf(messages[k])], messages, left - {k})
  {
    OneMore(bs, messages, messages.Keys - left, k);
    assert messages.Keys - left + {k} == messages.Keys - (left - {k});
  }

  lemma PrintedAll(bs: seq<Binding<Transformer>>, messages: map<string, Message>)
    requires PrintedBut(bs, messages, {})
    ensures Lists(bs, messages, messages.Keys)
  {
    assert messages.Keys - {} == messages.Keys;
  }

  lemma ExpectedNext(bs: seq<Binding<Transformer>>, b: Binding<Transformer>)
    ensures Expected(bs + [b]) == Expected(bs) + {b.value.expected}
  {
    var all := bs + [b];
    assert all[|bs|] == b && forall i :: 0 <= i < |bs| ==> all[i] == bs[i];
    forall name ensures name in Expected(all) <==> name in Expected(bs) + {b.value.expected} {
      if i :| 0 <= i < |bs| && bs[i].value.expected == name {
        assert all[i].value.expected == name;
      }
    }
  }

  lemma OneMore(bs: seq<Binding<Transformer>>, messages: map<string, Message>, done: set<string>, k: string)
    requires k in messages && messages[k].fullName == k && k !in done && Lists(bs, messages, done)
    ensures Lists(bs + [TransformerOf(messages[k])], messages, done + {k})
  {
    ExpectedNext(bs, TransformerOf(messages[k]));
  }

  function EntryOf(m: Method): Entry {
    Entry(LowercaseFirst(m.name), ObjectPath(m.input), ObjectPath(m.output),
          Identifier(m.input.fullName), Identifier(m.output.fullName))
  }

  method PrintMethod(m: Method) returns (e: Entry)
    ensures e == EntryOf(m)
  {
    var key := LowercaseFirstLetter(m.name);
    var inputType := NodeObjectPath(m.input);
    var inputId := MessageIdentifierName(m.input.fullName);
    var outputType := NodeObjectPath(m.output);
    var outputId := MessageIdentifierName(m.output.fullName);
    e := Entry(key, inputType, outputType, inputId, outputId);
  }

  function EntriesBy(methods: seq<Method>): seq<Entry> {
    seq(|methods|, i requires 0 <= i < |methods| => EntryOf(methods[i]))
  }

  lemma EntriesNext(methods: seq<Method>, i: nat)
    requires i < |methods|
    ensures EntriesBy(methods[..i + 1]) == EntriesBy(methods[..i]) + [EntryOf(methods[i])]
  {
  }

  function ObjectOf(service: Service): Binding<seq<Entry>> {
    Binding(service.name + "Service", EntriesBy(service.methods))
  }

  function ObjectsOf(services: seq<Service>): seq<Binding<seq<Entry>>> {
    seq(|services|, i requires 0 <= i < |services| => ObjectOf(services[i]))
  }

  lemma ObjectsNext(services: seq<Service>, i: nat)
    requires i < |services|
    ensures ObjectsOf(services[..i + 1]) == ObjectsOf(services[..i]) + [ObjectOf(services[i])]
  {
  }

  method PrintService(service: Service) returns (b: Binding<seq<Entry>>)
    ensures b == ObjectOf(service)
  {
    var methods, es := service.methods, [];
    for i := 0 to |methods|
      invariant es == EntriesBy(methods[..i])
    {
      var e := PrintMethod(methods[i]);
      es := es + [e];
      EntriesNext(methods, i);
    }
    assert methods[..|methods|] == methods;
    b := Binding(service.name + "Service", es);
  }

  method PrintServices(services: seq<Service>) returns (bs: seq<Binding<seq<Entry>>>)
    ensures bs == ObjectsOf(services)
  {
    bs := [];
    for i := 0 to |services|
      invariant bs == ObjectsOf(services[..i])
    {
      var b := PrintService(services[i]);
      ObjectsNext(services, i);
      bs := bs + [b];
    }
    assert services[..|services|] == services;
  }

  /** The files whose message modules are imported. */
  function Imported(file: FileDescriptor): seq<string> {
    (if file.messageCount > 0 then [file.name] else []) + file.dependencies
  }

  /** The module of `f` is loaded: `f` is the file itself, which has messages of its own, or a direct dependency. */
  predicate Loads(file: FileDescriptor, f: string) {
    (f == file.name && file.messageCount > 0) || f in file.dependencies
  }

  lemma ImportedIsLoaded(file: FileDescriptor)
    ensures forall f :: f in Imported(file) <==> Loads(file, f)
  {
  }

  function ImportOf(from: string, file: string): Binding<string> {
    Binding(Alias(file), RelativePath(from, JsMessageFilename(file)))
  }

  function ImportsOf(from: string, files: seq<string>): seq<Binding<string>> {
    seq(|files|, i requires 0 <= i < |files| => ImportOf(from, files[i]))
  }

  method PrintImport(from: string, file: string) returns (b: Binding<string>)
    ensures b == ImportOf(from, file)
  {
    var basename := StripProto(file);
    var path := GetRelativePath(from, basename + "_pb.js");
    var alias := ModuleAlias(file);
    b := Binding(alias, path);
  }

  const GRPC := Binding("grpc", "grpc")

  /** The imports of a file that loads the given message modules. */
  function ImportsWith(from: string, files: seq<string>): seq<Binding<string>> {
    [GRPC] + ImportsOf(from, files)
  }

  lemma ImportsNext(from: string, files: seq<string>, file: string)
    ensures ImportsWith(from, files + [file]) == ImportsWith(from, files) + [ImportOf(from, file)]
  {
    assert ImportsOf(from, files + [file]) == ImportsOf(from, files) + [ImportOf(from, file)];
  }

  method PrintImports(file: FileDescriptor) returns (imports: seq<Binding<string>>)
    ensures imports == ImportsWith(file.name, Imported(file)) && InOrder(imports, file)
  {
    imports := [GRPC];
    if file.messageCount > 0 {
      ImportsNext(file.name, [], file.name);
      var own := PrintImport(file.name, file.name);
      imports := imports + [own];
    }
    ghost var first := if file.messageCount > 0 then [file.name] else [];
    imports := PrintDependencies(file.name, first, file.dependencies, imports);
    ImportsInOrder(file);
  }

  /** The package first, then the file itself if it has messages, then each direct dependency in turn. */
  predicate InOrder(imports: seq<Binding<string>>, file: FileDescriptor) {
    var own := if file.messageCount > 0 then 1 else 0;
    && |imports| == 1 + own + |file.dependencies| && imports[0] == Binding("grpc", "grpc")
    && (own == 1 ==> imports[1] == ImportOf(file.name, file.name))
    && forall k :: 0 <= k < |file.dependencies| ==>
         imports[1 + own + k] == ImportOf(file.name, file.dependencies[k])
  }

  lemma ImportsInOrder(file: FileDescriptor)
    ensures InOrder(ImportsWith(file.name, Imported(file)), file)
  {
    var imports, own := ImportsWith(file.name, Imported(file)), if file.messageCount > 0 then 1 else 0;
    forall k | 0 <= k < |file.dependencies|
      ensures imports[1 + own + k] == ImportOf(file.name, file.dependencies[k])
    {
      assert Imported(file)[own + k] == file.dependencies[k];
    }
  }

  /** The loop over the dependencies, behind the imports of `first`. */
  method PrintDependencies(from: string, ghost first: seq<string>, dependencies: seq<string>,
                           before: seq<Binding<string>>)
    returns (imports: seq<Binding<string>>)
    requires before == ImportsWith(from, first)
    ensures imports == ImportsWith(from, first + dependencies)
  {
    imports := before;
    assert first + dependencies[..0] == first;
    for i := 0 to |dependencies|
      invariant imports == ImportsWith(from, first + dependencies[..i])
    {
      ImportsNext(from, first + dependencies[..i], dependencies[i]);
      assert first + dependencies[..i] + [dependencies[i]] == first + dependencies[..i + 1];
      var b := PrintImport(from, dependencies[i]);
      imports := imports + [b];
    }
    assert dependencies[..|dependencies|] == dependencies;
  }

  /** The module as printed; the order of the transformers is left open. */
  ghost predicate IsModuleFor(m: Module, file: FileDescriptor) {
    && m.imports == [GRPC] + ImportsOf(file.name, Imported(file))
    && Lists(m.transformers, Gather(Used(file.services)), Gather(Used(file.services)).Keys)
    && m.services == ObjectsOf(file.services)
  }

  method GenerateFile(file: FileDescriptor) returns (r: Option<Module>)
    ensures r.None? <==> file.services == []
    ensures r.Some? ==> IsModuleFor(r.value, file)
  {
    if |file.services| == 0 {
      return None;
    }
    var imports := PrintImports(file);
    var transformers := PrintTransformers(file.services);
    var services := PrintServices(file.services);
    r := Some(Module(imports, transformers, services));
  }

  // ----- the one scope of the module

  /** What a name of the module stands for. */
  datatype Meaning =
    | Required(path: string)
    | Serializer(transformer: Transformer)
    | Deserializer(transformer: Transformer)
    | ServiceObject(entries: seq<Entry>)

  function SerializerName(id: string): string {
    "serialize_" + id
  }

  function DeserializerName(id: string): string {
    "deserialize_" + id
  }

  function FunctionsOf(b: Binding<Transformer>): seq<Binding<Meaning>> {
    [Binding(SerializerName(b.name), Serializer(b.value)), Binding(DeserializerName(b.name), Deserializer(b.value))]
  }

  function Functions(bs: seq<Binding<Transformer>>): seq<Binding<Meaning>> {
    if bs == [] then [] else Functions(bs[..|bs| - 1]) + FunctionsOf(bs[|bs| - 1])
  }

  function Variables<T>(bs: seq<Binding<T>>, meaning: T -> Meaning): seq<Binding<Meaning>> {
    seq(|bs|, i requires 0 <= i < |bs| => Binding(bs[i].name, meaning(bs[i].value)))
  }

  /** The declarations in force when service object `i` is built, in the order in which they take effect: functions
      before any statement is executed, then the variables assigned so far. */
  function Scope(m: Module, i: nat): seq<Binding<Meaning>>
    requires i <= |m.services|
  {
    Functions(m.transformers) + Variables(m.imports, path => Required(path))
    + Variables(m.services[..i], entries => ServiceObject(entries))
  }
}
