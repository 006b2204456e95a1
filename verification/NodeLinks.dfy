/** The parts of the generated module by themselves: its transformers against its methods, its imports against its
    types. */
module NodeLinks {
  import opened Common
  import opened TextReplace
  import opened NodeNames
  import opened NodePaths
  import opened NodeModule

  // ----- methods and message types

  /** The names by which the entries refer to serializers and deserializers. */
  function Referred(es: seq<Entry>): seq<string> {
    if es == [] then [] else Referred(es[..|es| - 1]) + [es[|es| - 1].requestId, es[|es| - 1].responseId]
  }

  function Identifiers(ms: seq<Message>): seq<string> {
    seq(|ms|, i requires 0 <= i < |ms| => Identifier(ms[i].fullName))
  }

  lemma {:induction false} ReferredConcat(es: seq<Entry>, es': seq<Entry>)
    ensures Referred(es + es') == Referred(es) + Referred(es')
    decreases |es'|
  {
    if es' == [] {
      assert es + es' == es;
    } else {
      ReferredConcat(es, es'[..|es'| - 1]);
      assert (es + es')[..|es + es'| - 1] == es + es'[..|es'| - 1];
    }
  }

  lemma IdentifiersConcat(ms: seq<Message>, ms': seq<Message>)
    ensures Identifiers(ms + ms') == Identifiers(ms) + Identifiers(ms')
  {
  }

  lemma MethodRefersToTypes(m: Method)
    ensures Referred([EntryOf(m)]) == Identifiers([m.input, m.output])
  {
    assert [EntryOf(m)][..0] == [];
  }

  lemma {:induction false} MethodsReferToTypes(methods: seq<Method>)
    ensures Referred(EntriesBy(methods)) == Identifiers(UsedBy(methods))
    decreases |methods|
  {
    if methods != [] {
      var init, last := methods[..|methods| - 1], methods[|methods| - 1];
      MethodsReferToTypes(init);
      MethodRefersToTypes(last);
      EntriesNext(methods, |init|);
      assert methods[..|init| + 1] == methods;
      ReferredConcat(EntriesBy(init), [EntryOf(last)]);
      IdentifiersConcat(UsedBy(init), [last.input, last.output]);
    }
  }

  /** All entries of the service objects. */
  function EntriesIn(objects: seq<Binding<seq<Entry>>>): seq<Entry> {
    if objects == [] then [] else EntriesIn(objects[..|objects| - 1]) + objects[|objects| - 1].value
  }

  lemma EntriesInNext(services: seq<Service>, service: Service)
    ensures EntriesIn(ObjectsOf(services + [service])) == EntriesIn(ObjectsOf(services)) + EntriesBy(service.methods)
  {
    var objects := ObjectsOf(services + [service]);
    assert objects[..|objects| - 1] == ObjectsOf(services);
  }

  lemma UsedNext(services: seq<Service>, service: Service)
    ensures Used(services + [service]) == Used(services) + UsedBy(service.methods)
  {
    assert (services + [service])[..|services|] == services;
  }

  lemma ServiceRefersToTypes(services: seq<Service>, service: Service)
    requires Referred(EntriesIn(ObjectsOf(services))) == Identifiers(Used(services))
    ensures Referred(EntriesIn(ObjectsOf(services + [service]))) == Identifiers(Used(services + [service]))
  {
    MethodsReferToTypes(service.methods);
    EntriesInNext(services, service);
    ReferredConcat(EntriesIn(ObjectsOf(services)), EntriesBy(service.methods));
    UsedNext(services, service);
    IdentifiersConcat(Used(services), UsedBy(service.methods));
  }

  lemma {:induction false} ServicesReferToTypes(services: seq<Service>)
    ensures Referred(EntriesIn(ObjectsOf(services))) == Identifiers(Used(services))
    decreases |services|
  {
    if services == [] {
      assert ObjectsOf(services) == [] && Identifiers([]) == [];
    } else {
      var init, last := services[..|services| - 1], services[|services| - 1];
      assert services == init + [last];
      ServicesReferToTypes(init);
      ServiceRefersToTypes(init, last);
    }
  }

  // ----- serializers and deserializers

  function Names(ms: seq<Message>): set<string> {
    set m | m in ms :: m.fullName
  }

  lemma NamesGathered(ms: seq<Message>)
    ensures Gather(ms).Keys == Names(ms)
  {
    GatherIsUsed(ms);
  }

  /** The functions defined are those for the message types used. */
  lemma DeclaredForTypes(bs: seq<Binding<Transformer>>, ms: seq<Message>)
    requires Lists(bs, Gather(ms), Gather(ms).Keys)
    ensures forall name :: name in Declared(bs) <==> name in Identifiers(ms)
  {
    GatherIsUsed(ms);
    forall name | name in Declared(bs) ensures name in Identifiers(ms) {
      var i :| 0 <= i < |bs| && bs[i].name == name;
      assert PrintedFor(bs[i], Gather(ms));
      var j :| 0 <= j < |ms| && ms[j] == Gather(ms)[bs[i].value.expected];
      assert Identifiers(ms)[j] == name;
    }
    forall name | name in Identifiers(ms) ensures name in Declared(bs) {
      var j :| 0 <= j < |ms| && Identifiers(ms)[j] == name;
      assert ms[j] in ms;
      assert ms[j].fullName in Expected(bs);
      var i :| 0 <= i < |bs| && bs[i].value.expected == ms[j].fullName;
      assert PrintedFor(bs[i], Gather(ms));
      assert bs[i].name == name;
    }
  }

  /** Main result: the serializers and deserializers that methods refer to are exactly those defined: none is
      missing and none is unused; and there is one pair for each distinct message type. */
  lemma TransformersAreClosed(generated: Module, file: FileDescriptor)
    requires IsModuleFor(generated, file)
    ensures forall name ::
              name in Referred(EntriesIn(generated.services)) <==> Lookup(generated.transformers, name).Some?
    ensures |generated.transformers| == |Names(Used(file.services))|
  {
    var bs, ms := generated.transformers, Used(file.services);
    ServicesReferToTypes(file.services);
    DeclaredForTypes(bs, ms);
    NamesGathered(ms);
    forall name ensures Lookup(bs, name).Some? <==> name in Declared(bs) {
      LookupFinds(bs, name);
    }
  }

  lemma PrintedForEach(bs: seq<Binding<Transformer>>, ms: seq<Message>, m: Message)
    requires Lists(bs, Gather(ms), Gather(ms).Keys) && Pool(ms) && m in ms
    ensures TransformerOf(m) in bs
  {
    GatherIsUsed(ms);
    assert m.fullName in Expected(bs);
    var i :| 0 <= i < |bs| && bs[i].value.expected == m.fullName;
    assert PrintedFor(bs[i], Gather(ms));
  }

  lemma PrintedFrom(bs: seq<Binding<Transformer>>, ms: seq<Message>, b: Binding<Transformer>) returns (m: Message)
    requires Lists(bs, Gather(ms), Gather(ms).Keys) && b in bs
    ensures m in ms && b == TransformerOf(m)
  {
    GatherIsUsed(ms);
    var i :| 0 <= i < |bs| && bs[i] == b;
    assert PrintedFor(bs[i], Gather(ms));
    m := Gather(ms)[b.value.expected];
  }

  /** No two of the message types differ only in dots and underscores. */
  ghost predicate Separate(ms: seq<Message>) {
    forall m, n :: m in ms && n in ms && Identifier(m.fullName) == Identifier(n.fullName) ==> m.fullName == n.fullName
  }

  /** The functions that a use of the message type names are the functions for that type. */
  predicate Served(bs: seq<Binding<Transformer>>, m: Message) {
    Lookup(bs, Identifier(m.fullName)) == Some(Transformer(m.fullName, ObjectPath(m)))
  }

  lemma ServedAreSeparate(bs: seq<Binding<Transformer>>, ms: seq<Message>)
    requires forall m :: m in ms ==> Served(bs, m)
    ensures Separate(ms)
  {
    forall m, n | m in ms && n in ms && Identifier(m.fullName) == Identifier(n.fullName)
      ensures m.fullName == n.fullName
    {
      assert Served(bs, m) && Served(bs, n);
    }
  }

  lemma SeparateAreServed(bs: seq<Binding<Transformer>>, ms: seq<Message>, m: Message)
    requires Lists(bs, Gather(ms), Gather(ms).Keys) && Pool(ms) && Separate(ms) && m in ms
    ensures Served(bs, m)
  {
    PrintedForEach(bs, ms, m);
    var name := Identifier(m.fullName);
    var i :| 0 <= i < |bs| && bs[i] == TransformerOf(m);
    assert bs[i].name in Declared(bs);
    LookupFinds(bs, name);
    var n := PrintedFrom(bs, ms, Binding(name, Lookup(bs, name).value));
    assert n.fullName == m.fullName;
  }

  lemma ServedIffSeparate(bs: seq<Binding<Transformer>>, ms: seq<Message>)
    requires Lists(bs, Gather(ms), Gather(ms).Keys) && Pool(ms)
    ensures (forall m :: m in ms ==> Served(bs, m)) <==> Separate(ms)
  {
    if forall m :: m in ms ==> Served(bs, m) {
      ServedAreSeparate(bs, ms);
    } else if Separate(ms) {
      forall m | m in ms ensures Served(bs, m) {
        SeparateAreServed(bs, ms, m);
      }
    }
  }

  // ----- imports

  lemma JsNamesDiffer(from: string, f: string, g: string)
    ensures RelativePath(from, JsMessageFilename(f)) == RelativePath(from, JsMessageFilename(g)) <==>
            ProtoStripped(f) == ProtoStripped(g)
  {
    var a, b := JsMessageFilename(f), JsMessageFilename(g);
    assert a[..|a| - 6] == ProtoStripped(f) && b[..|b| - 6] == ProtoStripped(g);
    if RelativePath(from, a) == RelativePath(from, b) {
      RootsDiffer(from, a, b);
      var root := RootPath(from, a);
      assert (root + a)[|root|..] == a && (root + b)[|root|..] == b;
    }
  }

  lemma RootsDiffer(from: string, a: string, b: string)
    requires RelativePath(from, a) == RelativePath(from, b)
    ensures RootPath(from, a) == RootPath(from, b)
  {
    assert RelativePath(from, a)[0] == RootPath(from, a)[0];
    assert RelativePath(from, b)[0] == RootPath(from, b)[0];
  }

  lemma ImportsAreFiles(from: string, files: seq<string>)
    ensures forall f :: f in files ==> ImportOf(from, f) in ImportsOf(from, files)
    ensures forall b :: b in ImportsOf(from, files) ==> exists f :: f in files && b == ImportOf(from, f)
  {
    var bs := ImportsOf(from, files);
    forall f | f in files ensures ImportOf(from, f) in bs {
      var i :| 0 <= i < |files| && files[i] == f;
      assert bs[i] == ImportOf(from, f);
    }
    forall b | b in bs ensures exists f :: f in files && b == ImportOf(from, f) {
      var i :| 0 <= i < |bs| && bs[i] == b;
      assert files[i] in files;
    }
  }

  /** No two of the files share an alias, unless they differ in the suffix only. */
  ghost predicate Distinguished(files: seq<string>) {
    forall f, g :: f in files && g in files && Alias(f) == Alias(g) ==> ProtoStripped(f) == ProtoStripped(g)
  }

  lemma ImportsIffDistinguished(from: string, files: seq<string>)
    ensures
      (forall f :: f in files ==>
         Lookup(ImportsOf(from, files), Alias(f)) == Some(RelativePath(from, JsMessageFilename(f)))) <==>
      Distinguished(files)
  {
    var bs := ImportsOf(from, files);
    ImportsAreFiles(from, files);
    LookupIsRight(bs);
    if forall f :: f in files ==> Lookup(bs, Alias(f)) == Some(RelativePath(from, JsMessageFilename(f))) {
      forall f, g | f in files && g in files && Alias(f) == Alias(g) ensures ProtoStripped(f) == ProtoStripped(g) {
        JsNamesDiffer(from, f, g);
      }
    }
    if Distinguished(files) {
      forall b, c | b in bs && c in bs && b.name == c.name ensures b.value == c.value {
        var f :| f in files && b == ImportOf(from, f);
        var g :| g in files && c == ImportOf(from, g);
        JsNamesDiffer(from, f, g);
      }
      forall f | f in files ensures Lookup(bs, Alias(f)) == Some(RelativePath(from, JsMessageFilename(f))) {
        assert ImportOf(from, f) in bs;
      }
    }
  }

  /** The alias of a file is declared exactly when an imported file has the same one. */
  lemma AliasDeclared(from: string, files: seq<string>, file: string)
    ensures Lookup(ImportsOf(from, files), Alias(file)).Some? <==> exists f :: f in files && Alias(f) == Alias(file)
  {
    var bs := ImportsOf(from, files);
    LookupFinds(bs, Alias(file));
    if f :| f in files && Alias(f) == Alias(file) {
      var i :| 0 <= i < |files| && files[i] == f;
      assert bs[i].name in Declared(bs);
    }
    if Alias(file) in Declared(bs) {
      var i :| 0 <= i < |bs| && bs[i].name == Alias(file);
      assert files[i] in files;
    }
  }

  lemma TypeIsLinked(from: string, files: seq<string>, file: string)
    requires forall f :: f in files && Alias(f) == Alias(file) ==> ProtoStripped(f) == ProtoStripped(file)
    ensures Lookup(ImportsOf(from, files), Alias(file)) == Some(RelativePath(from, JsMessageFilename(file))) <==>
            exists f :: f in files && ProtoStripped(f) == ProtoStripped(file)
  {
    var bs := ImportsOf(from, files);
    AliasDeclared(from, files, file);
    ImportsAreFiles(from, files);
    LookupFinds(bs, Alias(file));
    if Lookup(bs, Alias(file)).Some? {
      var f :| f in files && Binding(Alias(file), Lookup(bs, Alias(file)).value) == ImportOf(from, f);
      JsNamesDiffer(from, f, file);
    } else {
      assert forall f :: f in files ==> Alias(f) != Alias(file);
    }
  }
}
