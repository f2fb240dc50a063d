/** `Jbuilder::Schema` itself: the normalisation of a generated schema into
    plain JSON-like data, the option assembly of `load`, the patch that
    makes plain Jbuilder ignore `schema:` arguments, and the class-level
    naming settings. */
module JbSchema {
  import opened RubyValues
  import opened SchemaSettings

  /** `key.to_s` on a Symbol or String key. */
  function StringKey(k: Key): (r: Key)
    ensures r.KStr? && r.name == k.name
  {
    KStr(k.name)
  }

  /** `deep_stringify_keys`: every hash is rebuilt with `result[key.to_s] =
      value`, so two keys with the same name (`:a` and `"a"`) collapse into
      one entry that takes the later value at the earlier position. */
  function StringifyKeys(v: Value): (r: Value)
    ensures Shaped(r, true, true)
    ensures v.Arr? <==> r.Arr?
    ensures v.Hash? <==> r.Hash?
    ensures v.Arr? ==> |r.elems| == |v.elems| && forall i :: 0 <= i < |v.elems| ==> r.elems[i] == StringifyKeys(v.elems[i])
    ensures !v.Arr? && !v.Hash? ==> r == v
  {
    match v
    case Arr(es) =>
      var out := seq(|es|, i requires 0 <= i < |es| => StringifyKeys(es[i]));
      assert forall x :: x in out ==> Shaped(x, true, true);
      Arr(out)
    case Hash(d) =>
      var mapped := seq(|d|, i requires 0 <= i < |d| => Entry(StringKey(d[i].key), StringifyKeys(d[i].val)));
      var h := StoreAll([], mapped);
      StoreAllSpec([], mapped);
      StoreAllEntries([], mapped);
      Hash(h)
    case _ => v
  }

  /** `deep_transform_values`: `f` applied to every value that is neither
      an Array nor a Hash, arrays and hashes rebuilt around the results. */
  function DeepTransformValues(v: Value, f: Value -> Value): (r: Value)
    ensures v.Arr? ==> r.Arr? && |r.elems| == |v.elems|
    ensures v.Hash? ==> r.Hash? && |r.entries| == |v.entries|
    ensures v.Arr? ==> forall i :: 0 <= i < |v.elems| ==> r.elems[i] == DeepTransformValues(v.elems[i], f)
    ensures v.Hash? ==> forall i :: 0 <= i < |v.entries| ==>
      r.entries[i] == Entry(v.entries[i].key, DeepTransformValues(v.entries[i].val, f))
    ensures !v.Arr? && !v.Hash? ==> r == f(v)
  {
    match v
    case Arr(es) => Arr(seq(|es|, i requires 0 <= i < |es| => DeepTransformValues(es[i], f)))
    case Hash(d) => Hash(seq(|d|, i requires 0 <= i < |d| => Entry(d[i].key, DeepTransformValues(d[i].val, f))))
    case _ => f(v)
  }

  /** What `deep_stringify_keys` keeps of a Hash: one string key for each
      key name used, and under it the stringified value of the last entry
      with that name. */
  lemma StringifyKeysHash(d: Dict<Key, Value>)
    ensures StringifyKeys(Hash(d)).Hash?
    ensures forall k :: HasKey(StringifyKeys(Hash(d)).entries, k) <==>
      k.KStr? && exists i :: 0 <= i < |d| && d[i].key.name == k.name
    ensures forall i :: 0 <= i < |d| && (forall j :: i < j < |d| ==> d[j].key.name != d[i].key.name) ==>
      Get(StringifyKeys(Hash(d)).entries, KStr(d[i].key.name)) == Some(StringifyKeys(d[i].val))
  {
    var mapped := seq(|d|, i requires 0 <= i < |d| => Entry(StringKey(d[i].key), StringifyKeys(d[i].val)));
    assert StringifyKeys(Hash(d)) == Hash(StoreAll([], mapped));
    StoreRenamed(d, mapped);
    forall i | 0 <= i < |d| ensures mapped[i].val == StringifyKeys(d[i].val) { }
  }

  /** Storing entries renamed to string keys, one for each entry of `d`:
      the keys are the names used, each holding the last value stored under it. */
  lemma StoreRenamed(d: Dict<Key, Value>, mapped: Dict<Key, Value>)
    requires |mapped| == |d|
    requires forall i :: 0 <= i < |d| ==> mapped[i].key == KStr(d[i].key.name)
    ensures forall k :: HasKey(StoreAll([], mapped), k) <==>
      k.KStr? && exists i :: 0 <= i < |d| && d[i].key.name == k.name
    ensures forall i :: 0 <= i < |d| && (forall j :: i < j < |d| ==> d[j].key.name != d[i].key.name) ==>
      Get(StoreAll([], mapped), KStr(d[i].key.name)) == Some(mapped[i].val)
  {
    StoreAllSpec([], mapped);
    forall k ensures HasKey(mapped, k) <==> k.KStr? && exists i :: 0 <= i < |d| && d[i].key.name == k.name {
      HasKeyAt(mapped, k);
      if k.KStr? && exists i :: 0 <= i < |d| && d[i].key.name == k.name {
        var i :| 0 <= i < |d| && d[i].key.name == k.name;
        assert mapped[i].key == k;
      }
    }
    forall i | 0 <= i < |d| && (forall j :: i < j < |d| ==> d[j].key.name != d[i].key.name)
      ensures Get(StoreAll([], mapped), KStr(d[i].key.name)) == Some(mapped[i].val)
    {
      LastWithAt(mapped, KStr(d[i].key.name), i);
      HasKeyAt(mapped, KStr(d[i].key.name));
    }
  }

  /** `v.is_a?(Symbol) ? v.to_s : v` */
  function SymbolToString(v: Value): (r: Value)
    ensures !r.Sym?
    ensures v.Sym? ==> r == Str(v.name)
    ensures !v.Sym? ==> r == v
  {
    if v.Sym? then Str(v.name) else v
  }

  /** `v.is_a?(Regexp) ? v.source : v` */
  function RegexpToSource(v: Value): (r: Value)
    ensures !r.Regexp?
    ensures v.Regexp? ==> r == Str(v.source)
    ensures !v.Regexp? ==> r == v
  {
    if v.Regexp? then Str(v.source) else v
  }

  /** The three passes of `normalize` in order. Arrays stay arrays and
      hashes stay hashes. */
  function Normalize(v: Value): (r: Value)
    ensures v.Arr? <==> r.Arr?
    ensures v.Hash? <==> r.Hash?
  {
    DeepTransformValues(DeepTransformValues(StringifyKeys(v), SymbolToString), RegexpToSource)
  }

  /** `normalize(schema)`: `deep_stringify_keys` is defined on Hash only, so
      any other value raises before the passes run. */
  function NormalizeSchema(schema: Value): (r: Result<Value>)
    ensures r.Ok? <==> schema.Hash?
    ensures r.Err? ==> r.error == NoMethodError("deep_stringify_keys")
    ensures r.Ok? ==> r.value == Normalize(schema) && r.value.Hash? && Normal(r.value)
  {
    if schema.Hash? then
      NormalizeIsNormal(schema);
      Ok(Normalize(schema))
    else Err(NoMethodError("deep_stringify_keys"))
  }

  /** The shape of a value at every depth: each hash has distinct string
      keys, and Symbols and Regexps occur only where allowed. */
  predicate Shaped(v: Value, symbols: bool, regexps: bool) {
    match v
    case Arr(es) => forall x :: x in es ==> Shaped(x, symbols, regexps)
    case Hash(d) => DistinctKeys(d) && forall e :: e in d ==> e.key.KStr? && Shaped(e.val, symbols, regexps)
    case Sym(_) => symbols
    case Regexp(_) => regexps
    case _ => true
  }

  /** What `normalize` produces: string keys, no Symbol, no Regexp. */
  predicate Normal(v: Value) {
    Shaped(v, false, false)
  }

  lemma {:induction false} StoreAllEntries<K(!new), V>(d: Dict<K, V>, es: Dict<K, V>)
    ensures forall e :: e in StoreAll(d, es) ==> e in d || e in es
    decreases es
  {
    if es != [] {
      StoreEntries(d, es[0].key, es[0].val);
      StoreAllEntries(Store(d, es[0].key, es[0].val), es[1..]);
    }
  }

  /** Rebuilding a hash with the same keys in the same order keeps its keys
      distinct. */
  lemma {:induction false} SameKeysDistinct<V>(d: Dict<Key, V>, d': Dict<Key, V>)
    requires |d| == |d'| && forall i :: 0 <= i < |d| ==> d'[i].key == d[i].key
    requires DistinctKeys(d)
    ensures DistinctKeys(d')
  {
    if d != [] {
      SameKeysDistinct(d[1..], d'[1..]);
      HasKeyAt(d[1..], d[0].key);
      HasKeyAt(d'[1..], d'[0].key);
    }
  }

  /** The pass that turns Symbols into strings keeps the keys and leaves no
      Symbol behind. */
  lemma {:induction false} SymbolPassShape(v: Value, regexps: bool)
    requires Shaped(v, true, regexps)
    ensures Shaped(DeepTransformValues(v, SymbolToString), false, regexps)
  {
    var r := DeepTransformValues(v, SymbolToString);
    match v
    case Arr(es) =>
      forall i | 0 <= i < |es| ensures Shaped(r.elems[i], false, regexps) {
        SymbolPassShape(es[i], regexps);
      }
    case Hash(d) =>
      forall i | 0 <= i < |d| ensures r.entries[i].key.KStr? && Shaped(r.entries[i].val, false, regexps) {
        assert d[i] in d;
        SymbolPassShape(d[i].val, regexps);
      }
      SameKeysDistinct(d, r.entries);
    case _ =>
  }

  /** The pass that turns Regexps into their source keeps the keys, leaves
      no Regexp behind and adds no Symbol. */
  lemma {:induction false} RegexpPassShape(v: Value, symbols: bool)
    requires Shaped(v, symbols, true)
    ensures Shaped(DeepTransformValues(v, RegexpToSource), symbols, false)
  {
    var r := DeepTransformValues(v, RegexpToSource);
    match v
    case Arr(es) =>
      forall i | 0 <= i < |es| ensures Shaped(r.elems[i], symbols, false) {
        RegexpPassShape(es[i], symbols);
      }
    case Hash(d) =>
      forall i | 0 <= i < |d| ensures r.entries[i].key.KStr? && Shaped(r.entries[i].val, symbols, false) {
        assert d[i] in d;
        RegexpPassShape(d[i].val, symbols);
      }
      SameKeysDistinct(d, r.entries);
    case _ =>
  }

  /** After `normalize`, every hash key at every depth is a string, keys
      are distinct, and no Symbol or Regexp is left. */
  lemma NormalizeIsNormal(v: Value)
    ensures Normal(Normalize(v))
  {
    SymbolPassShape(StringifyKeys(v), true);
    RegexpPassShape(DeepTransformValues(StringifyKeys(v), SymbolToString), false);
  }

  /** A value with string keys is left alone by `deep_stringify_keys`. */
  lemma {:induction false} StringifyKeysFixes(v: Value, symbols: bool, regexps: bool)
    requires Shaped(v, symbols, regexps)
    ensures StringifyKeys(v) == v
  {
    match v
    case Arr(es) =>
      forall i | 0 <= i < |es| ensures StringifyKeys(es[i]) == es[i] {
        StringifyKeysFixes(es[i], symbols, regexps);
      }
      assert StringifyKeys(v).elems == es;
    case Hash(d) =>
      var mapped := seq(|d|, i requires 0 <= i < |d| => Entry(StringKey(d[i].key), StringifyKeys(d[i].val)));
      forall i | 0 <= i < |d| ensures mapped[i] == d[i] {
        assert d[i] in d;
        StringifyKeysFixes(d[i].val, symbols, regexps);
      }
      assert mapped == d;
      StoreAllFresh([], d);
    case _ =>
  }

  /** A pass changes nothing when `f` changes no leaf of the value. */
  lemma {:induction false} TransformFixes(v: Value, f: Value -> Value, symbols: bool, regexps: bool)
    requires Shaped(v, symbols, regexps)
    requires forall x: Value :: !x.Arr? && !x.Hash? && Shaped(x, symbols, regexps) ==> f(x) == x
    ensures DeepTransformValues(v, f) == v
  {
    match v
    case Arr(es) =>
      forall i | 0 <= i < |es| ensures DeepTransformValues(es[i], f) == es[i] {
        TransformFixes(es[i], f, symbols, regexps);
      }
      assert DeepTransformValues(v, f).elems == es;
    case Hash(d) =>
      forall i | 0 <= i < |d| ensures DeepTransformValues(v, f).entries[i] == d[i] {
        assert d[i] in d;
        TransformFixes(d[i].val, f, symbols, regexps);
      }
      assert DeepTransformValues(v, f).entries == d;
    case _ =>
  }

  /** A normal value is its own normal form. */
  lemma NormalIsFixed(v: Value)
    requires Normal(v)
    ensures Normalize(v) == v
  {
    StringifyKeysFixes(v, false, false);
    TransformFixes(v, SymbolToString, false, false);
    TransformFixes(v, RegexpToSource, false, false);
  }

  /** `normalize` is idempotent. */
  lemma NormalizeIdempotent(v: Value)
    ensures Normalize(Normalize(v)) == Normalize(v)
  {
    NormalizeIsNormal(v);
    NormalIsFixed(Normalize(v));
  }

  /** Leaves: a Symbol becomes its name, a Regexp its source, every other
      leaf stays as it is. */
  lemma NormalizeLeaf(v: Value)
    requires !v.Arr? && !v.Hash?
    ensures v.Sym? ==> Normalize(v) == Str(v.name)
    ensures v.Regexp? ==> Normalize(v) == Str(v.source)
    ensures !v.Sym? && !v.Regexp? ==> Normalize(v) == v
  {
  }

  /** Arrays keep their length and order: each element is normalised in
      place. */
  lemma NormalizeArray(es: seq<Value>)
    ensures Normalize(Arr(es)).Arr?
    ensures |Normalize(Arr(es)).elems| == |es|
    ensures forall i :: 0 <= i < |es| ==> Normalize(Arr(es)).elems[i] == Normalize(es[i])
  {
  }

  /** No two keys of `d` have the same name. */
  predicate NamesDistinct(d: Dict<Key, Value>) {
    forall i, j :: 0 <= i < j < |d| ==> d[i].key.name != d[j].key.name
  }

  /** Without name collisions a hash keeps its entries in order, each
      under its name as a string and with its value normalised. */
  lemma NormalizeHash(d: Dict<Key, Value>)
    requires NamesDistinct(d)
    ensures Normalize(Hash(d)).Hash?
    ensures var r := Normalize(Hash(d)).entries;
      |r| == |d| && forall i :: 0 <= i < |d| ==> r[i] == Entry(KStr(d[i].key.name), Normalize(d[i].val))
  {
    var mapped := seq(|d|, i requires 0 <= i < |d| => Entry(StringKey(d[i].key), StringifyKeys(d[i].val)));
    DistinctByIndex(mapped);
    StoreAllFresh([], mapped);
    assert StringifyKeys(Hash(d)) == Hash(mapped);
  }

  /** `{a: 1, "a" => 2}` normalises to `{"a" => 2}`: the later value is kept
      under the one string key. */
  lemma NormalizeCollision()
    ensures Normalize(Hash([Entry(KSym("a"), Int(1)), Entry(KStr("a"), Int(2))])) == Hash([Entry(KStr("a"), Int(2))])
  {
    var d := [Entry(KSym("a"), Int(1)), Entry(KStr("a"), Int(2))];
    var mapped := [Entry(KStr("a"), Int(1)), Entry(KStr("a"), Int(2))];
    var m := seq(|d|, i requires 0 <= i < |d| => Entry(StringKey(d[i].key), StringifyKeys(d[i].val)));
    assert m[0] == mapped[0] && m[1] == mapped[1];
    assert m == mapped;
    assert StringifyKeys(Hash(d)) == Hash(StoreAll([], mapped));
    assert StoreAll([], mapped) == StoreAll([Entry(KStr("a"), Int(1))], mapped[1..]);
    assert StoreAll([], mapped) == [Entry(KStr("a"), Int(2))];
  }

  /** The arguments `load` hands on: the view roots and the options for
      `render`. */
  datatype Loaded = Loaded(paths: seq<string>, options: Dict<Key, Value>)

  /** `{model: object&.class, title:, description:}`. */
  function SchemaOptions(obj: Value, title: Value, description: Value): (r: Value)
    ensures r.Hash? && DistinctKeys(r.entries) && |r.entries| == 3
    ensures Get(r.entries, KSym("model")) == Some(if obj.Nil? then Nil else Class(ClassName(obj)))
    ensures Get(r.entries, KSym("title")) == Some(title)
    ensures Get(r.entries, KSym("description")) == Some(description)
  {
    var h0: Dict<Key, Value> := [];
    var h1 := Store(h0, KSym("model"), if obj.Nil? then Nil else Class(ClassName(obj)));
    var h2 := Store(h1, KSym("title"), title);
    Hash(Store(h2, KSym("description"), description))
  }

  /** The key under which `load` passes its own options to the template. */
  const OptionsKey := KSym("__jbuilder_schema_options")

  /** `load(object, paths:, title:, description:, **options)` up to the
      hand-off to the renderer. `paths` is `None` when not given. */
  method Load(obj: Value, paths: Option<seq<string>>, title: Value, description: Value, options: Dict<Key, Value>)
    returns (r: Result<Loaded>)
    ensures Truthy(obj) && !obj.Obj? ==> r == Err(NoMethodError("to_partial_path"))
    ensures r.Err? <==> (Truthy(obj) && !obj.Obj?) || !LocalsAccept(options)
    ensures r.Ok? ==> r.value.paths == paths.GetOr(["app/views"])
    ensures r.Ok? && Truthy(obj) ==>
      Get(r.value.options, KSym("partial")) == Some(Str(obj.partialPath)) &&
      Get(r.value.options, KSym("object")) == Some(obj)
    ensures r.Ok? ==> forall k :: k != KSym("locals") && k != KSym("partial") && k != KSym("object") ==>
      Get(r.value.options, k) == Get(options, k)
    ensures r.Ok? && !Truthy(obj) ==>
      Get(r.value.options, KSym("partial")) == Get(options, KSym("partial")) &&
      Get(r.value.options, KSym("object")) == Get(options, KSym("object"))
    ensures r.Ok? ==> SchemaLocals(r.value.options, SchemaOptions(obj, title, description), LocalsGiven(options))
  {
    if Truthy(obj) && !obj.Obj? {
      return Err(NoMethodError("to_partial_path"));
    }
    var opts := if Truthy(obj) then MergeObject(options, obj) else options;
    var added := AddSchemaOptions(opts, SchemaOptions(obj, title, description));
    if added.Err? {
      return Err(added.error);
    }
    LoadedOptions(options, opts, added.value, obj);
    r := Ok(Loaded(paths.GetOr(["app/views"]), added.value));
  }

  /** `options.merge!(partial: object.to_partial_path, object: object)`. */
  function MergeObject(options: Dict<Key, Value>, obj: Value): (r: Dict<Key, Value>)
    requires obj.Obj?
    ensures Get(r, KSym("partial")) == Some(Str(obj.partialPath))
    ensures Get(r, KSym("object")) == Some(obj)
    ensures forall k :: k != KSym("partial") && k != KSym("object") ==> Get(r, k) == Get(options, k)
    ensures LocalsGiven(r) == LocalsGiven(options)
  {
    Store(Store(options, KSym("partial"), Str(obj.partialPath)), KSym("object"), obj)
  }

  /** The options `load` hands on keep every option the caller gave, apart
      from `:locals` and, for a truthy object, `:partial` and `:object`. */
  lemma LoadedOptions(options: Dict<Key, Value>, merged: Dict<Key, Value>, added: Dict<Key, Value>, obj: Value)
    requires !Truthy(obj) || obj.Obj?
    requires merged == if Truthy(obj) then MergeObject(options, obj) else options
    requires forall k :: k != KSym("locals") ==> Get(added, k) == Get(merged, k)
    ensures forall k :: k != KSym("locals") && k != KSym("partial") && k != KSym("object") ==>
      Get(added, k) == Get(options, k)
    ensures Truthy(obj) ==>
      Get(added, KSym("partial")) == Some(Str(obj.partialPath)) && Get(added, KSym("object")) == Some(obj)
    ensures !Truthy(obj) ==>
      Get(added, KSym("partial")) == Get(options, KSym("partial")) &&
      Get(added, KSym("object")) == Get(options, KSym("object"))
  {
    assert Get(added, KSym("partial")) == Get(merged, KSym("partial"));
    assert Get(added, KSym("object")) == Get(merged, KSym("object"));
  }

  /** The `locals:` option holds a Hash with `schemaOptions` under the
      options key and, under every other key, what the caller passed in
      the locals `given`. */
  ghost predicate SchemaLocals(opts: Dict<Key, Value>, schemaOptions: Value, given: Value) {
    var l := Get(opts, KSym("locals"));
    l.Some? && l.value.Hash? &&
    Get(l.value.entries, OptionsKey) == Some(schemaOptions) &&
    forall k :: k != OptionsKey ==> Get(l.value.entries, k) == GivenLocal(given, k)
  }

  /** `options[:locals] ||= {}` followed by
      `options[:locals][:__jbuilder_schema_options] = ...`: a truthy
      non-Hash `locals:` makes the `[]=` fail. */
  function AddSchemaOptions(opts: Dict<Key, Value>, schemaOptions: Value): (r: Result<Dict<Key, Value>>)
    ensures r.Ok? <==> LocalsAccept(opts)
    ensures r.Ok? ==> forall k :: k != KSym("locals") ==> Get(r.value, k) == Get(opts, k)
    ensures r.Ok? ==> SchemaLocals(r.value, schemaOptions, LocalsGiven(opts))
    ensures LocalsGiven(opts).Str? || LocalsGiven(opts).Arr? ==>
      r == Err(TypeError("no implicit conversion of Symbol into Integer"))
  {
    var locals := if Truthy(LocalsGiven(opts)) then LocalsGiven(opts) else Hash([]);
    match locals
    case Hash(ls) =>
      var updated := Store(ls, OptionsKey, schemaOptions);
      Ok(Store(opts, KSym("locals"), Hash(updated)))
    case Str(_) => Err(TypeError("no implicit conversion of Symbol into Integer"))
    case Arr(_) => Err(TypeError("no implicit conversion of Symbol into Integer"))
    case _ => Err(NoMethodError("[]="))
  }

  /** What the caller passed as `locals:`. */
  function LocalsGiven(options: Dict<Key, Value>): Value {
    Get(options, KSym("locals")).GetOr(Nil)
  }

  /** The locals `load` writes into accept `[]=`: absent, falsy or a Hash. */
  predicate LocalsAccept(options: Dict<Key, Value>) {
    !Truthy(LocalsGiven(options)) || LocalsGiven(options).Hash?
  }

  /** A local the caller passed, other than the options key. */
  function GivenLocal(given: Value, k: Key): Option<Value> {
    if given.Hash? then Get(given.entries, k) else None
  }

  /** A block given with `&block`, known only by its identity. */
  datatype Block = Block(id: nat)

  /** A method call on a Jbuilder: positional arguments, keywords and the
      block, if any. */
  datatype Call = Call(args: seq<Value>, kwargs: Dict<Key, Value>, block: Option<Block>)

  /** `IgnoreSchemaMeta#method_missing`: the `schema:` keyword is dropped
      and everything else is passed to plain Jbuilder unchanged. */
  function ForwardWithoutSchema(c: Call): (r: Call)
    ensures r.args == c.args && r.block == c.block
    ensures !HasKey(r.kwargs, KSym("schema"))
    ensures forall k :: k != KSym("schema") ==> Get(r.kwargs, k) == Get(c.kwargs, k)
    ensures !HasKey(c.kwargs, KSym("schema")) ==> r == c
  {
    Call(c.args, Without(c.kwargs, KSym("schema")), c.block)
  }

  /** Forwarding twice is forwarding once. */
  lemma ForwardIdempotent(c: Call)
    ensures ForwardWithoutSchema(ForwardWithoutSchema(c)) == ForwardWithoutSchema(c)
  {
  }

  /** `json.something true, schema: {...}`, with or without a block,
      reaches Jbuilder as `json.something true` with the same block. */
  lemma PlainJbuilderIgnoresSchema(schema: Value, block: Option<Block>)
    ensures ForwardWithoutSchema(Call([Sym("something"), Bool(true)], [Entry(KSym("schema"), schema)], block))
      == Call([Sym("something"), Bool(true)], [], block)
  {
  }

  /** The settings `Jbuilder::Schema` holds as class-level accessors. */
  class SchemaClass {
    var componentsPath: string
    var titleName: string
    var descriptionName: string

    function Current(): Settings
      reads this
    {
      Settings(componentsPath, titleName, descriptionName)
    }

    constructor()
      ensures Current() == Defaults()
    {
      componentsPath, titleName, descriptionName := "components/schemas", "title", "description";
    }

    /** One accessor writer. */
    method Assign(a: Assignment)
      modifies this
      ensures Current() == Apply(old(Current()), a)
    {
      match a.field
      case ComponentsPath => componentsPath := a.value;
      case TitleName => titleName := a.value;
      case DescriptionName => descriptionName := a.value;
    }

    /** `configure { |config| ... }`, yielding the class itself: the
        block's writer calls, in order. */
    method Configure(block: seq<Assignment>)
      modifies this
      ensures Current() == ApplyAll(old(Current()), block)
    {
      var i := 0;
      while i < |block|
        invariant 0 <= i <= |block|
        invariant Current() == ApplyAll(old(Current()), block[..i])
      {
        assert block[..i + 1][..i] == block[..i];
        Assign(block[i]);
        i := i + 1;
      }
      assert block[..i] == block;
    }
  }
}
