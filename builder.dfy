/** `JbuilderSchema::Builder`: holds a template path, a title, a description
    and locals, and assembles the top-level object schema from its
    template's `required` and `properties`. */
module JbBuilder {
  import opened RubyValues
  import opened RubyStrings
  import opened JbTemplate
  import JbResolver

  /** What `_resolve_path` returns: `[prefix, controller, action, partial]`.
      `controller` is `nil` for a path of one segment. */
  datatype ResolvedPath = ResolvedPath(prefix: string, controller: Option<string>, action: string, partial: bool)

  /** The last segment as it was written, with its `_`. */
  function RawAction(p: ResolvedPath): string {
    if p.partial then "_" + p.action else p.action
  }

  /** `_resolve_path` as written: the prefix is the path with
      `"/#{controller}/#{action}"` deleted from its end, computed before the
      `_` is stripped from the action. A path with no segment at all leaves
      `action` `nil`, and `action[0]` fails. */
  function ResolvePath(path: string): (r: Result<ResolvedPath>)
    ensures r.Err? <==> RubySplit(path, '/') == []
    ensures r.Ok? ==> var fs := RubySplit(path, '/');
      RawAction(r.value) == fs[|fs| - 1] &&
      r.value.controller == (if |fs| >= 2 then Some(fs[|fs| - 2]) else None)
    ensures r.Ok? ==> (r.value.partial <==> RawAction(r.value)[0] == '_')
  {
    var fs := RubySplit(path, '/');
    if fs == [] then Err(NoMethodError("[]"))
    else
      var action := fs[|fs| - 1];
      var controller := if |fs| >= 2 then Some(fs[|fs| - 2]) else None;
      var prefix := DeleteSuffix(path, "/" + controller.GetOr("") + "/" + action);
      var partial := action[0] == '_';
      Ok(ResolvedPath(prefix, controller, if partial then action[1..] else action, partial))
  }

  /** With at least two `/` and no trailing `/`, the builder and the
      resolver agree on every part of the path. */
  lemma ResolvePathAgreesWithResolver(path: string)
    requires path != [] && path[|path| - 1] != '/'
    requires Count(path, '/') >= 2
    ensures ResolvePath(path).Ok? && JbResolver.SplitPath(path).Ok?
    ensures var p := ResolvePath(path).value;
      var q := JbResolver.SplitPath(path).value;
      p.prefix == q.prefix && p.controller == Some(q.controller) &&
      p.action == q.action && p.partial == q.partial
  {
    var fs := ResolverReading(path);
    var n := |fs|;
    var q := JbResolver.SplitPath(path).value;
    var suffix := "/" + q.controller + "/" + JbResolver.RawAction(q);
    DeleteSuffixOfConcat(q.prefix, suffix);
  }

  lemma ResolverReading(path: string) returns (fs: seq<string>)
    requires path != [] && path[|path| - 1] != '/'
    requires Count(path, '/') >= 2
    ensures fs == RubySplit(path, '/') && |fs| >= 3
    ensures JbResolver.SplitPath(path).Ok?
    ensures var q := JbResolver.SplitPath(path).value;
      fs[|fs| - 2] == q.controller && fs[|fs| - 1] == JbResolver.RawAction(q) &&
      path == q.prefix + ("/" + q.controller + "/" + JbResolver.RawAction(q))
  {
    SplitCount(path, '/');
    SplitLastNonEmpty(path, '/');
    fs := RubySplit(path, '/');
    assert fs == Split(path, '/');
    var n := |fs|;
    JbResolver.SplitPathRoundTrip(path);
    var q := JbResolver.SplitPath(path).value;
    assert fs[n - 2] == q.controller && fs[n - 1] == JbResolver.RawAction(q);
  }

  /** With at least two `/` and no trailing `/`, the parts put back
      together give the path. */
  lemma ResolvePathRoundTrip(path: string)
    requires path != [] && path[|path| - 1] != '/'
    requires Count(path, '/') >= 2
    ensures ResolvePath(path).Ok?
    ensures var p := ResolvePath(path).value;
      p.controller.Some? && p.prefix + "/" + p.controller.value + "/" + RawAction(p) == path
  {
    ResolvePathAgreesWithResolver(path);
    SplitCount(path, '/');
    SplitLastNonEmpty(path, '/');
    JbResolver.SplitPathRoundTrip(path);
  }

  /** With exactly one `/`, as in `a/_b`, the suffix `"/a/_b"` is not at the
      end of the path, so the prefix is the whole path, where the resolver
      reads the same path with an empty prefix. */
  lemma OneSlashPrefixIsWholePath()
    ensures ResolvePath("a/_b") == Ok(ResolvedPath("a/_b", Some("a"), "b", true))
    ensures JbResolver.SplitPath("a/_b") == Ok(JbResolver.PathParts("", "a", "b", true))
  {
    SplitWithoutSeparator("a", '/');
    SplitWithoutSeparator("_b", '/');
    FieldsAppend("a", '/', "_b", c => c == '/');
    assert "a" + ['/'] + "_b" == "a/_b";
    assert Split("a/_b", '/') == ["a", "_b"];
    assert RubySplit("a/_b", '/') == ["a", "_b"];
    assert !EndsWith("a/_b", "/a/_b");
    assert ["a", "_b"][..0] == [];
  }

  /** `_resolve_path` as evidently intended: the prefix is every segment but
      the last two, joined with `/`. */
  function ResolvePathFixed(path: string): (r: Result<ResolvedPath>)
    ensures r.Err? <==> RubySplit(path, '/') == []
    ensures r.Ok? ==> var fs := RubySplit(path, '/');
      RawAction(r.value) == fs[|fs| - 1] &&
      r.value.controller == (if |fs| >= 2 then Some(fs[|fs| - 2]) else None)
  {
    var fs := RubySplit(path, '/');
    if fs == [] then Err(NoMethodError("[]"))
    else
      var action := fs[|fs| - 1];
      var n := |fs|;
      var controller := if n >= 2 then Some(fs[n - 2]) else None;
      var prefix := if n >= 2 then Join(fs[..n - 2], "/") else "";
      var partial := action[0] == '_';
      Ok(ResolvedPath(prefix, controller, if partial then action[1..] else action, partial))
  }

  /** The corrected prefix agrees with the resolver on every path the
      resolver accepts, with or without a trailing `/` and for any number of
      segments. */
  lemma ResolvePathFixedAgreesWithResolver(path: string)
    requires JbResolver.SplitPath(path).Ok?
    ensures var p := ResolvePathFixed(path).value;
      var q := JbResolver.SplitPath(path).value;
      p.prefix == q.prefix && p.controller == Some(q.controller) &&
      p.action == q.action && p.partial == q.partial
  {
    var fs := RubySplit(path, '/');
    var q := JbResolver.SplitPath(path).value;
    assert fs[|fs| - 1] == JbResolver.RawAction(q);
  }

  /** Where the path has two `/` and no trailing `/`, the correction changes
      nothing. */
  lemma ResolvePathFixedKeepsWrittenCases(path: string)
    requires path != [] && path[|path| - 1] != '/'
    requires Count(path, '/') >= 2
    ensures ResolvePathFixed(path) == ResolvePath(path)
  {
    ResolvePathAgreesWithResolver(path);
    var q := JbResolver.SplitPath(path).value;
    var fs := RubySplit(path, '/');
    assert fs[|fs| - 1] == JbResolver.RawAction(q);
  }

  /** `options[:locals] || {}`. */
  function LocalsOption(options: Dict<Key, Value>): (r: Value)
    ensures Truthy(Get(options, KSym("locals")).GetOr(Nil)) ==> Some(r) == Get(options, KSym("locals"))
    ensures !Truthy(Get(options, KSym("locals")).GetOr(Nil)) ==> r == Hash([])
    ensures Truthy(r)
  {
    var given := Get(options, KSym("locals")).GetOr(Nil);
    if Truthy(given) then given else Hash([])
  }

  /** The property map as a Ruby Hash value. */
  function PropertiesValue(properties: Dict<Key, Dict<Key, Value>>): (r: Value)
    ensures r.Hash? && |r.entries| == |properties|
    ensures forall i :: 0 <= i < |properties| ==> r.entries[i] == Entry(properties[i].key, Hash(properties[i].val))
  {
    Hash(seq(|properties|, i requires 0 <= i < |properties| => Entry(properties[i].key, Hash(properties[i].val))))
  }

  /** The symbols `required` returns, as a Ruby Array value. */
  function SymbolsValue(names: seq<string>): (r: Value)
    ensures r.Arr? && |r.elems| == |names|
    ensures forall i :: 0 <= i < |names| ==> r.elems[i] == Sym(names[i])
  {
    Arr(seq(|names|, i requires 0 <= i < |names| => Sym(names[i])))
  }

  /** `_object`: a hash of exactly the five keys, in this order. */
  function ObjectSchema(title: Value, description: Value, required: seq<string>, properties: Dict<Key, Dict<Key, Value>>): (r: Value)
    ensures r.Hash? && DistinctKeys(r.entries) && |r.entries| == 5
    ensures forall k :: HasKey(r.entries, k) <==>
      k == KSym("type") || k == KSym("title") || k == KSym("description") || k == KSym("required") || k == KSym("properties")
    ensures Get(r.entries, KSym("type")) == Some(Sym("object"))
    ensures Get(r.entries, KSym("title")) == Some(title)
    ensures Get(r.entries, KSym("description")) == Some(description)
    ensures Get(r.entries, KSym("required")) == Some(SymbolsValue(required))
    ensures Get(r.entries, KSym("properties")) == Some(PropertiesValue(properties))
  {
    var d := [
      Entry(KSym("type"), Sym("object")),
      Entry(KSym("title"), title),
      Entry(KSym("description"), description),
      Entry(KSym("required"), SymbolsValue(required)),
      Entry(KSym("properties"), PropertiesValue(properties))];
    DistinctByIndex(d);
    GetAt(d, 0);
    GetAt(d, 1);
    GetAt(d, 2);
    GetAt(d, 3);
    GetAt(d, 4);
    assert forall k :: HasKey(d, k) <==> exists j :: 0 <= j < |d| && d[j].key == k by {
      forall k {
        HasKeyAt(d, k);
      }
    }
    Hash(d)
  }

  /** `_object` with the template's cache threaded through: `required` is
      evaluated before `properties`, as the hash literal lists them. */
  function ObjectStep(env: Env, title: Value, description: Value, source: string, models: Models): (r: Step<Value>)
    ensures r.result.Ok? ==>
      var req := RequiredStep(env, source, models);
      var props := PropertiesStep(env, source, req.models);
      req.result.Ok? && props.result.Ok? && r.models == props.models &&
      r.result.value == ObjectSchema(title, description, req.result.value, props.result.value)
    ensures r.result.Err? ==>
      var req := RequiredStep(env, source, models);
      if req.result.Err? then r == Step(Err(req.result.error), req.models)
      else
        var props := PropertiesStep(env, source, req.models);
        props.result.Err? && r == Step(Err(props.result.error), props.models)
    ensures Extends(models, r.models)
  {
    var req := RequiredStep(env, source, models);
    match req.result
    case Err(e) => Step(Err(e), req.models)
    case Ok(required) =>
      var props := PropertiesStep(env, source, req.models);
      match props.result
      case Err(e) => Step(Err(e), props.models)
      case Ok(p) => Step(Ok(ObjectSchema(title, description, required, p)), props.models)
  }

  /** `Builder`. The template is given to the constructor: the one the
      source builds runs the Jbuilder handler, which is not modelled. */
  class Builder {
    const path: string
    const title: Value
    const description: Value
    const locals: Value
    const template: Template?

    constructor(path: string, options: Dict<Key, Value>, template: Template?)
      ensures this.path == path && this.template == template
      ensures title == Get(options, KSym("title")).GetOr(Nil)
      ensures description == Get(options, KSym("description")).GetOr(Nil)
      ensures locals == LocalsOption(options)
    {
      this.path := path;
      title := Get(options, KSym("title")).GetOr(Nil);
      description := Get(options, KSym("description")).GetOr(Nil);
      locals := LocalsOption(options);
      this.template := template;
    }

    /** `schema!`: `{}` without a template, the object schema otherwise. */
    method Schema(env: Env) returns (r: Result<Value>)
      modifies template
      ensures template == null ==> r == Ok(Hash([]))
      ensures template != null ==>
        Step(r, template.models) == ObjectStep(env, title, description, template.source, old(template.models))
    {
      if template == null {
        return Ok(Hash([]));
      }
      var required := template.Required(env);
      if required.Err? {
        return Err(required.error);
      }
      var properties := template.Properties(env);
      if properties.Err? {
        return Err(properties.error);
      }
      r := Ok(ObjectSchema(title, description, required.value, properties.value));
    }
  }
}
