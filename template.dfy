/** `JbuilderSchema::Template`: reads the source of a Jbuilder template line
    by line and infers a JSON-Schema type for every `json.<property> <value>`
    line, from a literal value or from the column type of the ActiveRecord
    model the value names. Model classes found on the way are cached in
    `models`, which `required` later reads for presence validations.

    The template state is a class: `models` is updated in place by the
    parsing methods. Each method is proved against a state-passing
    specification function that takes the cache in and gives it back. */
module JbTemplate {
  import opened RubyValues
  import opened RubyStrings
  import opened LineParsing

  /** What the parser uses of an ActiveRecord model class: its name, the
      type of each column (`columns_hash[name].type`) and the attributes of
      its presence validators, in declaration order. */
  datatype ModelClass = ModelClass(name: string, columns: map<string, string>, presenceAttributes: seq<string>)

  /** What `safe_constantize` can find: a model class, which responds to
      `columns_hash`, or any other constant. */
  datatype Constant = PlainConstant(name: string) | ModelConstant(model: ModelClass)

  /** The collaborators the template cannot see: the regexp cut and
      `SafeParser` of the `schema:` fragment, which raises on a fragment it
      cannot read (the non-greedy cut of a nested hash, a non-literal value),
      ActiveSupport's `classify`, and constant lookup in the running
      application. */
  datatype Env = Env(
    cutSchema: string -> Result<Cut>,
    classify: string -> string,
    constantize: string -> Option<Constant>)

  /** The `models` cache: class name to model class, in insertion order. */
  type Models = Dict<string, ModelClass>

  /** The outcome of one step together with the cache after it. An error
      does not undo the cache entries stored before it. */
  datatype Step<T> = Step(result: Result<T>, models: Models)

  /** A schema type: `:string`, or `[:string, "date-time"]`. */
  datatype InferredType = Scalar(name: string) | Formatted(name: string, format: string)

  /** The cache only grows: no key is ever dropped. */
  ghost predicate Extends(before: Models, after: Models) {
    forall k :: HasKey(before, k) ==> HasKey(after, k)
  }

  predicate IsDigit(c: char) {
    '0' <= c <= '9'
  }

  predicate IsOctalDigit(c: char) {
    '0' <= c <= '7'
  }

  predicate IsDigits(s: string) {
    |s| > 0 && forall i :: 0 <= i < |s| ==> IsDigit(s[i])
  }

  /** `s` with one leading sign removed. */
  function Unsigned(s: string): (r: string)
    ensures |s| > 0 && (s[0] == '+' || s[0] == '-') ==> [s[0]] + r == s
    ensures |s| == 0 || (s[0] != '+' && s[0] != '-') ==> r == s
  {
    if |s| > 0 && (s[0] == '+' || s[0] == '-') then s[1..] else s
  }

  /** The decimal strings `Integer(s, exception: false)` accepts: an
      optional sign and digits, where a leading `0` followed by more digits
      makes the number octal, so `"010"` is 8 and `"08"` is rejected. */
  predicate IsIntegerLiteral(s: string)
    ensures IsIntegerLiteral(s) ==> '.' !in s && IsFloatLiteral(s)
  {
    var body := Unsigned(s);
    IsDigits(body) && (body[0] == '0' && |body| > 1 ==> forall i :: 1 <= i < |body| ==> IsOctalDigit(body[i]))
  }

  /** The decimal strings `Float(s, exception: false)` accepts: an optional
      sign, digits, and optionally a point followed by digits. Leading zeros
      are plain decimal here. */
  predicate IsFloatLiteral(s: string)
    ensures IsFloatLiteral(s) ==> |s| > 0 && IsDigit(s[|s| - 1])
  {
    var body := Unsigned(s);
    var whole := TakeUntil(body, '.');
    IsDigits(whole) && (whole == body || IsDigits(body[|whole| + 1..]))
  }

  /** The first three lines of `_get_type`: the literal kind of `value`,
      where an earlier test wins over a later one. */
  function LiteralType(value: Option<string>): (r: Option<string>)
    ensures value.Some? && (value.value == "true" || value.value == "false") ==> r == Some("boolean")
    ensures value.Some? && IsIntegerLiteral(value.value) ==> r == Some("integer")
    ensures value.Some? && IsFloatLiteral(value.value) && !IsIntegerLiteral(value.value) ==> r == Some("number")
    ensures r.None? <==> value.None? || !(value.value in {"true", "false"} || IsFloatLiteral(value.value) || IsIntegerLiteral(value.value))
  {
    match value
    case None => None
    case Some(v) =>
      if v == "true" || v == "false" then Some("boolean")
      else if IsIntegerLiteral(v) then Some("integer")
      else if IsFloatLiteral(v) then Some("number")
      else None
  }

  /** `_schematize_type`: `:datetime` becomes a string with the date-time
      format, a missing type and `:text` become `:string`. */
  function SchematizeType(t: Option<string>): (r: InferredType)
    ensures r.Formatted? <==> t == Some("datetime")
    ensures r.Formatted? ==> r == Formatted("string", "date-time")
    ensures r.name != "text" && r.name != "datetime"
    ensures t.None? ==> r == Scalar("string")
    ensures t.Some? && t.value != "datetime" && t.value != "text" ==> r == Scalar(t.value)
  {
    match t
    case None => Scalar("string")
    case Some(n) =>
      if n == "datetime" then Formatted("string", "date-time")
      else if n == "text" then Scalar("string")
      else Scalar(n)
  }

  /** `_find_class(name)`: looks the classified name up; a model class is
      cached under `name` and the result is whether one was found. */
  function FindClassStep(env: Env, name: string, models: Models): (r: Step<bool>)
    ensures r.result.Ok?
    ensures r.result.value <==> exists m :: env.constantize(env.classify(name)) == Some(ModelConstant(m))
    ensures r.result.value ==> r.models == Store(models, name, env.constantize(env.classify(name)).value.model)
    ensures !r.result.value ==> r.models == models
    ensures Extends(models, r.models)
  {
    var k := env.constantize(env.classify(name));
    if k.Some? && k.value.ModelConstant? then Step(Ok(true), Store(models, name, k.value.model))
    else Step(Ok(false), models)
  }

  /** The class name `_type_from_model` derives from the variable part of
      `value`, or `None` where Ruby fails: no value at all (`nil.split`) or a
      value of dots only, whose `split(".")` is empty. */
  function ClassNameOf(env: Env, value: Option<string>): (r: Option<string>)
    ensures r.None? <==> value.None? || RubySplit(value.value, '.') == []
    ensures r.Some? ==> r.value == env.classify(Delete(RubySplit(value.value, '.')[0], '@'))
  {
    if value.None? then None
    else
      var parts := RubySplit(value.value, '.');
      if parts == [] then None else Some(env.classify(Delete(parts[0], '@')))
  }

  /** The method part of `value`: the second field of `split(".")`. */
  function MethodOf(value: string): (r: Option<string>)
    ensures r.None? <==> |RubySplit(value, '.')| < 2
    ensures r.Some? ==> r.value == RubySplit(value, '.')[1] && '.' !in r.value
  {
    var parts := RubySplit(value, '.');
    if |parts| >= 2 then Some(parts[1]) else None
  }

  /** `columns_hash[method].type`, failing as Ruby does on the `nil` of a
      missing column. */
  function ColumnType(cls: ModelClass, column: Option<string>): (r: Result<Option<string>>)
    ensures r.Ok? <==> column.Some? && column.value in cls.columns
    ensures r.Ok? ==> r.value == Some(cls.columns[column.value])
  {
    if column.Some? && column.value in cls.columns then Ok(Some(cls.columns[column.value]))
    else Err(NoMethodError("type"))
  }

  /** `_type_from_model(value)`: the column type of the model the value's
      variable names, `nil` when no model class of that name exists. */
  function TypeFromModelStep(env: Env, value: Option<string>, models: Models): (r: Step<Option<string>>)
    ensures Extends(models, r.models)
    ensures ClassNameOf(env, value).None? ==>
      r == Step(Err(NoMethodError(if value.None? then "split" else "delete")), models)
    ensures ClassNameOf(env, value).Some? && HasKey(models, ClassNameOf(env, value).value) ==>
      r.models == models && r.result == ColumnType(Get(models, ClassNameOf(env, value).value).value, MethodOf(value.value))
    ensures r.result == Ok(None) <==>
      ClassNameOf(env, value).Some? && !HasKey(models, ClassNameOf(env, value).value) &&
      !FindClassStep(env, ClassNameOf(env, value).value, models).result.value
    ensures (ClassNameOf(env, value).Some? && !HasKey(models, ClassNameOf(env, value).value) &&
      FindClassStep(env, ClassNameOf(env, value).value, models).result.value) ==>
      var cn := ClassNameOf(env, value).value;
      var m := env.constantize(env.classify(cn)).value.model;
      r.models == Store(models, cn, m) && r.result == ColumnType(m, MethodOf(value.value))
    ensures r.result.Ok? && r.result.value.Some? ==> HasKey(r.models, ClassNameOf(env, value).value)
    ensures r.result == Ok(None) ==> r.models == models
  {
    var className := ClassNameOf(env, value);
    if className.None? then
      Step(Err(NoMethodError(if value.None? then "split" else "delete")), models)
    else
      var cn := className.value;
      var found := if HasKey(models, cn) then Step(Ok(true), models) else FindClassStep(env, cn, models);
      if !found.result.value then Step(Ok(None), found.models)
      else Step(ColumnType(Get(found.models, cn).value, MethodOf(value.value)), found.models)
  }

  /** `_get_type(value)`: a literal type first, the model's column type
      otherwise, schematized. */
  function GetTypeStep(env: Env, value: Option<string>, models: Models): (r: Step<InferredType>)
    ensures Extends(models, r.models)
    ensures LiteralType(value).Some? ==> r == Step(Ok(SchematizeType(LiteralType(value))), models)
    ensures LiteralType(value).None? ==>
      var t := TypeFromModelStep(env, value, models);
      r.models == t.models && r.result.Ok? == t.result.Ok? &&
      (r.result.Ok? ==> r.result.value == SchematizeType(t.result.value)) &&
      (t.result.Err? ==> r.result == Err(t.result.error))
  {
    var lit := LiteralType(value);
    if lit.Some? then Step(Ok(SchematizeType(lit)), models)
    else
      var t := TypeFromModelStep(env, value, models);
      match t.result
      case Err(e) => Step(Err(e), t.models)
      case Ok(ty) => Step(Ok(SchematizeType(ty)), t.models)
  }

  /** `schema[:type], schema[:format] = type` or `schema[:type] = type`. */
  function WithType(schema: Dict<Key, Value>, t: InferredType): (r: Dict<Key, Value>)
    ensures Get(r, KSym("type")) == Some(Sym(t.name))
    ensures t.Formatted? ==> Get(r, KSym("format")) == Some(Str(t.format))
    ensures t.Scalar? ==> Get(r, KSym("format")) == Get(schema, KSym("format"))
    ensures forall k :: k != KSym("type") && k != KSym("format") ==> Get(r, k) == Get(schema, k)
    ensures DistinctKeys(schema) ==> DistinctKeys(r)
  {
    match t
    case Scalar(n) => Store(schema, KSym("type"), Sym(n))
    case Formatted(n, f) => Store(Store(schema, KSym("type"), Sym(n)), KSym("format"), Str(f))
  }

  function FirstArgument(arguments: seq<string>): Option<string> {
    if arguments == [] then None else Some(arguments[0])
  }

  /** `_schema_for_line`: an explicit truthy `:type` is kept as written;
      otherwise the type of the first argument is filled in. */
  function SchemaForLineStep(env: Env, line: Line, models: Models): (r: Step<Dict<Key, Value>>)
    ensures Extends(models, r.models)
    ensures Truthy(Get(line.schema, KSym("type")).GetOr(Nil)) ==> r == Step(Ok(line.schema), models)
    ensures !Truthy(Get(line.schema, KSym("type")).GetOr(Nil)) ==>
      var g := GetTypeStep(env, FirstArgument(line.arguments), models);
      r.models == g.models && r.result.Ok? == g.result.Ok? &&
      (r.result.Ok? ==> r.result.value == WithType(line.schema, g.result.value)) &&
      (g.result.Err? ==> r.result == Err(g.result.error))
  {
    if Truthy(Get(line.schema, KSym("type")).GetOr(Nil)) then Step(Ok(line.schema), models)
    else
      var g := GetTypeStep(env, FirstArgument(line.arguments), models);
      match g.result
      case Err(e) => Step(Err(e), g.models)
      case Ok(t) => Step(Ok(WithType(line.schema, t)), g.models)
  }

  /** One iteration of `_parse_lines!`: the property symbol from the first
      word, the `schema:` fragment cut out and read, the remaining words
      as arguments, then the line's schema completed. */
  function ParseLineStep(env: Env, text: string, models: Models): (r: Step<Line>)
    ensures Extends(models, r.models)
    ensures PropertyName(text).None? ==> r == Step(Err(NoMethodError("delete_prefix")), models)
    ensures PropertyName(text).Some? && env.cutSchema(text).Err? ==>
      r == Step(Err(env.cutSchema(text).error), models)
    ensures PropertyName(text).Some? && env.cutSchema(text).Ok? ==>
      var cut := env.cutSchema(text).value;
      var args := ArgumentsOf(cut.rest);
      (args.None? ==> r == Step(Err(NoMethodError("map")), models)) &&
      (args.Some? ==>
        var s := SchemaForLineStep(env, Line(KSym(PropertyName(text).value), cut.schema, args.value), models);
        r.models == s.models && (r.result.Ok? <==> s.result.Ok?) && (s.result.Err? ==> r.result == Err(s.result.error)))
    ensures r.result.Ok? <==>
      PropertyName(text).Some? && env.cutSchema(text).Ok? && ArgumentsOf(env.cutSchema(text).value.rest).Some? &&
      SchemaForLineStep(env, Line(KSym(PropertyName(text).value), env.cutSchema(text).value.schema,
        ArgumentsOf(env.cutSchema(text).value.rest).value), models).result.Ok?
    ensures r.result.Ok? ==> (env.cutSchema(text).Ok? &&
      var cut := env.cutSchema(text).value;
      r.result.value.property == KSym(PropertyName(text).value) &&
      Some(r.result.value.arguments) == ArgumentsOf(cut.rest) &&
      Step(Ok(r.result.value.schema), r.models) ==
        SchemaForLineStep(env, Line(r.result.value.property, cut.schema, r.result.value.arguments), models))
  {
    var name := PropertyName(text);
    if name.None? then Step(Err(NoMethodError("delete_prefix")), models)
    else if env.cutSchema(text).Err? then Step(Err(env.cutSchema(text).error), models)
    else
      var cut := env.cutSchema(text).value;
      var args := ArgumentsOf(cut.rest);
      if args.None? then Step(Err(NoMethodError("map")), models)
      else
        var line := Line(KSym(name.value), cut.schema, args.value);
        var s := SchemaForLineStep(env, line, models);
        match s.result
        case Err(e) => Step(Err(e), s.models)
        case Ok(schema) => Step(Ok(line.(schema := schema)), s.models)
  }

  /** `_parse_lines!` over `lines`: every line parsed in order with the
      cache threaded through; the first failing line stops the loop. */
  function ParseAll(env: Env, lines: seq<string>, models: Models): (r: Step<seq<Line>>)
    ensures Extends(models, r.models)
    ensures r.result.Ok? ==> |r.result.value| == |lines|
  {
    if lines == [] then Step(Ok([]), models)
    else
      var prev := ParseAll(env, lines[..|lines| - 1], models);
      match prev.result
      case Err(e) => Step(Err(e), prev.models)
      case Ok(done) =>
        var s := ParseLineStep(env, lines[|lines| - 1], prev.models);
        match s.result
        case Err(e) => Step(Err(e), s.models)
        case Ok(l) => Step(Ok(done + [l]), s.models)
  }

  /** In a successful parse each line's property is the symbol of the
      name on that line. */
  lemma {:induction false} ParseAllProperties(env: Env, lines: seq<string>, models: Models)
    ensures ParseAll(env, lines, models).result.Ok? ==> forall i :: 0 <= i < |lines| ==>
      PropertyName(lines[i]).Some? &&
      ParseAll(env, lines, models).result.value[i].property == KSym(PropertyName(lines[i]).value)
    decreases |lines|
  {
    if lines != [] && ParseAll(env, lines, models).result.Ok? {
      var init := lines[..|lines| - 1];
      var prev := ParseAll(env, init, models);
      var s := ParseLineStep(env, lines[|lines| - 1], prev.models);
      var all := ParseAll(env, lines, models).result.value;
      assert prev.result.Ok? && s.result.Ok? && all == prev.result.value + [s.result.value];
      ParseAllProperties(env, init, models);
      ParseLineProperty(env, lines[|lines| - 1], prev.models);
      forall i | 0 <= i < |lines|
        ensures PropertyName(lines[i]).Some? && all[i].property == KSym(PropertyName(lines[i]).value)
      {
        if i < |init| {
          assert init[i] == lines[i] && all[i] == prev.result.value[i];
        }
      }
    }
  }

  /** A successfully parsed line carries the symbol of its name. */
  lemma ParseLineProperty(env: Env, text: string, models: Models)
    requires ParseLineStep(env, text, models).result.Ok?
    ensures PropertyName(text).Some? &&
      ParseLineStep(env, text, models).result.value.property == KSym(PropertyName(text).value)
  {
  }

  /** One more line parsed after a successful prefix. */
  lemma ParseAllSnoc(env: Env, lines: seq<string>, i: nat, models: Models)
    requires i < |lines|
    requires ParseAll(env, lines[..i], models).result.Ok?
    ensures var p := ParseAll(env, lines[..i], models);
      var s := ParseLineStep(env, lines[i], p.models);
      ParseAll(env, lines[..i + 1], models) ==
        if s.result.Ok? then Step(Ok(p.result.value + [s.result.value]), s.models)
        else Step(Err(s.result.error), s.models)
  {
    var next := lines[..i + 1];
    assert next[..|next| - 1] == lines[..i];
  }

  /** Once a prefix of the lines fails, the whole parse fails the same way
      and the cache stays as it was at the failure. */
  lemma {:induction false} ParseAllStopsAtError(env: Env, lines: seq<string>, n: nat, models: Models)
    requires n <= |lines|
    requires ParseAll(env, lines[..n], models).result.Err?
    ensures ParseAll(env, lines, models) == ParseAll(env, lines[..n], models)
    decreases |lines| - n
  {
    if n < |lines| {
      var longer := lines[..n + 1];
      assert longer[..|longer| - 1] == lines[..n];
      assert ParseAll(env, longer, models) == ParseAll(env, lines[..n], models);
      ParseAllStopsAtError(env, lines, n + 1, models);
    } else {
      assert lines[..n] == lines;
    }
  }

  /** `_create_required!`: the presence-validated attributes of every cached
      model, model by model in cache order. */
  function RequiredAttributes(models: Models): (r: seq<string>)
    ensures forall a :: a in r <==> exists i :: 0 <= i < |models| && a in models[i].val.presenceAttributes
  {
    if models == [] then []
    else
      var rest := RequiredAttributes(models[1..]);
      assert forall i :: 1 <= i < |models| ==> models[i] == models[1..][i - 1];
      models[0].val.presenceAttributes + rest
  }

  /** `properties`: the parsed lines folded into a property map. */
  function PropertiesStep(env: Env, source: string, models: Models): (r: Step<Dict<Key, Dict<Key, Value>>>)
    ensures Extends(models, r.models)
    ensures var p := ParseAll(env, CodeLines(source), models);
      r.models == p.models && r.result.Ok? == p.result.Ok? &&
      (r.result.Ok? ==> r.result.value == PropertyMap(p.result.value)) &&
      (p.result.Err? ==> r.result == Err(p.result.error))
  {
    var p := ParseAll(env, CodeLines(source), models);
    match p.result
    case Err(e) => Step(Err(e), p.models)
    case Ok(lines) => Step(Ok(PropertyMap(lines)), p.models)
  }

  /** `required`: the lines are parsed only while the cache is still
      empty, to fill it; then the cached models' required attributes. */
  function RequiredStep(env: Env, source: string, models: Models): (r: Step<seq<string>>)
    ensures Extends(models, r.models)
    ensures models != [] ==> r == Step(Ok(RequiredAttributes(models)), models)
    ensures models == [] ==>
      var p := ParseAll(env, CodeLines(source), models);
      r.models == p.models && r.result.Ok? == p.result.Ok? &&
      (p.result.Err? ==> r.result == Err(p.result.error))
    ensures r.result.Ok? ==> r.result.value == RequiredAttributes(r.models)
  {
    if models != [] then Step(Ok(RequiredAttributes(models)), models)
    else
      var p := ParseAll(env, CodeLines(source), models);
      match p.result
      case Err(e) => Step(Err(e), p.models)
      case Ok(_) => Step(Ok(RequiredAttributes(p.models)), p.models)
  }

  /** The template named property keys are the first words of the code
      lines, and the property map keeps one entry per name, with the
      schema of its last line. */
  lemma PropertiesKeys(env: Env, source: string, models: Models)
    requires PropertiesStep(env, source, models).result.Ok?
    ensures var r := PropertiesStep(env, source, models).result.value;
      var lines := CodeLines(source);
      DistinctKeys(r) &&
      forall k :: HasKey(r, k) <==> k.KSym? && exists i :: 0 <= i < |lines| && PropertyName(lines[i]) == Some(k.name)
  {
    var lines := CodeLines(source);
    var parsed := ParseAll(env, lines, models).result.value;
    ParseAllProperties(env, lines, models);
    PropertyMapSpec(parsed);
    forall k
      ensures HasKey(PropertyMap(parsed), k) <==> k.KSym? && exists i :: 0 <= i < |lines| && PropertyName(lines[i]) == Some(k.name)
    {
      if HasKey(PropertyMap(parsed), k) {
        var i :| 0 <= i < |parsed| && parsed[i].property == k;
        assert PropertyName(lines[i]) == Some(k.name);
      }
      if k.KSym? && exists i :: 0 <= i < |lines| && PropertyName(lines[i]) == Some(k.name) {
        var i :| 0 <= i < |lines| && PropertyName(lines[i]) == Some(k.name);
        assert parsed[i].property == k;
      }
    }
  }

  /** Every cached model is what constant lookup returns for its name: the
      cache holds nothing the application does not define. */
  ghost predicate Consistent(env: Env, models: Models) {
    forall e :: e in models ==> env.constantize(env.classify(e.key)) == Some(ModelConstant(e.val))
  }

  lemma CachedIsLookedUp(env: Env, models: Models, cn: string)
    requires Consistent(env, models) && HasKey(models, cn)
    ensures env.constantize(env.classify(cn)) == Some(ModelConstant(Get(models, cn).value))
  {
    GetEntry(models, cn);
  }

  lemma StoreKeepsConsistent(env: Env, models: Models, cn: string, m: ModelClass)
    requires Consistent(env, models)
    requires env.constantize(env.classify(cn)) == Some(ModelConstant(m))
    ensures Consistent(env, Store(models, cn, m))
  {
    StoreEntries(models, cn, m);
  }

  /** The cache is transparent: with any two consistent caches the type
      found for a value is the same, and the caches stay consistent. */
  lemma TypeFromModelTransparent(env: Env, value: Option<string>, m1: Models, m2: Models)
    requires Consistent(env, m1) && Consistent(env, m2)
    ensures TypeFromModelStep(env, value, m1).result == TypeFromModelStep(env, value, m2).result
    ensures Consistent(env, TypeFromModelStep(env, value, m1).models)
  {
    var cn := ClassNameOf(env, value);
    if cn.Some? {
      var c := cn.value;
      if HasKey(m1, c) {
        CachedIsLookedUp(env, m1, c);
      }
      if HasKey(m2, c) {
        CachedIsLookedUp(env, m2, c);
      }
      var k := env.constantize(env.classify(c));
      if !HasKey(m1, c) && k.Some? && k.value.ModelConstant? {
        StoreKeepsConsistent(env, m1, c, k.value.model);
      }
    }
  }

  lemma ParseLineTransparent(env: Env, text: string, m1: Models, m2: Models)
    requires Consistent(env, m1) && Consistent(env, m2)
    ensures ParseLineStep(env, text, m1).result == ParseLineStep(env, text, m2).result
    ensures Consistent(env, ParseLineStep(env, text, m1).models)
  {
    var name := PropertyName(text);
    if name.Some? && env.cutSchema(text).Ok? {
      var cut := env.cutSchema(text).value;
      var args := ArgumentsOf(cut.rest);
      if args.Some? {
        var line := Line(KSym(name.value), cut.schema, args.value);
        var v := FirstArgument(line.arguments);
        if !Truthy(Get(line.schema, KSym("type")).GetOr(Nil)) && LiteralType(v).None? {
          TypeFromModelTransparent(env, v, m1, m2);
        }
      }
    }
  }

  /** Parsing a template gives the same lines whatever consistent cache it
      starts from: a warm cache from an earlier parse changes only which
      lookups are repeated, not what is parsed. */
  lemma {:induction false} ParseAllTransparent(env: Env, lines: seq<string>, m1: Models, m2: Models)
    requires Consistent(env, m1) && Consistent(env, m2)
    ensures ParseAll(env, lines, m1).result == ParseAll(env, lines, m2).result
    ensures Consistent(env, ParseAll(env, lines, m1).models)
  {
    if lines != [] {
      var init := lines[..|lines| - 1];
      ParseAllTransparent(env, init, m1, m2);
      ParseAllTransparent(env, init, m2, m1);
      var p1 := ParseAll(env, init, m1);
      var p2 := ParseAll(env, init, m2);
      if p1.result.Ok? {
        ParseLineTransparent(env, lines[|lines| - 1], p1.models, p2.models);
      }
    }
  }

  /** `Template`: the source and the cache of model classes. */
  class Template {
    const source: string
    var models: Models

    constructor(source: string)
      ensures this.source == source && models == []
    {
      this.source := source;
      models := [];
    }

    method FindClass(env: Env, name: string) returns (found: bool)
      modifies this
      ensures Step(Ok(found), models) == FindClassStep(env, name, old(models))
    {
      var k := env.constantize(env.classify(name));
      if k.Some? && k.value.ModelConstant? {
        models := Store(models, name, k.value.model);
        found := true;
      } else {
        found := false;
      }
    }

    method TypeFromModel(env: Env, value: Option<string>) returns (r: Result<Option<string>>)
      modifies this
      ensures Step(r, models) == TypeFromModelStep(env, value, old(models))
    {
      if value.None? {
        return Err(NoMethodError("split"));
      }
      var parts := RubySplit(value.value, '.');
      if parts == [] {
        return Err(NoMethodError("delete"));
      }
      var className := env.classify(Delete(parts[0], '@'));
      var column := if |parts| >= 2 then Some(parts[1]) else None;
      if !HasKey(models, className) {
        var found := FindClass(env, className);
        if !found {
          return Ok(None);
        }
      }
      r := ColumnType(Get(models, className).value, column);
    }

    method GetType(env: Env, value: Option<string>) returns (r: Result<InferredType>)
      modifies this
      ensures Step(r, models) == GetTypeStep(env, value, old(models))
    {
      var klass := LiteralType(value);
      if klass.Some? {
        return Ok(SchematizeType(klass));
      }
      var t := TypeFromModel(env, value);
      match t
      case Err(e) => r := Err(e);
      case Ok(ty) => r := Ok(SchematizeType(ty));
    }

    method SchemaForLine(env: Env, line: Line) returns (r: Result<Dict<Key, Value>>)
      modifies this
      ensures Step(r, models) == SchemaForLineStep(env, line, old(models))
    {
      var schema := line.schema;
      if !Truthy(Get(schema, KSym("type")).GetOr(Nil)) {
        var t := GetType(env, FirstArgument(line.arguments));
        if t.Err? {
          return Err(t.error);
        }
        schema := WithType(schema, t.value);
      }
      r := Ok(schema);
    }

    method ParseLine(env: Env, text: string) returns (r: Result<Line>)
      modifies this
      ensures Step(r, models) == ParseLineStep(env, text, old(models))
    {
      var name := PropertyName(text);
      if name.None? {
        return Err(NoMethodError("delete_prefix"));
      }
      var read := env.cutSchema(text);
      if read.Err? {
        return Err(read.error);
      }
      var cut := read.value;
      var args := ArgumentsOf(cut.rest);
      if args.None? {
        return Err(NoMethodError("map"));
      }
      var line := Line(KSym(name.value), cut.schema, args.value);
      var schema := SchemaForLine(env, line);
      if schema.Err? {
        return Err(schema.error);
      }
      r := Ok(line.(schema := schema.value));
    }

    /** `_parse_lines!`: the parsed lines in source order. */
    method ParseLines(env: Env) returns (r: Result<seq<Line>>)
      modifies this
      ensures Step(r, models) == ParseAll(env, CodeLines(source), old(models))
    {
      var lines := CodeLines(source);
      var parsed: seq<Line> := [];
      var i := 0;
      assert lines[..0] == [];
      while i < |lines|
        invariant 0 <= i <= |lines|
        invariant ParseAll(env, lines[..i], old(models)) == Step(Ok(parsed), models)
      {
        ParseAllSnoc(env, lines, i, old(models));
        var line := ParseLine(env, lines[i]);
        if line.Err? {
          r := Err(line.error);
          ParseAllStopsAtError(env, lines, i + 1, old(models));
          return;
        }
        parsed := parsed + [line.value];
        i := i + 1;
      }
      assert lines[..i] == lines;
      r := Ok(parsed);
    }

    /** `properties`. */
    method Properties(env: Env) returns (r: Result<Dict<Key, Dict<Key, Value>>>)
      modifies this
      ensures Step(r, models) == PropertiesStep(env, source, old(models))
    {
      var lines := ParseLines(env);
      if lines.Err? {
        return Err(lines.error);
      }
      var hash := IndexByProperty(lines.value);
      r := Ok(hash);
    }

    /** `required`. */
    method Required(env: Env) returns (r: Result<seq<string>>)
      modifies this
      ensures Step(r, models) == RequiredStep(env, source, old(models))
    {
      if models == [] {
        var lines := ParseLines(env);
        if lines.Err? {
          return Err(lines.error);
        }
      }
      r := Ok(RequiredAttributes(models));
    }
  }
}
