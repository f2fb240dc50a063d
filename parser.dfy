/** `JbuilderSchema::Parser`, the predecessor of `Template`: the same line
    reading, but properties stay strings, the type of a line comes from an
    evaluator the parser cannot see, and no `:format` is ever added. */
module JbParser {
  import opened RubyValues
  import opened RubyStrings
  import opened LineParsing
  import JbTemplate

  /** The collaborators: the cut of the `schema:` fragment with `SafeParser`,
      which raises on a fragment it cannot read, and `_get_type`, which evaluates the value as Ruby code or looks a
      model column up by reflection, and may fail. */
  datatype ParserEnv = ParserEnv(
    cutSchema: string -> Result<Cut>,
    getType: Option<string> -> Result<string>)

  /** `_schema_for_line`: an explicit truthy `:type` is kept; otherwise only
      `:type` is set, from the first argument. */
  function SchemaForLine(env: ParserEnv, line: Line): (r: Result<Dict<Key, Value>>)
    ensures Truthy(Get(line.schema, KSym("type")).GetOr(Nil)) ==> r == Ok(line.schema)
    ensures !Truthy(Get(line.schema, KSym("type")).GetOr(Nil)) ==>
      var t := env.getType(JbTemplate.FirstArgument(line.arguments));
      r.Ok? == t.Ok? && (r.Err? ==> r.error == t.error) &&
      (r.Ok? ==> Get(r.value, KSym("type")) == Some(Sym(t.value)))
    ensures r.Ok? ==> forall k :: k != KSym("type") ==> Get(r.value, k) == Get(line.schema, k)
    ensures r.Ok? ==> Get(r.value, KSym("format")) == Get(line.schema, KSym("format"))
    ensures r.Ok? && DistinctKeys(line.schema) ==> DistinctKeys(r.value)
  {
    if Truthy(Get(line.schema, KSym("type")).GetOr(Nil)) then Ok(line.schema)
    else
      match env.getType(JbTemplate.FirstArgument(line.arguments))
      case Err(e) => Err(e)
      case Ok(t) => Ok(Store(line.schema, KSym("type"), Sym(t)))
  }

  /** One iteration of `_parse_lines!`: the property is the first word
      without its `json.` prefix, kept as a string. */
  function ParseLine(env: ParserEnv, text: string): (r: Result<Line>)
    ensures PropertyName(text).None? ==> r == Err(NoMethodError("delete_prefix"))
    ensures PropertyName(text).Some? && env.cutSchema(text).Err? ==>
      r == Err(env.cutSchema(text).error)
    ensures PropertyName(text).Some? && env.cutSchema(text).Ok? ==>
      var cut := env.cutSchema(text).value;
      var args := ArgumentsOf(cut.rest);
      (args.None? ==> r == Err(NoMethodError("map"))) &&
      (args.Some? ==>
        var s := SchemaForLine(env, Line(KStr(PropertyName(text).value), cut.schema, args.value));
        (r.Ok? <==> s.Ok?) && (s.Err? ==> r == Err(s.error)))
    ensures r.Ok? <==>
      PropertyName(text).Some? && env.cutSchema(text).Ok? && ArgumentsOf(env.cutSchema(text).value.rest).Some? &&
      SchemaForLine(env, Line(KStr(PropertyName(text).value), env.cutSchema(text).value.schema,
        ArgumentsOf(env.cutSchema(text).value.rest).value)).Ok?
    ensures r.Ok? ==> (env.cutSchema(text).Ok? &&
      var cut := env.cutSchema(text).value;
      r.value.property == KStr(PropertyName(text).value) &&
      Some(r.value.arguments) == ArgumentsOf(cut.rest) &&
      Ok(r.value.schema) == SchemaForLine(env, Line(r.value.property, cut.schema, r.value.arguments)))
  {
    var name := PropertyName(text);
    if name.None? then Err(NoMethodError("delete_prefix"))
    else if env.cutSchema(text).Err? then Err(env.cutSchema(text).error)
    else
      var cut := env.cutSchema(text).value;
      var args := ArgumentsOf(cut.rest);
      if args.None? then Err(NoMethodError("map"))
      else
        var line := Line(KStr(name.value), cut.schema, args.value);
        match SchemaForLine(env, line)
        case Err(e) => Err(e)
        case Ok(schema) => Ok(line.(schema := schema))
  }

  /** `_parse_lines!`: the lines parsed in order, the first failure ending
      the whole parse. */
  function ParseAll(env: ParserEnv, lines: seq<string>): (r: Result<seq<Line>>)
    ensures r.Ok? ==> |r.value| == |lines|
  {
    if lines == [] then Ok([])
    else
      match ParseAll(env, lines[..|lines| - 1])
      case Err(e) => Err(e)
      case Ok(done) =>
        match ParseLine(env, lines[|lines| - 1])
        case Err(e) => Err(e)
        case Ok(l) => Ok(done + [l])
  }

  /** A successful parse holds, at each index, the parse of that line. */
  lemma {:induction false} ParseAllLines(env: ParserEnv, lines: seq<string>)
    ensures ParseAll(env, lines).Ok? ==>
      forall i :: 0 <= i < |lines| ==> ParseLine(env, lines[i]) == Ok(ParseAll(env, lines).value[i])
    decreases |lines|
  {
    if lines != [] && ParseAll(env, lines).Ok? {
      var init := lines[..|lines| - 1];
      ParseAllLines(env, init);
      var done := ParseAll(env, init).value;
      var r := ParseAll(env, lines).value;
      assert r == done + [r[|lines| - 1]];
      forall i | 0 <= i < |lines|
        ensures ParseLine(env, lines[i]) == Ok(r[i])
      {
        if i < |init| {
          assert init[i] == lines[i] && r[i] == done[i];
        }
      }
    }
  }

  /** The property of each parsed line is the name on that line, as a
      string. */
  lemma ParseAllProperties(env: ParserEnv, lines: seq<string>)
    ensures ParseAll(env, lines).Ok? ==> forall i :: 0 <= i < |lines| ==>
      PropertyName(lines[i]).Some? && ParseAll(env, lines).value[i].property == KStr(PropertyName(lines[i]).value)
  {
    if ParseAll(env, lines).Ok? {
      var r := ParseAll(env, lines).value;
      forall i | 0 <= i < |lines|
        ensures PropertyName(lines[i]).Some? && r[i].property == KStr(PropertyName(lines[i]).value)
      {
        ParseAllLines(env, lines);
        assert ParseLine(env, lines[i]) == Ok(r[i]);
      }
    }
  }

  /** A failed parse fails with the error of one of the lines. */
  lemma {:induction false} ParseAllFailsAtSomeLine(env: ParserEnv, lines: seq<string>)
    ensures ParseAll(env, lines).Err? ==>
      exists i :: 0 <= i < |lines| && ParseLine(env, lines[i]) == Err(ParseAll(env, lines).error)
    decreases |lines|
  {
    if lines != [] {
      var init := lines[..|lines| - 1];
      var prev := ParseAll(env, init);
      if prev.Err? {
        ParseAllFailsAtSomeLine(env, init);
        var i :| 0 <= i < |init| && ParseLine(env, init[i]) == Err(prev.error);
        assert init[i] == lines[i];
      } else {
        var last := |lines| - 1;
        assert ParseAll(env, lines).Err? ==> ParseLine(env, lines[last]) == Err(ParseAll(env, lines).error);
      }
    }
  }

  lemma {:induction false} ParseAllStopsAtError(env: ParserEnv, lines: seq<string>, n: nat)
    requires n <= |lines|
    requires ParseAll(env, lines[..n]).Err?
    ensures ParseAll(env, lines) == ParseAll(env, lines[..n])
    decreases |lines| - n
  {
    if n < |lines| {
      var longer := lines[..n + 1];
      assert longer[..|longer| - 1] == lines[..n];
      ParseAllStopsAtError(env, lines, n + 1);
    } else {
      assert lines[..n] == lines;
    }
  }

  /** One more line parsed after a successful prefix. */
  lemma ParseAllSnoc(env: ParserEnv, lines: seq<string>, i: nat)
    requires i < |lines|
    requires ParseAll(env, lines[..i]).Ok?
    ensures var s := ParseLine(env, lines[i]);
      ParseAll(env, lines[..i + 1]) ==
        if s.Ok? then Ok(ParseAll(env, lines[..i]).value + [s.value]) else Err(s.error)
  {
    var next := lines[..i + 1];
    assert next[..|next| - 1] == lines[..i];
  }

  /** `_parse_lines!` over the code lines of `source`. */
  method ParseLines(env: ParserEnv, source: string) returns (r: Result<seq<Line>>)
    ensures r == ParseAll(env, CodeLines(source))
  {
    var lines := CodeLines(source);
    var parsed: seq<Line> := [];
    var i := 0;
    assert lines[..0] == [];
    while i < |lines|
      invariant 0 <= i <= |lines|
      invariant ParseAll(env, lines[..i]) == Ok(parsed)
    {
      ParseAllSnoc(env, lines, i);
      var line := ParseLine(env, lines[i]);
      if line.Err? {
        ParseAllStopsAtError(env, lines, i + 1);
        return Err(line.error);
      }
      parsed := parsed + [line.value];
      i := i + 1;
    }
    assert lines[..i] == lines;
    r := Ok(parsed);
  }

  /** `_create_schema!`: the property map of the parsed lines. */
  function CreateSchema(env: ParserEnv, source: string): (r: Result<Dict<Key, Dict<Key, Value>>>)
    ensures r.Ok? <==> ParseAll(env, CodeLines(source)).Ok?
    ensures r.Ok? ==> DistinctKeys(r.value)
    ensures r.Ok? ==> r.value == PropertyMap(ParseAll(env, CodeLines(source)).value)
  {
    match ParseAll(env, CodeLines(source))
    case Err(e) => Err(e)
    case Ok(lines) =>
      PropertyMapSpec(lines);
      Ok(PropertyMap(lines))
  }

  /** The schema has one string key for each property name on a code line
      and no other key. */
  lemma CreateSchemaKeys(env: ParserEnv, source: string)
    requires CreateSchema(env, source).Ok?
    ensures var r := CreateSchema(env, source).value;
      var lines := CodeLines(source);
      forall k :: HasKey(r, k) <==> k.KStr? && exists i :: 0 <= i < |lines| && PropertyName(lines[i]) == Some(k.name)
  {
    var lines := CodeLines(source);
    var parsed := ParseAll(env, lines).value;
    ParseAllProperties(env, lines);
    PropertyMapSpec(parsed);
    forall k
      ensures HasKey(PropertyMap(parsed), k) <==> k.KStr? && exists i :: 0 <= i < |lines| && PropertyName(lines[i]) == Some(k.name)
    {
      if HasKey(PropertyMap(parsed), k) {
        var i :| 0 <= i < |parsed| && parsed[i].property == k;
        assert PropertyName(lines[i]) == Some(k.name);
      }
      if k.KStr? && exists i :: 0 <= i < |lines| && PropertyName(lines[i]) == Some(k.name) {
        var i :| 0 <= i < |lines| && PropertyName(lines[i]) == Some(k.name);
        assert parsed[i].property == k;
      }
    }
  }

  /** A property named on several code lines holds the schema parsed from
      the last of them. */
  lemma CreateSchemaLastLineWins(env: ParserEnv, source: string, i: nat)
    requires CreateSchema(env, source).Ok?
    requires i < |CodeLines(source)|
    requires forall j :: i < j < |CodeLines(source)| ==> PropertyName(CodeLines(source)[j]) != PropertyName(CodeLines(source)[i])
    ensures PropertyName(CodeLines(source)[i]).Some? &&
      Get(CreateSchema(env, source).value, KStr(PropertyName(CodeLines(source)[i]).value)) ==
        Some(ParseAll(env, CodeLines(source)).value[i].schema)
  {
    var lines := CodeLines(source);
    var parsed := ParseAll(env, lines).value;
    ParseAllProperties(env, lines);
    forall j | i < j < |parsed| ensures parsed[j].property != parsed[i].property {
      assert PropertyName(lines[j]) != PropertyName(lines[i]);
    }
    PropertyMapSpec(parsed);
  }

  /** `parse!(*args)`: the arguments are accepted and ignored. */
  method Parse(env: ParserEnv, source: string, args: seq<Value>) returns (r: Result<Dict<Key, Dict<Key, Value>>>)
    ensures r == CreateSchema(env, source)
  {
    var lines := ParseLines(env, source);
    if lines.Err? {
      return Err(lines.error);
    }
    var hash := IndexByProperty(lines.value);
    r := Ok(hash);
  }

  /** Where both parsers succeed on a source, they read the same property
      names from the same lines: `Parser` as strings, `Template` as symbols. */
  lemma SameNamesAsTemplate(penv: ParserEnv, tenv: JbTemplate.Env, source: string, models: JbTemplate.Models)
    requires ParseAll(penv, CodeLines(source)).Ok?
    requires JbTemplate.ParseAll(tenv, CodeLines(source), models).result.Ok?
    ensures var p := ParseAll(penv, CodeLines(source)).value;
      var t := JbTemplate.ParseAll(tenv, CodeLines(source), models).result.value;
      |p| == |t| && forall i :: 0 <= i < |p| ==> p[i].property == KStr(t[i].property.name) && t[i].property.KSym?
  {
    ParseAllProperties(penv, CodeLines(source));
    JbTemplate.ParseAllProperties(tenv, CodeLines(source), models);
  }
}
