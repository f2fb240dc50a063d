# jbuilder-schema: a Dafny model of the template reader

jbuilder-schema turns a Jbuilder view template (`json.title @article.title`,
`json.id 1`, …) into a JSON-Schema object. The version modelled here does
this by reading the template's source text line by line. It does not
evaluate the template.

- Each `json.<property> <value>` line gives one property.
- The type of a property comes from the line's explicit `schema:` hash, if
  that hash has a truthy `:type`.
- Otherwise it comes from the value written on the line: `true`/`false`
  are booleans, an `Integer()` literal is an integer, a `Float()` literal
  is a number.
- Otherwise it comes from the column type of the ActiveRecord model that
  the value names (`@article.title` → `Article.columns_hash["title"].type`).
- Model classes found on the way are cached in the template's `models`.
  The `required` list is read from that cache: the attributes of each
  model's presence validators.

Around the template sit:
- the older `Parser`: the same reading, with string properties and no
  `:format`;
- the `Builder`, which splits a view path into prefix, controller, action
  and partial flag, and assembles the `{type: :object, …}` hash;
- the `Resolver`, which finds a template under a list of view roots;
- `Jbuilder::Schema.load` and `normalize`, which prepare the render options
  and turn the result into plain string-keyed data;
- the `Renderer`, which exposes the locals as instance variables and
  readers, and answers route helpers (`*_path`, `*_url`) with their own
  name;
- the global settings and `Configuration`.

Modules, one per file:

| file | module | models |
|---|---|---|
| ruby_values.dfy | RubyValues | Ruby values and insertion-ordered Hashes (`h[k]`, `h[k] = v`), truthiness, `Result`/`Option` |
| ruby_strings.dfy | RubyStrings | `String#split` (with a separator and awk-style), `join`, `start_with?`, `end_with?`, `delete_prefix`, `delete_suffix`, `delete` |
| line_parsing.dfy | LineParsing | `_lines`, the property name and arguments of a line, the property hash built from parsed lines |
| template.dfy | JbTemplate | `JbuilderSchema::Template` (class with the `models` cache) and the type inference |
| parser.dfy | JbParser | `JbuilderSchema::Parser` |
| resolver.dfy | JbResolver | `Jbuilder::Schema::Resolver.find_template_source` and `find` |
| builder.dfy | JbBuilder | `JbuilderSchema::Builder` (`_resolve_path`, `_object`, `schema!`) |
| settings.dfy | SchemaSettings | the three naming settings and writes to them |
| schema.dfy | JbSchema | `Jbuilder::Schema`: `IgnoreSchemaMeta`, `configure`, `load`, `normalize` |
| configuration.dfy | JbConfiguration | `Jbuilder::Schema::Configuration` and the memoised `configuration` |
| renderer.dfy | JbRenderer | `Jbuilder::Schema::Renderer` |

schema.rb:22-24 and configuration.rb:10-12 both define the singleton method
`Jbuilder::Schema.configure`, so only one of them is in effect: the one in
whichever file Ruby loads last. schema.rb does not load configuration.rb.
`JbSchema.SchemaClass.Configure` and `JbConfiguration.Registry.Configure`
model the two definitions as alternatives, not as two live methods.

The version modelled here predates several features of later releases of
the gem:
- The code reads template text line by line. It does not run a second,
  schema-shaped evaluation of the template.
- Only `:datetime` gets a format (`date-time`). `:text` becomes `:string`.
  There are no date-only or time-only formats.
- There is no enum detection and there are no `$ref` components.

## Model

| member | source | states |
|---|---|---|
| LineParsing.SourceLines | lib/jbuilder/schema/template.rb:86-87 | no line it returns contains a line break |
| LineParsing.StripComments | lib/jbuilder/schema/template.rb:88-89 | keeps at most one line per input line, each non-empty, without `#`, and the start of some input line |
| LineParsing.CodeLines | lib/jbuilder/schema/template.rb:84-90 | every code line is non-empty, holds no `#` and no line break |
| LineParsing.StripCommentsShape | lib/jbuilder/schema/template.rb:88-89 | dropping comment lines and cutting each line at its first `#` leaves non-empty lines without `#` |
| LineParsing.CodeLinesAppend | lib/jbuilder/schema/template.rb:84-90 | the code lines of two texts joined by a `\n` or a `\r` are the code lines of the first followed by those of the second |
| LineParsing.CodeLinesOfLine | lib/jbuilder/schema/template.rb:84-90 | a single line yields nothing when it is empty or starts with `#`, otherwise its text before the first `#` |
| LineParsing.BeforeCommentIsFirstField | lib/jbuilder/schema/template.rb:89 | `l.split("#").first` is the text of `l` before its first `#` |
| LineParsing.PropertyName | lib/jbuilder/schema/template.rb:99 | no name exactly when the line has no word; a first word starting with `json.` gives the rest of that word, any other first word is the name itself |
| LineParsing.ArgumentsOf | lib/jbuilder/schema/template.rb:102 | no arguments exactly when there is no word; otherwise one argument per word after the first, that word with every comma deleted |
| LineParsing.PropertyEntries | lib/jbuilder/schema/template.rb:157-159 | one `property => schema` entry per parsed line, in line order |
| LineParsing.PropertyMap | lib/jbuilder/schema/template.rb:153-161 | the hash built by storing each line's schema under its property in order has distinct keys; `PropertyMapSpec` states its keys and values |
| LineParsing.PropertyMapSpec | lib/jbuilder/schema/template.rb:153-161 | the property hash has distinct keys, has a key exactly when some line has that property, and maps each property to the schema of its last line |
| LineParsing.IndexByProperty | lib/jbuilder/schema/template.rb:156-160 | the loop storing each line's schema under its property builds the property hash |
| JbTemplate.Unsigned | lib/jbuilder/schema/template.rb:120-121 | a leading `+` or `-` is always removed, once; a literal without one is kept as it is |
| JbTemplate.IsIntegerLiteral | lib/jbuilder/schema/template.rb:120 | the strings `Integer(value, exception: false)` accepts in the modelled subset; each has no `.` and is also accepted by `Float` |
| JbTemplate.IsFloatLiteral | lib/jbuilder/schema/template.rb:121 | the strings `Float(value, exception: false)` accepts in the modelled subset; each is non-empty and ends in a digit |
| JbTemplate.LiteralType | lib/jbuilder/schema/template.rb:118-122 | `true`/`false` is boolean, an integer literal is integer, a float literal that is not an integer literal is number; nothing is inferred for any other text or for a missing value |
| JbTemplate.SchematizeType | lib/jbuilder/schema/template.rb:126-135 | `:datetime` becomes string with format date-time, `nil` and `:text` become string, any other type is kept; the result is never text or datetime |
| JbTemplate.FindClassStep | lib/jbuilder/schema/template.rb:146-151 | finds a class exactly when constant lookup of the classified name yields a model, caches it under the name, and otherwise leaves the cache alone |
| JbTemplate.ClassNameOf | lib/jbuilder/schema/template.rb:138-139 | no class name exactly when the value is missing or splits on `.` into nothing; otherwise the classified first field with every `@` deleted |
| JbTemplate.MethodOf | lib/jbuilder/schema/template.rb:138 | the second `.`-field of the value, which holds no `.`, and nothing exactly when there are fewer than two fields |
| JbTemplate.ColumnType | lib/jbuilder/schema/template.rb:143 | the column's type when the model has that column; a `NoMethodError` on `type` otherwise |
| JbTemplate.TypeFromModelStep | lib/jbuilder/schema/template.rb:137-144 | fails at `split` on a missing value and at `delete` on a value of dots only, with the cache unchanged; a cached model gives its column type without changing the cache; a model found by lookup is cached under the class name and gives its column type; `nil` exactly when the class is neither cached nor found, and then the cache is unchanged |
| JbTemplate.GetTypeStep | lib/jbuilder/schema/template.rb:118-124 | a literal's type wins and leaves the cache unchanged; otherwise the schematized model column type, and a failure of the model lookup is passed on as the same error |
| JbTemplate.WithType | lib/jbuilder/schema/template.rb:113 | sets `:type`, and `:format` only for a formatted type; no other key changes and keys stay distinct |
| JbTemplate.SchemaForLineStep | lib/jbuilder/schema/template.rb:109-116 | a truthy explicit `:type` keeps the schema unchanged; otherwise the type of the first argument is filled in, and a failure of `_get_type` is passed on as the same error |
| JbTemplate.ParseLineStep | lib/jbuilder/schema/template.rb:98-104 | a line parses exactly when it has a word, `SafeParser` reads its `schema:` fragment, the rest after the cut has a word, and `_schema_for_line` succeeds; a line without words fails at `delete_prefix`, an unreadable fragment with `SafeParser`'s error and the cache unchanged, a rest without words at `map`, and a failure of `_schema_for_line` is the result with its cache; a parsed line has the symbol of its property name, the arguments of the rest and the schema `_schema_for_line` gives |
| JbTemplate.ParseAll | lib/jbuilder/schema/template.rb:92-107 | the cache only grows; a successful parse has one line per code line |
| JbTemplate.ParseAllProperties | lib/jbuilder/schema/template.rb:99 | in a successful parse each line's property is the symbol of the name on that code line |
| JbTemplate.ParseAllSnoc | lib/jbuilder/schema/template.rb:97-105 | parsing one more line extends a successful parse by that line, or stops with its error, threading the cache |
| JbTemplate.ParseAllStopsAtError | lib/jbuilder/schema/template.rb:97 | once a prefix of the lines fails, the later lines change neither the result nor the cache |
| JbTemplate.RequiredAttributes | lib/jbuilder/schema/template.rb:165-167 | an attribute is required exactly when some cached model has a presence validator on it |
| JbTemplate.PropertiesStep | lib/jbuilder/schema/template.rb:153-161 | the properties are the property hash of the parsed code lines; a parse error is passed on as the same error |
| JbTemplate.RequiredStep | lib/jbuilder/schema/template.rb:77-80 | with a non-empty cache no parse happens; with an empty cache the code lines are parsed, the cache is the parse's, and a parse error is passed on; the required list is that of the cache after the step |
| JbTemplate.PropertiesKeys | lib/jbuilder/schema/template.rb:153-161 | the properties have distinct keys: one symbol for each property name on a code line, and no other key |
| JbTemplate.CachedIsLookedUp | lib/jbuilder/schema/template.rb:141 | in a cache that agrees with constant lookup, a cached class is what lookup would find |
| JbTemplate.StoreKeepsConsistent | lib/jbuilder/schema/template.rb:150 | storing a class that lookup finds keeps the cache in agreement with lookup |
| JbTemplate.TypeFromModelTransparent | lib/jbuilder/schema/template.rb:137-144 | the cache changes no model type: two consistent caches give the same result, and the cache stays consistent |
| JbTemplate.ParseLineTransparent | lib/jbuilder/schema/template.rb:98-104 | two consistent caches give the same parsed line |
| JbTemplate.ParseAllTransparent | lib/jbuilder/schema/template.rb:92-107 | two consistent caches give the same parse of all lines, and the cache stays consistent |
| JbTemplate.Template.constructor | lib/jbuilder/schema/template.rb:66-71 | keeps the source and starts with an empty cache |
| JbTemplate.Template.FindClass | lib/jbuilder/schema/template.rb:146-151 | result and new cache are those of `FindClassStep` on the old cache |
| JbTemplate.Template.TypeFromModel | lib/jbuilder/schema/template.rb:137-144 | result and new cache are those of `TypeFromModelStep` on the old cache |
| JbTemplate.Template.GetType | lib/jbuilder/schema/template.rb:118-124 | result and new cache are those of `GetTypeStep` on the old cache |
| JbTemplate.Template.SchemaForLine | lib/jbuilder/schema/template.rb:109-116 | result and new cache are those of `SchemaForLineStep` on the old cache |
| JbTemplate.Template.ParseLine | lib/jbuilder/schema/template.rb:98-104 | result and new cache are those of `ParseLineStep` on the old cache |
| JbTemplate.Template.ParseLines | lib/jbuilder/schema/template.rb:92-107 | the loop over the code lines gives the result and cache of `ParseAll` |
| JbTemplate.Template.Properties | lib/jbuilder/schema/template.rb:73-75 | result and new cache are those of `PropertiesStep` |
| JbTemplate.Template.Required | lib/jbuilder/schema/template.rb:77-80 | result and new cache are those of `RequiredStep` |
| JbParser.SchemaForLine | lib/jbuilder/schema/parser.rb:44-50 | a truthy `:type` is kept; otherwise `:type` is set to the evaluated type of the first argument, its failure is the result, `:format` is never touched and no other key changes |
| JbParser.ParseLine | lib/jbuilder/schema/parser.rb:33-39 | a line parses exactly when it has a word, `SafeParser` reads its `schema:` fragment, the rest after the cut has a word, and `_schema_for_line` succeeds; the failures are `delete_prefix`, `SafeParser`'s error, `map` and the error of `_schema_for_line`; a parsed line has its name as a string, the arguments of the rest and the completed schema |
| JbParser.ParseAll | lib/jbuilder/schema/parser.rb:27-42 | a successful parse has one line per code line |
| JbParser.ParseAllLines | lib/jbuilder/schema/parser.rb:31-41 | a successful parse holds, at each index, the parse of that line |
| JbParser.ParseAllProperties | lib/jbuilder/schema/parser.rb:34 | each parsed line's property is the name on that line, as a string |
| JbParser.ParseAllFailsAtSomeLine | lib/jbuilder/schema/parser.rb:31-41 | a failed parse fails with the error of one of the lines |
| JbParser.ParseAllStopsAtError | lib/jbuilder/schema/parser.rb:32 | once a prefix of the lines fails, the later lines do not change the result |
| JbParser.ParseAllSnoc | lib/jbuilder/schema/parser.rb:31-41 | parsing one more line extends a successful parse by that line, or stops with its error |
| JbParser.ParseLines | lib/jbuilder/schema/parser.rb:27-42 | the loop over the code lines computes `ParseAll` |
| JbParser.CreateSchema | lib/jbuilder/schema/parser.rb:68-76 | succeeds exactly when parsing does; the result is the property hash of the parsed code lines, with distinct keys |
| JbParser.CreateSchemaLastLineWins | lib/jbuilder/schema/parser.rb:68-76 | a code line whose property name no later line repeats gives that name's schema in the result |
| JbParser.CreateSchemaKeys | lib/jbuilder/schema/parser.rb:68-76 | the keys are strings, one for each property name on a code line, and no others |
| JbParser.Parse | lib/jbuilder/schema/parser.rb:13-15 | ignores its arguments and returns `CreateSchema` |
| JbParser.SameNamesAsTemplate | lib/jbuilder/schema/parser.rb:34 | where both parsers succeed they read the same property names, as strings and as symbols |
| JbResolver.SplitPath | lib/jbuilder/schema/resolver.rb:11-13 | fails at `delete_prefix!` exactly when the path has fewer than two segments; otherwise the last two segments are controller and action, the prefix is the others joined with `/`, and the partial flag says whether the action had a leading `_` |
| JbResolver.Find | lib/jbuilder/schema/resolver.rb:21-24 | nothing is looked up for a name containing `.`; otherwise the lookup's answer |
| JbResolver.Hit | lib/jbuilder/schema/resolver.rb:16 | one root searches the directory `root/prefix` for the action under the controller, and finds nothing for an action containing `.` |
| JbResolver.FirstHit | lib/jbuilder/schema/resolver.rb:15-18 | nothing exactly when no root has a hit; otherwise the hit of a root all of whose predecessors have none |
| JbResolver.FirstHitIsEarliest | lib/jbuilder/schema/resolver.rb:15-18 | the first root with a hit decides the result |
| JbResolver.FindTemplateSource | lib/jbuilder/schema/resolver.rb:10-19 | the loop fails as `SplitPath` does, or returns the first hit over the roots in order |
| JbResolver.JoinRubySplit | lib/jbuilder/schema/resolver.rb:11-12 | for a path not ending in `/`, joining its `/`-segments gives it back |
| JbResolver.SplitPathRoundTrip | lib/jbuilder/schema/resolver.rb:11-13 | for three or more segments, prefix, controller and action rejoined with `/` give the path |
| JbBuilder.ResolvePath | lib/jbuilder/schema/builder.rb:47-56 | fails at `action[0]` exactly when the path has no segment; the action as written is the last segment, the controller the one before it when there is one, and the partial flag says whether the action starts with `_` |
| JbBuilder.ResolvePathAgreesWithResolver | lib/jbuilder/schema/builder.rb:47-56 | with at least two slashes and no trailing `/`, the builder and the resolver split a path into the same four parts |
| JbBuilder.ResolvePathRoundTrip | lib/jbuilder/schema/builder.rb:50 | in those cases, prefix, controller and action rejoined with `/` give the path |
| JbBuilder.OneSlashPrefixIsWholePath | lib/jbuilder/schema/builder.rb:50 | for `a/_b` the builder's prefix is the whole path, where the resolver's prefix is empty |
| JbBuilder.ResolvePathFixed | lib/jbuilder/schema/builder.rb:47-56 | the corrected split: the same action, controller and error as written |
| JbBuilder.ResolvePathFixedAgreesWithResolver | lib/jbuilder/schema/builder.rb:47-56 | the corrected split agrees with the resolver on every path the resolver accepts |
| JbBuilder.ResolvePathFixedKeepsWrittenCases | lib/jbuilder/schema/builder.rb:47-56 | on paths with at least two slashes and no trailing `/`, the corrected split is the split as written |
| JbBuilder.LocalsOption | lib/jbuilder/schema/builder.rb:20 | a truthy `:locals` option is kept, anything else becomes `{}`; the result is truthy |
| JbBuilder.PropertiesValue | lib/jbuilder/schema/builder.rb:38 | the property hash as a Ruby value, entry for entry |
| JbBuilder.SymbolsValue | lib/jbuilder/schema/builder.rb:37 | the required names as an array of symbols, in order |
| JbBuilder.ObjectSchema | lib/jbuilder/schema/builder.rb:32-40 | exactly the five keys `type`, `title`, `description`, `required`, `properties`, holding `:object`, the title, the description, the required symbols and the properties |
| JbBuilder.ObjectStep | lib/jbuilder/schema/builder.rb:32-40 | `required` is computed before `properties` on the same cache; the object when both succeed; otherwise the first failure, with the cache as that step left it |
| JbBuilder.Builder.constructor | lib/jbuilder/schema/builder.rb:14-22 | keeps the path, reads `:title` and `:description` (nil when absent) and defaults the locals to `{}` |
| JbBuilder.Builder.Schema | lib/jbuilder/schema/builder.rb:24-28 | `{}` without a template; otherwise the object step on the template's cache |
| SchemaSettings.Defaults | lib/jbuilder/schema.rb:17 | the components path is `components/schemas`, the title key `title`, the description key `description` |
| SchemaSettings.Apply | lib/jbuilder/schema.rb:16 | a writer sets its own setting and leaves the other two unchanged |
| SchemaSettings.LastAssignmentWins | lib/jbuilder/schema.rb:22-24 | after a configure block each setting holds the last value assigned to it, or its earlier value |
| SchemaSettings.DifferentFieldsCommute | lib/jbuilder/schema.rb:16 | writers of different settings can be called in either order |
| JbSchema.SchemaClass.constructor | lib/jbuilder/schema.rb:16-17 | the class-level settings start at their defaults |
| JbSchema.SchemaClass.Assign | lib/jbuilder/schema.rb:16 | one writer call applied to the class-level settings |
| JbSchema.SchemaClass.Configure | lib/jbuilder/schema.rb:22-24 | the block's writer calls applied in order to the class itself |
| JbSchema.ForwardWithoutSchema | lib/jbuilder/schema.rb:11-13 | the positional arguments and the block are passed on unchanged, `schema:` is dropped and every other keyword is kept |
| JbSchema.ForwardIdempotent | lib/jbuilder/schema.rb:11-13 | forwarding a forwarded call changes nothing more |
| JbSchema.PlainJbuilderIgnoresSchema | lib/jbuilder/schema.rb:11-13 | `json.something true, schema: {...}` reaches Jbuilder without the `schema:` keyword and with the same block |
| JbSchema.StringKey | lib/jbuilder/schema.rb:43 | a key becomes the string of the same name |
| JbSchema.StringifyKeys | lib/jbuilder/schema.rb:43 | the result has only string keys, distinct in every Hash; arrays and hashes keep their kind, each array element is stringified in place, and a leaf is unchanged |
| JbSchema.StringifyKeysHash | lib/jbuilder/schema.rb:43 | a Hash's keys become exactly the string forms of its key names, each holding the stringified value of the last entry with that name |
| JbSchema.DeepTransformValues | lib/jbuilder/schema.rb:44-45 | arrays and hashes keep their kind and length, each element is transformed in place and each entry keeps its key with its value transformed; a leaf is mapped |
| JbSchema.SymbolToString | lib/jbuilder/schema.rb:44 | never returns a Symbol: a Symbol becomes the string of its name, anything else is kept |
| JbSchema.RegexpToSource | lib/jbuilder/schema.rb:45 | never returns a Regexp: a Regexp becomes its source, anything else is kept |
| JbSchema.SymbolPassShape | lib/jbuilder/schema.rb:44 | the Symbol pass keeps string keys distinct, leaves no Symbol and adds no Regexp |
| JbSchema.RegexpPassShape | lib/jbuilder/schema.rb:45 | the Regexp pass keeps string keys distinct, leaves no Regexp and adds no Symbol |
| JbSchema.Normalize | lib/jbuilder/schema.rb:43-45 | the three passes in source order keep arrays as arrays and hashes as hashes |
| JbSchema.NormalizeSchema | lib/jbuilder/schema.rb:42-46 | succeeds exactly on a Hash, raising `NoMethodError` for `deep_stringify_keys` on anything else; the result is a normal Hash |
| JbSchema.NormalizeIsNormal | lib/jbuilder/schema.rb:42-46 | a normalised schema has string keys only, distinct in every Hash, and no Symbol or Regexp |
| JbSchema.StringifyKeysFixes | lib/jbuilder/schema.rb:43 | a value whose keys are already distinct strings is unchanged by stringifying |
| JbSchema.TransformFixes | lib/jbuilder/schema.rb:44-45 | a pass whose function fixes every leaf of a value leaves that value unchanged |
| JbSchema.NormalIsFixed | lib/jbuilder/schema.rb:42-46 | normalising a normal value changes nothing |
| JbSchema.NormalizeIdempotent | lib/jbuilder/schema.rb:42-46 | normalising twice is normalising once |
| JbSchema.NormalizeLeaf | lib/jbuilder/schema.rb:44-45 | a Symbol becomes its name, a Regexp its source, any other leaf is unchanged |
| JbSchema.NormalizeArray | lib/jbuilder/schema.rb:42-46 | an array is normalised element by element |
| JbSchema.NormalizeHash | lib/jbuilder/schema.rb:42-46 | a Hash whose key names are distinct is normalised entry by entry, each key turned into the string of its name |
| JbSchema.NormalizeCollision | lib/jbuilder/schema.rb:43 | `{a: 1, "a" => 2}` normalises to `{"a" => 2}` |
| JbSchema.SchemaOptions | lib/jbuilder/schema.rb:36 | a Hash of exactly three distinct keys holding the object's class (nil for no object), the title and the description |
| JbSchema.MergeObject | lib/jbuilder/schema.rb:35 | sets `:partial` to the object's partial path and `:object` to the object; no other option changes |
| JbSchema.AddSchemaOptions | lib/jbuilder/schema.rb:36 | succeeds exactly when `:locals` is absent, falsy or a Hash; then only `:locals` changes, and it holds the caller's locals plus the schema options; a String or Array raises a `TypeError` |
| JbSchema.LoadedOptions | lib/jbuilder/schema.rb:35-36 | after both steps, options other than `:locals`, `:partial` and `:object` are the caller's; a truthy object sets `:partial` and `:object`, a falsy one leaves them as given |
| JbSchema.Load | lib/jbuilder/schema.rb:34-36 | fails exactly for a truthy object without `to_partial_path` or unusable locals; paths default to `app/views`; the object's partial and the object are merged in, other options are kept, and the locals gain the schema options |
| JbConfiguration.Configuration.constructor | lib/jbuilder/schema/configuration.rb:19-23 | a new configuration holds the defaults |
| JbConfiguration.Configuration.Assign | lib/jbuilder/schema/configuration.rb:17 | one writer call applied to the configuration |
| JbConfiguration.Registry.GetConfiguration | lib/jbuilder/schema/configuration.rb:6-8 | the first call creates a configuration with the defaults, and every later call returns that same instance |
| JbConfiguration.Registry.Configure | lib/jbuilder/schema/configuration.rb:10-12 | the block's writer calls are applied in order to the memoised configuration |
| JbRenderer.MethodMissing | lib/jbuilder/schema/renderer.rb:30-36 | a name ending in `_path` or `_url` comes back as a string; any other name raises `NoMethodError` |
| JbRenderer.RespondToMissing | lib/jbuilder/schema/renderer.rb:38-40 | responds exactly to route-helper names or what the inherited method accepts |
| JbRenderer.RespondsExactlyWhenAnswered | lib/jbuilder/schema/renderer.rb:30-40 | with nothing inherited, the renderer responds exactly to the names `method_missing` answers |
| JbRenderer.Initial | lib/jbuilder/schema/renderer.rb:17-19 | before the locals are defined, `@locals` and `@options` are the only instance variables |
| JbRenderer.DefineLocals | lib/jbuilder/schema/renderer.rb:44-47 | the instance variables after the locals are those there were plus one per local name |
| JbRenderer.LastNamed | lib/jbuilder/schema/renderer.rb:45-47 | the value of a local with that name after which no local has it, or nothing when no local has it |
| JbRenderer.Names | lib/jbuilder/schema/renderer.rb:45-53 | one singleton reader for each local's name and no other |
| JbRenderer.LastLocalWins | lib/jbuilder/schema/renderer.rb:44-55 | a variable is defined exactly when it was before or some local has its name; it holds the last such local's value, or its earlier value |
| JbRenderer.LastNamedIffNamed | lib/jbuilder/schema/renderer.rb:44-55 | a name gets a value exactly when it gets a reader |
| JbRenderer.Answer | lib/jbuilder/schema/renderer.rb:15-55 | a local's reader or `locals`/`options` returns its instance variable; any other method of `Renderer`, `Object` or `Kernel` is called before `method_missing` and is not modelled; only a name found nowhere goes to `method_missing` |
| JbRenderer.LocalReaderWins | lib/jbuilder/schema/renderer.rb:44-55 | a local's reader returns the last value given under its name, also for a name ending in `_path` and for the name of an inherited method |
| JbRenderer.OwnLocalsReader | lib/jbuilder/schema/renderer.rb:15-21 | the `locals` reader returns the locals given, unless a local named `locals` replaced them |
| JbRenderer.UnknownNameIsMissing | lib/jbuilder/schema/renderer.rb:30-36 | a name that is no reader and no method of the renderer or its ancestors goes to `method_missing` |
| JbRenderer.Renderer.constructor | lib/jbuilder/schema/renderer.rb:17-21 | keeps locals and options, defines one instance variable per local with the last value wins, and one reader per local name |
| JbRenderer.Renderer.Call | lib/jbuilder/schema/renderer.rb:15-55 | calling a name on the renderer, given its other own and inherited methods, gives `Answer` |
| JbRenderer.New | lib/jbuilder/schema/renderer.rb:17-21 | missing locals default to none; raises a `NameError` exactly when some local's name is not a valid instance variable name; otherwise a new renderer as the constructor builds it |

## Left out
- `JbTemplate.ModelClass`: a column's type is always a name, so a column whose `type` is `nil` cannot be represented. `_schematize_type` (template.rb:127-134) would give `:string` for it, the same as for an unknown class.
- `JbRenderer.Renderer.constructor`: takes the locals as given; the `locals: {}` default of renderer.rb:17 is applied by `JbRenderer.New`.

- The cut of the `schema:` fragment is left abstract. The regexp is `,?\s?schema(:|=>|\s=>)\s?{(.*?)}`, where `\s` inside the double-quoted Ruby string is already a space. `SafeParser#safe_load` is left abstract too. Both are the function `cutSchema`, which returns the remaining line and the parsed hash, or the error `safe_load` raises. Examples are the unbalanced fragment that the non-greedy cut leaves of a nested hash, and a non-literal value. Which fragments fail is up to that function.
- ActiveSupport's `classify` and `safe_constantize`, and the `columns_hash`/`validators` reflection, are parameters (`classify`, `constantize`, `ModelClass`). The model does not check the `respond_to?("columns_hash")` test beyond "a model class or not".
- `Parser#_get_type` and `_find_type` (`eval` of the value and an `ObjectSpace` scan) are one abstract function, `getType`, that may fail.
- `Integer()` and `Float()` are modelled for optional sign, digits, an octal rule for a leading `0`, and an optional `.digits`. Underscores, `0x`/`0b`/`0o` prefixes, exponents, surrounding blanks and a bare `.5` are not modelled.
- The `puts` of the models at `template.rb:164` is output only and is not modelled.
- `Zeitwerk::Loader.eager_load_all` in the constructors is not modelled; it only loads code.
- `Renderer#render` (`Template.new(**options)` with a block that `eval`s the source) is not modelled. Neither is the `Renderer.new(paths).render(**options)` call that ends `load`: `Renderer#initialize` takes only keywords, so that call as written passes an Array where none is accepted. `JbSchema.Load` stops at the options it would hand over.
- `Jbuilder::Schema.yaml` and `.json` only serialise the normalised result and are not modelled.
- `Builder#_find_template` and `_build_template` are not modelled. They build a template from the `Handler` and an `Executor` and `eval` the found source. `Builder` is given its template.
- `Handler`, `Executor`, the handler registration in `Builder#initialize`, and `ActionView::TemplatePath` globbing are not modelled. The file search is the `Lookup` function.
- Hash keys other than Symbols and Strings (integers, objects) are not modelled.
- `JbRenderer.Renderer.constructor`: does not model the aliasing of the caller's locals Hash, which `load` mutates. Locals are a value.
- `JbRenderer.IsIvarName`: every non-ASCII character counts as an identifier character, a simplification of Ruby's rule.
- `JbTemplate.RequiredAttributes`: models `flat_map` over presence validators as membership and does not state the order or the repetitions of the attributes.
- `JbRenderer.Answer`: what the renderer's own, `Object`'s and `Kernel`'s methods return is not modelled; their names are a parameter and the answer is `None` for them.
- `JbRenderer.Renderer.Call`: the same, as it returns `Answer`.
- `JbTemplate.ParseAll`: states the length of a successful parse, not its lines; `ParseAllProperties`, `ParseAllSnoc` and `ParseLineStep` carry the rest.

## Findings

| source | as written | input that shows it | evidently intended | confidence | as-written member | corrected member |
|---|---|---|---|---|---|---|
| lib/jbuilder/schema/builder.rb:50 | `prefix = path.delete_suffix("/#{controller}/#{action}")`, which removes nothing when the path has exactly one `/` | `"a/_b"`: the prefix is `"a/_b"`, and since `_find_template` makes the prefix the resolver's root (builder.rb:44), the template is searched in the directory `a/_b` itself | the segments before the controller joined with `/`, as `Resolver.find_template_source` computes them: `""` here | medium, not executed | JbBuilder.OneSlashPrefixIsWholePath | JbBuilder.ResolvePathFixed |
