/** `Jbuilder::Schema::Renderer`: holds the locals and options of one
    rendering, exposes every local as an instance variable with a reader of
    the same name, and answers any unknown method whose name ends in
    `_path` or `_url` with that name, so that route helpers in templates
    yield a string. */
module JbRenderer {
  import opened RubyValues
  import opened RubyStrings

  /** The name a Hash key gives an instance variable and its reader: the
      symbol's or the string's text. */
  function Name(k: Key): string {
    match k
    case KSym(n) => n
    case KStr(n) => n
  }

  /** A route helper's name. */
  predicate IsUrlHelperName(name: string) {
    EndsWith(name, "_path") || EndsWith(name, "_url")
  }

  /** `method_missing(method, *args)`: a route helper's name comes back as a
      string; any other name falls through to `super`, which raises. */
  function MethodMissing(name: string): (r: Result<Value>)
    ensures r.Ok? <==> IsUrlHelperName(name)
    ensures r.Ok? ==> r.value == Str(name)
    ensures r.Err? ==> r.error == NoMethodError(name)
  {
    if IsUrlHelperName(name) then Ok(Str(name)) else Err(NoMethodError(name))
  }

  /** `respond_to_missing?(method_name, include_private)`: `superResponds`
      is the answer of the inherited method. */
  function RespondToMissing(name: string, superResponds: bool): (r: bool)
    ensures r <==> IsUrlHelperName(name) || superResponds
  {
    IsUrlHelperName(name) || superResponds
  }

  /** With nothing inherited to fall back on, the renderer claims to respond
      to exactly the names `method_missing` answers without raising. */
  lemma RespondsExactlyWhenAnswered(name: string)
    ensures RespondToMissing(name, false) <==> MethodMissing(name).Ok?
  {
  }

  /** The character classes of a Ruby identifier; every non-ASCII
      character counts as a letter. */
  predicate IsIdentifierStart(c: char) {
    ('a' <= c <= 'z') || ('A' <= c <= 'Z') || c == '_' || c as int > 127
  }

  predicate IsIdentifierChar(c: char) {
    IsIdentifierStart(c) || ('0' <= c <= '9')
  }

  /** `@` followed by `name` is an instance variable name Ruby accepts. */
  predicate IsIvarName(name: string) {
    |name| > 0 && IsIdentifierStart(name[0]) &&
    forall i :: 1 <= i < |name| ==> IsIdentifierChar(name[i])
  }

  /** The instance variables before `_define_locals!`, keyed by their name
      without the `@`. */
  function Initial(locals: Dict<Key, Value>, options: Dict<Key, Value>): (m: map<string, Value>)
    ensures m.Keys == {"locals", "options"}
    ensures m["locals"] == Hash(locals) && m["options"] == Hash(options)
  {
    map["locals" := Hash(locals), "options" := Hash(options)]
  }

  /** `instance_variable_set("@#{k}", v)` for each local in order: the
      variables there were and one for each local's name. */
  function DefineLocals(m: map<string, Value>, locals: Dict<Key, Value>): (r: map<string, Value>)
    ensures r.Keys == m.Keys + Names(locals)
    decreases |locals|
  {
    if locals == [] then m
    else
      var last := locals[|locals| - 1];
      NamesSnoc(locals);
      DefineLocals(m, locals[..|locals| - 1])[Name(last.key) := last.val]
  }

  /** The value of the last local whose key has name `n`. */
  function LastNamed(locals: Dict<Key, Value>, n: string): (r: Option<Value>)
    ensures r.None? ==> forall i :: 0 <= i < |locals| ==> Name(locals[i].key) != n
    ensures r.Some? ==> exists i :: (0 <= i < |locals| && Name(locals[i].key) == n && locals[i].val == r.value &&
      forall j :: i < j < |locals| ==> Name(locals[j].key) != n)
    decreases |locals|
  {
    if locals == [] then None
    else if Name(locals[|locals| - 1].key) == n then Some(locals[|locals| - 1].val)
    else
      var init := locals[..|locals| - 1];
      assert forall i :: 0 <= i < |init| ==> init[i] == locals[i];
      LastNamed(init, n)
  }

  /** The names of the locals: the singleton readers `_define_locals!`
      declares, one for each local's name and no other. */
  function Names(locals: Dict<Key, Value>): (r: set<string>)
    ensures forall i :: 0 <= i < |locals| ==> Name(locals[i].key) in r
    ensures forall x :: x in r ==> exists i :: 0 <= i < |locals| && Name(locals[i].key) == x
  {
    set i | 0 <= i < |locals| :: Name(locals[i].key)
  }

  /** Each local adds its name to the readers. */
  lemma NamesSnoc(locals: Dict<Key, Value>)
    requires locals != []
    ensures Names(locals) == Names(locals[..|locals| - 1]) + {Name(locals[|locals| - 1].key)}
  {
    var init := locals[..|locals| - 1];
    forall x | x in Names(locals) ensures x in Names(init) + {Name(locals[|locals| - 1].key)} {
      var i :| 0 <= i < |locals| && x == Name(locals[i].key);
      if i < |locals| - 1 {
        assert init[i] == locals[i];
      }
    }
    forall x | x in Names(init) ensures x in Names(locals) {
      var i :| 0 <= i < |init| && x == Name(init[i].key);
      assert locals[i] == init[i];
    }
  }

  /** One more local defines one more variable and one more reader. */
  lemma DefineLocalsSnoc(m: map<string, Value>, locals: Dict<Key, Value>, i: nat)
    requires i < |locals|
    ensures DefineLocals(m, locals[..i + 1]) == DefineLocals(m, locals[..i])[Name(locals[i].key) := locals[i].val]
    ensures Names(locals[..i + 1]) == Names(locals[..i]) + {Name(locals[i].key)}
  {
    var prefix := locals[..i + 1];
    assert prefix[..|prefix| - 1] == locals[..i];
    NamesSnoc(prefix);
  }

  /** Each instance variable holds the value of the last local carrying its
      name; a variable no local names keeps the value it had, and no other
      variable appears. */
  lemma {:induction false} LastLocalWins(m: map<string, Value>, locals: Dict<Key, Value>, n: string)
    ensures n in DefineLocals(m, locals) <==> n in m || LastNamed(locals, n).Some?
    ensures LastNamed(locals, n).Some? ==> DefineLocals(m, locals)[n] == LastNamed(locals, n).value
    ensures LastNamed(locals, n).None? && n in m ==> DefineLocals(m, locals)[n] == m[n]
    decreases |locals|
  {
    if locals != [] {
      LastLocalWins(m, locals[..|locals| - 1], n);
    }
  }

  /** A name is given a value exactly when some local has that name. */
  lemma {:induction false} LastNamedIffNamed(locals: Dict<Key, Value>, n: string)
    ensures LastNamed(locals, n).Some? <==> n in Names(locals)
    decreases |locals|
  {
    if locals != [] {
      var init := locals[..|locals| - 1];
      LastNamedIffNamed(init, n);
      NamesSnoc(locals);
    }
  }

  /** What calling `name` on a renderer with these instance variables and
      singleton readers yields. Ruby looks in the singleton class first
      (the readers of the locals), then in `Renderer` (the `locals` and
      `options` readers and its other methods), then in `Object` and
      `Kernel`; only a name found nowhere reaches `method_missing`.
      `others` names the methods of `Renderer`, `Object` and `Kernel` other
      than the two readers; what they return is not modelled, so a call
      that reaches one of them yields `None`. */
  function Answer(ivars: map<string, Value>, readers: set<string>, others: set<string>, name: string)
    : (r: Option<Result<Value>>)
    ensures (name in readers || name == "locals" || name == "options") && name in ivars ==> r == Some(Ok(ivars[name]))
    ensures name !in readers && name != "locals" && name != "options" && name in others ==> r.None?
    ensures name !in readers && name != "locals" && name != "options" && name !in others ==>
      r == Some(MethodMissing(name))
  {
    if name in readers || name == "locals" || name == "options" then
      if name in ivars then Some(Ok(ivars[name])) else Some(Ok(Nil))
    else if name in others then None
    else Some(MethodMissing(name))
  }

  /** On a renderer built from `locals`, a local's reader returns the last
      value given under its name, also when the name ends in `_path` or
      `_url` and also when an inherited method has the same name. */
  lemma LocalReaderWins(locals: Dict<Key, Value>, options: Dict<Key, Value>, others: set<string>, n: string)
    requires n in Names(locals)
    ensures LastNamed(locals, n).Some? &&
      Answer(DefineLocals(Initial(locals, options), locals), Names(locals), others, n) == Some(Ok(LastNamed(locals, n).value))
  {
    LastNamedIffNamed(locals, n);
    LastLocalWins(Initial(locals, options), locals, n);
  }

  /** Without a local named `locals`, the `locals` reader returns the Hash
      the renderer was built with; a local of that name replaces it. */
  lemma OwnLocalsReader(locals: Dict<Key, Value>, options: Dict<Key, Value>, others: set<string>)
    ensures "locals" !in Names(locals) ==>
      Answer(DefineLocals(Initial(locals, options), locals), Names(locals), others, "locals") == Some(Ok(Hash(locals)))
    ensures "locals" in Names(locals) ==> (LastNamed(locals, "locals").Some? &&
      Answer(DefineLocals(Initial(locals, options), locals), Names(locals), others, "locals") ==
        Some(Ok(LastNamed(locals, "locals").value)))
  {
    LastNamedIffNamed(locals, "locals");
    LastLocalWins(Initial(locals, options), locals, "locals");
  }

  /** A name that is neither a local, `locals`, `options` nor any other
      method of the renderer goes to `method_missing`. */
  lemma UnknownNameIsMissing(locals: Dict<Key, Value>, options: Dict<Key, Value>, others: set<string>, n: string)
    requires n !in Names(locals) && n != "locals" && n != "options" && n !in others
    ensures Answer(DefineLocals(Initial(locals, options), locals), Names(locals), others, n) == Some(MethodMissing(n))
  {
  }

  class Renderer {
    const locals: Dict<Key, Value>
    const options: Dict<Key, Value>
    /** The instance variables, by name without the `@`. */
    var ivars: map<string, Value>
    /** The singleton readers declared for the locals. */
    var readers: set<string>

    /** `Renderer.new(locals:, **options)` for locals whose names are all
        valid instance variable names (see `New` for the others). */
    constructor(locals: Dict<Key, Value>, options: Dict<Key, Value>)
      requires forall i :: 0 <= i < |locals| ==> IsIvarName(Name(locals[i].key))
      ensures this.locals == locals && this.options == options
      ensures ivars == DefineLocals(Initial(locals, options), locals)
      ensures readers == Names(locals)
    {
      this.locals := locals;
      this.options := options;
      ivars := Initial(locals, options);
      readers := {};
      new;
      var i := 0;
      while i < |locals|
        invariant 0 <= i <= |locals|
        invariant ivars == DefineLocals(Initial(locals, options), locals[..i])
        invariant readers == Names(locals[..i])
      {
        DefineLocalsSnoc(Initial(locals, options), locals, i);
        ivars := ivars[Name(locals[i].key) := locals[i].val];
        readers := readers + {Name(locals[i].key)};
        i := i + 1;
      }
      assert locals[..i] == locals;
    }

    /** Calling `name` on the renderer, where `others` are the names of its
        remaining own and inherited methods. */
    method Call(name: string, others: set<string>) returns (r: Option<Result<Value>>)
      ensures r == Answer(ivars, readers, others, name)
    {
      if name in readers || name == "locals" || name == "options" {
        r := if name in ivars then Some(Ok(ivars[name])) else Some(Ok(Nil));
      } else if name in others {
        r := None;
      } else {
        r := Some(MethodMissing(name));
      }
    }
  }

  /** `Renderer.new`: `locals` defaults to `{}` when not given (`None`), and
      `instance_variable_set` raises a `NameError` at the first local whose
      name is not a valid instance variable name. */
  method New(given: Option<Dict<Key, Value>>, options: Dict<Key, Value>) returns (r: Result<Renderer>)
    ensures var locals := given.GetOr([]);
      r.Err? <==> exists i :: 0 <= i < |locals| && !IsIvarName(Name(locals[i].key))
    ensures given.None? ==> r.Ok? && r.value.locals == [] && r.value.readers == {}
    ensures var locals := given.GetOr([]);
      r.Ok? ==> (fresh(r.value) && r.value.locals == locals && r.value.options == options &&
        r.value.ivars == DefineLocals(Initial(locals, options), locals) && r.value.readers == Names(locals))
  {
    var locals := given.GetOr([]);
    var i := 0;
    while i < |locals|
      invariant 0 <= i <= |locals|
      invariant forall j :: 0 <= j < i ==> IsIvarName(Name(locals[j].key))
    {
      if !IsIvarName(Name(locals[i].key)) {
        return Err(NameError("'@" + Name(locals[i].key) + "' is not allowed as an instance variable name"));
      }
      i := i + 1;
    }
    var renderer := new Renderer(locals, options);
    r := Ok(renderer);
  }
}
