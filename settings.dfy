/** The three naming settings that both `Jbuilder::Schema` itself and a
    `Jbuilder::Schema::Configuration` carry as accessors: where component
    schemas live and which keys hold titles and descriptions. */
module SchemaSettings {
  import opened RubyValues

  datatype Settings = Settings(componentsPath: string, titleName: string, descriptionName: string)

  datatype Field = ComponentsPath | TitleName | DescriptionName

  /** The accessor's reader. */
  function Read(s: Settings, f: Field): string {
    match f
    case ComponentsPath => s.componentsPath
    case TitleName => s.titleName
    case DescriptionName => s.descriptionName
  }

  /** The defaults both places start from. */
  function Defaults(): (s: Settings)
    ensures Read(s, ComponentsPath) == "components/schemas"
    ensures Read(s, TitleName) == "title" && Read(s, DescriptionName) == "description"
  {
    Settings("components/schemas", "title", "description")
  }

  /** One call of an accessor's writer: `field = value`. */
  datatype Assignment = Assignment(field: Field, value: string)

  /** The settings after one writer call: its own field takes the value,
      the other two fields are left as they were. */
  function Apply(s: Settings, a: Assignment): (r: Settings)
    ensures Read(r, a.field) == a.value
    ensures forall f :: f != a.field ==> Read(r, f) == Read(s, f)
  {
    match a.field
    case ComponentsPath => s.(componentsPath := a.value)
    case TitleName => s.(titleName := a.value)
    case DescriptionName => s.(descriptionName := a.value)
  }

  /** The writer calls a configuration block makes, in order. */
  function ApplyAll(s: Settings, block: seq<Assignment>): Settings
    decreases |block|
  {
    if block == [] then s else Apply(ApplyAll(s, block[..|block| - 1]), block[|block| - 1])
  }

  /** The value a block last gave `f`, if it gave one. */
  function LastAssigned(block: seq<Assignment>, f: Field): Option<string>
    decreases |block|
  {
    if block == [] then None
    else if block[|block| - 1].field == f then Some(block[|block| - 1].value)
    else LastAssigned(block[..|block| - 1], f)
  }

  /** After a block, each field holds the last value assigned to it in the
      block, or the value it had before when the block assigned none:
      assignments to the other fields do not touch it. */
  lemma {:induction false} LastAssignmentWins(s: Settings, block: seq<Assignment>, f: Field)
    ensures Read(ApplyAll(s, block), f) == LastAssigned(block, f).GetOr(Read(s, f))
    decreases |block|
  {
    if block != [] {
      LastAssignmentWins(s, block[..|block| - 1], f);
    }
  }

  /** Writers of different fields can be called in either order. */
  lemma {:induction false} DifferentFieldsCommute(s: Settings, a: Assignment, b: Assignment)
    requires a.field != b.field
    ensures Apply(Apply(s, a), b) == Apply(Apply(s, b), a)
  {
    var l := Apply(Apply(s, a), b);
    var r := Apply(Apply(s, b), a);
    assert forall f :: Read(l, f) == Read(r, f);
    assert Read(l, ComponentsPath) == Read(r, ComponentsPath);
    assert Read(l, TitleName) == Read(r, TitleName);
    assert Read(l, DescriptionName) == Read(r, DescriptionName);
  }
}
