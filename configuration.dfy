/** `Jbuilder::Schema::Configuration` and the memoised
    `Jbuilder::Schema.configuration` that hands out one instance of it. */
module JbConfiguration {
  import opened SchemaSettings

  /** A configuration object with its three accessors. */
  class Configuration {
    var componentsPath: string
    var titleName: string
    var descriptionName: string

    function Current(): Settings
      reads this
    {
      Settings(componentsPath, titleName, descriptionName)
    }

    /** `Configuration.new`: the defaults. */
    constructor()
      ensures Current() == Defaults()
    {
      componentsPath := "components/schemas";
      titleName := "title";
      descriptionName := "description";
    }

    /** One accessor writer. */
    method Assign(a: Assignment)
      modifies this
      ensures Current() == Apply(old(Current()), a)
    {
      match a.field
      case ComponentsPath => componentsPath := a.value;
      case TitleName => titleName := a.value;
      case DescriptionName => descriptionName := a.value;
    }
  }

  /** The class-level `@configuration`, created on first use. */
  class Registry {
    var configuration: Configuration?

    constructor()
      ensures configuration == null
    {
      configuration := null;
    }

    /** The settings `configuration` would answer with now: those of the
        existing instance, or the defaults of the one it would create. */
    ghost function Effective(): Settings
      reads this, configuration
    {
      if configuration == null then Defaults() else configuration.Current()
    }

    /** `configuration`: `@configuration ||= Configuration.new`. Every call
        after the first returns the same instance. */
    method GetConfiguration() returns (c: Configuration)
      modifies this
      ensures configuration == c
      ensures old(configuration) != null ==> c == old(configuration)
      ensures old(configuration) == null ==> fresh(c)
      ensures c.Current() == old(Effective())
    {
      if configuration == null {
        configuration := new Configuration();
      }
      c := configuration;
    }

    /** `configure { |config| ... }`: the block's writer calls, in order, on
        the memoised instance. */
    method Configure(block: seq<Assignment>)
      modifies this, configuration
      ensures configuration != null
      ensures old(configuration) != null ==> configuration == old(configuration)
      ensures Effective() == ApplyAll(old(Effective()), block)
    {
      var c := GetConfiguration();
      var start := c.Current();
      var i := 0;
      while i < |block|
        invariant 0 <= i <= |block|
        invariant configuration == c
        invariant c.Current() == ApplyAll(start, block[..i])
      {
        assert block[..i + 1][..i] == block[..i];
        c.Assign(block[i]);
        i := i + 1;
      }
      assert block[..i] == block;
    }
  }
}
