/**
 * The configuration container: named sections, each the array one importer
 * produced, and a lookup with a default. The source reaches the container
 * through a lazily created static instance; here the holder of that instance
 * is an object of its own.
 */
module Configuration {
  import opened PhpValues

  /** One section: the importer's array, key to value. */
  type Section = map<string, Value>

  /** All sections by name. */
  type Sections = map<string, Section>

  /**
   * `get($section, $value, $default)` on the given sections: the stored value
   * when `isset` holds of it (the section exists, has the key, and the value
   * is not null), the default otherwise.
   */
  function Lookup(sections: Sections, section: string, name: string, default: Value): Value {
    if section in sections && name in sections[section] && sections[section][name] != Null then
      sections[section][name]
    else
      default
  }

  /**
   * After `import(section, ...)` a lookup in that section sees only the
   * imported array, and a lookup in any other section sees what it saw
   * before: the import replaces one whole section and nothing else.
   */
  lemma LookupAfterImport(sections: Sections, section: string, imported: Section, other: string, name: string, default: Value)
    ensures Lookup(sections[section := imported], section, name, default) ==
      (if name in imported && imported[name] != Null then imported[name] else default)
    ensures other != section ==>
      Lookup(sections[section := imported], other, name, default) == Lookup(sections, other, name, default)
  {
  }

  /** Importing the same section twice leaves only the second array: no key of the first survives. */
  lemma SecondImportWins(sections: Sections, section: string, first: Section, second: Section, name: string, default: Value)
    requires name in first && first[name] != Null && name !in second
    ensures Lookup(sections[section := first][section := second], section, name, default) == default
  {
  }

  /** A stored null reads as absent: `get` gives the default, just as for a missing key or section. */
  lemma NullReadsAsDefault(sections: Sections, section: string, name: string, default: Value)
    requires section in sections && name in sections[section] && sections[section][name] == Null
    ensures Lookup(sections, section, name, default) == default
  {
  }

  /** The configuration object; its state is the map of sections. */
  class Configuration {
    var configuration: Sections

    constructor ()
      ensures configuration == map[]
    {
      configuration := map[];
    }

    /**
     * `import($section, $importer)`: `array_merge` with a one-entry array
     * replaces section `section` by the imported array. A section name PHP
     * would turn into an integer key is renumbered by `array_merge` instead,
     * which this model does not cover.
     */
    method Import(section: string, imported: Section)
      requires !IntegerKey(section)
      modifies this
      ensures configuration == old(configuration)[section := imported]
    {
      configuration := configuration[section := imported];
    }

    /** `get($section, $value, $default)`: the value if it is set, otherwise the default. */
    function Get(section: string, name: string, default: Value): (v: Value)
      reads this
      ensures v == Lookup(configuration, section, name, default)
      ensures v != default ==> section in configuration && name in configuration[section] && v == configuration[section][name]
    {
      if section !in configuration then default
      else if name !in configuration[section] then default
      else if configuration[section][name] == Null then default
      else configuration[section][name]
    }
  }

  /** The static `$instance` of the source: empty until `instance()` is first called. */
  class Singleton {
    var instance: Configuration?

    constructor ()
      ensures instance == null
    {
      instance := null;
    }

    /**
     * `instance()`: creates the configuration on the first call and returns
     * that same object on every later one.
     */
    method Instance() returns (c: Configuration)
      modifies this
      ensures old(instance) != null ==> c == old(instance)
      ensures old(instance) == null ==> fresh(c) && c.configuration == map[]
      ensures instance == c
    {
      if instance == null {
        instance := new Configuration();
      }
      c := instance;
    }
  }
}
