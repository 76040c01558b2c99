/**
  The configuration that the JSON serializer of groovy-json consults to decide,
  per output property, whether to leave it out ("excludes") or to keep it
  ("includes").

  A loosely-typed configuration value (null, a comma-separated string, or a map
  from a class name or class to property names) is turned into a `Properties`
  object: a set of global property names, plus a map from a class's simple name
  to the property names that apply to objects of that class only.
 */
module OutputConfiguration {
  import opened Wrappers
  import opened PropertyNames

  // -----------------------------------------------------------------------
  // The loosely-typed input, as a tagged union

  /** A Java class, as far as this component sees it: its simple (unqualified) name. */
  datatype JavaClass = JavaClass(simpleName: string)

  /** A key of a configuration map: a String, a Class, or anything else (null included). */
  datatype Key =
    | StringKey(name: string)
    | ClassKey(clazz: JavaClass)
    | OtherKey

  /** A value of a configuration map: a String, a Collection of Strings, or anything else. */
  datatype EntryValue =
    | StringValue(text: string)
    | CollectionValue(names: seq<string>)
    | OtherValue

  /**
    The object found under "excludes" or "includes": absent (null), a String,
    a Map (its entries in iteration order), or any other object.
   */
  datatype ConfigValue =
    | Null
    | StringConfig(text: string)
    | MapConfig(entries: seq<(Key, EntryValue)>)
    | OtherConfig

  /** The exception the top-level constructor throws. */
  datatype ConfigurationError = IllegalArgument(message: string)

  /** A class stands for its simple name. */
  function MapClassToStringKey(clazz: JavaClass): string {
    clazz.simpleName
  }

  // -----------------------------------------------------------------------
  // What construction stores, as functions of the input

  /** The class name a map key stands for: a String verbatim, a Class by its simple name. */
  function KeyName(key: Key): Option<string> {
    match key
    case StringKey(name) => Some(name)
    case ClassKey(clazz) => Some(MapClassToStringKey(clazz))
    case OtherKey => None
  }

  /**
    What one map entry stores, if anything: the class name and its property
    names. A String value is tokenised and stored only when it lists a name;
    a Collection is stored as it is, even when empty.
   */
  function Binding(key: Key, value: EntryValue): (r: Option<(string, seq<string>)>)
    ensures r.Some? <==>
      && !key.OtherKey?
      && (value.CollectionValue? || (value.StringValue? && Tokens(value.text) != []))
    ensures r.Some? && key.StringKey? ==> r.value.0 == key.name
    ensures r.Some? && key.ClassKey? ==> r.value.0 == MapClassToStringKey(key.clazz)
    ensures r.Some? && value.StringValue? ==> r.value.1 == Tokens(value.text)
    ensures r.Some? && value.StringValue? ==>
      forall k :: 0 <= k < |r.value.1| ==> IsTrimmedName(r.value.1[k])
    ensures r.Some? && value.CollectionValue? ==> r.value.1 == value.names
  {
    match value
    case StringValue(text) =>
      TokensWellFormed(text);
      var names := Tokens(text);
      if names == [] || KeyName(key).None? then None else Some((KeyName(key).value, names))
    case CollectionValue(names) =>
      if KeyName(key).None? then None else Some((KeyName(key).value, names))
    case OtherValue => None
  }

  /** The entry stores something under class name `name`. */
  predicate BindsName(entry: (Key, EntryValue), name: string) {
    var b := Binding(entry.0, entry.1);
    b.Some? && b.value.0 == name
  }

  /** `m` after one entry is put into it (`Map.put`), if the entry stores anything. */
  function Put(m: map<string, seq<string>>, entry: (Key, EntryValue)): map<string, seq<string>> {
    match Binding(entry.0, entry.1)
    case None => m
    case Some(b) => m[b.0 := b.1]
  }

  /** `m` after the entries are put into it one after the other. */
  function ApplyEntries(m: map<string, seq<string>>, entries: seq<(Key, EntryValue)>): map<string, seq<string>>
    decreases |entries|
  {
    if entries == [] then m
    else Put(ApplyEntries(m, entries[..|entries| - 1]), entries[|entries| - 1])
  }

  /** The elements of a list, as a set (`addAll` of a list into a set). */
  function Elements(names: seq<string>): (r: set<string>)
    ensures names == [] ==> r == {}
  {
    set n | n in names
  }

  /** The global names a configuration lists itself: only a String lists any. */
  function ListedGlobalNames(configuration: ConfigValue): set<string> {
    match configuration
    case StringConfig(text) => Elements(Tokens(text))
    case _ => {}
  }

  /** The global names a configuration yields, on top of the caller's defaults. */
  function GlobalNames(configuration: ConfigValue, defaults: seq<string>): set<string> {
    Elements(defaults) + ListedGlobalNames(configuration)
  }

  /** The class-scoped names map `m` becomes under a configuration: only a Map changes it. */
  function ScopedNames(m: map<string, seq<string>>, configuration: ConfigValue): map<string, seq<string>> {
    match configuration
    case MapConfig(entries) => ApplyEntries(m, entries)
    case _ => m
  }

  /** Putting the entries of a list one more entry long puts that entry last. */
  lemma ApplyEntriesPrefix(m: map<string, seq<string>>, entries: seq<(Key, EntryValue)>, i: nat)
    requires i < |entries|
    ensures ApplyEntries(m, entries[..i + 1]) == Put(ApplyEntries(m, entries[..i]), entries[i])
  {
    assert entries[..i + 1][..i] == entries[..i];
  }

  // -----------------------------------------------------------------------
  // Properties: one filter category

  /** The property names of one category (exclusion or inclusion). */
  class Properties {
    /** Property names that match for every object. */
    var globalPropertyNames: set<string>
    /** Simple class name to the property names that match for objects of that class. */
    var propertyNamesWithSimpleNames: map<string, seq<string>>

    /** This object holds what construction from `configuration` and `defaults` gives. */
    ghost predicate BuiltFrom(configuration: ConfigValue, defaults: seq<string>)
      reads this
    {
      && globalPropertyNames == GlobalNames(configuration, defaults)
      && propertyNamesWithSimpleNames == ScopedNames(map[], configuration)
    }

    constructor (configuration: ConfigValue, defaultGlobalPropertyNames: seq<string>)
      ensures BuiltFrom(configuration, defaultGlobalPropertyNames)
      ensures forall n :: n in defaultGlobalPropertyNames ==> n in globalPropertyNames
    {
      globalPropertyNames := {};
      propertyNamesWithSimpleNames := map[];
      new;
      Init(configuration, defaultGlobalPropertyNames);
      assert globalPropertyNames == {} + GlobalNames(configuration, defaultGlobalPropertyNames);
    }

    /** No property name is configured, neither globally nor for any class. */
    function IsEmpty(): (r: bool)
      reads this
      ensures r ==> forall obj, n :: !HasPropertyName(obj, n)
      ensures !r ==> exists n :: n in globalPropertyNames || n in propertyNamesWithSimpleNames
    {
      globalPropertyNames == {} && propertyNamesWithSimpleNames == map[]
    }

    /**
      Whether `propertyName` of an object of class `obj` (None for a null
      object) is configured: globally, or for the object's class.
     */
    function HasPropertyName(obj: Option<JavaClass>, propertyName: Option<string>): (r: bool)
      reads this
      ensures r ==> propertyName.Some?
      ensures propertyName.Some? && propertyName.value in globalPropertyNames ==> r
      ensures obj.None? ==> (r <==> propertyName.Some? && propertyName.value in globalPropertyNames)
      ensures r && propertyName.value !in globalPropertyNames ==>
        && obj.Some?
        && MapClassToStringKey(obj.value) in propertyNamesWithSimpleNames
        && propertyName.value in propertyNamesWithSimpleNames[MapClassToStringKey(obj.value)]
      ensures
        && propertyName.Some? && obj.Some?
        && MapClassToStringKey(obj.value) in propertyNamesWithSimpleNames
        && propertyName.value in propertyNamesWithSimpleNames[MapClassToStringKey(obj.value)]
        ==> r
    {
      if propertyName.None? then false
      else if propertyName.value in globalPropertyNames then true
      else if obj.None? then false
      else
        var key := MapClassToStringKey(obj.value);
        key in propertyNamesWithSimpleNames && propertyName.value in propertyNamesWithSimpleNames[key]
    }

    /** Adds the defaults and what the configuration lists to the two lookup structures. */
    method Init(configuration: ConfigValue, defaultGlobalPropertyNames: seq<string>)
      modifies this
      ensures globalPropertyNames
        == old(globalPropertyNames) + Elements(defaultGlobalPropertyNames) + ListedGlobalNames(configuration)
      ensures propertyNamesWithSimpleNames == ScopedNames(old(propertyNamesWithSimpleNames), configuration)
    {
      // The String case tokenises its argument first; the tokeniser reads
      // nothing else, so doing it before the defaults are added changes nothing.
      var configurationValues: seq<string> := [];
      if configuration.StringConfig? {
        configurationValues := ToUnmodifiableList(Some(configuration.text));
      }
      if |defaultGlobalPropertyNames| > 0 {
        globalPropertyNames := globalPropertyNames + Elements(defaultGlobalPropertyNames);
      }
      if configuration.StringConfig? {
        if |configurationValues| > 0 {
          globalPropertyNames := globalPropertyNames + Elements(configurationValues);
        }
      }
      if configuration.MapConfig? {
        InitFromMap(configuration.entries);
      } else {
        assert propertyNamesWithSimpleNames == old(propertyNamesWithSimpleNames);
      }
    }

    /** The Map case of `Init`: puts each entry that stores something, in iteration order. */
    method InitFromMap(entries: seq<(Key, EntryValue)>)
      modifies this
      ensures globalPropertyNames == old(globalPropertyNames)
      ensures propertyNamesWithSimpleNames == ApplyEntries(old(propertyNamesWithSimpleNames), entries)
    {
      for i := 0 to |entries|
        invariant globalPropertyNames == old(globalPropertyNames)
        invariant propertyNamesWithSimpleNames == ApplyEntries(old(propertyNamesWithSimpleNames), entries[..i])
      {
        var (key, value) := entries[i];
        ApplyEntriesPrefix(old(propertyNamesWithSimpleNames), entries, i);
        if value.StringValue? {
          var configurationValues := ToUnmodifiableList(Some(value.text));
          if |configurationValues| > 0 {
            if key.StringKey? {
              propertyNamesWithSimpleNames := propertyNamesWithSimpleNames[key.name := configurationValues];
            } else if key.ClassKey? {
              propertyNamesWithSimpleNames := propertyNamesWithSimpleNames[MapClassToStringKey(key.clazz) := configurationValues];
            }
          }
        } else if value.CollectionValue? {
          if key.StringKey? {
            propertyNamesWithSimpleNames := propertyNamesWithSimpleNames[key.name := value.names];
          } else if key.ClassKey? {
            propertyNamesWithSimpleNames := propertyNamesWithSimpleNames[MapClassToStringKey(key.clazz) := value.names];
          }
        }
      }
      assert entries[..|entries|] == entries;
    }

    /**
      The property names a comma-separated string lists: trimmed, non-empty,
      in order. A null or empty string lists none.
     */
    method ToUnmodifiableList(value: Option<string>) returns (trimmedPropertyNames: seq<string>)
      ensures value.None? ==> trimmedPropertyNames == []
      ensures value.Some? ==> trimmedPropertyNames == Tokens(value.value)
      ensures forall k :: 0 <= k < |trimmedPropertyNames| ==> IsTrimmedName(trimmedPropertyNames[k])
    {
      if value.None? {
        return [];
      }
      if |value.value| == 0 {
        TokensOfEmpty();
        return [];
      }
      var propertyNames := Split(value.value);
      trimmedPropertyNames := [];
      for i := 0 to |propertyNames|
        invariant trimmedPropertyNames == Clean(propertyNames[..i])
      {
        var trimmedPropertyName := Trim(propertyNames[i]);
        CleanPrefix(propertyNames, i);
        if |trimmedPropertyName| > 0 {
          trimmedPropertyNames := trimmedPropertyNames + [trimmedPropertyName];
        }
      }
      assert propertyNames[..|propertyNames|] == propertyNames;
      TokensWellFormed(value.value);
    }
  }

  // -----------------------------------------------------------------------
  // The top-level configuration

  /** The key of the top-level map that holds the exclusions. */
  const ExcludesKey: string := "excludes"
  /** The key of the top-level map that holds the inclusions. */
  const IncludesKey: string := "includes"
  /** Reflective properties that are always excluded. */
  const DefaultExcludedNames: seq<string> := ["class", "metaClass", "declaringClass"]

  /** `Map.get` on the top-level map: a missing key reads as null. */
  function Get(configuration: map<string, ConfigValue>, key: string): ConfigValue {
    if key in configuration then configuration[key] else Null
  }

  /** The exclusions and inclusions of one serializer configuration. */
  class JsonOutputConfiguration {
    const excludes: Properties
    const includes: Properties

    /** Reads "excludes" (with the default exclusions) and "includes" from the map. */
    constructor (configuration: map<string, ConfigValue>)
      ensures fresh(excludes) && fresh(includes) && excludes != includes
      ensures excludes.BuiltFrom(Get(configuration, ExcludesKey), DefaultExcludedNames)
      ensures includes.BuiltFrom(Get(configuration, IncludesKey), [])
      ensures forall n :: n in DefaultExcludedNames ==> n in excludes.globalPropertyNames
    {
      excludes := new Properties(Get(configuration, ExcludesKey), DefaultExcludedNames);
      includes := new Properties(Get(configuration, IncludesKey), []);
    }

    /** A configuration from the map; a null map is refused. */
    static method NewConfiguration(configuration: Option<map<string, ConfigValue>>)
      returns (r: Result<JsonOutputConfiguration, ConfigurationError>)
      ensures r.Failure? <==> configuration.None?
      ensures r.Failure? ==> r.error == IllegalArgument("Argument 'configuration' must not be null!")
      ensures r.Success? ==>
        && fresh(r.value) && fresh(r.value.excludes) && fresh(r.value.includes)
        && r.value.excludes.BuiltFrom(Get(configuration.value, ExcludesKey), DefaultExcludedNames)
        && r.value.includes.BuiltFrom(Get(configuration.value, IncludesKey), [])
    {
      if configuration.None? {
        return Failure(IllegalArgument("Argument 'configuration' must not be null!"));
      }
      var c := new JsonOutputConfiguration(configuration.value);
      return Success(c);
    }

    /** The default configuration: only the reflective properties are excluded, nothing is included. */
    static method NewDefaultConfiguration() returns (c: JsonOutputConfiguration)
      ensures fresh(c) && fresh(c.excludes) && fresh(c.includes)
      ensures !c.excludes.IsEmpty() && c.includes.IsEmpty()
      ensures c.excludes.BuiltFrom(Null, DefaultExcludedNames) && c.includes.BuiltFrom(Null, [])
      ensures forall obj, n :: c.excludes.HasPropertyName(obj, Some(n)) <==> n in DefaultExcludedNames
      ensures forall obj, n :: !c.includes.HasPropertyName(obj, n)
    {
      c := new JsonOutputConfiguration(map[]);
      assert "class" in c.excludes.globalPropertyNames;
    }

    /** The exclusions. */
    function GetExcludes(): Properties {
      excludes
    }

    /** The inclusions. */
    function GetIncludes(): Properties {
      includes
    }
  }
}
