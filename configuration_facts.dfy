/**
  What the configuration of the JSON serializer means: how the entries of a
  Map configuration combine, what each configuration shape makes a query
  answer, and when a `Properties` object is empty.
 */
module ConfigurationFacts {
  import opened Wrappers
  import opened PropertyNames
  import opened OutputConfiguration

  // -----------------------------------------------------------------------
  // Putting the entries of a Map configuration

  /** Entry `j` is the last one that stores something under class name `name`. */
  ghost predicate LastBinder(entries: seq<(Key, EntryValue)>, name: string, j: int) {
    && 0 <= j < |entries|
    && BindsName(entries[j], name)
    && forall i :: j < i < |entries| ==> !BindsName(entries[i], name)
  }

  /** A class name that no entry stores anything under keeps what it had. */
  lemma {:induction false} UnboundNameKept(m: map<string, seq<string>>, entries: seq<(Key, EntryValue)>, name: string)
    requires forall i :: 0 <= i < |entries| ==> !BindsName(entries[i], name)
    ensures name in ApplyEntries(m, entries) <==> name in m
    ensures name in m ==> ApplyEntries(m, entries)[name] == m[name]
    decreases |entries|
  {
    if entries != [] {
      var last := |entries| - 1;
      assert !BindsName(entries[last], name);
      UnboundNameKept(m, entries[..last], name);
    }
  }

  /** The last entry stored under a class name decides its list: later entries overwrite earlier ones. */
  lemma {:induction false} LastBindingWins(m: map<string, seq<string>>, entries: seq<(Key, EntryValue)>, name: string, j: int)
    requires LastBinder(entries, name, j)
    ensures name in ApplyEntries(m, entries)
    ensures ApplyEntries(m, entries)[name] == Binding(entries[j].0, entries[j].1).value.1
    decreases |entries|
  {
    var last := |entries| - 1;
    if j < last {
      assert !BindsName(entries[last], name);
      assert LastBinder(entries[..last], name, j);
      LastBindingWins(m, entries[..last], name, j);
    }
  }

  /** When some entry stores something under `name`, one of them is the last. */
  lemma {:induction false} LastBinderExists(entries: seq<(Key, EntryValue)>, name: string, i: int)
    requires 0 <= i < |entries| && BindsName(entries[i], name)
    ensures exists j :: LastBinder(entries, name, j)
    decreases |entries| - i
  {
    if !LastBinder(entries, name, i) {
      var i' :| i < i' < |entries| && BindsName(entries[i'], name);
      LastBinderExists(entries, name, i');
    }
  }

  /** Putting two runs of entries is putting the first, then the second. */
  lemma {:induction false} ApplyEntriesAppend(m: map<string, seq<string>>, a: seq<(Key, EntryValue)>, b: seq<(Key, EntryValue)>)
    ensures ApplyEntries(m, a + b) == ApplyEntries(ApplyEntries(m, a), b)
    decreases |b|
  {
    if b == [] {
      assert a + b == a;
    } else {
      var last := |b| - 1;
      assert (a + b)[..|a + b| - 1] == a + b[..last];
      ApplyEntriesAppend(m, a, b[..last]);
    }
  }

  /**
    An entry whose key is neither a String nor a Class, whose value is neither
    a String nor a Collection, or whose String lists no name, changes nothing,
    wherever it stands.
   */
  lemma IgnoredEntryChangesNothing(m: map<string, seq<string>>, a: seq<(Key, EntryValue)>, e: (Key, EntryValue), b: seq<(Key, EntryValue)>)
    requires e.0.OtherKey? || e.1.OtherValue? || (e.1.StringValue? && Tokens(e.1.text) == [])
    ensures ApplyEntries(m, a + [e] + b) == ApplyEntries(m, a + b)
  {
    ApplyEntriesAppend(m, a + [e], b);
    ApplyEntriesAppend(m, a, b);
    assert ApplyEntries(m, a + [e]) == Put(ApplyEntries(m, a), e) by {
      assert (a + [e])[..|a + [e]| - 1] == a;
    }
  }

  /** A Map configuration stores nothing exactly when every one of its entries is ignored. */
  lemma {:induction false} NothingStored(entries: seq<(Key, EntryValue)>)
    ensures ApplyEntries(map[], entries) == map[] <==>
      forall i :: 0 <= i < |entries| ==> Binding(entries[i].0, entries[i].1).None?
  {
    if forall i :: 0 <= i < |entries| ==> Binding(entries[i].0, entries[i].1).None? {
      forall name {
        UnboundNameKept(map[], entries, name);
      }
      assert ApplyEntries(map[], entries).Keys == {};
    } else {
      var i :| 0 <= i < |entries| && Binding(entries[i].0, entries[i].1).Some?;
      var name := Binding(entries[i].0, entries[i].1).value.0;
      LastBinderExists(entries, name, i);
      var j :| LastBinder(entries, name, j);
      LastBindingWins(map[], entries, name, j);
    }
  }

  /**
    A String value that joins names with a comma (spaces around it allowed)
    configures a class exactly as the Collection of those names would. An
    empty list is the exception: the empty String stores nothing, the empty
    Collection is stored.
   */
  lemma JoinedStringAgreesWithList(key: Key, names: seq<string>, before: string, after: string)
    requires forall k :: 0 <= k < |names| ==> IsTrimmedName(names[k])
    requires AllSpace(before) && AllSpace(after)
    ensures names != [] ==>
      Binding(key, StringValue(Join(names, before + "," + after))) == Binding(key, CollectionValue(names))
    ensures names == [] ==>
      && Binding(key, StringValue(Join(names, before + "," + after))).None?
      && (Binding(key, CollectionValue(names)).Some? <==> !key.OtherKey?)
  {
    var text := Join(names, before + "," + after);
    TokensOfJoin(names, before, after);
    assert Tokens(text) == names;
    var fromString := Binding(key, StringValue(text));
    var fromList := Binding(key, CollectionValue(names));
    if names != [] && !key.OtherKey? {
      assert fromString.Some? && fromList.Some?;
      assert fromString.value.1 == names;
    }
  }

  // -----------------------------------------------------------------------
  // What a built Properties object answers

  /**
    A String configuration fills only the global set: the defaults and its
    tokens, for any object, and the class map stays empty.
   */
  lemma StringConfigQuery(p: Properties, text: string, defaults: seq<string>, obj: Option<JavaClass>, n: string)
    requires p.BuiltFrom(StringConfig(text), defaults)
    ensures p.propertyNamesWithSimpleNames == map[]
    ensures p.HasPropertyName(obj, Some(n)) <==> n in defaults || n in Tokens(text)
  {
  }

  /** Null, or a configuration that is neither a String nor a Map, adds nothing to the defaults. */
  lemma OtherConfigQuery(p: Properties, configuration: ConfigValue, defaults: seq<string>, obj: Option<JavaClass>, n: string)
    requires configuration.Null? || configuration.OtherConfig?
    requires p.BuiltFrom(configuration, defaults)
    ensures p.globalPropertyNames == Elements(defaults) && p.propertyNamesWithSimpleNames == map[]
    ensures p.HasPropertyName(obj, Some(n)) <==> n in defaults
  {
  }

  /**
    Under a Map configuration, a property of an object matches when it is a
    default, or when it is in the list of the last entry stored under the
    object's simple class name.
   */
  lemma MapConfigQuery(p: Properties, entries: seq<(Key, EntryValue)>, defaults: seq<string>, obj: JavaClass, n: string)
    requires p.BuiltFrom(MapConfig(entries), defaults)
    ensures p.globalPropertyNames == Elements(defaults)
    ensures p.HasPropertyName(Some(obj), Some(n)) <==>
      || n in defaults
      || exists j :: LastBinder(entries, MapClassToStringKey(obj), j) && n in Binding(entries[j].0, entries[j].1).value.1
  {
    var name := MapClassToStringKey(obj);
    if i :| 0 <= i < |entries| && BindsName(entries[i], name) {
      LastBinderExists(entries, name, i);
      var j :| LastBinder(entries, name, j);
      LastBindingWins(map[], entries, name, j);
      forall j' | LastBinder(entries, name, j')
        ensures j' == j
      {
      }
    } else {
      UnboundNameKept(map[], entries, name);
    }
  }

  /**
    A Collection entry is stored even when it is empty: it makes the object
    non-empty, yet the class it names matches no more than the defaults.
   */
  lemma EmptyCollectionEntry(p: Properties, entries: seq<(Key, EntryValue)>, defaults: seq<string>, j: int, obj: JavaClass)
    requires p.BuiltFrom(MapConfig(entries), defaults)
    requires 0 <= j < |entries| && entries[j].1 == CollectionValue([])
    requires KeyName(entries[j].0) == Some(MapClassToStringKey(obj))
    requires forall i :: j < i < |entries| ==> !BindsName(entries[i], MapClassToStringKey(obj))
    ensures !p.IsEmpty()
    ensures forall n :: p.HasPropertyName(Some(obj), Some(n)) <==> n in defaults
  {
    var name := MapClassToStringKey(obj);
    assert LastBinder(entries, name, j);
    LastBindingWins(map[], entries, name, j);
    assert name in p.propertyNamesWithSimpleNames;
  }

  /**
    A built object is empty exactly when there are no defaults and the
    configuration stores nothing: a String listing no name, a Map whose every
    entry is ignored, or any other shape.
   */
  lemma BuiltIsEmpty(p: Properties, configuration: ConfigValue, defaults: seq<string>)
    requires p.BuiltFrom(configuration, defaults)
    ensures p.IsEmpty() <==>
      && defaults == []
      && (configuration.StringConfig? ==> Tokens(configuration.text) == [])
      && (configuration.MapConfig? ==>
            forall i :: 0 <= i < |configuration.entries| ==>
              Binding(configuration.entries[i].0, configuration.entries[i].1).None?)
  {
    if defaults != [] {
      assert defaults[0] in p.globalPropertyNames;
    }
    if configuration.StringConfig? && Tokens(configuration.text) != [] {
      assert Tokens(configuration.text)[0] in p.globalPropertyNames;
    }
    if configuration.MapConfig? {
      NothingStored(configuration.entries);
    }
  }
}

/**
  Worked examples of the configuration, each derived from the general facts
  above.
 */
module ConfigurationExamples {
  import opened Wrappers
  import opened PropertyNames
  import opened OutputConfiguration
  import opened ConfigurationFacts

  /** "a, b" lists the two names "a" and "b". */
  lemma TokensOfTwoNames()
    ensures Tokens("a, b") == ["a", "b"]
  {
    TokensOfJoin(["a", "b"], "", " ");
    assert Join(["a", "b"], "" + "," + " ") == "a, b";
  }

  /** "v1, v2, v3" lists the three names in order. */
  lemma TokensOfThreeNames()
    ensures Tokens("v1, v2, v3") == ["v1", "v2", "v3"]
  {
    var sep := "" + "," + " ";
    assert Join(["v3"], sep) == "v3";
    assert Join(["v2", "v3"], sep) == "v2, v3" by {
      assert ["v2", "v3"][1..] == ["v3"];
    }
    assert Join(["v1", "v2", "v3"], sep) == "v1, v2, v3" by {
      assert ["v1", "v2", "v3"][1..] == ["v2", "v3"];
    }
    TokensOfJoin(["v1", "v2", "v3"], "", " ");
  }

  /** Excludes "a, b": both names match for any object, "c" does not. */
  lemma GlobalStringExample(p: Properties, text: string)
    requires text == "a, b"
    requires p.BuiltFrom(StringConfig(text), DefaultExcludedNames)
    ensures p.HasPropertyName(None, Some("a")) && p.HasPropertyName(None, Some("b"))
    ensures !p.HasPropertyName(None, Some("c"))
  {
    TokensOfTwoNames();
    StringConfigQuery(p, text, DefaultExcludedNames, None, "a");
    StringConfigQuery(p, text, DefaultExcludedNames, None, "b");
    StringConfigQuery(p, text, DefaultExcludedNames, None, "c");
  }

  /**
    Excludes Foo: names listing v1, v2, v3 stores those names under "Foo",
    nothing under "Bar", and only the default exclusions globally.
   */
  lemma ClassStringStored(p: Properties, text: string)
    requires Tokens(text) == ["v1", "v2", "v3"]
    requires p.BuiltFrom(MapConfig([(StringKey("Foo"), StringValue(text))]), DefaultExcludedNames)
    ensures p.globalPropertyNames == Elements(DefaultExcludedNames)
    ensures "Foo" in p.propertyNamesWithSimpleNames
    ensures p.propertyNamesWithSimpleNames["Foo"] == ["v1", "v2", "v3"]
    ensures "Bar" !in p.propertyNamesWithSimpleNames
  {
    var entries := [(StringKey("Foo"), StringValue(text))];
    assert LastBinder(entries, "Foo", 0);
    LastBindingWins(map[], entries, "Foo", 0);
    UnboundNameKept(map[], entries, "Bar");
  }

  /**
    Excludes Foo: "v1, v2, v3" (or any string listing those names, see
    `TokensOfThreeNames`): "v1" is excluded for a Foo, "v4" is not, and "v1"
    is not excluded for an unrelated class Bar.
   */
  lemma ClassStringExample(p: Properties, text: string)
    requires Tokens(text) == ["v1", "v2", "v3"]
    requires p.BuiltFrom(MapConfig([(StringKey("Foo"), StringValue(text))]), DefaultExcludedNames)
    ensures p.HasPropertyName(Some(JavaClass("Foo")), Some("v1"))
    ensures !p.HasPropertyName(Some(JavaClass("Foo")), Some("v4"))
    ensures !p.HasPropertyName(Some(JavaClass("Bar")), Some("v1"))
  {
    ClassStringStored(p, text);
    assert "v1" !in DefaultExcludedNames && "v4" !in DefaultExcludedNames;
  }

  /** Excludes Foo: []: the object is not empty, yet a Foo matches only the defaults. */
  lemma EmptyListExample(p: Properties)
    requires p.BuiltFrom(MapConfig([(ClassKey(JavaClass("Foo")), CollectionValue([]))]), DefaultExcludedNames)
    ensures !p.IsEmpty()
    ensures p.HasPropertyName(Some(JavaClass("Foo")), Some("class"))
    ensures !p.HasPropertyName(Some(JavaClass("Foo")), Some("v1"))
  {
    EmptyCollectionEntry(p, [(ClassKey(JavaClass("Foo")), CollectionValue([]))], DefaultExcludedNames, 0, JavaClass("Foo"));
  }
}
