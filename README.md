# JsonOutputConfiguration of groovy-json, in Dafny

This project models `groovy.json.internal.JsonOutputConfiguration`. The JSON
serializer `JsonOutput` consults it to decide, for each property of each
object it writes, whether the property is excluded or included.

A configuration map may hold an `"excludes"` and an `"includes"` entry. Each
entry is turned into a `Properties` object with two parts:

- a set of **global** property names, which match for every object;
- a map from a class's **simple name** to a list of property names, which
  match only for objects of that class.

The raw value of an entry is loosely typed. It can be:

- null;
- a comma-separated String, such as `"prop1, prop2"`, which lists global names;
- a Map from a String or a Class to a String or a Collection of names;
- anything else, which is ignored.

Three reflective properties are always excluded: `class`, `metaClass` and
`declaringClass`.

Files:

- `wrappers.dfy` (module `Wrappers`): `Option`, which stands for Java's
  null, and `Result`, which stands for a thrown exception.
- `property_names.dfy` (module `PropertyNames`): the tokeniser behind
  `toUnmodifiableList`.
  - Java splits on the regular expression `\s*,\s*`, trims each piece and
    keeps the non-empty pieces.
  - Every character `\s` matches is also one `String.trim` removes (code
    point at most U+0020). So the model splits on `,` alone, trims each piece
    and drops the empty ones (`Tokens`).
  - Also proved here: `Split`/`Join` round trips, order, well-formedness of
    the tokens, and the round trip from a list to a joined string and back.
- `json_output_configuration.dfy` (module `OutputConfiguration`):
  - the tagged input (`ConfigValue`, `Key`, `EntryValue`);
  - specification functions for what construction stores (`Binding`,
    `ApplyEntries`, `GlobalNames`, `ScopedNames`);
  - the class `Properties`, with its two fields, the `Init` and
    `ToUnmodifiableList` loops, and the `HasPropertyName` and `IsEmpty`
    queries;
  - the class `JsonOutputConfiguration`, with its constructor, the two
    factory methods and the getters.
- `configuration_facts.dfy`, in two modules:
  - `ConfigurationFacts`: how the entries of a Map combine, what each
    configuration shape makes `hasPropertyName` answer, and when an object is
    empty.
  - `ConfigurationExamples`: worked examples built from those facts.

How the Java types map to the model:

- Java's `instanceof` tests become constructors of a datatype.
- The iteration order of a configuration map becomes the order of a sequence.
- A class, and the runtime class of the owner object, is known only by its
  simple name (`JavaClass`).
- A null owner object is `None`.

A class entry with an empty list is not treated as absent, which is a
natural misreading. The code stores the empty list: `isEmpty()` then answers
false, and objects of that class still match the global names, including the
default exclusions. `EmptyCollectionEntry` and `EmptyListExample` state this.

## Model

| member | source | states |
|---|---|---|
| PropertyNames.Trim | subprojects/groovy-json/src/main/java/groovy/json/internal/JsonOutputConfiguration.java:141 | `trim()` gives a string no longer than its input that neither starts nor ends with a character at or below U+0020 |
| PropertyNames.TrimStartFacts | subprojects/groovy-json/src/main/java/groovy/json/internal/JsonOutputConfiguration.java:141 | the leading part `trim` removes is all trim-spaces, and what is kept is a suffix that does not start with one |
| PropertyNames.TrimEndFacts | subprojects/groovy-json/src/main/java/groovy/json/internal/JsonOutputConfiguration.java:141 | the trailing part `trim` removes is all trim-spaces, and what is kept is a prefix that does not end with one |
| PropertyNames.TrimIsInfix | subprojects/groovy-json/src/main/java/groovy/json/internal/JsonOutputConfiguration.java:141 | the trimmed string is one contiguous stretch of the original |
| PropertyNames.TrimEmpty | subprojects/groovy-json/src/main/java/groovy/json/internal/JsonOutputConfiguration.java:141-142 | a piece trims to the empty string (and is dropped) exactly when it is all trim-spaces |
| PropertyNames.TrimSubset | subprojects/groovy-json/src/main/java/groovy/json/internal/JsonOutputConfiguration.java:141 | trimming invents no character |
| PropertyNames.TrimOfPadded | subprojects/groovy-json/src/main/java/groovy/json/internal/JsonOutputConfiguration.java:141 | trimming a non-empty name without surrounding spaces, once padded with trim-spaces, gives the name back |
| PropertyNames.TrimStartOfPadded | subprojects/groovy-json/src/main/java/groovy/json/internal/JsonOutputConfiguration.java:141 | leading trim-spaces in front of a string that does not start with one are exactly what is removed |
| PropertyNames.TrimEndOfPadded | subprojects/groovy-json/src/main/java/groovy/json/internal/JsonOutputConfiguration.java:141 | trailing trim-spaces after a string that does not end with one are exactly what is removed |
| PropertyNames.Split | subprojects/groovy-json/src/main/java/groovy/json/internal/JsonOutputConfiguration.java:136 | splitting at commas always yields at least one piece |
| PropertyNames.SplitCommaFree | subprojects/groovy-json/src/main/java/groovy/json/internal/JsonOutputConfiguration.java:136 | no piece of the split holds a comma |
| PropertyNames.SplitAtComma | subprojects/groovy-json/src/main/java/groovy/json/internal/JsonOutputConfiguration.java:136 | the pieces of `x,y` are the pieces of `x` followed by those of `y`: order is kept |
| PropertyNames.SplitNoComma | subprojects/groovy-json/src/main/java/groovy/json/internal/JsonOutputConfiguration.java:136 | a comma-free string is a single piece |
| PropertyNames.JoinSplit | subprojects/groovy-json/src/main/java/groovy/json/internal/JsonOutputConfiguration.java:136 | joining the pieces with "," rebuilds the split string: nothing is lost |
| PropertyNames.SplitJoin | subprojects/groovy-json/src/main/java/groovy/json/internal/JsonOutputConfiguration.java:136 | splitting comma-free pieces joined with "," gives back the pieces |
| PropertyNames.Clean | subprojects/groovy-json/src/main/java/groovy/json/internal/JsonOutputConfiguration.java:139-145 | the loop keeps at most one name per piece |
| PropertyNames.CleanAppend | subprojects/groovy-json/src/main/java/groovy/json/internal/JsonOutputConfiguration.java:140-145 | trimming and dropping empties distributes over consecutive runs of pieces |
| PropertyNames.CleanSnoc | subprojects/groovy-json/src/main/java/groovy/json/internal/JsonOutputConfiguration.java:140-145 | one more piece adds its trimmed form at the end, or nothing when that form is empty |
| PropertyNames.CleanPrefix | subprojects/groovy-json/src/main/java/groovy/json/internal/JsonOutputConfiguration.java:140-145 | one more loop iteration appends the trimmed piece unless it is empty |
| PropertyNames.CleanWellFormed | subprojects/groovy-json/src/main/java/groovy/json/internal/JsonOutputConfiguration.java:141-143 | every kept name from comma-free pieces is non-empty, comma-free and has no surrounding trim-spaces |
| PropertyNames.CleanFromPieces | subprojects/groovy-json/src/main/java/groovy/json/internal/JsonOutputConfiguration.java:140-145 | every kept name is the trimmed form of some piece |
| PropertyNames.TokensOfEmpty | subprojects/groovy-json/src/main/java/groovy/json/internal/JsonOutputConfiguration.java:134 | the empty string lists no names |
| PropertyNames.TokensNoComma | subprojects/groovy-json/src/main/java/groovy/json/internal/JsonOutputConfiguration.java:136-145 | a comma-free string lists its trimmed self, or nothing when that is empty |
| PropertyNames.TokensAtComma | subprojects/groovy-json/src/main/java/groovy/json/internal/JsonOutputConfiguration.java:136-145 | the names before a comma come first, then those after it |
| PropertyNames.TokensWellFormed | subprojects/groovy-json/src/main/java/groovy/json/internal/JsonOutputConfiguration.java:136-145 | every listed name is non-empty, comma-free and has no leading or trailing trim-space |
| PropertyNames.TokensOfPaddedName | subprojects/groovy-json/src/main/java/groovy/json/internal/JsonOutputConfiguration.java:136-145 | a trimmed name padded with trim-spaces lists exactly that name |
| PropertyNames.TokensOfPaddedJoin | subprojects/groovy-json/src/main/java/groovy/json/internal/JsonOutputConfiguration.java:136-147 | trimmed, comma-free names joined by a comma with trim-spaces around it, and with leading trim-spaces, are listed back exactly |
| PropertyNames.TokensOfJoin | subprojects/groovy-json/src/main/java/groovy/json/internal/JsonOutputConfiguration.java:136-147 | round trip: such names joined with ",", ", " or " , " are listed back exactly, in order |
| OutputConfiguration.Binding | subprojects/groovy-json/src/main/java/groovy/json/internal/JsonOutputConfiguration.java:104-124 | an entry stores something exactly when its key is a String or Class and its value is a Collection or a String that lists a name; a String key is used verbatim, a Class key by its simple name; a String value stores exactly its tokens (`Tokens`), each non-empty, comma-free and trimmed; a Collection stores its elements as they are |
| OutputConfiguration.Properties.IsEmpty | subprojects/groovy-json/src/main/java/groovy/json/internal/JsonOutputConfiguration.java:51-53 | an empty object matches no property of any object; a non-empty one holds some global name or some class |
| OutputConfiguration.Properties.HasPropertyName | subprojects/groovy-json/src/main/java/groovy/json/internal/JsonOutputConfiguration.java:58-66 | a null name never matches; a global name always matches, even for a null object; a null object matches only global names; otherwise the name matches exactly when the object's simple class name is a key whose list holds it |
| OutputConfiguration.Properties.constructor | subprojects/groovy-json/src/main/java/groovy/json/internal/JsonOutputConfiguration.java:39-46 | a new object holds exactly what `GlobalNames` and `ScopedNames` give for its configuration and defaults; every default is global |
| OutputConfiguration.Properties.Init | subprojects/groovy-json/src/main/java/groovy/json/internal/JsonOutputConfiguration.java:84-128 | the global set gains the defaults and, for a String, its tokens; the class map changes only for a Map, by putting its entries in order |
| OutputConfiguration.Properties.InitFromMap | subprojects/groovy-json/src/main/java/groovy/json/internal/JsonOutputConfiguration.java:100-127 | the loop over the entries leaves the global set alone and leaves the class map equal to `ApplyEntries` of the entries |
| OutputConfiguration.Properties.ToUnmodifiableList | subprojects/groovy-json/src/main/java/groovy/json/internal/JsonOutputConfiguration.java:133-148 | null gives the empty list; a string gives `Tokens` of it; every returned name is non-empty, comma-free and trimmed |
| OutputConfiguration.JsonOutputConfiguration.constructor | subprojects/groovy-json/src/main/java/groovy/json/internal/JsonOutputConfiguration.java:186-192 | "excludes" is built from the map's "excludes" entry with `class`, `metaClass` and `declaringClass` as defaults; "includes" from its "includes" entry with no defaults; a missing entry reads as null |
| OutputConfiguration.JsonOutputConfiguration.NewConfiguration | subprojects/groovy-json/src/main/java/groovy/json/internal/JsonOutputConfiguration.java:176-180 | a null map fails with `IllegalArgumentException("Argument 'configuration' must not be null!")`; any other map gives a configuration built as the constructor builds it |
| OutputConfiguration.JsonOutputConfiguration.NewDefaultConfiguration | subprojects/groovy-json/src/main/java/groovy/json/internal/JsonOutputConfiguration.java:169-171 | from the empty map: the exclusions are built from null with the three reflective names as defaults, and the inclusions from null with none; so the exclusions are not empty and match, for every object, exactly the three reflective names; the inclusions are empty and match nothing |
| ConfigurationFacts.UnboundNameKept | subprojects/groovy-json/src/main/java/groovy/json/internal/JsonOutputConfiguration.java:103-126 | a class name that no entry stores under keeps its previous presence and list |
| ConfigurationFacts.LastBindingWins | subprojects/groovy-json/src/main/java/groovy/json/internal/JsonOutputConfiguration.java:103-126 | the last entry that stores under a class name decides its list; later entries overwrite earlier ones |
| ConfigurationFacts.LastBinderExists | subprojects/groovy-json/src/main/java/groovy/json/internal/JsonOutputConfiguration.java:103-126 | when some entry stores under a class name, a last such entry exists |
| ConfigurationFacts.ApplyEntriesAppend | subprojects/groovy-json/src/main/java/groovy/json/internal/JsonOutputConfiguration.java:103-126 | putting two runs of entries is putting the first run, then the second |
| ConfigurationFacts.IgnoredEntryChangesNothing | subprojects/groovy-json/src/main/java/groovy/json/internal/JsonOutputConfiguration.java:107-125 | an entry with a key that is neither String nor Class, with a value that is neither String nor Collection, or with a String listing no name, changes nothing wherever it stands |
| ConfigurationFacts.NothingStored | subprojects/groovy-json/src/main/java/groovy/json/internal/JsonOutputConfiguration.java:103-126 | a Map leaves the class map empty exactly when every one of its entries is ignored |
| ConfigurationFacts.JoinedStringAgreesWithList | subprojects/groovy-json/src/main/java/groovy/json/internal/JsonOutputConfiguration.java:107-124 | a String value joining names with a comma stores what a Collection of those names stores, except for no names: the empty String stores nothing, the empty Collection is stored |
| ConfigurationFacts.StringConfigQuery | subprojects/groovy-json/src/main/java/groovy/json/internal/JsonOutputConfiguration.java:86-97 | under a String configuration the class map stays empty and a name matches for any object exactly when it is a default or one of the String's tokens |
| ConfigurationFacts.OtherConfigQuery | subprojects/groovy-json/src/main/java/groovy/json/internal/JsonOutputConfiguration.java:86-100 | under null or an object that is neither String nor Map, only the defaults are stored and only they match |
| ConfigurationFacts.MapConfigQuery | subprojects/groovy-json/src/main/java/groovy/json/internal/JsonOutputConfiguration.java:58-66 | under a Map, a name matches for an object exactly when it is a default or is in the list of the last entry stored under the object's simple class name |
| ConfigurationFacts.EmptyCollectionEntry | subprojects/groovy-json/src/main/java/groovy/json/internal/JsonOutputConfiguration.java:119-124 | an empty Collection entry is stored: the object is not empty, yet that class matches nothing beyond the defaults |
| ConfigurationFacts.BuiltIsEmpty | subprojects/groovy-json/src/main/java/groovy/json/internal/JsonOutputConfiguration.java:51-53 | a built object is empty exactly when there are no defaults, a String lists no name, and a Map has only ignored entries |
| ConfigurationExamples.TokensOfTwoNames | subprojects/groovy-json/src/main/java/groovy/json/internal/JsonOutputConfiguration.java:133-148 | "a, b" lists "a" then "b" |
| ConfigurationExamples.TokensOfThreeNames | subprojects/groovy-json/src/main/java/groovy/json/internal/JsonOutputConfiguration.java:133-148 | "v1, v2, v3" lists "v1", "v2", "v3" in order |
| ConfigurationExamples.GlobalStringExample | subprojects/groovy-json/src/main/java/groovy/json/internal/JsonOutputConfiguration.java:91-97 | excludes "a, b": "a" and "b" match even for a null object, "c" does not |
| ConfigurationExamples.ClassStringStored | subprojects/groovy-json/src/main/java/groovy/json/internal/JsonOutputConfiguration.java:107-116 | excludes with a Map entry Foo: "v1, v2, v3" stores the three names under "Foo", only the default exclusions globally, and nothing under "Bar" |
| ConfigurationExamples.ClassStringExample | subprojects/groovy-json/src/main/java/groovy/json/internal/JsonOutputConfiguration.java:58-66 | with that exclusion, "v1" is excluded for a Foo, "v4" is not, and "v1" is not excluded for a Bar |
| ConfigurationExamples.EmptyListExample | subprojects/groovy-json/src/main/java/groovy/json/internal/JsonOutputConfiguration.java:119-124 | excludes Foo: []: the exclusions are not empty; a Foo still matches "class" but not "v1" |

Members without a contract of their own are covered by the rows above:

- `MapClassToStringKey` (lines 153-155) is the `JavaClass` field read. The
  `Binding` and `HasPropertyName` rows show its use.
- `GetExcludes` and `GetIncludes` (lines 197-206) return the two `const`
  fields.

## Left out

- The regular-expression engine behind `String.split` (line 136). The model
  splits on ',' and trims. Java's removal of trailing empty strings, and the
  check at line 137 that the split array is empty, are covered by the step
  that drops empty names.
- `Class.getSimpleName()` and `obj.getClass()` (lines 65, 153-154). A class
  is its simple name, an opaque string. Anonymous and array classes are not
  modelled.
- Hashing in `HashSet`/`HashMap`, and the unspecified iteration order of the
  configuration map. Entries come in sequence order. Which duplicate key wins
  under a real hash order is not captured; in the model, the last one wins.
- `Collections.unmodifiableList` and `Collections.emptyList` wrappers, and the
  promise that the configuration map is left unmodified. Dafny values are
  immutable.
- The unchecked cast at line 121: the model assumes collection elements are
  Strings, and takes a Collection to be a `seq<string>`.
- A null varargs array and null elements in the defaults (line 86). Defaults
  are a `seq<string>`.
- OutputConfiguration.JsonOutputConfiguration.constructor: its argument is a
  non-null Dafny map, so the null check at line 187 is modelled only in
  `NewConfiguration`, which takes an `Option`.
- Characters: Java strings are UTF-16 code units, Dafny `char` is a Unicode
  scalar value. Only the comparison with U+0020 in `trim` matters here.
- Java's `private` on the two fields and on `init` (lines 39, 42, 84) is
  not expressed: in the model they are public and `Init` can be called
  again, so `BuiltFrom` is promised only right after construction.
- The `JsonOutput` serializer that consumes this configuration is not part of
  this model.
