/**
 * A channel module as returned by a Jolokia read (jmxresult.Module): thirteen
 * string properties, filled in from the JSON attribute map of one MBean by
 * calling the setter named after each attribute, plus the module name and
 * channel taken from the MBean's object-name key.
 */
module JmxResult {
  import opened Wrappers
  import opened JavaText

  /** The thirteen properties of a module, one per field and setter pair. */
  datatype Field =
    | SendCount | TimeSinceLastSend | MeanSendRate | MeanSendDuration
    | SendErrorCount | StandardDeviationSendDuration | MaxSendDuration
    | MeanErrorRatio | MeanErrorRate | MinSendDuration | Request
    | ModuleName | ModuleChannel

  const AllFields: set<Field> :=
    {SendCount, TimeSinceLastSend, MeanSendRate, MeanSendDuration,
     SendErrorCount, StandardDeviationSendDuration, MaxSendDuration,
     MeanErrorRatio, MeanErrorRate, MinSendDuration, Request,
     ModuleName, ModuleChannel}

  /** The property name as it appears in the accessor names (setXxx/getXxx). */
  function PropertyName(f: Field): string
  {
    match f
    case SendCount => "SendCount"
    case TimeSinceLastSend => "TimeSinceLastSend"
    case MeanSendRate => "MeanSendRate"
    case MeanSendDuration => "MeanSendDuration"
    case SendErrorCount => "SendErrorCount"
    case StandardDeviationSendDuration => "StandardDeviationSendDuration"
    case MaxSendDuration => "MaxSendDuration"
    case MeanErrorRatio => "MeanErrorRatio"
    case MeanErrorRate => "MeanErrorRate"
    case MinSendDuration => "MinSendDuration"
    case Request => "Request"
    case ModuleName => "ModuleName"
    case ModuleChannel => "ModuleChannel"
  }

  /** The fields in the order the class declares them. */
  const Declared: seq<Field> :=
    [SendCount, TimeSinceLastSend, MeanSendRate, MeanSendDuration,
     SendErrorCount, StandardDeviationSendDuration, MaxSendDuration,
     MeanErrorRatio, MeanErrorRate, MinSendDuration, Request,
     ModuleName, ModuleChannel]

  /** The first field of fs whose property name is p. */
  function FindField(p: string, fs: seq<Field>): (r: Option<Field>)
    ensures r.Some? ==> r.value in fs && PropertyName(r.value) == p
  {
    if fs == [] then None
    else if PropertyName(fs[0]) == p then Some(fs[0])
    else FindField(p, fs[1..])
  }

  /** The field whose property name is p, if any. */
  function FieldNamed(p: string): Option<Field>
  {
    FindField(p, Declared)
  }

  /** No two declared fields share a property name. */
  lemma PropertyNamesDistinct()
    ensures forall j, k :: 0 <= j < k < |Declared| ==> PropertyName(Declared[j]) != PropertyName(Declared[k])
  {
  }

  /** Every field is declared. */
  lemma DeclaredComplete(f: Field)
    ensures f in Declared
  {
  }

  /** The search stops at the only field named p. */
  lemma {:induction false} FindFieldUnique(p: string, fs: seq<Field>, f: Field)
    requires f in fs && PropertyName(f) == p
    requires forall j, k :: 0 <= j < k < |fs| ==> PropertyName(fs[j]) != PropertyName(fs[k])
    ensures FindField(p, fs) == Some(f)
  {
    if fs[0] != f {
      assert f in fs[1..];
      FindFieldUnique(p, fs[1..], f);
    }
  }

  /** Each field is found under its own property name. */
  lemma FieldNamedComplete(f: Field)
    ensures FieldNamed(PropertyName(f)) == Some(f)
  {
    PropertyNamesDistinct();
    DeclaredComplete(f);
    FindFieldUnique(PropertyName(f), Declared, f);
  }

  /** The field found under p is the one whose property name p is. */
  lemma FieldNamedIsPropertyName(p: string, f: Field)
    ensures FieldNamed(p) == Some(f) <==> p == PropertyName(f)
  {
    FieldNamedComplete(f);
  }

  /** getClass().getMethod(name, String.class) restricted to what a Module
      offers: the public one-string-argument methods are exactly the setters,
      each named "set" followed by its property name. */
  function SetterNamed(name: string): Option<Field>
  {
    if |name| >= 3 && name[..3] == "set" then FieldNamed(name[3..]) else None
  }

  /** The setter an attribute key selects: lookup goes through "set" + key. */
  function SetterOfKey(key: string): Option<Field>
  {
    SetterNamed("set" + key)
  }

  /** A key selects the field whose property name it is, and no other. */
  lemma SetterOfKeyIsPropertyName(key: string, f: Field)
    ensures SetterOfKey(key) == Some(f) <==> key == PropertyName(f)
  {
    var name := "set" + key;
    assert name[..3] == "set" && name[3..] == key;
    FieldNamedIsPropertyName(key, f);
  }

  /** A module's state: its non-null properties and their values. */
  type Values = map<Field, string>

  /** One JSON attribute: its name, and its value's toString (None for a
      JSON null, whose toString raises). */
  type Attribute = (string, Option<string>)

  /** Why building a module failed. setupModule rethrows every failure of
      its loop; an index past the end of a parsed key raises as well. */
  datatype JmxError =
    | NoSuchSetter(key: string)
    | NullValue(key: string)
    | MissingField(offset: nat)
    | MissingValue(offset: nat)

  /** A setter lookup that, like SetterOfKey, finds for a key exactly the
      field whose property name it is. */
  ghost predicate SelectsByName(setter: string -> Option<Field>) {
    (forall f :: setter(PropertyName(f)) == Some(f))
    && (forall key :: setter(key).Some? ==> PropertyName(setter(key).value) == key)
  }

  /** The reflective lookup selects by name. */
  lemma SetterOfKeySelectsByName()
    ensures SelectsByName(SetterOfKey)
  {
    forall f ensures SetterOfKey(PropertyName(f)) == Some(f) {
      SetterOfKeyIsPropertyName(PropertyName(f), f);
    }
    forall key | SetterOfKey(key).Some? ensures PropertyName(SetterOfKey(key).value) == key {
      SetterOfKeyIsPropertyName(key, SetterOfKey(key).value);
    }
  }

  /** The properties after setupModule has processed attrs in order, finding
      each key's setter with `setter` (SetterOfKey for a Module): the first
      attribute whose key names no setter, or whose value is null, aborts the
      whole call; a later attribute of the same key wins. */
  function Populate(setter: string -> Option<Field>, attrs: seq<Attribute>): Result<Values, JmxError>
    decreases |attrs|
  {
    if attrs == [] then Success(map[])
    else
      var prior := Populate(setter, attrs[..|attrs| - 1]);
      var (key, value) := attrs[|attrs| - 1];
      if prior.Failure? then prior
      else if setter(key).None? then Failure(NoSuchSetter(key))
      else if value.None? then Failure(NullValue(key))
      else Success(prior.value[setter(key).value := value.value])
  }

  /** An attribute setupModule accepts: its key names a setter and its value is not null. */
  predicate Accepted(setter: string -> Option<Field>, a: Attribute) {
    setter(a.0).Some? && a.1.Some?
  }

  /** The keys of a LinkedHashMap: no two entries share one. */
  predicate DistinctKeys(attrs: seq<Attribute>) {
    forall i, j :: 0 <= i < j < |attrs| ==> attrs[i].0 != attrs[j].0
  }

  /** setupModule succeeds exactly when every attribute is accepted; when one
      is not, the error names the first attribute that is not, for the first
      reason in the order the loop checks them. */
  lemma {:induction false} PopulateFailsAtFirstRejected(setter: string -> Option<Field>, attrs: seq<Attribute>)
    ensures Populate(setter, attrs).Success? <==> forall i :: 0 <= i < |attrs| ==> Accepted(setter, attrs[i])
    ensures Populate(setter, attrs).Failure? ==>
      exists i :: 0 <= i < |attrs| && !Accepted(setter, attrs[i])
        && (forall j :: 0 <= j < i ==> Accepted(setter, attrs[j]))
        && Populate(setter, attrs).error ==
           (if setter(attrs[i].0).None? then NoSuchSetter(attrs[i].0) else NullValue(attrs[i].0))
    decreases |attrs|
  {
    if attrs != [] {
      var n := |attrs| - 1;
      var init := attrs[..n];
      PopulateFailsAtFirstRejected(setter, init);
      assert forall j :: 0 <= j < n ==> attrs[j] == init[j];
      if Populate(setter, init).Failure? {
        var i :| 0 <= i < |init| && !Accepted(setter, init[i])
          && (forall j :: 0 <= j < i ==> Accepted(setter, init[j]))
          && Populate(setter, init).error ==
             (if setter(init[i].0).None? then NoSuchSetter(init[i].0) else NullValue(init[i].0));
        assert !Accepted(setter, attrs[i]);
      }
    }
  }

  /** The value of the last attribute keyed `key`, or None when no attribute
      has that key; for distinct keys, LinkedHashMap.get. */
  function ValueOfKey(attrs: seq<Attribute>, key: string): Option<Option<string>>
    decreases |attrs|
  {
    if attrs == [] then None
    else if attrs[|attrs| - 1].0 == key then Some(attrs[|attrs| - 1].1)
    else ValueOfKey(attrs[..|attrs| - 1], key)
  }

  /** With distinct keys, the value under a key is that of the one attribute
      carrying it, and there is none for a key no attribute carries. */
  lemma {:induction false} ValueOfDistinctKey(attrs: seq<Attribute>, key: string)
    requires DistinctKeys(attrs)
    ensures ValueOfKey(attrs, key).None? <==> forall i :: 0 <= i < |attrs| ==> attrs[i].0 != key
    ensures forall i :: 0 <= i < |attrs| && attrs[i].0 == key ==> ValueOfKey(attrs, key) == Some(attrs[i].1)
    decreases |attrs|
  {
    if attrs != [] {
      var n := |attrs| - 1;
      var init := attrs[..n];
      assert forall j :: 0 <= j < n ==> attrs[j] == init[j];
      ValueOfDistinctKey(init, key);
    }
  }

  /** After a successful setupModule, a field holds a value exactly when some
      attribute is keyed by its property name, and it holds the value of the
      last such attribute; fields no attribute names stay null. */
  lemma {:induction false} PopulateStoresLastValue(setter: string -> Option<Field>, attrs: seq<Attribute>, f: Field)
    requires SelectsByName(setter) && Populate(setter, attrs).Success?
    ensures f in Populate(setter, attrs).value <==> ValueOfKey(attrs, PropertyName(f)).Some?
    ensures f in Populate(setter, attrs).value ==>
      ValueOfKey(attrs, PropertyName(f)) == Some(Some(Populate(setter, attrs).value[f]))
    decreases |attrs|
  {
    if attrs != [] {
      var n := |attrs| - 1;
      var init := attrs[..n];
      assert Populate(setter, init).Success?;
      PopulateStoresLastValue(setter, init, f);
      var key := attrs[n].0;
      assert setter(key).value == f <==> key == PropertyName(f);
    }
  }

  /** Over the distinct keys of a map: a field holds a value exactly when an
      attribute is keyed by its property name, and then holds that value. */
  lemma PopulateSetsNamedFields(attrs: seq<Attribute>, f: Field)
    requires DistinctKeys(attrs) && Populate(SetterOfKey, attrs).Success?
    ensures f in Populate(SetterOfKey, attrs).value <==> exists i :: 0 <= i < |attrs| && attrs[i].0 == PropertyName(f)
    ensures forall i :: 0 <= i < |attrs| && attrs[i].0 == PropertyName(f) ==>
      f in Populate(SetterOfKey, attrs).value && attrs[i].1 == Some(Populate(SetterOfKey, attrs).value[f])
  {
    SetterOfKeySelectsByName();
    PopulateStoresLastValue(SetterOfKey, attrs, f);
    ValueOfDistinctKey(attrs, PropertyName(f));
  }

  /** The module name and channel read from an object-name key. */
  datatype ModuleKey = ModuleKey(name: string, channel: string)

  const ModuleNameOffset: nat := 1
  const ModuleChannelOffset: nat := 2

  /** The key parsing of generateModuleFromJackson: split the object name on
      commas, tokenize the field at each offset on '=' and take token 1. An
      index past the end of either array raises. */
  function ParseModuleKey(key: string): (r: Result<ModuleKey, JmxError>)
    ensures r.Success? ==>
      r.value.name != "" && IsTrimmed(r.value.name) && '=' !in r.value.name
      && r.value.channel != "" && IsTrimmed(r.value.channel) && '=' !in r.value.channel
  {
    var components := CommaDelimitedList(key);
    if |components| <= ModuleNameOffset then Failure(MissingField(ModuleNameOffset))
    else
      var nameTokens := Tokenize(components[ModuleNameOffset], '=');
      if |nameTokens| <= 1 then Failure(MissingValue(ModuleNameOffset))
      else if |components| <= ModuleChannelOffset then Failure(MissingField(ModuleChannelOffset))
      else
        var channelTokens := Tokenize(components[ModuleChannelOffset], '=');
        if |channelTokens| <= 1 then Failure(MissingValue(ModuleChannelOffset))
        else
          TokenizeTokens(components[ModuleNameOffset], '=');
          TokenizeTokens(components[ModuleChannelOffset], '=');
          Success(ModuleKey(nameTokens[1], channelTokens[1]))
  }

  /** A non-empty trimmed word free of ',' and '=': a key or value of an object name. */
  predicate IsWord(s: string) {
    s != "" && IsTrimmed(s) && ',' !in s && '=' !in s
  }

  /** The fields of a key joined by commas. */
  function Fields(parts: seq<string>): string
  {
    Join(parts, ',')
  }

  /** A canonical object name "domain:k0=v0,k1=v1,k2=v2..." whose second and
      third properties are "k1=name" and "k2=channel" parses to that name and
      channel; any further properties are ignored. */
  lemma ParseModuleKeyOfObjectName(first: string, k1: string, name: string, k2: string, channel: string, rest: seq<string>)
    requires ',' !in first && IsWord(k1) && IsWord(name) && IsWord(k2) && IsWord(channel)
    requires forall i :: 0 <= i < |rest| ==> ',' !in rest[i]
    ensures ParseModuleKey(Fields([first, k1 + "=" + name, k2 + "=" + channel] + rest))
         == Success(ModuleKey(name, channel))
  {
    var parts := [first, k1 + "=" + name, k2 + "=" + channel] + rest;
    var key := Fields(parts);
    forall i | 0 <= i < |parts| ensures ',' !in parts[i] {
      if i >= 3 { assert parts[i] == rest[i - 3]; }
    }
    SplitJoin(parts, ',');
    assert key != "" by { JoinHasDelimiter(parts, ','); }
    assert CommaDelimitedList(key) == parts;
    TokenizePair(k1, name, '=');
    TokenizePair(k2, channel, '=');
  }

  /** A key with fewer than two commas has fewer than three fields and fails. */
  lemma ParseModuleKeyTooFewFields(key: string)
    requires multiset(key)[','] < 2
    ensures ParseModuleKey(key).Failure?
    ensures ParseModuleKey(key).error.MissingField? || ParseModuleKey(key).error.MissingValue?
  {
    SplitOnCount(key, ',');
  }

  /** A field that names a key but gives no value: the bare key, or the key
      followed by '=' and nothing else. */
  function Valueless(k: string, withEquals: bool): string
  {
    if withEquals then k + "=" else k
  }

  /** A valueless field holds no comma and tokenizes to its key alone. */
  lemma ValuelessHasOneToken(k: string, withEquals: bool)
    requires IsWord(k)
    ensures ',' !in Valueless(k, withEquals) && Tokenize(Valueless(k, withEquals), '=') == [k]
  {
    if withEquals {
      TokenizeKeyOnly(k, '=');
    } else {
      TokenizeWord(k, '=');
    }
  }

  /** Comma-free fields joined by commas split back into those fields. */
  lemma FieldsSplitBack(head: seq<string>, rest: seq<string>)
    requires |head| >= 2
    requires forall i :: 0 <= i < |head| ==> ',' !in head[i]
    requires forall i :: 0 <= i < |rest| ==> ',' !in rest[i]
    ensures CommaDelimitedList(Fields(head + rest)) == head + rest
  {
    var parts := head + rest;
    forall i | 0 <= i < |parts| ensures ',' !in parts[i] {
      if i >= |head| { assert parts[i] == rest[i - |head|]; }
    }
    SplitJoin(parts, ',');
    assert Fields(parts) != "" by { JoinHasDelimiter(parts, ','); }
  }

  /** Comma-free fields whose name field is a single token (a key without a
      value) fail at offset 1, however many fields follow. */
  lemma ParseModuleKeyNameUnset(head: seq<string>, rest: seq<string>, k1: string)
    requires |head| == 2 && Tokenize(head[ModuleNameOffset], '=') == [k1]
    requires forall i :: 0 <= i < |head| ==> ',' !in head[i]
    requires forall i :: 0 <= i < |rest| ==> ',' !in rest[i]
    ensures ParseModuleKey(Fields(head + rest)) == Failure(MissingValue(ModuleNameOffset))
  {
    FieldsSplitBack(head, rest);
    assert (head + rest)[ModuleNameOffset] == head[ModuleNameOffset];
  }

  /** A name field with no value after its key fails at offset 1, even when
      the key has enough fields. */
  lemma ParseModuleKeyNoNameValue(first: string, k1: string, withEquals: bool, rest: seq<string>)
    requires ',' !in first && IsWord(k1)
    requires forall i :: 0 <= i < |rest| ==> ',' !in rest[i]
    ensures ParseModuleKey(Fields([first, Valueless(k1, withEquals)] + rest)) == Failure(MissingValue(ModuleNameOffset))
  {
    ValuelessHasOneToken(k1, withEquals);
    CommaFreeTwo(first, Valueless(k1, withEquals));
    ParseModuleKeyNameUnset([first, Valueless(k1, withEquals)], rest, k1);
  }

  /** Comma-free fields whose name field carries a value but whose channel
      field is a single token fail at offset 2. */
  lemma ParseModuleKeyChannelUnset(head: seq<string>, rest: seq<string>, k2: string)
    requires |head| == 3 && |Tokenize(head[ModuleNameOffset], '=')| > 1
    requires Tokenize(head[ModuleChannelOffset], '=') == [k2]
    requires forall i :: 0 <= i < |head| ==> ',' !in head[i]
    requires forall i :: 0 <= i < |rest| ==> ',' !in rest[i]
    ensures ParseModuleKey(Fields(head + rest)) == Failure(MissingValue(ModuleChannelOffset))
  {
    FieldsSplitBack(head, rest);
    assert (head + rest)[ModuleNameOffset] == head[ModuleNameOffset];
    assert (head + rest)[ModuleChannelOffset] == head[ModuleChannelOffset];
  }

  /** A channel field with no value after its key fails at offset 2, after
      a well-formed name field. */
  lemma ParseModuleKeyNoChannelValue(first: string, k1: string, name: string, k2: string, withEquals: bool, rest: seq<string>)
    requires ',' !in first && IsWord(k1) && IsWord(name) && IsWord(k2)
    requires forall i :: 0 <= i < |rest| ==> ',' !in rest[i]
    ensures ParseModuleKey(Fields([first, k1 + "=" + name, Valueless(k2, withEquals)] + rest))
         == Failure(MissingValue(ModuleChannelOffset))
  {
    ValuelessHasOneToken(k2, withEquals);
    TokenizePair(k1, name, '=');
    assert ',' !in k1 + "=" + name;
    ParseModuleKeyThirdFieldUnset(first, k1 + "=" + name, Valueless(k2, withEquals), k2, rest);
  }

  /** ParseModuleKeyChannelUnset for three given leading fields: a name
      field with a value and a channel field that is a single token. */
  lemma ParseModuleKeyThirdFieldUnset(first: string, nameField: string, field: string, k2: string, rest: seq<string>)
    requires ',' !in first && ',' !in nameField && ',' !in field
    requires |Tokenize(nameField, '=')| > 1 && Tokenize(field, '=') == [k2]
    requires forall i :: 0 <= i < |rest| ==> ',' !in rest[i]
    ensures ParseModuleKey(Fields([first, nameField, field] + rest)) == Failure(MissingValue(ModuleChannelOffset))
  {
    CommaFreeThree(first, nameField, field);
    ParseModuleKeyChannelUnset([first, nameField, field], rest, k2);
  }

  /** Two fields free of commas, listed one by one. */
  lemma CommaFreeTwo(a: string, b: string)
    requires ',' !in a && ',' !in b
    ensures forall i :: 0 <= i < |[a, b]| ==> ',' !in [a, b][i]
  {
  }

  /** Three fields free of commas, listed one by one. */
  lemma CommaFreeThree(a: string, b: string, c: string)
    requires ',' !in a && ',' !in b && ',' !in c
    ensures forall i :: 0 <= i < |[a, b, c]| ==> ',' !in [a, b, c][i]
  {
  }

  /** How generateModuleFromJackson ends: the error of setupModule if it
      raised, else the key's, else the properties with name and channel set. */
  function ModuleFromJackson(key: string, attrs: seq<Attribute>): (r: Result<Values, JmxError>)
    ensures r.Success? ==>
      Populate(SetterOfKey, attrs).Success? && ParseModuleKey(key).Success?
      && ModuleName in r.value && ModuleChannel in r.value
      && r.value[ModuleName] == ParseModuleKey(key).value.name
      && r.value[ModuleChannel] == ParseModuleKey(key).value.channel
      && forall f :: f != ModuleName && f != ModuleChannel ==>
           (f in r.value <==> f in Populate(SetterOfKey, attrs).value)
           && (f in r.value ==> r.value[f] == Populate(SetterOfKey, attrs).value[f])
    ensures Populate(SetterOfKey, attrs).Success? && ParseModuleKey(key).Success? ==> r.Success?
    ensures Populate(SetterOfKey, attrs).Failure? ==> r == Failure(Populate(SetterOfKey, attrs).error)
    ensures Populate(SetterOfKey, attrs).Success? && ParseModuleKey(key).Failure? ==> r == Failure(ParseModuleKey(key).error)
  {
    match Populate(SetterOfKey, attrs)
    case Failure(e) => Failure(e)
    case Success(values) =>
      match ParseModuleKey(key)
      case Failure(e) => Failure(e)
      case Success(k) => Success(values[ModuleName := k.name][ModuleChannel := k.channel])
  }

  /** jmxresult.Module: thirteen nullable string properties. */
  class Module {
    var sendCount: Option<string>
    var timeSinceLastSend: Option<string>
    var meanSendRate: Option<string>
    var meanSendDuration: Option<string>
    var sendErrorCount: Option<string>
    var standardDeviationSendDuration: Option<string>
    var maxSendDuration: Option<string>
    var meanErrorRatio: Option<string>
    var meanErrorRate: Option<string>
    var minSendDuration: Option<string>
    var request: Option<string>
    var moduleName: Option<string>
    var moduleChannel: Option<string>

    /** new Module(): every property null. */
    constructor ()
      ensures forall f :: Get(f).None?
    {
      sendCount, timeSinceLastSend, meanSendRate, meanSendDuration := None, None, None, None;
      sendErrorCount, standardDeviationSendDuration, maxSendDuration := None, None, None;
      meanErrorRatio, meanErrorRate, minSendDuration, request := None, None, None, None;
      moduleName, moduleChannel := None, None;
    }

    /** The getter of f. */
    function Get(f: Field): Option<string>
      reads this
    {
      match f
      case SendCount => sendCount
      case TimeSinceLastSend => timeSinceLastSend
      case MeanSendRate => meanSendRate
      case MeanSendDuration => meanSendDuration
      case SendErrorCount => sendErrorCount
      case StandardDeviationSendDuration => standardDeviationSendDuration
      case MaxSendDuration => maxSendDuration
      case MeanErrorRatio => meanErrorRatio
      case MeanErrorRate => meanErrorRate
      case MinSendDuration => minSendDuration
      case Request => request
      case ModuleName => moduleName
      case ModuleChannel => moduleChannel
    }

    /** The non-null properties. */
    function ValuesOf(): (r: Values)
      reads this
      ensures forall f :: (f in r <==> Get(f).Some?) && (f in r ==> r[f] == Get(f).value)
    {
      map f | f in AllFields && Get(f).Some? :: Get(f).value
    }

    /** The setter of f: afterwards the getter of f returns v, and every
        other getter returns what it returned before. */
    method Set(f: Field, v: Option<string>)
      modifies this
      ensures Get(f) == v
      ensures forall g :: g != f ==> Get(g) == old(Get(g))
    {
      match f
      case SendCount => sendCount := v;
      case TimeSinceLastSend => timeSinceLastSend := v;
      case MeanSendRate => meanSendRate := v;
      case MeanSendDuration => meanSendDuration := v;
      case SendErrorCount => sendErrorCount := v;
      case StandardDeviationSendDuration => standardDeviationSendDuration := v;
      case MaxSendDuration => maxSendDuration := v;
      case MeanErrorRatio => meanErrorRatio := v;
      case MeanErrorRate => meanErrorRate := v;
      case MinSendDuration => minSendDuration := v;
      case Request => request := v;
      case ModuleName => moduleName := v;
      case ModuleChannel => moduleChannel := v;
    }
  }

  /** Setting a value extends the non-null properties by it. */
  lemma ValuesAfterSet(before: Values, after: Values, f: Field, v: string)
    requires forall g :: g != f ==> (g in after <==> g in before) && (g in after ==> after[g] == before[g])
    requires f in after && after[f] == v
    ensures after == before[f := v]
  {
  }

  /** Module.setupModule: a new module, then for each attribute in order the
      setter that `setter` finds for its key applied to the value's string
      form. The class's own reflective lookup is SetterOfKey. */
  method SetupModule(setter: string -> Option<Field>, attrs: seq<Attribute>) returns (r: Result<Module, JmxError>)
    ensures Populate(setter, attrs).Failure? ==> r == Failure(Populate(setter, attrs).error)
    ensures Populate(setter, attrs).Success? ==>
      r.Success? && fresh(r.value) && r.value.ValuesOf() == Populate(setter, attrs).value
  {
    var created := new Module();
    var i := 0;
    assert created.ValuesOf() == map[];
    while i < |attrs|
      invariant 0 <= i <= |attrs|
      invariant Populate(setter, attrs[..i]).Success? && created.ValuesOf() == Populate(setter, attrs[..i]).value
    {
      assert attrs[..i + 1][..i] == attrs[..i];
      var (key, value) := attrs[i];
      var field := setter(key);
      if field.None? {
        r := Failure(NoSuchSetter(key));
        PopulateFailureSticks(setter, attrs, i + 1);
        return;
      }
      if value.None? {
        r := Failure(NullValue(key));
        PopulateFailureSticks(setter, attrs, i + 1);
        return;
      }
      ghost var before := created.ValuesOf();
      created.Set(field.value, value);
      ValuesAfterSet(before, created.ValuesOf(), field.value, value.value);
      i := i + 1;
    }
    assert attrs[..|attrs|] == attrs;
    r := Success(created);
  }

  /** Once a prefix fails, every longer prefix fails with the same error. */
  lemma {:induction false} PopulateFailureSticks(setter: string -> Option<Field>, attrs: seq<Attribute>, k: nat)
    requires k <= |attrs| && Populate(setter, attrs[..k]).Failure?
    ensures Populate(setter, attrs) == Populate(setter, attrs[..k])
    decreases |attrs| - k
  {
    if k < |attrs| {
      assert attrs[..k + 1][..k] == attrs[..k];
      PopulateFailureSticks(setter, attrs, k + 1);
    } else {
      assert attrs[..k] == attrs;
    }
  }

  /** Module.generateModuleFromJackson(key, value). */
  method GenerateModuleFromJackson(key: string, attrs: seq<Attribute>) returns (r: Result<Module, JmxError>)
    ensures ModuleFromJackson(key, attrs).Failure? ==> r == Failure(ModuleFromJackson(key, attrs).error)
    ensures ModuleFromJackson(key, attrs).Success? ==>
      r.Success? && fresh(r.value) && r.value.ValuesOf() == ModuleFromJackson(key, attrs).value
  {
    var setUp := SetupModule(SetterOfKey, attrs);
    if setUp.Failure? {
      r := Failure(setUp.error);
      return;
    }
    var created := setUp.value;
    var parsed := ParseModuleKey(key);
    if parsed.Failure? {
      r := Failure(parsed.error);
      return;
    }
    ghost var before := created.ValuesOf();
    created.Set(ModuleName, Some(parsed.value.name));
    ghost var named := created.ValuesOf();
    ValuesAfterSet(before, named, ModuleName, parsed.value.name);
    created.Set(ModuleChannel, Some(parsed.value.channel));
    ValuesAfterSet(named, created.ValuesOf(), ModuleChannel, parsed.value.channel);
    r := Success(created);
  }
}
