/** The sample input generator and the response checker of local tools
    (aim_node/management/tools.py, `_minimal_value` and `_matches_schema`).  A schema is the dict
    `json.loads` makes of a tool's JSON schema. */
module SchemaSample {
  import opened Results
  import opened Json

  function GetOr(d: Dict, k: string, default: Json): Json {
    match Get(d, k)
    case None => default
    case Some(v) => v
  }

  function Properties(schema: Dict): Json {
    GetOr(schema, "properties", JObj([]))
  }

  function Required(schema: Dict): Json {
    GetOr(schema, "required", JArr([]))
  }

  predicate HasType(schema: Dict, name: string) {
    Get(schema, "type") == Some(JStr(name))
  }

  predicate HasEnum(schema: Dict) {
    match Get(schema, "enum")
    case Some(JArr(items)) => items != []
    case _ => false
  }

  predicate AllStrings(items: seq<Json>) {
    forall i :: 0 <= i < |items| ==> items[i].JStr?
  }

  /** What `for key in required` runs over: the items of a list, the characters of a string, the
      keys of a dict; a number or None cannot be iterated. */
  function RequiredKeys(required: Json): Result<seq<string>> {
    match required
    case JArr(items) =>
      if AllStrings(items) then Ok(seq(|items|, i requires 0 <= i < |items| && AllStrings(items) => items[i].s))
      else Err(TypeError("required name is not a string"))
    case JStr(s) => Ok(seq(|s|, i requires 0 <= i < |s| => [s[i]]))
    case JObj(fields) => Ok(seq(|fields|, i requires 0 <= i < |fields| => fields[i].key))
    case _ => Err(TypeError("object is not iterable"))
  }

  /** `properties.get(key)` where properties is a dict. */
  function PropertyOf(schema: Dict, k: string): Option<Json> {
    match Properties(schema)
    case JObj(props) => Get(props, k)
    case _ => None
  }

  lemma PropertySmaller(schema: Dict, k: string)
    requires PropertyOf(schema, k).Some?
    ensures PropertyOf(schema, k).value < JObj(schema)
  {
    var props := Properties(schema).fields;
    assert Get(schema, "properties").Some?;
    assert Field(k, PropertyOf(schema, k).value) in props;
    assert Field("properties", JObj(props)) in schema;
  }

  // ---------------------------------------------------------------- the generator

  /** What `_minimal_value({})` returns. */
  const EMPTY_SAMPLE := JStr("")

  /** `_minimal_value(schema)` */
  function MinimalValue(schema: Dict): Result<Json>
    decreases JObj(schema), 1, 0
  {
    if HasKey(schema, "default") then Ok(Get(schema, "default").value)
    else if HasEnum(schema) then Ok(Get(schema, "enum").value.items[0])
    else if HasType(schema, "object") then
      if !Properties(schema).JObj? then Ok(JObj([]))
      else
        match RequiredKeys(Required(schema))
        case Err(e) => Err(e)
        case Ok(keys) =>
          match Fill(schema, keys)
          case Err(e) => Err(e)
          case Ok(d) => Ok(JObj(d))
    else if HasType(schema, "array") then Ok(JArr([]))
    else if HasType(schema, "integer") || HasType(schema, "number") then Ok(JInt(0))
    else if HasType(schema, "boolean") then Ok(JBool(false))
    else Ok(EMPTY_SAMPLE)
  }

  /** The result dict after the loop over some required keys. */
  function Fill(schema: Dict, keys: seq<string>): Result<Dict>
    decreases JObj(schema), 0, |keys|
  {
    if keys == [] then Ok([])
    else
      var k := keys[|keys| - 1];
      match Fill(schema, keys[..|keys| - 1])
      case Err(e) => Err(e)
      case Ok(d) =>
        match PropertyOf(schema, k)
        case None => Ok(Insert(d, k, EMPTY_SAMPLE))
        case Some(JObj(sub)) =>
          PropertySmaller(schema, k);
          (match MinimalValue(sub)
           case Err(e) => Err(e)
           case Ok(v) => Ok(Insert(d, k, v)))
        case Some(_) => Ok(d)
  }

  /** `_minimal_value` as the loop it is. */
  method Sample(schema: Dict) returns (r: Result<Json>)
    ensures r == MinimalValue(schema)
    decreases JObj(schema)
  {
    if HasKey(schema, "default") {
      return Ok(Get(schema, "default").value);
    }
    if HasEnum(schema) {
      return Ok(Get(schema, "enum").value.items[0]);
    }
    if HasType(schema, "object") {
      if !Properties(schema).JObj? {
        return Ok(JObj([]));
      }
      var keys := RequiredKeys(Required(schema));
      if keys.Err? {
        return Err(keys.fault);
      }
      var result: Dict := [];
      var i := 0;
      while i < |keys.value|
        invariant i <= |keys.value|
        invariant Fill(schema, keys.value[..i]) == Ok(result)
      {
        var k := keys.value[i];
        assert keys.value[..i + 1][..i] == keys.value[..i];
        var property := PropertyOf(schema, k);
        if property.None? {
          result := Insert(result, k, EMPTY_SAMPLE);
        } else if property.value.JObj? {
          PropertySmaller(schema, k);
          var v := Sample(property.value.fields);
          if v.Err? {
            FillFails(schema, keys.value, i);
            return Err(v.fault);
          }
          result := Insert(result, k, v.value);
        }
        i := i + 1;
      }
      assert keys.value[..i] == keys.value;
      return Ok(JObj(result));
    }
    if HasType(schema, "array") {
      return Ok(JArr([]));
    }
    if HasType(schema, "integer") || HasType(schema, "number") {
      return Ok(JInt(0));
    }
    if HasType(schema, "boolean") {
      return Ok(JBool(false));
    }
    return Ok(EMPTY_SAMPLE);
  }

  /** The first exception inside the loop is the one that leaves it. */
  lemma {:induction false} FillFails(schema: Dict, keys: seq<string>, i: nat)
    requires i < |keys| && Fill(schema, keys[..i + 1]).Err?
    ensures Fill(schema, keys) == Fill(schema, keys[..i + 1])
    decreases |keys|
  {
    if i + 1 == |keys| {
      assert keys[..i + 1] == keys;
    } else {
      var front := keys[..|keys| - 1];
      assert front[..i + 1] == keys[..i + 1];
      FillFails(schema, front, i);
    }
  }

  // ---------------------------------------------------------------- the checker

  predicate IsStringKey(v: Json, d: Dict) {
    v.JStr? && HasKey(d, v.s)
  }

  lemma PropertyAtSmaller(schema: Dict, i: nat)
    requires Properties(schema).JObj? && i < |Properties(schema).fields|
    ensures Properties(schema).fields[i].value < JObj(schema)
  {
    var props := Properties(schema).fields;
    assert props[i] in props;
    assert Field("properties", JObj(props)) in schema;
  }

  /** `_matches_schema(value, schema)` */
  predicate Matches(value: Json, schema: Dict)
    decreases JObj(schema)
  {
    if HasType(schema, "object") then
      && value.JObj?
      && (Required(schema).JArr? ==>
            forall i :: 0 <= i < |Required(schema).items| ==> IsStringKey(Required(schema).items[i], value.fields))
      && (Properties(schema).JObj? ==>
            var props := Properties(schema).fields;
            forall i :: 0 <= i < |props| && props[i].value.JObj? && HasKey(value.fields, props[i].key) ==>
              (PropertyAtSmaller(schema, i); Matches(Get(value.fields, props[i].key).value, props[i].value.fields)))
    else if HasType(schema, "array") then value.JArr?
    else if HasType(schema, "string") then value.JStr?
    else if HasType(schema, "boolean") then value.JBool?
    else if HasType(schema, "integer") then value.JInt?
    else if HasType(schema, "number") then value.JInt? || value.JFloat?
    else true
  }

  // ---------------------------------------------------------------- when a sample fits its schema

  /** The condition on a schema, at every depth the generator visits: a default or first enum value
      matches; a listed required property has an object schema or none; without a properties dict
      nothing is required. */
  predicate WellFormed(schema: Dict)
    decreases JObj(schema)
  {
    if HasKey(schema, "default") then Matches(Get(schema, "default").value, schema)
    else if HasEnum(schema) then Matches(Get(schema, "enum").value.items[0], schema)
    else if HasType(schema, "object") then
      if !Properties(schema).JObj? then Required(schema).JArr? ==> Required(schema).items == []
      else
        && RequiredKeys(Required(schema)).Ok?
        && forall i :: 0 <= i < |RequiredKeys(Required(schema)).value| ==>
             WellFormedProperty(schema, RequiredKeys(Required(schema)).value[i])
    else true
  }

  predicate WellFormedProperty(schema: Dict, k: string)
    decreases JObj(schema), 0
  {
    match PropertyOf(schema, k)
    case None => true
    case Some(JObj(sub)) => PropertySmaller(schema, k); WellFormed(sub)
    case Some(_) => !Required(schema).JArr?
  }

  /** The sample a required key gets, if it gets one. */
  function SampleFor(schema: Dict, k: string): Option<Result<Json>> {
    match PropertyOf(schema, k)
    case None => Some(Ok(EMPTY_SAMPLE))
    case Some(JObj(sub)) => Some(MinimalValue(sub))
    case Some(_) => None
  }

  lemma {:induction false} FillOk(schema: Dict, keys: seq<string>)
    ensures Fill(schema, keys).Ok? <==> forall i :: 0 <= i < |keys| ==> SampleFor(schema, keys[i]) == None || SampleFor(schema, keys[i]).value.Ok?
    decreases |keys|
  {
    hide MinimalValue, PropertyOf;
    if keys != [] {
      FillOk(schema, keys[..|keys| - 1]);
      assert forall i :: 0 <= i < |keys| - 1 ==> keys[..|keys| - 1][i] == keys[i];
    }
  }

  lemma {:induction false} FillGet(schema: Dict, keys: seq<string>, k: string)
    requires Fill(schema, keys).Ok?
    ensures Get(Fill(schema, keys).value, k)
         == if k in keys && SampleFor(schema, k).Some? && SampleFor(schema, k).value.Ok?
            then Some(SampleFor(schema, k).value.value) else None
    decreases |keys|
  {
    hide MinimalValue, PropertyOf, Get, Insert, SampleFor;
    if keys == [] {
      EmptyGet(k);
    } else {
      var front, last := keys[..|keys| - 1], keys[|keys| - 1];
      FillStep(schema, keys);
      FillGet(schema, front, k);
      assert keys == front + [last];
      if SampleFor(schema, last).Some? {
        GetInsert(Fill(schema, front).value, last, SampleFor(schema, last).value.value, k);
      }
    }
  }

  lemma FillStep(schema: Dict, keys: seq<string>)
    requires keys != [] && Fill(schema, keys).Ok?
    ensures var front, sample := Fill(schema, keys[..|keys| - 1]), SampleFor(schema, keys[|keys| - 1]);
            && front.Ok? && (sample.Some? ==> sample.value.Ok?)
            && Fill(schema, keys).value
               == if sample.Some? then Insert(front.value, keys[|keys| - 1], sample.value.value) else front.value
  {
    hide MinimalValue, PropertyOf, Insert;
  }

  lemma EmptyGet(k: string)
    ensures Get([], k) == None
  {
  }

  /** What the checker asks of the sample of one required key. */
  predicate SampleFits(schema: Dict, k: string) {
    match PropertyOf(schema, k)
    case None => true
    case Some(JObj(sub)) => MinimalValue(sub).Ok? && Matches(MinimalValue(sub).value, sub)
    case Some(_) => !Required(schema).JArr?
  }

  lemma PropertyIndex(schema: Dict, k: string) returns (j: nat)
    requires Properties(schema).JObj? && PropertyOf(schema, k).Some? && UniqueKeys(Properties(schema).fields)
    ensures j < |Properties(schema).fields| && Properties(schema).fields[j].key == k
    ensures Properties(schema).fields[j].value == PropertyOf(schema, k).value
  {
    var props := Properties(schema).fields;
    assert HasKey(props, k);
    j :| 0 <= j < |props| && props[j].key == k;
    GetAt(props, j);
  }

  lemma PropertiesUnique(schema: Dict)
    requires Valid(JObj(schema)) && Properties(schema).JObj?
    ensures UniqueKeys(Properties(schema).fields)
  {
    if Get(schema, "properties").Some? {
      assert Field("properties", Properties(schema)) in schema;
    }
  }

  /** The required keys a dict has to hold are those that got a sample. */
  lemma RequiredPresent(schema: Dict, keys: seq<string>)
    requires RequiredKeys(Required(schema)) == Ok(keys) && Fill(schema, keys).Ok? && Required(schema).JArr?
    ensures (forall i :: 0 <= i < |Required(schema).items| ==> IsStringKey(Required(schema).items[i], Fill(schema, keys).value))
       <==> (forall i :: 0 <= i < |keys| ==> SampleFor(schema, keys[i]).Some?)
  {
    hide Fill, PropertyOf, Get, MinimalValue;
    var d := Fill(schema, keys).value;
    FillOk(schema, keys);
    forall i | 0 <= i < |keys|
      ensures IsStringKey(Required(schema).items[i], d) <==> SampleFor(schema, keys[i]).Some?
    {
      FillGet(schema, keys, keys[i]);
    }
  }

  /** The checker's loop over the properties asks for a match of every sample that has one. */
  lemma PropertiesPresent(schema: Dict, keys: seq<string>)
    requires Valid(JObj(schema)) && Properties(schema).JObj? && Fill(schema, keys).Ok?
    ensures var d, props := Fill(schema, keys).value, Properties(schema).fields;
            (forall i :: 0 <= i < |props| && props[i].value.JObj? && HasKey(d, props[i].key) ==>
               Matches(Get(d, props[i].key).value, props[i].value.fields))
            <==>
            (forall i :: 0 <= i < |keys| && PropertyOf(schema, keys[i]).Some? && PropertyOf(schema, keys[i]).value.JObj? ==>
               SampleFits(schema, keys[i]))
  {
    hide Fill, MinimalValue, Matches, Valid, Get;
    var d, props := Fill(schema, keys).value, Properties(schema).fields;
    FillOk(schema, keys);
    PropertiesUnique(schema);
    forall i | 0 <= i < |props| && props[i].value.JObj?
      ensures PropertyOf(schema, props[i].key) == Some(props[i].value)
      ensures HasKey(d, props[i].key) ==> props[i].key in keys && Get(d, props[i].key) == Some(MinimalValue(props[i].value.fields).value)
    {
      GetAt(props, i);
      FillGet(schema, keys, props[i].key);
    }
    forall i | 0 <= i < |keys| && PropertyOf(schema, keys[i]).Some? && PropertyOf(schema, keys[i]).value.JObj?
      ensures exists j :: 0 <= j < |props| && props[j] == Field(keys[i], PropertyOf(schema, keys[i]).value) && HasKey(d, props[j].key)
    {
      var j := PropertyIndex(schema, keys[i]);
      FillGet(schema, keys, keys[i]);
    }
  }

  /** The sample of an object schema with a properties dict matches exactly when every required key
      got a sample, where it must, and every sample matches its property's schema. */
  lemma FilledMatches(schema: Dict, keys: seq<string>)
    requires Valid(JObj(schema)) && HasType(schema, "object") && Properties(schema).JObj?
    requires RequiredKeys(Required(schema)) == Ok(keys) && Fill(schema, keys).Ok?
    ensures Matches(JObj(Fill(schema, keys).value), schema)
       <==> forall i :: 0 <= i < |keys| ==> SampleFits(schema, keys[i])
  {
    hide Fill, MinimalValue, Valid, RequiredKeys, PropertyOf;
    FillOk(schema, keys);
    PropertiesPresent(schema, keys);
    if Required(schema).JArr? {
      RequiredPresent(schema, keys);
    }
  }

  lemma SubschemaValid(schema: Dict, k: string)
    requires Valid(JObj(schema)) && PropertyOf(schema, k).Some?
    ensures Valid(PropertyOf(schema, k).value)
  {
    var props := Properties(schema).fields;
    assert Field("properties", JObj(props)) in schema;
    assert Field(k, PropertyOf(schema, k).value) in props;
  }

  /** What is generated and what is accepted for each type but objects; an unknown type accepts anything. */
  lemma LeafTable(schema: Dict, t: string, v: Json)
    requires Get(schema, "type") == Some(JStr(t)) && t != "object"
    ensures Matches(v, schema) <==>
            && (t == "array" ==> v.JArr?) && (t == "string" ==> v.JStr?) && (t == "boolean" ==> v.JBool?)
            && (t == "integer" ==> v.JInt?) && (t == "number" ==> v.JInt? || v.JFloat?)
    ensures !HasKey(schema, "default") && !HasEnum(schema) ==>
            MinimalValue(schema) == Ok(if t == "array" then JArr([]) else if t == "integer" || t == "number" then JInt(0)
                                       else if t == "boolean" then JBool(false) else JStr(""))
  {
    hide Get;
    assert "integer"[0] == 'i' && "boolean"[0] == 'b' && "number"[0] == 'n' && "object"[0] == 'o' && "string"[0] == 's'
        && "array"[0] == 'a';
  }

  /** A generated sample matches its own schema exactly when the schema is well formed. */
  lemma {:induction false} SampleMatchesItsSchema(schema: Dict)
    requires Valid(JObj(schema))
    ensures (MinimalValue(schema).Ok? && Matches(MinimalValue(schema).value, schema)) <==> WellFormed(schema)
    decreases JObj(schema)
  {
    if HasKey(schema, "default") || HasEnum(schema) || !HasType(schema, "object") || !Properties(schema).JObj? {
      PlainSample(schema);
    } else if RequiredKeys(Required(schema)).Ok? {
      var keys := RequiredKeys(Required(schema)).value;
      forall k | PropertyOf(schema, k).Some? && PropertyOf(schema, k).value.JObj?
        ensures SampleFits(schema, k) <==> WellFormedProperty(schema, k)
      {
        SubschemaValid(schema, k);
        PropertySmaller(schema, k);
        SampleMatchesItsSchema(PropertyOf(schema, k).value.fields);
      }
      ObjectSample(schema, keys);
    }
  }

  lemma PlainSample(schema: Dict)
    requires HasKey(schema, "default") || HasEnum(schema) || !HasType(schema, "object") || !Properties(schema).JObj?
    ensures (MinimalValue(schema).Ok? && Matches(MinimalValue(schema).value, schema)) <==> WellFormed(schema)
  {
    hide Get;
    assert "integer"[0] == 'i' && "boolean"[0] == 'b' && "number"[0] == 'n' && "object"[0] == 'o' && "string"[0] == 's';
    var required := Required(schema);
    if required.JArr? && required.items != [] {
      assert !IsStringKey(required.items[0], []);
    }
  }

  lemma ObjectSample(schema: Dict, keys: seq<string>)
    requires Valid(JObj(schema)) && HasType(schema, "object") && Properties(schema).JObj?
    requires !HasKey(schema, "default") && !HasEnum(schema) && RequiredKeys(Required(schema)) == Ok(keys)
    requires forall k :: PropertyOf(schema, k).Some? && PropertyOf(schema, k).value.JObj? ==>
               (SampleFits(schema, k) <==> WellFormedProperty(schema, k))
    ensures (MinimalValue(schema).Ok? && Matches(MinimalValue(schema).value, schema)) <==> WellFormed(schema)
  {
    hide Valid, PropertyOf, Fill, Matches, RequiredKeys, SampleFits, WellFormedProperty, MinimalValue, Get;
    ObjectValue(schema, keys);
    SamplesFitting(schema, keys);
    if Fill(schema, keys).Ok? {
      FilledMatches(schema, keys);
    }
  }

  lemma ObjectValue(schema: Dict, keys: seq<string>)
    requires HasType(schema, "object") && Properties(schema).JObj?
    requires !HasKey(schema, "default") && !HasEnum(schema) && RequiredKeys(Required(schema)) == Ok(keys)
    ensures MinimalValue(schema).Ok? <==> Fill(schema, keys).Ok?
    ensures Fill(schema, keys).Ok? ==> MinimalValue(schema) == Ok(JObj(Fill(schema, keys).value))
  {
    hide Fill, RequiredKeys, Get;
  }

  /** Whether samples fit can differ from well-formedness only for subschemas. */
  lemma SamplesFitting(schema: Dict, keys: seq<string>)
    requires forall k :: PropertyOf(schema, k).Some? && PropertyOf(schema, k).value.JObj? ==>
               (SampleFits(schema, k) <==> WellFormedProperty(schema, k))
    ensures forall i :: 0 <= i < |keys| ==> (SampleFits(schema, keys[i]) <==> WellFormedProperty(schema, keys[i]))
    ensures Fill(schema, keys).Err? ==> exists i :: 0 <= i < |keys| && !SampleFits(schema, keys[i])
  {
    hide PropertyOf, Fill, Matches, MinimalValue, WellFormed;
    FillOk(schema, keys);
  }
}
