/**
 * Schemas as a tagged datatype, and the one recursive check that runs a
 * schema over an untyped value: the behaviour of the schema library's
 * `parse` that the SDK relies on.
 *
 * Objects are open (unknown keys are accepted) and the parsed object keeps
 * only the declared keys; composite values report the issues of every
 * part, in order. When no alternative of a union accepts, the model reports
 * one issue at the union itself, a stand-in for the library's own report.
 */
module Schemas {
  import opened Values

  /** One declared key of an object schema. */
  datatype Field = Field(name: string, schema: Schema)

  datatype Schema =
    | StringS(minLength: nat)                                   // z.string(), .min(n)
    | NumberS(integer: bool, positive: bool, nonnegative: bool) // z.number(), .int(), .positive(), .nonnegative()
    | BigIntS                                                   // z.bigint()
    | BooleanS                                                  // z.boolean()
    | EnumS(members: seq<Value>)                                // z.enum([...]), z.nativeEnum(E)
    | NullableS(inner: Schema)                                  // .nullable()
    | OptionalS(inner: Schema)                                  // .optional()
    | ObjectS(fields: seq<Field>)                               // z.object({...})
    | ArrayS(element: Schema)                                   // z.array(x)
    | UnionS(options: seq<Schema>)                              // z.union([...])

  /** The issue for a value of the wrong runtime type; a missing value is "required". */
  function TypeIssue(v: Value, at: seq<Segment>): seq<Issue>
  {
    [IssueAt(at, if v == Undefined then Required else InvalidType)]
  }

  /** All issues of `issues` lie at or below `at`. */
  predicate Below(issues: seq<Issue>, at: seq<Segment>)
  {
    forall k | 0 <= k < |issues| :: at <= issues[k].path
  }

  /**
   * Runs `s` over `v`, which sits at path `at` inside the value being parsed.
   * A failure always carries at least one issue, and every issue lies at or
   * below `at`.
   */
  function ParseAt(s: Schema, v: Value, at: seq<Segment>): (r: Result<Value, seq<Issue>>)
    ensures r.Err? ==> |r.error| > 0 && Below(r.error, at)
    decreases s, 1, 0
  {
    match s
    case StringS(minLength) =>
      if !v.Str? then Err(TypeIssue(v, at))
      else if |v.s| < minLength then Err([IssueAt(at, TooShort(minLength))])
      else Ok(v)
    case NumberS(integer, positive, nonnegative) =>
      if !v.Num? then Err(TypeIssue(v, at))
      else
        var issues :=
          (if integer && !IsInteger(v.n) then [IssueAt(at, NotInteger)] else [])
          + (if positive && v.n <= 0.0 then [IssueAt(at, NotPositive)] else [])
          + (if nonnegative && v.n < 0.0 then [IssueAt(at, Negative)] else []);
        if issues == [] then Ok(v) else Err(issues)
    case BigIntS =>
      if v.BigInt? then Ok(v) else Err(TypeIssue(v, at))
    case BooleanS =>
      if v.Bool? then Ok(v) else Err(TypeIssue(v, at))
    case EnumS(members) =>
      if v in members then Ok(v)
      else if v == Undefined then Err([IssueAt(at, Required)])
      else Err([Issue(at, InvalidEnumValue, EnumMessage(v))])
    case NullableS(inner) =>
      if v == Null then Ok(Null) else ParseAt(inner, v, at)
    case OptionalS(inner) =>
      if v == Undefined then Ok(Undefined) else ParseAt(inner, v, at)
    case ObjectS(_) =>
      if !v.Obj? then Err(TypeIssue(v, at))
      else
        (match ParseFields(s, v.fields, at, 0)
         case Ok(m) => Ok(Obj(m))
         case Err(e) => Err(e))
    case ArrayS(_) =>
      if !v.Arr? then Err(TypeIssue(v, at))
      else
        (match ParseItems(s, v.items, at, 0)
         case Ok(xs) => Ok(Arr(xs))
         case Err(e) => Err(e))
    case UnionS(_) =>
      ParseOptions(s, v, at, 0)
  }

  /**
   * The declared fields of object schema `s` from the i-th on, read from `m`.
   * The parsed map holds the parsed value of every declared key present in `m`.
   */
  function ParseFields(s: Schema, m: map<string, Value>, at: seq<Segment>, i: nat)
    : (r: Result<map<string, Value>, seq<Issue>>)
    requires s.ObjectS? && i <= |s.fields|
    ensures r.Err? ==> |r.error| > 0 && Below(r.error, at)
    decreases s, 0, |s.fields| - i
  {
    if i == |s.fields| then Ok(map[])
    else
      var f := s.fields[i];
      assert f in s.fields;
      var head := ParseAt(f.schema, Lookup(m, f.name), at + [Key(f.name)]);
      var tail := ParseFields(s, m, at, i + 1);
      match (head, tail)
      case (Ok(w), Ok(rest)) => Ok(if f.name in m then rest[f.name := w] else rest)
      case (Ok(_), Err(e)) => Err(e)
      case (Err(e), Ok(_)) => Err(e)
      case (Err(e1), Err(e2)) => Err(e1 + e2)
  }

  /** The items of an array from the i-th on, against the element schema of `s`. */
  function ParseItems(s: Schema, items: seq<Value>, at: seq<Segment>, i: nat)
    : (r: Result<seq<Value>, seq<Issue>>)
    requires s.ArrayS? && i <= |items|
    ensures r.Ok? ==> |r.value| == |items| - i
    ensures r.Err? ==> |r.error| > 0 && Below(r.error, at)
    decreases s, 0, |items| - i
  {
    if i == |items| then Ok([])
    else
      var head := ParseAt(s.element, items[i], at + [Index(i)]);
      var tail := ParseItems(s, items, at, i + 1);
      match (head, tail)
      case (Ok(w), Ok(rest)) => Ok([w] + rest)
      case (Ok(_), Err(e)) => Err(e)
      case (Err(e), Ok(_)) => Err(e)
      case (Err(e1), Err(e2)) => Err(e1 + e2)
  }

  /** The alternatives of union `s` from the i-th on: the first that accepts wins. */
  function ParseOptions(s: Schema, v: Value, at: seq<Segment>, i: nat)
    : (r: Result<Value, seq<Issue>>)
    requires s.UnionS? && i <= |s.options|
    ensures r.Err? ==> |r.error| > 0 && Below(r.error, at)
    decreases s, 0, |s.options| - i
  {
    if i == |s.options| then Err([IssueAt(at, InvalidUnion)])
    else
      assert s.options[i] in s.options;
      match ParseAt(s.options[i], v, at)
      case Ok(w) => Ok(w)
      case Err(_) => ParseOptions(s, v, at, i + 1)
  }

  /** `schema.parse(data)`: the parsed value, or the library's error with its issues. */
  function Parse(s: Schema, v: Value): (r: Result<Value, Thrown>)
    ensures r.Err? ==> r.error.ZodError? && |r.error.issues| > 0
  {
    match ParseAt(s, v, [])
    case Ok(w) => Ok(w)
    case Err(issues) => Err(ZodError(issues))
  }

  // ---------------------------------------------------------------------
  // What a schema accepts, stated without running it

  predicate Conforms(s: Schema, v: Value)
    decreases s
  {
    match s
    case StringS(minLength) => v.Str? && |v.s| >= minLength
    case NumberS(integer, positive, nonnegative) =>
      && v.Num?
      && (integer ==> IsInteger(v.n))
      && (positive ==> v.n > 0.0)
      && (nonnegative ==> v.n >= 0.0)
    case BigIntS => v.BigInt?
    case BooleanS => v.Bool?
    case EnumS(members) => v in members
    case NullableS(inner) => v == Null || Conforms(inner, v)
    case OptionalS(inner) => v == Undefined || Conforms(inner, v)
    case ObjectS(fields) =>
      v.Obj? && forall f | f in fields :: Conforms(f.schema, Lookup(v.fields, f.name))
    case ArrayS(element) =>
      v.Arr? && forall x | x in v.items :: Conforms(element, x)
    case UnionS(options) =>
      exists o | o in options :: Conforms(o, v)
  }

  /** Validation succeeds exactly on the values the schema describes, wherever they sit. */
  lemma {:induction false} ParseAtAcceptsIffConforms(s: Schema, v: Value, at: seq<Segment>)
    ensures ParseAt(s, v, at).Ok? <==> Conforms(s, v)
    decreases s, 1, 0
  {
    match s
    case NullableS(inner) =>
      if v != Null { ParseAtAcceptsIffConforms(inner, v, at); }
    case OptionalS(inner) =>
      if v != Undefined { ParseAtAcceptsIffConforms(inner, v, at); }
    case ObjectS(_) =>
      ObjectAcceptsIffConforms(s, v, at);
    case ArrayS(_) =>
      ArrayAcceptsIffConforms(s, v, at);
    case UnionS(_) =>
      UnionAcceptsIffConforms(s, v, at);
    case _ =>
  }

  lemma {:induction false} ArrayAcceptsIffConforms(s: Schema, v: Value, at: seq<Segment>)
    requires s.ArrayS?
    ensures ParseAt(s, v, at).Ok? <==> Conforms(s, v)
    decreases s, 0, if v.Arr? then |v.items| + 1 else 0
  {
    if v.Arr? {
      ItemsAcceptIffConform(s, v.items, at, 0);
      assert (forall j | 0 <= j < |v.items| :: Conforms(s.element, v.items[j]))
        <==> (forall x | x in v.items :: Conforms(s.element, x));
    }
  }

  lemma {:induction false} UnionAcceptsIffConforms(s: Schema, v: Value, at: seq<Segment>)
    requires s.UnionS?
    ensures ParseAt(s, v, at).Ok? <==> Conforms(s, v)
    decreases s, 0, |s.options| + 1
  {
    OptionsAcceptIffConform(s, v, at, 0);
    assert (exists j | 0 <= j < |s.options| :: Conforms(s.options[j], v))
      <==> (exists o | o in s.options :: Conforms(o, v));
  }

  lemma {:induction false} ObjectAcceptsIffConforms(s: Schema, v: Value, at: seq<Segment>)
    requires s.ObjectS?
    ensures ParseAt(s, v, at).Ok? <==> Conforms(s, v)
    decreases s, 0, |s.fields| + 1
  {
    if v.Obj? {
      var fields := s.fields;
      FieldsAcceptIffConform(s, v.fields, at, 0);
      assert (forall j | 0 <= j < |fields| :: Conforms(fields[j].schema, Lookup(v.fields, fields[j].name)))
        <==> (forall f | f in fields :: Conforms(f.schema, Lookup(v.fields, f.name)));
    }
  }

  lemma {:induction false} FieldsAcceptIffConform(s: Schema, m: map<string, Value>, at: seq<Segment>, i: nat)
    requires s.ObjectS? && i <= |s.fields|
    ensures ParseFields(s, m, at, i).Ok?
      <==> forall j | i <= j < |s.fields| :: Conforms(s.fields[j].schema, Lookup(m, s.fields[j].name))
    decreases s, 0, |s.fields| - i
  {
    if i < |s.fields| {
      var f := s.fields[i];
      assert f in s.fields;
      ParseAtAcceptsIffConforms(f.schema, Lookup(m, f.name), at + [Key(f.name)]);
      FieldsAcceptIffConform(s, m, at, i + 1);
    }
  }

  lemma {:induction false} ItemsAcceptIffConform(s: Schema, items: seq<Value>, at: seq<Segment>, i: nat)
    requires s.ArrayS? && i <= |items|
    ensures ParseItems(s, items, at, i).Ok?
      <==> forall j | i <= j < |items| :: Conforms(s.element, items[j])
    decreases s, 0, |items| - i
  {
    if i < |items| {
      ParseAtAcceptsIffConforms(s.element, items[i], at + [Index(i)]);
      ItemsAcceptIffConform(s, items, at, i + 1);
    }
  }

  lemma {:induction false} OptionsAcceptIffConform(s: Schema, v: Value, at: seq<Segment>, i: nat)
    requires s.UnionS? && i <= |s.options|
    ensures ParseOptions(s, v, at, i).Ok?
      <==> exists j | i <= j < |s.options| :: Conforms(s.options[j], v)
    decreases s, 0, |s.options| - i
  {
    if i < |s.options| {
      assert s.options[i] in s.options;
      ParseAtAcceptsIffConforms(s.options[i], v, at);
      OptionsAcceptIffConform(s, v, at, i + 1);
    }
  }

  /** `parse` succeeds exactly on the values the schema describes. */
  lemma ParseAcceptsIffConforms(s: Schema, v: Value)
    ensures Parse(s, v).Ok? <==> Conforms(s, v)
  {
    ParseAtAcceptsIffConforms(s, v, []);
  }

  lemma ParseAccepted(s: Schema, v: Value)
    requires Parse(s, v).Ok?
    ensures Conforms(s, v)
  {
    ParseAcceptsIffConforms(s, v);
  }

  lemma ConformsParses(s: Schema, v: Value)
    requires Conforms(s, v)
    ensures Parse(s, v).Ok?
  {
    ParseAcceptsIffConforms(s, v);
  }

  /** The object case of Conforms on its own: every declared field accepts what `m` holds under its name. */
  predicate FieldsConform(fields: seq<Field>, m: map<string, Value>)
  {
    forall f | f in fields :: Conforms(f.schema, Lookup(m, f.name))
  }

  /** A value an object schema describes holds, under each declared key, a value that key's schema describes. */
  lemma ConformsField(fields: seq<Field>, v: Value, j: nat)
    requires Conforms(ObjectS(fields), v) && j < |fields|
    ensures v.Obj? && Conforms(fields[j].schema, Lookup(v.fields, fields[j].name))
  {
    assert fields[j] in fields;
  }

  /** FieldsConform of a suffix, built one field at a time from the back. */
  lemma FieldsConformStep(fields: seq<Field>, m: map<string, Value>, i: nat)
    requires i < |fields|
    requires Conforms(fields[i].schema, Lookup(m, fields[i].name)) && FieldsConform(fields[i + 1..], m)
    ensures FieldsConform(fields[i..], m)
  {
    forall f | f in fields[i..]
      ensures Conforms(f.schema, Lookup(m, f.name))
    {
      if f != fields[i] {
        var j :| i <= j < |fields| && fields[j] == f;
        assert fields[j] in fields[i + 1..];
      }
    }
  }

  // ---------------------------------------------------------------------
  // Which keys of an object may be missing

  /** Whether `s` accepts a missing value (undefined), read off its structure. */
  predicate AcceptsMissing(s: Schema)
    decreases s
  {
    match s
    case OptionalS(_) => true
    case NullableS(inner) => AcceptsMissing(inner)
    case EnumS(members) => Undefined in members
    case UnionS(options) => exists o | o in options :: AcceptsMissing(o)
    case _ => false
  }

  lemma {:induction false} AcceptsMissingIffConforms(s: Schema)
    ensures AcceptsMissing(s) <==> Conforms(s, Undefined)
    decreases s
  {
    match s
    case NullableS(inner) => AcceptsMissingIffConforms(inner);
    case UnionS(options) =>
      forall o | o in options { AcceptsMissingIffConforms(o); }
    case _ =>
  }

  /** A parsed object carries every key whose schema rejects a missing value. */
  lemma ParsedHasKeys(fields: seq<Field>, m: map<string, Value>)
    requires Parse(ObjectS(fields), Obj(m)).Ok?
    ensures forall j | 0 <= j < |fields| && !AcceptsMissing(fields[j].schema) :: fields[j].name in m
  {
    ParseAccepted(ObjectS(fields), Obj(m));
    forall j | 0 <= j < |fields| && !AcceptsMissing(fields[j].schema)
      ensures fields[j].name in m
    {
      assert fields[j] in fields;
      AcceptsMissingIffConforms(fields[j].schema);
    }
  }

  /** Only an object parses against an object schema. */
  lemma ParsedObject(fields: seq<Field>, v: Value)
    requires Parse(ObjectS(fields), v).Ok?
    ensures v.Obj?
  {
    ParseAccepted(ObjectS(fields), v);
  }

  /** In a parsed object, each declared key holds a value its schema describes. */
  lemma ParsedField(fields: seq<Field>, m: map<string, Value>, j: nat)
    requires Parse(ObjectS(fields), Obj(m)).Ok? && j < |fields|
    ensures Conforms(fields[j].schema, Lookup(m, fields[j].name))
  {
    ParseAccepted(ObjectS(fields), Obj(m));
    assert fields[j] in fields;
  }

  /** Leaving out a key whose every declaration accepts a missing value keeps an object parsing. */
  lemma ParsedWithoutKey(fields: seq<Field>, m: map<string, Value>, k: string)
    requires Parse(ObjectS(fields), Obj(m)).Ok?
    requires forall j | 0 <= j < |fields| :: fields[j].name == k ==> AcceptsMissing(fields[j].schema)
    ensures Parse(ObjectS(fields), Obj(m - {k})).Ok?
  {
    ParseAccepted(ObjectS(fields), Obj(m));
    forall f | f in fields
      ensures Conforms(f.schema, Lookup(m - {k}, f.name))
    {
      if f.name != k {
        assert Lookup(m - {k}, f.name) == Lookup(m, f.name);
      } else {
        var j :| 0 <= j < |fields| && fields[j] == f;
        AcceptsMissingIffConforms(f.schema);
      }
    }
    ConformsParses(ObjectS(fields), Obj(m - {k}));
  }

  /** An object schema all of whose keys accept a missing value parses the empty object. */
  lemma EmptyObjectParses(fields: seq<Field>)
    requires forall j | 0 <= j < |fields| :: AcceptsMissing(fields[j].schema)
    ensures Parse(ObjectS(fields), Obj(map[])).Ok?
  {
    forall f | f in fields
      ensures Conforms(f.schema, Undefined)
    {
      var j :| 0 <= j < |fields| && fields[j] == f;
      AcceptsMissingIffConforms(f.schema);
    }
    ConformsParses(ObjectS(fields), Obj(map[]));
  }

  // ---------------------------------------------------------------------
  // Parsing is the identity on values that already have the declared shape

  /** Object schema fields declare key `k`. */
  predicate Declares(fields: seq<Field>, k: string)
  {
    exists f | f in fields :: f.name == k
  }

  /**
   * `v` has the shape `s` describes and nothing more: it conforms, objects
   * carry no undeclared keys, and inside a union it has that shape for the
   * first alternative it conforms to.
   */
  predicate Exact(s: Schema, v: Value)
    decreases s
  {
    match s
    case NullableS(inner) => v == Null || Exact(inner, v)
    case OptionalS(inner) => v == Undefined || Exact(inner, v)
    case ObjectS(fields) =>
      && v.Obj?
      && (forall k | k in v.fields :: Declares(fields, k))
      && forall f | f in fields :: Exact(f.schema, Lookup(v.fields, f.name))
    case ArrayS(element) =>
      v.Arr? && forall x | x in v.items :: Exact(element, x)
    case UnionS(options) =>
      exists j | 0 <= j < |options| ::
        Exact(options[j], v) && forall k | 0 <= k < j :: !Conforms(options[k], v)
    case _ => Conforms(s, v)
  }

  /** The entries of `m` whose key is declared by the fields from the i-th on. */
  function KeptFrom(fields: seq<Field>, m: map<string, Value>, i: nat): map<string, Value>
  {
    map k | k in m && (exists j | i <= j < |fields| :: fields[j].name == k) :: m[k]
  }

  /** A value that already has the declared shape parses to itself. */
  lemma {:induction false} ParseAtExactIsIdentity(s: Schema, v: Value, at: seq<Segment>)
    requires Exact(s, v)
    ensures ParseAt(s, v, at) == Ok(v)
    decreases s, 1, 0
  {
    match s
    case NullableS(inner) =>
      if v != Null { ParseAtExactIsIdentity(inner, v, at); }
    case OptionalS(inner) =>
      if v != Undefined { ParseAtExactIsIdentity(inner, v, at); }
    case ObjectS(_) =>
      ExactObjectIsIdentity(s, v, at);
    case ArrayS(element) =>
      ExactItemsKept(s, v.items, at, 0);
      assert v.items[0..] == v.items;
    case UnionS(options) =>
      var j :| 0 <= j < |options| && Exact(options[j], v) && forall k | 0 <= k < j :: !Conforms(options[k], v);
      ExactOptionChosen(s, v, at, 0, j);
    case _ =>
  }

  lemma {:induction false} ExactObjectIsIdentity(s: Schema, v: Value, at: seq<Segment>)
    requires s.ObjectS? && Exact(s, v)
    ensures ParseAt(s, v, at) == Ok(v)
    decreases s, 0, |s.fields| + 1
  {
    var fields := s.fields;
    forall j | 0 <= j < |fields|
      ensures Exact(fields[j].schema, Lookup(v.fields, fields[j].name))
    {
      assert fields[j] in fields;
    }
    ExactFieldsKept(s, v.fields, at, 0);
    assert KeptFrom(fields, v.fields, 0) == v.fields by {
      forall k | k in v.fields
        ensures exists j | 0 <= j < |fields| :: fields[j].name == k
      {
        assert Declares(fields, k);
        var f :| f in fields && f.name == k;
        var j :| 0 <= j < |fields| && fields[j] == f;
      }
    }
  }

  lemma {:induction false} ExactFieldsKept(s: Schema, m: map<string, Value>, at: seq<Segment>, i: nat)
    requires s.ObjectS? && i <= |s.fields|
    requires forall j | i <= j < |s.fields| :: Exact(s.fields[j].schema, Lookup(m, s.fields[j].name))
    ensures ParseFields(s, m, at, i) == Ok(KeptFrom(s.fields, m, i))
    decreases s, 0, |s.fields| - i
  {
    var fields := s.fields;
    if i == |fields| {
      assert KeptFrom(fields, m, i) == map[];
    } else {
      var f := fields[i];
      assert f in fields;
      ParseAtExactIsIdentity(f.schema, Lookup(m, f.name), at + [Key(f.name)]);
      ExactFieldsKept(s, m, at, i + 1);
      ParseFieldsStep(s, m, at, i);
      KeptFromStep(fields, m, i);
    }
  }

  /** When the i-th field and the rest parse, the i-th field's parsed value joins the rest's. */
  lemma ParseFieldsStep(s: Schema, m: map<string, Value>, at: seq<Segment>, i: nat)
    requires s.ObjectS? && i < |s.fields|
    requires ParseAt(s.fields[i].schema, Lookup(m, s.fields[i].name), at + [Key(s.fields[i].name)]).Ok?
    requires ParseFields(s, m, at, i + 1).Ok?
    ensures
      var f := s.fields[i];
      var w := ParseAt(f.schema, Lookup(m, f.name), at + [Key(f.name)]).value;
      var rest := ParseFields(s, m, at, i + 1).value;
      ParseFields(s, m, at, i) == Ok(if f.name in m then rest[f.name := w] else rest)
  {
  }

  /** The kept entries from the i-th field on: the i-th field's entry, if present, and the rest. */
  lemma KeptFromStep(fields: seq<Field>, m: map<string, Value>, i: nat)
    requires i < |fields|
    ensures KeptFrom(fields, m, i) ==
      if fields[i].name in m then KeptFrom(fields, m, i + 1)[fields[i].name := m[fields[i].name]]
      else KeptFrom(fields, m, i + 1)
  {
    var rest := KeptFrom(fields, m, i + 1);
    if fields[i].name in m {
      assert rest[fields[i].name := m[fields[i].name]] == KeptFrom(fields, m, i);
    } else {
      assert rest == KeptFrom(fields, m, i);
    }
  }

  lemma {:induction false} ExactItemsKept(s: Schema, items: seq<Value>, at: seq<Segment>, i: nat)
    requires s.ArrayS? && i <= |items|
    requires forall x | x in items :: Exact(s.element, x)
    ensures ParseItems(s, items, at, i) == Ok(items[i..])
    decreases s, 0, |items| - i
  {
    if i < |items| {
      assert items[i] in items;
      ParseAtExactIsIdentity(s.element, items[i], at + [Index(i)]);
      ExactItemsKept(s, items, at, i + 1);
      assert items[i..] == [items[i]] + items[i + 1..];
    }
  }

  lemma {:induction false} ExactOptionChosen(s: Schema, v: Value, at: seq<Segment>, i: nat, j: nat)
    requires s.UnionS? && i <= j < |s.options|
    requires Exact(s.options[j], v)
    requires forall k | i <= k < j :: !Conforms(s.options[k], v)
    ensures ParseOptions(s, v, at, i) == Ok(v)
    decreases s, 0, |s.options| - i
  {
    assert s.options[i] in s.options;
    if i == j {
      ParseAtExactIsIdentity(s.options[i], v, at);
    } else {
      ParseAtAcceptsIffConforms(s.options[i], v, at);
      ExactOptionChosen(s, v, at, i + 1, j);
    }
  }

  // ---------------------------------------------------------------------
  // Composite values report the issues of every part

  /** Every issue a declared field reports is among the issues of the whole object. */
  lemma ObjectReportsEveryField(fields: seq<Field>, m: map<string, Value>, at: seq<Segment>, j: nat)
    requires j < |fields|
    requires ParseAt(fields[j].schema, Lookup(m, fields[j].name), at + [Key(fields[j].name)]).Err?
    ensures ParseAt(ObjectS(fields), Obj(m), at).Err?
    ensures forall x | x in ParseAt(fields[j].schema, Lookup(m, fields[j].name), at + [Key(fields[j].name)]).error
      :: x in ParseAt(ObjectS(fields), Obj(m), at).error
  {
    FieldIssuesKept(ObjectS(fields), m, at, 0, j);
  }

  lemma {:induction false} FieldIssuesKept(s: Schema, m: map<string, Value>, at: seq<Segment>, i: nat, j: nat)
    requires s.ObjectS? && i <= j < |s.fields|
    requires ParseAt(s.fields[j].schema, Lookup(m, s.fields[j].name), at + [Key(s.fields[j].name)]).Err?
    ensures ParseFields(s, m, at, i).Err?
    ensures forall x | x in ParseAt(s.fields[j].schema, Lookup(m, s.fields[j].name), at + [Key(s.fields[j].name)]).error
      :: x in ParseFields(s, m, at, i).error
    decreases j - i
  {
    if i < j {
      FieldIssuesKept(s, m, at, i + 1, j);
    }
  }

  /** Every issue an item reports is among the issues of the whole array. */
  lemma ArrayReportsEveryItem(element: Schema, items: seq<Value>, at: seq<Segment>, j: nat)
    requires j < |items|
    requires ParseAt(element, items[j], at + [Index(j)]).Err?
    ensures ParseAt(ArrayS(element), Arr(items), at).Err?
    ensures forall x | x in ParseAt(element, items[j], at + [Index(j)]).error
      :: x in ParseAt(ArrayS(element), Arr(items), at).error
  {
    ItemIssuesKept(ArrayS(element), items, at, 0, j);
  }

  lemma {:induction false} ItemIssuesKept(s: Schema, items: seq<Value>, at: seq<Segment>, i: nat, j: nat)
    requires s.ArrayS? && i <= j < |items|
    requires ParseAt(s.element, items[j], at + [Index(j)]).Err?
    ensures ParseItems(s, items, at, i).Err?
    ensures forall x | x in ParseAt(s.element, items[j], at + [Index(j)]).error
      :: x in ParseItems(s, items, at, i).error
    decreases j - i
  {
    if i < j {
      ItemIssuesKept(s, items, at, i + 1, j);
    }
  }

  /** Issue `x` is one that the j-th declared field of `fields` reports. */
  predicate FieldReports(fields: seq<Field>, m: map<string, Value>, at: seq<Segment>, j: nat, x: Issue)
    requires j < |fields|
  {
    var r := ParseAt(fields[j].schema, Lookup(m, fields[j].name), at + [Key(fields[j].name)]);
    r.Err? && x in r.error
  }

  /** An object reports nothing but its declared fields' issues. */
  lemma ObjectIssuesComeFromFields(fields: seq<Field>, m: map<string, Value>, at: seq<Segment>)
    requires ParseAt(ObjectS(fields), Obj(m), at).Err?
    ensures forall x | x in ParseAt(ObjectS(fields), Obj(m), at).error ::
      exists j | 0 <= j < |fields| :: FieldReports(fields, m, at, j, x)
  {
    FieldIssuesFrom(ObjectS(fields), m, at, 0);
  }

  lemma {:induction false} FieldIssuesFrom(s: Schema, m: map<string, Value>, at: seq<Segment>, i: nat)
    requires s.ObjectS? && i <= |s.fields|
    requires ParseFields(s, m, at, i).Err?
    ensures forall x | x in ParseFields(s, m, at, i).error ::
      exists j | i <= j < |s.fields| :: FieldReports(s.fields, m, at, j, x)
    decreases |s.fields| - i
  {
    var f := s.fields[i];
    var head := ParseAt(f.schema, Lookup(m, f.name), at + [Key(f.name)]);
    var tail := ParseFields(s, m, at, i + 1);
    if tail.Err? {
      FieldIssuesFrom(s, m, at, i + 1);
    }
    forall x | x in ParseFields(s, m, at, i).error
      ensures exists j | i <= j < |s.fields| :: FieldReports(s.fields, m, at, j, x)
    {
      if head.Err? && x in head.error {
        assert FieldReports(s.fields, m, at, i, x);
      } else {
        assert tail.Err? && x in tail.error;
      }
    }
  }

  /** Issue `x` is one that the j-th item reports. */
  predicate ItemReports(element: Schema, items: seq<Value>, at: seq<Segment>, j: nat, x: Issue)
    requires j < |items|
  {
    var r := ParseAt(element, items[j], at + [Index(j)]);
    r.Err? && x in r.error
  }

  /**
   * An array reports nothing but its items' issues: with the previous lemma,
   * the array's issues are exactly those of its refused items.
   */
  lemma ArrayIssuesComeFromItems(element: Schema, items: seq<Value>, at: seq<Segment>)
    requires ParseAt(ArrayS(element), Arr(items), at).Err?
    ensures forall x | x in ParseAt(ArrayS(element), Arr(items), at).error ::
      exists j | 0 <= j < |items| :: ItemReports(element, items, at, j, x)
  {
    ItemIssuesFrom(ArrayS(element), items, at, 0);
  }

  lemma {:induction false} ItemIssuesFrom(s: Schema, items: seq<Value>, at: seq<Segment>, i: nat)
    requires s.ArrayS? && i <= |items|
    requires ParseItems(s, items, at, i).Err?
    ensures forall x | x in ParseItems(s, items, at, i).error ::
      exists j | i <= j < |items| :: ItemReports(s.element, items, at, j, x)
    decreases |items| - i
  {
    var head := ParseAt(s.element, items[i], at + [Index(i)]);
    var tail := ParseItems(s, items, at, i + 1);
    if tail.Err? {
      ItemIssuesFrom(s, items, at, i + 1);
    }
    forall x | x in ParseItems(s, items, at, i).error
      ensures exists j | i <= j < |items| :: ItemReports(s.element, items, at, j, x)
    {
      if head.Err? && x in head.error {
        assert ItemReports(s.element, items, at, i, x);
      } else {
        assert tail.Err? && x in tail.error;
      }
    }
  }

  /**
   * In `[{price: 1}, {}, {price: 3}]` checked as an array of records with a
   * required numeric `price`, the one issue is the missing `price` of item 1.
   */
  lemma SoleMissingPrice()
    ensures
      var item := ObjectS([Field("price", NumberS(false, false, false))]);
      var items := [Obj(map["price" := Num(1.0)]), Obj(map[]), Obj(map["price" := Num(3.0)])];
      ParseAt(ArrayS(item), Arr(items), []) == Err([IssueAt([Index(1), Key("price")], Required)])
  {
    var item := ObjectS([Field("price", NumberS(false, false, false))]);
    var items := [Obj(map["price" := Num(1.0)]), Obj(map[]), Obj(map["price" := Num(3.0)])];
    var s := ArrayS(item);
    var root: seq<Segment> := [];
    assert root + [Index(0)] == [Index(0)] && root + [Index(1)] == [Index(1)] && root + [Index(2)] == [Index(2)];
    assert [Index(1)] + [Key("price")] == [Index(1), Key("price")];
    assert ParseFields(item, items[1].fields, [Index(1)], 1) == Ok(map[]);
    assert ParseAt(item, items[1], [Index(1)]) == Err([IssueAt([Index(1), Key("price")], Required)]);
    assert ParseFields(item, items[0].fields, [Index(0)], 1) == Ok(map[]);
    assert ParseAt(item, items[0], [Index(0)]).Ok?;
    assert ParseFields(item, items[2].fields, [Index(2)], 1) == Ok(map[]);
    assert ParseAt(item, items[2], [Index(2)]).Ok?;
    assert ParseItems(s, items, [], 2).Ok?;
    assert ParseItems(s, items, [], 1) == Err([IssueAt([Index(1), Key("price")], Required)]);
  }

  /** `parse` returns a value that already has the declared shape unchanged. */
  lemma ParseExactIsIdentity(s: Schema, v: Value)
    requires Exact(s, v)
    ensures Parse(s, v) == Ok(v)
  {
    ParseAtExactIsIdentity(s, v, []);
  }
}
