/**
 * The validation middleware of src/validation/middleware.ts: `withValidation`
 * wraps an operation with an optional check of its first argument and an
 * optional check of its result; `validateClass` applies it, in a loop, to the
 * configured methods of a freshly constructed instance.
 */
module Middleware {
  import opened Values
  import Schemas
  import opened ValidationUtils
  import opened Calls

  /** `withValidation(inputSchema, outputSchema, methodName)(originalMethod)`. */
  function WithValidation(original: Fn, input: Option<Schemas.Schema> := None,
                          output: Option<Schemas.Schema> := None, methodName: string := "API method"): Fn
  {
    Validated(input, output, methodName, original)
  }

  /** The first argument is checked, and refused. */
  predicate InputRefused(input: Option<Schemas.Schema>, args: seq<Value>)
  {
    input.Some? && |args| > 0 && !Schemas.Conforms(input.value, args[0])
  }

  /**
   * The arguments the original operation receives: the caller's, with the
   * first replaced by its parsed value when it was checked.
   */
  function Forwarded(input: Option<Schemas.Schema>, args: seq<Value>): seq<Value>
  {
    if input.Some? && |args| > 0 && Schemas.Parse(input.value, args[0]).Ok? then
      args[0 := Schemas.Parse(input.value, args[0]).value]
    else args
  }

  // ---------------------------------------------------------------------
  // One wrapped call

  /**
   * A refused first argument fails the call with a message naming the method,
   * before the original operation is invoked: nothing is logged and the
   * receiver keeps its state.
   */
  lemma RefusedInputShortCircuits(input: Option<Schemas.Schema>, output: Option<Schemas.Schema>,
                                  name: string, original: Fn, self: Value, args: seq<Value>)
    requires InputRefused(input, args)
    ensures
      var out := Run(WithValidation(original, input, output, name), self, args);
      && out.result.Err? && out.result.error.Error?
      && "Invalid parameters for " + name + ": " <= out.result.error.message
      && out.state == self && out.log == []
  {
  }

  /**
   * Otherwise the original operation runs once on the same receiver, with the
   * same number of arguments, all but the first unchanged, and the first
   * replaced by its parsed value only when an input schema was given; what it
   * throws is thrown unchanged, and without an output schema what it returns
   * is returned unchanged.
   */
  lemma AcceptedInputForwards(input: Option<Schemas.Schema>, output: Option<Schemas.Schema>,
                              name: string, original: Fn, self: Value, args: seq<Value>)
    requires !InputRefused(input, args)
    ensures
      var a := Forwarded(input, args);
      var inner := Run(original, self, a);
      var out := Run(WithValidation(original, input, output, name), self, args);
      && |a| == |args|
      && (forall k | 0 < k < |args| :: a[k] == args[k])
      && (|args| > 0 ==> a[0] == (if input.Some? then Schemas.Parse(input.value, args[0]).value else args[0]))
      && (input.Some? && |args| > 0 ==> Schemas.Conforms(input.value, args[0]))
      && out.state == inner.state && out.log == inner.log
      && (inner.result.Err? ==> out.result == inner.result)
      && (output.None? ==> out.result == inner.result)
  {
    if input.Some? && |args| > 0 {
      Schemas.ConformsParses(input.value, args[0]);
    }
  }

  /**
   * With an output schema, a successful result is returned only when it
   * conforms, as its parsed value; otherwise the call fails with a message
   * naming the method, although the original operation succeeded.
   */
  lemma OutputChecked(input: Option<Schemas.Schema>, output: Option<Schemas.Schema>,
                      name: string, original: Fn, self: Value, args: seq<Value>)
    requires !InputRefused(input, args) && output.Some?
    requires Run(original, self, Forwarded(input, args)).result.Ok?
    ensures
      var returned := Run(original, self, Forwarded(input, args)).result.value;
      var out := Run(WithValidation(original, input, output, name), self, args);
      && (out.result.Ok? <==> Schemas.Conforms(output.value, returned))
      && (out.result.Ok? ==> out.result == Schemas.Parse(output.value, returned))
      && (out.result.Err? ==>
            out.result.error.Error? && "Invalid response from " + name + ": " <= out.result.error.message)
  {
  }

  /**
   * Wrapped around an original method, the wrapper invokes it exactly once,
   * on the caller's receiver and with the forwarded arguments, unless the
   * first argument is refused, in which case it is not invoked at all.
   */
  lemma InvokedExactlyOnce(input: Option<Schemas.Schema>, output: Option<Schemas.Schema>,
                           name: string, id: nat, body: (Value, seq<Value>) -> Reply,
                           self: Value, args: seq<Value>)
    ensures
      var out := Run(WithValidation(Native(id, body), input, output, name), self, args);
      && (out.log == [] <==> InputRefused(input, args))
      && (!InputRefused(input, args) ==> out.log == [Invocation(id, self, Forwarded(input, args))])
  {
    if !InputRefused(input, args) {
      AcceptedInputForwards(input, output, name, Native(id, body), self, args);
    }
  }

  /** With no schemas the wrapper is transparent: same arguments, same outcome. */
  lemma NoSchemasPassThrough(original: Fn, self: Value, args: seq<Value>)
    ensures Run(WithValidation(original), self, args) == Run(original, self, args)
  {
  }

  /** Without a method name, errors name the method "API method". */
  lemma DefaultMethodName(original: Fn, input: Schemas.Schema, self: Value, args: seq<Value>)
    requires |args| > 0 && !Schemas.Conforms(input, args[0])
    ensures
      var out := Run(WithValidation(original, Some(input)), self, args);
      var name := "API method";
      out.result.Err? && "Invalid parameters for " + name + ": " <= out.result.error.message
  {
    RefusedInputShortCircuits(Some(input), None, "API method", original, self, args);
  }

  // ---------------------------------------------------------------------
  // Wrapping an instance's methods

  /** One entry of the configuration: a method name and its optional schemas. */
  datatype Entry = Entry(name: string, input: Option<Schemas.Schema>, output: Option<Schemas.Schema>)

  /** The configuration names each method at most once, as the keys of a record do. */
  predicate DistinctNames(config: seq<Entry>)
  {
    forall i, j | 0 <= i < j < |config| :: config[i].name != config[j].name
  }

  /** One step of the loop: wrap the member `e.name` when it is a function. */
  function WrapMember(members: map<string, Member>, e: Entry): map<string, Member>
  {
    if e.name in members && members[e.name].Method? then
      members[e.name := Method(WithValidation(members[e.name].fn, e.input, e.output, e.name))]
    else members
  }

  /** The members after the loop has handled every entry of `config`, in order. */
  function WrapAll(members: map<string, Member>, config: seq<Entry>): map<string, Member>
    decreases |config|
  {
    if |config| == 0 then members
    else WrapMember(WrapAll(members, config[..|config| - 1]), config[|config| - 1])
  }

  /**
   * The constructor added by `validateClass(config)`: for each configured
   * name whose member is a function, replace that member by the validating
   * wrapper around it.
   */
  method ValidateClass(instance: Instance, config: seq<Entry>)
    modifies instance
    ensures instance.members == WrapAll(old(instance.members), config)
    ensures instance.state == old(instance.state) && instance.log == old(instance.log)
  {
    for i := 0 to |config|
      invariant instance.members == WrapAll(old(instance.members), config[..i])
      invariant instance.state == old(instance.state) && instance.log == old(instance.log)
    {
      var name := config[i].name;
      if name in instance.members && instance.members[name].Method? {
        var originalMethod := instance.members[name].fn;
        instance.members := instance.members[name := Method(WithValidation(originalMethod, config[i].input, config[i].output, name))];
      }
      assert config[..i + 1][..i] == config[..i];
    }
    assert config[..|config|] == config;
  }

  /** The loop adds and removes no member, and a function stays a function. */
  lemma {:induction false} WrapAllKeepsMembers(members: map<string, Member>, config: seq<Entry>)
    ensures WrapAll(members, config).Keys == members.Keys
    ensures forall name | name in members :: WrapAll(members, config)[name].Method? == members[name].Method?
    decreases |config|
  {
    if |config| > 0 {
      WrapAllKeepsMembers(members, config[..|config| - 1]);
    }
  }

  /** A member that is not a function, or that no entry names, is left untouched. */
  lemma {:induction false} WrapAllLeavesOthers(members: map<string, Member>, config: seq<Entry>, name: string)
    requires name in members
    requires members[name].Data? || forall j | 0 <= j < |config| :: config[j].name != name
    ensures name in WrapAll(members, config) && WrapAll(members, config)[name] == members[name]
    decreases |config|
  {
    if |config| > 0 {
      WrapAllLeavesOthers(members, config[..|config| - 1], name);
    }
  }

  /**
   * A configured member that is a function is replaced by the wrapper around
   * the original function, with the entry's schemas and its name.
   */
  lemma {:induction false} WrapAllWraps(members: map<string, Member>, config: seq<Entry>, j: nat)
    requires DistinctNames(config) && j < |config|
    requires config[j].name in members && members[config[j].name].Method?
    ensures
      var e := config[j];
      && e.name in WrapAll(members, config)
      && WrapAll(members, config)[e.name] == Method(WithValidation(members[e.name].fn, e.input, e.output, e.name))
    decreases |config|
  {
    var last := |config| - 1;
    var prefix := config[..last];
    if j == last {
      WrapAllLeavesOthers(members, prefix, config[j].name);
    } else {
      assert prefix[j] == config[j];
      WrapAllWraps(members, prefix, j);
      assert config[last].name != config[j].name;
    }
  }
}
