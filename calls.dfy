/**
 * The operations the validation wrappers wrap, and the wrappers themselves as
 * values. A wrapped operation is either an original method of the SDK, given
 * by what it does to its receiver and what it returns, or one of the wrappers
 * of src/validation/middleware.ts and src/validation/decorators.ts around
 * another operation.
 *
 * `Run` is what calling an operation does: its result (a returned value or a
 * thrown error), the receiver's new state, and the log of original methods
 * that were invoked, in order. `Call` does the same step by step, the way the
 * wrappers do it: the rest parameter `...args` is a fresh array and the
 * checked argument is overwritten in it.
 */
module Calls {
  import opened Values
  import Schemas
  import opened ValidationUtils

  /** What an original method does: its result and its receiver's new state. */
  datatype Reply = Reply(result: Result<Value, Thrown>, state: Value)

  /** One invocation of an original method: which one, its receiver's state, its arguments. */
  datatype Invocation = Invocation(id: nat, self: Value, args: seq<Value>)

  /** What calling an operation did. */
  datatype Outcome = Outcome(result: Result<Value, Thrown>, state: Value, log: seq<Invocation>)

  datatype Fn =
      /** An original method, known by its identity and its behaviour. */
    | Native(id: nat, body: (Value, seq<Value>) -> Reply)
      /** `withValidation(input, output, methodName)(original)` of the middleware. */
    | Validated(input: Option<Schemas.Schema>, output: Option<Schemas.Schema>, methodName: string, original: Fn)
      /** `descriptor.value` after `@validateParam(schema, paramIndex)` on `propertyKey`. */
    | ParamChecked(schema: Schemas.Schema, paramIndex: nat, propertyKey: string, original: Fn)
      /** `descriptor.value` after `@validateResult(schema)` on `propertyKey`. */
    | ResultChecked(schema: Schemas.Schema, propertyKey: string, original: Fn)
      /** `withValidation(inputSchema, outputSchema, methodName)(target, original)` of the decorators. */
    | StrictlyValidated(inputSchema: Schemas.Schema, outputSchema: Schemas.Schema, methodName: string, original: Fn)
      /** `createValidatedMethod(fn, inputSchema, outputSchema, methodName)`. */
    | Created(fn: Fn, inputSchema: Schemas.Schema, outputSchema: Schemas.Schema, methodName: string)

  /** A call refused before anything was invoked: the receiver is left as it was. */
  function Refused(e: Thrown, self: Value): Outcome
  {
    Outcome(Err(e), self, [])
  }

  /** Validate a successful result against `output`, when there is one; an error passes through. */
  function CheckOutput(output: Option<Schemas.Schema>, methodName: string, inner: Outcome): Outcome
  {
    if output.Some? && inner.result.Ok? then
      inner.(result := ValidateResponse(output.value, inner.result.value, methodName))
    else inner
  }

  /** `args[0]`, which is undefined when no argument was passed. */
  function First(args: seq<Value>): Value
  {
    if |args| > 0 then args[0] else Undefined
  }

  /** `args[0] = v`: overwrites the first argument, or makes it the only one when there was none. */
  function SetFirst(args: seq<Value>, v: Value): seq<Value>
  {
    if |args| > 0 then args[0 := v] else [v]
  }

  /**
   * Calling `f` with receiver state `self` and arguments `args`. The wrappers
   * touch the receiver only through the original methods they invoke: when
   * none was invoked, the receiver keeps its state.
   */
  function Run(f: Fn, self: Value, args: seq<Value>): (out: Outcome)
    ensures out.log == [] ==> out.state == self
    decreases f
  {
    match f
    case Native(id, body) =>
      var reply := body(self, args);
      Outcome(reply.result, reply.state, [Invocation(id, self, args)])
    case Validated(input, output, name, original) =>
      if input.Some? && |args| > 0 then
        (match ValidateParams(input.value, args[0], name)
         case Err(e) => Refused(e, self)
         case Ok(v) => CheckOutput(output, name, Run(original, self, args[0 := v])))
      else
        CheckOutput(output, name, Run(original, self, args))
    case ParamChecked(schema, index, key, original) =>
      if |args| > index then
        (match Validate(schema, args[index], "Invalid parameter for " + key)
         case Err(e) => Refused(e, self)
         case Ok(v) => Run(original, self, args[index := v]))
      else
        Run(original, self, args)
    case ResultChecked(schema, key, original) =>
      CheckOutput(Some(schema), key, Run(original, self, args))
    case StrictlyValidated(input, output, name, original) =>
      (match ValidateParams(input, First(args), name)
       case Err(e) => Refused(e, self)
       case Ok(v) => CheckOutput(Some(output), name, Run(original, self, SetFirst(args, v))))
    case Created(fn, input, output, name) =>
      (match ValidateParams(input, First(args), name)
       case Err(e) => Refused(e, self)
       case Ok(v) =>
         // `fn(validatedInput)` is a plain call: no receiver, one argument
         var inner := Run(fn, Undefined, [v]);
         CheckOutput(Some(output), name, Outcome(inner.result, self, inner.log)))
  }

  /** The rest parameter of a call: a fresh array holding the arguments. */
  method RestArgs(args: seq<Value>) returns (a: array<Value>)
    ensures fresh(a) && a[..] == args
  {
    a := new Value[|args|](k requires 0 <= k < |args| => args[k]);
  }

  /** Calling `f`, with the arguments held in an array that the wrappers update in place. */
  method Call(f: Fn, self: Value, args: seq<Value>) returns (out: Outcome)
    ensures out == Run(f, self, args)
    decreases f
  {
    match f
    case Native(id, body) =>
      var reply := body(self, args);
      out := Outcome(reply.result, reply.state, [Invocation(id, self, args)]);
    case Validated(input, output, name, original) =>
      var a := RestArgs(args);
      if input.Some? && a.Length > 0 {
        var checked := ValidateParams(input.value, a[0], name);
        if checked.Err? {
          return Refused(checked.error, self);
        }
        a[0] := checked.value;
        assert a[..] == args[0 := checked.value];
      }
      out := Call(original, self, a[..]);
      out := CheckOutput(output, name, out);
    case ParamChecked(schema, index, key, original) =>
      var a := RestArgs(args);
      if a.Length > index {
        var checked := Validate(schema, a[index], "Invalid parameter for " + key);
        if checked.Err? {
          return Refused(checked.error, self);
        }
        a[index] := checked.value;
        assert a[..] == args[index := checked.value];
      }
      out := Call(original, self, a[..]);
    case ResultChecked(schema, key, original) =>
      var a := RestArgs(args);
      out := Call(original, self, a[..]);
      out := CheckOutput(Some(schema), key, out);
    case StrictlyValidated(input, output, name, original) =>
      var a := RestArgs(args);
      var checked := ValidateParams(input, if a.Length > 0 then a[0] else Undefined, name);
      if checked.Err? {
        return Refused(checked.error, self);
      }
      if a.Length > 0 {
        a[0] := checked.value;
        assert a[..] == args[0 := checked.value];
      } else {
        // assigning past the end grows the array
        a := new Value[1](_ => checked.value);
        assert a[..] == [checked.value];
      }
      out := Call(original, self, a[..]);
      out := CheckOutput(Some(output), name, out);
    case Created(fn, input, output, name) =>
      var checked := ValidateParams(input, First(args), name);
      if checked.Err? {
        return Refused(checked.error, self);
      }
      var inner := Call(fn, Undefined, [checked.value]);
      out := CheckOutput(Some(output), name, Outcome(inner.result, self, inner.log));
  }

  /** A property of an object: a plain value, or a function. */
  datatype Member = Data(value: Value) | Method(fn: Fn)

  /**
   * An object whose methods the wrappers can replace: its own state (what its
   * methods read and write through `this`) and its members by name, with the
   * log of every original method invoked through it.
   */
  class Instance {
    var state: Value
    var members: map<string, Member>
    ghost var log: seq<Invocation>

    constructor(state: Value, members: map<string, Member>)
      ensures this.state == state && this.members == members && log == []
    {
      this.state := state;
      this.members := members;
      log := [];
    }

    /** The member `name` is a function (`typeof this[name] === 'function'`). */
    predicate HasMethod(name: string)
      reads this
    {
      name in members && members[name].Method?
    }

    /**
     * `this[name](...args)`: runs the method with this object as its receiver,
     * or throws when the member is not a function.
     */
    method Invoke(name: string, args: seq<Value>) returns (r: Result<Value, Thrown>)
      modifies this
      ensures members == old(members)
      ensures old(HasMethod(name)) ==>
        var out := Run(old(members)[name].fn, old(state), args);
        r == out.result && state == out.state && log == old(log) + out.log
      ensures !old(HasMethod(name)) ==>
        r == Err(Error(name + " is not a function")) && state == old(state) && log == old(log)
    {
      if name in members && members[name].Method? {
        var out := Call(members[name].fn, state, args);
        r := out.result;
        state := out.state;
        log := log + out.log;
      } else {
        r := Err(Error(name + " is not a function"));
      }
    }
  }
}
