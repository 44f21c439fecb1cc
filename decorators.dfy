/**
 * The validation decorators of src/validation/decorators.ts. `validateParam`
 * and `validateResult` replace a method's property descriptor value with a
 * checking wrapper; `withValidation` wraps a method with an unconditional
 * check of its first argument and a check of its result; and
 * `createValidatedMethod` wraps a one-argument function the same way.
 */
module Decorators {
  import opened Values
  import Schemas
  import opened ValidationUtils
  import opened Calls

  /** A method's property descriptor; the decorators replace its `value`. */
  class Descriptor {
    var value: Fn

    constructor(value: Fn)
      ensures this.value == value
    {
      this.value := value;
    }
  }

  /** `validateParam(schema, paramIndex)` applied to the method `propertyKey`. */
  method ValidateParam(schema: Schemas.Schema, propertyKey: string, descriptor: Descriptor, paramIndex: nat := 0)
    returns (d: Descriptor)
    modifies descriptor
    ensures d == descriptor
    ensures descriptor.value == ParamChecked(schema, paramIndex, propertyKey, old(descriptor.value))
  {
    var originalMethod := descriptor.value;
    descriptor.value := ParamChecked(schema, paramIndex, propertyKey, originalMethod);
    d := descriptor;
  }

  /** `validateResult(schema)` applied to the method `propertyKey`. */
  method ValidateResult(schema: Schemas.Schema, propertyKey: string, descriptor: Descriptor)
    returns (d: Descriptor)
    modifies descriptor
    ensures d == descriptor
    ensures descriptor.value == ResultChecked(schema, propertyKey, old(descriptor.value))
  {
    var originalMethod := descriptor.value;
    descriptor.value := ResultChecked(schema, propertyKey, originalMethod);
    d := descriptor;
  }

  /** `withValidation(inputSchema, outputSchema, methodName)(target, originalMethod)`. */
  function WithValidation(original: Fn, input: Schemas.Schema, output: Schemas.Schema, methodName: string): Fn
  {
    StrictlyValidated(input, output, methodName, original)
  }

  /** `createValidatedMethod(fn, inputSchema, outputSchema, methodName)`. */
  function CreateValidatedMethod(fn: Fn, input: Schemas.Schema, output: Schemas.Schema, methodName: string): Fn
  {
    Created(fn, input, output, methodName)
  }

  // ---------------------------------------------------------------------
  // validateParam

  /** A message with the singular prefix does not start with the plural one. */
  lemma SingularIsNotPlural(key: string, message: string)
    requires "Invalid parameter for " + key + ": " <= message
    ensures !("Invalid parameters for " <= message)
  {
    assert message[17] == ' ';
  }

  /**
   * A refused parameter fails the call, before the original method runs, with
   * the singular prefix "Invalid parameter for" (not the plural one of
   * `validateParams`).
   */
  lemma ParamRefused(schema: Schemas.Schema, index: nat, key: string, original: Fn, self: Value, args: seq<Value>)
    requires |args| > index && !Schemas.Conforms(schema, args[index])
    ensures
      var out := Run(ParamChecked(schema, index, key, original), self, args);
      && out.result.Err? && out.result.error.Error?
      && "Invalid parameter for " + key + ": " <= out.result.error.message
      && !("Invalid parameters for " <= out.result.error.message)
      && out.state == self && out.log == []
  {
    var checked := Validate(schema, args[index], "Invalid parameter for " + key);
    assert checked.Err? && checked.error.Error?;
    SingularIsNotPlural(key, checked.error.message);
  }

  /**
   * Otherwise the original method runs on the same receiver with the same
   * arguments, except that `args[paramIndex]` is replaced by its parsed value
   * when it was passed; its outcome is the call's outcome.
   */
  lemma ParamForwarded(schema: Schemas.Schema, index: nat, key: string, original: Fn, self: Value, args: seq<Value>)
    requires |args| > index ==> Schemas.Parse(schema, args[index]).Ok?
    ensures
      var a := if |args| > index then args[index := Schemas.Parse(schema, args[index]).value] else args;
      && |a| == |args|
      && (forall k | 0 <= k < |args| && k != index :: a[k] == args[k])
      && Run(ParamChecked(schema, index, key, original), self, args) == Run(original, self, a)
  {
  }

  // ---------------------------------------------------------------------
  // validateResult

  /**
   * The original method runs once, on the same receiver and with the same
   * arguments; what it throws is thrown unchanged, and what it returns is
   * returned only when it conforms, otherwise the call fails with the prefix
   * "Invalid response from".
   */
  lemma ResultValidated(schema: Schemas.Schema, key: string, original: Fn, self: Value, args: seq<Value>)
    ensures
      var inner := Run(original, self, args);
      var out := Run(ResultChecked(schema, key, original), self, args);
      && out.state == inner.state && out.log == inner.log
      && (inner.result.Err? ==> out.result == inner.result)
      && (inner.result.Ok? ==>
            && (out.result.Ok? <==> Schemas.Conforms(schema, inner.result.value))
            && (out.result.Ok? ==> out.result == Schemas.Parse(schema, inner.result.value))
            && (out.result.Err? ==>
                  out.result.error.Error? && "Invalid response from " + key + ": " <= out.result.error.message))
  {
  }

  // ---------------------------------------------------------------------
  // withValidation

  /**
   * The first argument is always checked, and reads as undefined when none
   * was passed; a refused one fails the call before the original method runs.
   */
  lemma StrictInputRefused(input: Schemas.Schema, output: Schemas.Schema, name: string, original: Fn,
                           self: Value, args: seq<Value>)
    requires !Schemas.Conforms(input, First(args))
    ensures
      var out := Run(WithValidation(original, input, output, name), self, args);
      && out.result.Err? && out.result.error.Error?
      && "Invalid parameters for " + name + ": " <= out.result.error.message
      && out.state == self && out.log == []
  {
  }

  /**
   * An accepted first argument is replaced by its parsed value, and becomes
   * the only argument when none was passed; the others are unchanged. The
   * original method runs on the same receiver, and its result is validated.
   */
  lemma StrictInputForwarded(input: Schemas.Schema, output: Schemas.Schema, name: string, original: Fn,
                             self: Value, args: seq<Value>)
    requires Schemas.Parse(input, First(args)).Ok?
    ensures
      var a := SetFirst(args, Schemas.Parse(input, First(args)).value);
      var inner := Run(original, self, a);
      var out := Run(WithValidation(original, input, output, name), self, args);
      && |a| == (if |args| == 0 then 1 else |args|)
      && a[0] == Schemas.Parse(input, First(args)).value
      && (forall k | 0 < k < |args| :: a[k] == args[k])
      && out.state == inner.state && out.log == inner.log
      && (inner.result.Err? ==> out.result == inner.result)
      && (inner.result.Ok? ==>
            && (out.result.Ok? <==> Schemas.Conforms(output, inner.result.value))
            && (out.result.Ok? ==> out.result == Schemas.Parse(output, inner.result.value))
            && (out.result.Err? ==>
                  out.result.error.Error? && "Invalid response from " + name + ": " <= out.result.error.message))
  {
  }

  // ---------------------------------------------------------------------
  // createValidatedMethod

  /** A refused input fails the call before `fn` runs. */
  lemma CreatedInputRefused(fn: Fn, input: Schemas.Schema, output: Schemas.Schema, name: string,
                            self: Value, args: seq<Value>)
    requires !Schemas.Conforms(input, First(args))
    ensures
      var out := Run(CreateValidatedMethod(fn, input, output, name), self, args);
      && out.result.Err? && out.result.error.Error?
      && "Invalid parameters for " + name + ": " <= out.result.error.message
      && out.state == self && out.log == []
  {
  }

  /**
   * `fn` receives the parsed input, not the raw one, as its only argument and
   * with no receiver, and is invoked exactly once when `fn` is an original
   * function; the caller's receiver is untouched, and the returned value is
   * the parsed output.
   */
  lemma CreatedPassesParsedInput(id: nat, body: (Value, seq<Value>) -> Reply, input: Schemas.Schema,
                                 output: Schemas.Schema, name: string, self: Value, args: seq<Value>)
    requires Schemas.Parse(input, First(args)).Ok?
    ensures
      var v := Schemas.Parse(input, First(args)).value;
      var reply := body(Undefined, [v]);
      var out := Run(CreateValidatedMethod(Native(id, body), input, output, name), self, args);
      && out.log == [Invocation(id, Undefined, [v])]
      && out.state == self
      && (reply.result.Err? ==> out.result == reply.result)
      && (reply.result.Ok? ==>
            && (out.result.Ok? <==> Schemas.Conforms(output, reply.result.value))
            && (out.result.Ok? ==> out.result == Schemas.Parse(output, reply.result.value))
            && (out.result.Err? ==>
                  out.result.error.Error? && "Invalid response from " + name + ": " <= out.result.error.message))
  {
  }
}
