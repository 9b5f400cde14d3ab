/**
 * The result carriers of the evaluator: RuntimeResult, which every handler
 * creates, fills and returns (struct/result/RuntimeResult.java), and VarResult
 * (struct/result/VarResult.java).
 */
module RuntimeResults {
  import opened Wrappers
  import opened Errors
  import opened Values

  /** The five fields of a RuntimeResult; Java null is `None`. */
  datatype Outcome = Outcome(
    result: Option<Value>,
    error: Option<SkError>,
    returnValue: Option<Value>,
    loopContinue: bool,
    loopBreak: bool)
  {
    /** `success()`: no error is set. */
    predicate Success()
    {
      error.None?
    }

    /** `shouldReturn()`: an error, a return value, a continue or a break is set. */
    predicate ShouldReturn()
    {
      error.Some? || returnValue.Some? || loopContinue || loopBreak
    }
  }

  /** A new result, and what `reset` leaves: every field null or false. */
  function Cleared(): (o: Outcome)
    ensures o.result.None? && o.error.None? && o.returnValue.None? && !o.loopContinue && !o.loopBreak
  {
    Outcome(None, None, None, false, false)
  }

  /** The state `success(value)` leaves. */
  function Succeeded(value: Option<Value>): (o: Outcome)
    ensures o == Cleared().(result := value)
  {
    Outcome(value, None, None, false, false)
  }

  /** The state `failure(error)` leaves. */
  function Failed(error: SkError): (o: Outcome)
    ensures o == Cleared().(error := Some(error))
  {
    Outcome(None, Some(error), None, false, false)
  }

  /** The state `successReturn(value)` leaves. */
  function Returned(value: Option<Value>): (o: Outcome)
    ensures o == Cleared().(returnValue := value)
  {
    Outcome(None, None, value, false, false)
  }

  /** The state `successContinue()` leaves. */
  function Continued(): (o: Outcome)
    ensures o == Cleared().(loopContinue := true)
  {
    Outcome(None, None, None, true, false)
  }

  /** The state `successBreak()` leaves. */
  function Broken(): (o: Outcome)
    ensures o == Cleared().(loopBreak := true)
  {
    Outcome(None, None, None, false, true)
  }

  /** The state `register(child)` leaves: the child's four signal fields, and this result's own `result`. */
  function Registered(self: Outcome, child: Outcome): (o: Outcome)
    ensures o.result == self.result
    ensures o.error == child.error && o.returnValue == child.returnValue
    ensures o.loopContinue == child.loopContinue && o.loopBreak == child.loopBreak
  {
    child.(result := self.result)
  }

  class RuntimeResult {
    var result: Option<Value>
    var error: Option<SkError>
    var returnValue: Option<Value>
    var loopContinue: bool
    var loopBreak: bool

    function State(): Outcome
      reads this
    {
      Outcome(result, error, returnValue, loopContinue, loopBreak)
    }

    constructor ()
      ensures State() == Cleared()
    {
      result := None;
      error := None;
      returnValue := None;
      loopContinue := false;
      loopBreak := false;
    }

    /** `reset`. */
    method Reset()
      modifies this
      ensures State() == Cleared()
    {
      result := None;
      error := None;
      returnValue := None;
      loopContinue := false;
      loopBreak := false;
    }

    predicate Success()
      reads this
    {
      State().Success()
    }

    predicate ShouldReturn()
      reads this
    {
      State().ShouldReturn()
    }

    /** `register(child)`: takes over the child's signals and gives back the child's value. */
    method Register(child: Outcome) returns (value: Option<Value>)
      modifies this
      ensures State() == Registered(old(State()), child)
      ensures value == child.result
    {
      error := child.error;
      returnValue := child.returnValue;
      loopContinue := child.loopContinue;
      loopBreak := child.loopBreak;
      value := child.result;
    }

    /** `failure(error)`. */
    method Failure(e: SkError)
      modifies this
      ensures State() == Failed(e)
    {
      Reset();
      error := Some(e);
    }

    /** `success(value)`. */
    method Succeed(value: Option<Value>)
      modifies this
      ensures State() == Succeeded(value)
    {
      Reset();
      result := value;
    }

    /** `successReturn(value)`. */
    method SucceedReturn(value: Option<Value>)
      modifies this
      ensures State() == Returned(value)
    {
      Reset();
      returnValue := value;
    }

    /** `successContinue()`. */
    method SucceedContinue()
      modifies this
      ensures State() == Continued()
    {
      Reset();
      loopContinue := true;
    }

    /** `successBreak()`. */
    method SucceedBreak()
      modifies this
      ensures State() == Broken()
    {
      Reset();
      loopBreak := true;
    }
  }

  /** VarResult's `success()`: true exactly when an error is set, the opposite of what the name says. */
  predicate VarSuccess(error: Option<SkError>)
  {
    error.Some?
  }

  class VarResult {
    var error: Option<SkError>

    constructor ()
      ensures error.None?
    {
      error := None;
    }

    predicate Success()
      reads this
    {
      VarSuccess(error)
    }

    /** `setSuccess()`: changes nothing. */
    method SetSuccess()
      ensures error == old(error)
    {
    }

    /** `failure(error)`: stores the error in this same result. */
    method Failure(e: SkError)
      modifies this
      ensures error == Some(e)
    {
      error := Some(e);
    }
  }

  // Properties

  /** After `success(v)` nothing signals and the value is `v`; after `failure(e)` the result signals and is not a success. */
  lemma SuccessAndFailure(v: Option<Value>, e: SkError)
    ensures !Succeeded(v).ShouldReturn() && Succeeded(v).Success() && Succeeded(v).result == v
    ensures Failed(e).ShouldReturn() && !Failed(e).Success() && Failed(e).error == Some(e)
  {
  }

  /** `continue` and `break` signal without an error; a return signals only when its value is not null. */
  lemma ControlSignals(v: Option<Value>)
    ensures Continued().ShouldReturn() && Continued().Success()
    ensures Broken().ShouldReturn() && Broken().Success()
    ensures Returned(v).ShouldReturn() <==> v.Some?
  {
  }

  /** Each setter clears the four fields it does not set, so two results left by different setters differ. */
  lemma SettersAreDistinct(v: Option<Value>, w: Option<Value>, e: SkError)
    ensures Failed(e) != Succeeded(v) && Failed(e) != Returned(w) && Failed(e) != Continued() && Failed(e) != Broken()
    ensures Continued() != Broken() && Continued() != Succeeded(v) && Broken() != Succeeded(v)
    ensures Continued() != Returned(w) && Broken() != Returned(w)
    ensures v.Some? ==> Succeeded(v) != Returned(w)
  {
  }

  /** `register` propagates the child's signal and its success; registering the same child twice is the same as once. */
  lemma RegisterPropagates(self: Outcome, child: Outcome)
    ensures Registered(self, child).ShouldReturn() == child.ShouldReturn()
    ensures Registered(self, child).Success() == child.Success()
    ensures Registered(Registered(self, child), child) == Registered(self, child)
  {
  }

  /** What `register` leaves does not depend on the signals the result had before. */
  lemma RegisterForgets(self: Outcome, other: Outcome, child: Outcome)
    requires self.result == other.result
    ensures Registered(self, child) == Registered(other, child)
  {
  }

  /** VarResult's `success()` is inverted: a new VarResult is not a success, one given a failure is. */
  lemma VarSuccessInverted(e: SkError)
    ensures !VarSuccess(None)
    ensures VarSuccess(Some(e))
  {
  }
}
