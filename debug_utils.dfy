/**
 * DebugUtils.getCaller, which finds the frame of a calling method in a stack trace, and the
 * class-name stripping of logCurrentMethod. The stack trace is a parameter; the log call is
 * represented by the line it would write.
 */
module DebugUtils {
  import opened Wrappers
  import opened JavaLang

  datatype StackFrame = StackFrame(className: string, methodName: string)

  datatype Failure = IllegalArgument | ArrayIndexOutOfBounds

  /** The method name getCaller looks for in the trace: its own. */
  const SelfName: string := "getCaller"

  /** The first index at or after `from`, below the last index, whose frame is a getCaller frame. */
  function SelfFrameFrom(trace: seq<StackFrame>, from: nat): (r: Option<nat>)
    decreases |trace| - from
    ensures r.Some? ==> from <= r.value < |trace| - 1 && trace[r.value].methodName == SelfName
    ensures forall j :: from <= j < (if r.Some? then r.value else |trace| - 1) ==> trace[j].methodName != SelfName
  {
    if from + 1 >= |trace| then None
    else if trace[from].methodName == SelfName then Some(from)
    else SelfFrameFrom(trace, from + 1)
  }

  /** The index the loop of getCaller stops at, if any. */
  function SelfFrame(trace: seq<StackFrame>): Option<nat> {
    SelfFrameFrom(trace, 0)
  }

  /** A Java array's length is a non-negative `int`. */
  predicate IsJavaArray(trace: Option<seq<StackFrame>>) {
    trace.Some? ==> |trace.value| <= MaxValue as int
  }

  /**
   * What getCaller as written returns or throws. The sums depth + 2 and i + depth + 1 are Java
   * `int` sums: for depth near Integer.MAX_VALUE the length guard wraps negative and lets any
   * trace through, and the index read wraps negative too. The length guard only ensures
   * depth + 2 frames, while the frame read is depth + 1 past the getCaller frame, which may
   * itself lie past index 0.
   */
  function CallerAsWritten(depth: int32, trace: Option<seq<StackFrame>>): (r: Result<Option<StackFrame>, Failure>)
    requires IsJavaArray(trace)
    ensures depth < 0 <==> r == Failure(IllegalArgument)
    ensures r.Success? && r.value.Some? ==>
      trace.Some? && SelfFrame(trace.value).Some? &&
      exists k :: SelfFrame(trace.value).value < k < |trace.value| && r.value.value == trace.value[k]
    ensures depth >= 0 && trace.Some? && SelfFrame(trace.value).None? ==> r == Success(None)
  {
    if depth < 0 then Failure(IllegalArgument)
    else if trace.None? || |trace.value| < Wrap(depth as int + 2) as int then Success(None)
    else
      match SelfFrame(trace.value)
      case None => Success(None)
      case Some(i) =>
        var k := Wrap(i + depth as int + 1) as int;
        if 0 <= k < |trace.value| then Success(Some(trace.value[k])) else Failure(ArrayIndexOutOfBounds)
  }

  /** getCaller as written, with `int` arithmetic on the depth and the index. */
  method GetCallerAsWritten(depth: int32, trace: Option<seq<StackFrame>>) returns (r: Result<Option<StackFrame>, Failure>)
    requires IsJavaArray(trace)
    ensures r == CallerAsWritten(depth, trace)
  {
    if depth < 0 {
      return Failure(IllegalArgument);
    }
    if trace.None? || |trace.value| < Wrap(depth as int + 2) as int {
      return Success(None);
    }
    var t := trace.value;
    var i := 0;
    while i < |t| - 1
      invariant 0 <= i <= |t|
      invariant SelfFrame(t) == SelfFrameFrom(t, i)
    {
      if t[i].methodName == SelfName {
        var k := Wrap(i + depth as int + 1) as int;
        if k < 0 || k >= |t| {
          return Failure(ArrayIndexOutOfBounds);
        }
        return Success(Some(t[k]));
      }
      i := i + 1;
    }
    return Success(None);
  }

  /**
   * With depth = Integer.MAX_VALUE the length guard compares against a negative number, so a
   * three-frame trace passes it, and the index read wraps to Integer.MIN_VALUE.
   */
  lemma CallerAsWrittenWrapsAtMaxDepth()
    ensures var t := [StackFrame("com.android.messaging.util.DebugUtils", "getCaller"),
                      StackFrame("com.android.messaging.util.Assert", "fail"),
                      StackFrame("com.android.messaging.ui.Main", "onCreate")];
            Wrap(MaxValue as int + 2) < 0 && SelfFrame(t) == Some(0) &&
            Wrap(0 + MaxValue as int + 1) == MinValue &&
            CallerAsWritten(MaxValue, Some(t)) == Failure(ArrayIndexOutOfBounds)
  {
    var t := [StackFrame("com.android.messaging.util.DebugUtils", "getCaller"),
              StackFrame("com.android.messaging.util.Assert", "fail"),
              StackFrame("com.android.messaging.ui.Main", "onCreate")];
    assert SelfFrameFrom(t, 0) == Some(0);
  }

  /**
   * A trace on which getCaller as written indexes past the end: the usual Android shape
   * (VMStack.getThreadStackTrace, Thread.getStackTrace, getCaller, caller) with depth 1
   * passes the length guard, and the frame read would be index 4 of 4.
   */
  lemma GetCallerAsWrittenOverrun()
    ensures var t := [StackFrame("dalvik.system.VMStack", "getThreadStackTrace"),
                      StackFrame("java.lang.Thread", "getStackTrace"),
                      StackFrame("com.android.messaging.util.DebugUtils", "getCaller"),
                      StackFrame("com.android.messaging.util.DebugUtils", "logCurrentMethod")];
            |t| >= 1 + 2 && SelfFrame(t) == Some(2) && 2 + 1 + 1 >= |t| &&
            CallerAsWritten(1, Some(t)) == Failure(ArrayIndexOutOfBounds)
  {
  }

  /** The frame getCaller is meant to return: depth + 1 past the getCaller frame, when it exists. */
  function Caller(depth: nat, trace: Option<seq<StackFrame>>): (r: Option<StackFrame>)
    ensures r.Some? <==>
      trace.Some? && |trace.value| >= depth + 2 && SelfFrame(trace.value).Some? &&
      SelfFrame(trace.value).value + depth + 1 < |trace.value|
    ensures r.Some? ==> r.value == trace.value[SelfFrame(trace.value).value + depth + 1]
  {
    if trace.None? || |trace.value| < depth + 2 then None
    else
      match SelfFrame(trace.value)
      case Some(i) => if i + depth + 1 < |trace.value| then Some(trace.value[i + depth + 1]) else None
      case None => None
  }

  /** Whenever getCaller as written returns normally, it returns the intended frame. */
  lemma CallerAsWrittenAgrees(depth: int32, trace: Option<seq<StackFrame>>)
    requires IsJavaArray(trace) && depth >= 0
    ensures CallerAsWritten(depth, trace).Success? ==>
      CallerAsWritten(depth, trace).value == Caller(depth as nat, trace)
    ensures CallerAsWritten(depth, trace).Failure? ==> Caller(depth as nat, trace).None?
  {
  }

  /**
   * getCaller with the sums taken without overflow and the index guarded: null when the frame
   * asked for is not on the trace.
   */
  method GetCaller(depth: int32, trace: Option<seq<StackFrame>>) returns (r: Result<Option<StackFrame>, Failure>)
    ensures depth < 0 ==> r == Failure(IllegalArgument)
    ensures depth >= 0 ==> r == Success(Caller(depth as nat, trace))
  {
    if depth < 0 {
      return Failure(IllegalArgument);
    }
    if trace.None? || |trace.value| < depth as int + 2 {
      return Success(None);
    }
    var t := trace.value;
    var i := 0;
    while i < |t| - 1
      invariant 0 <= i <= |t| - 1
      invariant SelfFrame(t) == SelfFrameFrom(t, i)
    {
      if t[i].methodName == SelfName {
        if i + depth as int + 1 >= |t| {
          return Success(None);
        }
        return Success(Some(t[i + depth as int + 1]));
      }
      i := i + 1;
    }
    return Success(None);
  }

  /** String.lastIndexOf(char): the last index holding c, or -1. */
  function LastIndexOf(s: string, c: char): (r: int)
    ensures -1 <= r < |s|
    ensures r >= 0 ==> s[r] == c
    ensures forall j :: r < j < |s| ==> s[j] != c
  {
    if s == [] then -1
    else if s[|s| - 1] == c then |s| - 1
    else LastIndexOf(s[..|s| - 1], c)
  }

  /** The class name with its package stripped: what follows the last dot. */
  function SimpleClassName(className: string): (r: string)
    ensures '.' !in r
    ensures '.' !in className ==> r == className
    ensures '.' in className ==>
      |r| < |className| && className[|className| - |r| - 1] == '.' && className[|className| - |r|..] == r
  {
    var lastDot := LastIndexOf(className, '.');
    if lastDot > -1 then className[lastDot + 1..] else className
  }

  /** logCurrentMethod: the line it logs, if any, for the caller of its caller. */
  method LogCurrentMethod(loggable: bool, trace: Option<seq<StackFrame>>) returns (line: Option<string>)
    ensures !loggable || Caller(1, trace).None? ==> line == None
    ensures loggable && IsJavaArray(trace) && CallerAsWritten(1, trace) == Success(None) ==> line == None
    ensures loggable && Caller(1, trace).Some? ==>
      var frame := Caller(1, trace).value;
      line == Some(SimpleClassName(frame.className) + "." + frame.methodName)
  {
    if !loggable {
      return None;
    }
    var caller := GetCaller(1, trace);
    if caller.Failure? || caller.value.None? {
      return None;
    }
    var frame := caller.value.value;
    var className := frame.className;
    var lastDot := LastIndexOf(className, '.');
    if lastDot > -1 {
      className := className[lastDot + 1..];
    }
    line := Some(className + "." + frame.methodName);
  }
}
