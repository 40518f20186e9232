/** The error kinds of the engine: the variants of src/error.rs, plus the two the
    core adds for enum and string decoding. */
module Errors {
  import opened Bytes

  datatype Error =
    | Io                                                   // an OS call failed (the errno is not modelled)
    | Memory(msg: string)                                  // a read the channel could not satisfy
    | InsufficentMemory(msg: string, expected: nat, actual: nat)  // destination buffer too short
    | MissingGameProcess                                   // no target process on the first probe
    | GameProcessClosed                                    // the bound target has exited
    | InvalidEnumValue(enumType: string, value: string)    // raw value outside a closed table
    | InvalidString(bytes: seq<byte>)                      // bytes that had to be UTF-8 and were not
}

/** Option, and the three outcomes of a call in the source: a value, a returned
    `Error`, or a panic (an `unwrap`, an `expect`, an out-of-range slice). A panic is
    not an `Error` value: no `filter_map` or `find_map` can swallow it. */
module Wrappers {
  import opened Errors

  datatype Option<+T> = None | Some(value: T)

  datatype Result<+T> = Ok(value: T) | Err(error: Error) | Panic(reason: string) {
    predicate IsFailure() {
      !Ok?
    }

    function PropagateFailure<U>(): (r: Result<U>)
      requires !Ok?
      ensures Err? ==> r == Err(error)
      ensures Panic? ==> r == Panic(reason)
    {
      if Err? then Err(error) else Panic(reason)
    }

    function Extract(): T
      requires Ok?
    {
      value
    }
  }

  /** The outcome of a step with its value forgotten. */
  function Status<T>(r: Result<T>): (s: Result<()>)
    ensures s.Ok? <==> r.Ok?
    ensures !r.Ok? ==> s == r.PropagateFailure()
  {
    if r.Ok? then Ok(()) else r.PropagateFailure()
  }

  /** The panic of a slice whose end lies past the end of the sequence. */
  const SliceEndOutOfRange: string := "range end index out of range for slice"

  const UnwrapOnNone: string := "called `Option::unwrap()` on a `None` value"

  /** `Option::unwrap`: the value, or a panic. */
  function Unwrap<T>(o: Option<T>): (r: Result<T>)
    ensures r.Ok? <==> o.Some?
    ensures o.Some? ==> r.value == o.value
    ensures o.None? ==> r == Panic(UnwrapOnNone)
  {
    match o
    case Some(v) => Ok(v)
    case None => Panic(UnwrapOnNone)
  }

  /** `expect(msg)` on an absent value: the value, or a panic with the message. */
  function Expect<T>(o: Option<T>, msg: string): (r: Result<T>)
    ensures r.Ok? <==> o.Some?
    ensures o.Some? ==> r.value == o.value
    ensures o.None? ==> r == Panic(msg)
  {
    match o
    case Some(v) => Ok(v)
    case None => Panic(msg)
  }

  /** A chain of `?` steps run in order: the first step that fails decides the outcome. */
  function FirstFailure(steps: seq<Result<()>>): Result<()>
  {
    FirstFailureFrom(steps, 0)
  }

  /** The outcome of the steps from `i` on. */
  function FirstFailureFrom(steps: seq<Result<()>>, i: nat): Result<()>
    requires i <= |steps|
    decreases |steps| - i
  {
    if i == |steps| then Ok(())
    else if !steps[i].Ok? then steps[i]
    else FirstFailureFrom(steps, i + 1)
  }

  /** A chain succeeds exactly when every step does; otherwise its outcome is the
      failure of the first step that fails. */
  lemma FirstFailureMeaning(steps: seq<Result<()>>)
    ensures FirstFailure(steps).Ok? <==> forall i :: 0 <= i < |steps| ==> steps[i].Ok?
    ensures !FirstFailure(steps).Ok? ==>
              exists i :: 0 <= i < |steps| && steps[i] == FirstFailure(steps) && forall j :: 0 <= j < i ==> steps[j].Ok?
  {
    FromMeaning(steps, 0);
  }

  lemma {:induction false} FromMeaning(steps: seq<Result<()>>, i: nat)
    requires i <= |steps|
    ensures FirstFailureFrom(steps, i).Ok? <==> forall j :: i <= j < |steps| ==> steps[j].Ok?
    ensures !FirstFailureFrom(steps, i).Ok? ==>
              exists k :: i <= k < |steps| && steps[k] == FirstFailureFrom(steps, i) && forall j :: i <= j < k ==> steps[j].Ok?
    decreases |steps| - i
  {
    if i < |steps| && steps[i].Ok? {
      FromMeaning(steps, i + 1);
    }
  }

  /** A chain of ten steps. */
  lemma Chain10(s0: Result<()>, s1: Result<()>, s2: Result<()>, s3: Result<()>, s4: Result<()>,
                s5: Result<()>, s6: Result<()>, s7: Result<()>, s8: Result<()>, s9: Result<()>)
    ensures FirstFailure([s0, s1, s2, s3, s4, s5, s6, s7, s8, s9]) ==
            if !s0.Ok? then s0 else if !s1.Ok? then s1 else if !s2.Ok? then s2 else if !s3.Ok? then s3
            else if !s4.Ok? then s4 else if !s5.Ok? then s5 else if !s6.Ok? then s6 else if !s7.Ok? then s7
            else if !s8.Ok? then s8 else if !s9.Ok? then s9 else Ok(())
  {
    var s := [s0, s1, s2, s3, s4, s5, s6, s7, s8, s9];
    assert FirstFailureFrom(s, 10) == Ok(());
    assert FirstFailureFrom(s, 8) == if !s8.Ok? then s8 else if !s9.Ok? then s9 else Ok(());
    assert FirstFailureFrom(s, 6) == if !s6.Ok? then s6 else if !s7.Ok? then s7 else FirstFailureFrom(s, 8);
    assert FirstFailureFrom(s, 4) == if !s4.Ok? then s4 else if !s5.Ok? then s5 else FirstFailureFrom(s, 6);
    assert FirstFailureFrom(s, 2) == if !s2.Ok? then s2 else if !s3.Ok? then s3 else FirstFailureFrom(s, 4);
    assert FirstFailureFrom(s, 0) == if !s0.Ok? then s0 else if !s1.Ok? then s1 else FirstFailureFrom(s, 2);
  }

  /** Chains of four, seven and nine steps. */
  lemma Chain4(s0: Result<()>, s1: Result<()>, s2: Result<()>, s3: Result<()>)
    ensures FirstFailure([s0, s1, s2, s3]) ==
            if !s0.Ok? then s0 else if !s1.Ok? then s1 else if !s2.Ok? then s2 else if !s3.Ok? then s3 else Ok(())
  {
    var s := [s0, s1, s2, s3];
    assert FirstFailureFrom(s, 4) == Ok(());
    assert FirstFailureFrom(s, 2) == if !s2.Ok? then s2 else if !s3.Ok? then s3 else Ok(());
    assert FirstFailureFrom(s, 0) == if !s0.Ok? then s0 else if !s1.Ok? then s1 else FirstFailureFrom(s, 2);
  }

  lemma Chain7(s0: Result<()>, s1: Result<()>, s2: Result<()>, s3: Result<()>, s4: Result<()>,
               s5: Result<()>, s6: Result<()>)
    ensures FirstFailure([s0, s1, s2, s3, s4, s5, s6]) ==
            if !s0.Ok? then s0 else if !s1.Ok? then s1 else if !s2.Ok? then s2 else if !s3.Ok? then s3
            else if !s4.Ok? then s4 else if !s5.Ok? then s5 else if !s6.Ok? then s6 else Ok(())
  {
    var s := [s0, s1, s2, s3, s4, s5, s6];
    assert FirstFailureFrom(s, 7) == Ok(());
    assert FirstFailureFrom(s, 5) == if !s5.Ok? then s5 else if !s6.Ok? then s6 else Ok(());
    assert FirstFailureFrom(s, 3) == if !s3.Ok? then s3 else if !s4.Ok? then s4 else FirstFailureFrom(s, 5);
    assert FirstFailureFrom(s, 1) == if !s1.Ok? then s1 else if !s2.Ok? then s2 else FirstFailureFrom(s, 3);
    assert FirstFailureFrom(s, 0) == if !s0.Ok? then s0 else FirstFailureFrom(s, 1);
  }

  lemma Chain9(s0: Result<()>, s1: Result<()>, s2: Result<()>, s3: Result<()>, s4: Result<()>,
               s5: Result<()>, s6: Result<()>, s7: Result<()>, s8: Result<()>)
    ensures FirstFailure([s0, s1, s2, s3, s4, s5, s6, s7, s8]) ==
            if !s0.Ok? then s0 else if !s1.Ok? then s1 else if !s2.Ok? then s2 else if !s3.Ok? then s3
            else if !s4.Ok? then s4 else if !s5.Ok? then s5 else if !s6.Ok? then s6 else if !s7.Ok? then s7
            else if !s8.Ok? then s8 else Ok(())
  {
    var s := [s0, s1, s2, s3, s4, s5, s6, s7, s8];
    assert FirstFailureFrom(s, 9) == Ok(());
    assert FirstFailureFrom(s, 7) == if !s7.Ok? then s7 else if !s8.Ok? then s8 else Ok(());
    assert FirstFailureFrom(s, 5) == if !s5.Ok? then s5 else if !s6.Ok? then s6 else FirstFailureFrom(s, 7);
    assert FirstFailureFrom(s, 3) == if !s3.Ok? then s3 else if !s4.Ok? then s4 else FirstFailureFrom(s, 5);
    assert FirstFailureFrom(s, 1) == if !s1.Ok? then s1 else if !s2.Ok? then s2 else FirstFailureFrom(s, 3);
    assert FirstFailureFrom(s, 0) == if !s0.Ok? then s0 else FirstFailureFrom(s, 1);
  }

  lemma Chain8(s0: Result<()>, s1: Result<()>, s2: Result<()>, s3: Result<()>, s4: Result<()>,
               s5: Result<()>, s6: Result<()>, s7: Result<()>)
    ensures FirstFailure([s0, s1, s2, s3, s4, s5, s6, s7]) ==
            if !s0.Ok? then s0 else if !s1.Ok? then s1 else if !s2.Ok? then s2 else if !s3.Ok? then s3
            else if !s4.Ok? then s4 else if !s5.Ok? then s5 else if !s6.Ok? then s6 else if !s7.Ok? then s7
            else Ok(())
  {
    var s := [s0, s1, s2, s3, s4, s5, s6, s7];
    assert FirstFailureFrom(s, 8) == Ok(());
    assert FirstFailureFrom(s, 6) == if !s6.Ok? then s6 else if !s7.Ok? then s7 else Ok(());
    assert FirstFailureFrom(s, 4) == if !s4.Ok? then s4 else if !s5.Ok? then s5 else FirstFailureFrom(s, 6);
    assert FirstFailureFrom(s, 2) == if !s2.Ok? then s2 else if !s3.Ok? then s3 else FirstFailureFrom(s, 4);
    assert FirstFailureFrom(s, 0) == if !s0.Ok? then s0 else if !s1.Ok? then s1 else FirstFailureFrom(s, 2);
  }

  /** Dropping a first step that succeeds. */
  lemma {:induction false} FromShift(steps: seq<Result<()>>, i: nat)
    requires 0 < |steps| && i <= |steps| - 1
    ensures FirstFailureFrom(steps, i + 1) == FirstFailureFrom(steps[1..], i)
    decreases |steps| - i
  {
    if i < |steps| - 1 && steps[i + 1].Ok? {
      FromShift(steps, i + 1);
    }
  }
}
