/** The bounded operand stack of the virtual machine. */
module Stacks {
  import opened Errors
  import opened Values

  /** The default capacity of a stack. */
  const STACK_SIZE_LIMIT: nat := 1024

  class Stack {
    /** Bottom first: the top of the stack is the last element. */
    var values: seq<Value>
    var maxSize: nat

    /** The stack never holds more than its capacity. */
    ghost predicate Valid()
      reads this
    {
      |values| <= maxSize
    }

    /** `Stack::new`. */
    constructor ()
      ensures Valid() && values == [] && maxSize == STACK_SIZE_LIMIT
    {
      values := [];
      maxSize := STACK_SIZE_LIMIT;
    }

    /** `Stack::with_capacity`: an empty stack holding at most `maxSize` values. */
    constructor WithCapacity(maxSize: nat)
      ensures Valid() && values == [] && this.maxSize == maxSize
    {
      values := [];
      this.maxSize := maxSize;
    }

    /** `Stack::push`: refuses to grow past the capacity. */
    method Push(v: Value) returns (r: Result<()>)
      requires Valid()
      modifies this
      ensures Valid() && maxSize == old(maxSize)
      ensures old(|values|) >= maxSize ==> r == Err(StackOverflow) && values == old(values)
      ensures old(|values|) < maxSize ==> r == Ok(()) && values == old(values) + [v]
    {
      if |values| >= maxSize {
        return Err(StackOverflow);
      }
      values := values + [v];
      r := Ok(());
    }

    /** `Stack::pop`: removes and returns the most recently pushed value. */
    method Pop() returns (r: Result<Value>)
      requires Valid()
      modifies this
      ensures Valid() && maxSize == old(maxSize)
      ensures old(|values|) == 0 ==> r == Err(StackUnderflow) && values == old(values)
      ensures old(|values|) > 0 ==> r == Ok(old(values)[|old(values)| - 1]) && values == old(values)[..|old(values)| - 1]
    {
      if |values| == 0 {
        return Err(StackUnderflow);
      }
      r := Ok(values[|values| - 1]);
      values := values[..|values| - 1];
    }

    /** `Stack::peek`: the top value, without removing it. */
    function Peek(): (r: Result<Value>)
      reads this
      ensures r.Ok? <==> |values| > 0
      ensures r.Ok? ==> r.value == values[|values| - 1]
      ensures r.Err? ==> r.error == StackUnderflow
    {
      if |values| == 0 then Err(StackUnderflow) else Ok(values[|values| - 1])
    }

    /** `Stack::dup`: pushes a copy of the top value. */
    method Dup() returns (r: Result<()>)
      requires Valid()
      modifies this
      ensures Valid() && maxSize == old(maxSize)
      ensures old(|values|) == 0 ==> r == Err(StackUnderflow) && values == old(values)
      ensures 0 < old(|values|) < maxSize ==> r == Ok(()) && values == old(values) + [old(values)[|old(values)| - 1]]
      ensures 0 < old(|values|) && old(|values|) >= maxSize ==> r == Err(StackOverflow) && values == old(values)
    {
      var top := Peek();
      if top.Err? {
        return Err(top.error);
      }
      r := Push(top.value);
    }

    /** `Stack::len`. */
    function Len(): (n: nat)
      reads this
      ensures n == |values|
    {
      |values|
    }

    /** `Stack::is_empty`. */
    predicate IsEmpty()
      reads this
      ensures IsEmpty() <==> Len() == 0
    {
      |values| == 0
    }

    /** `Stack::clear`. */
    method Clear()
      requires Valid()
      modifies this
      ensures Valid() && values == [] && maxSize == old(maxSize)
    {
      values := [];
    }

    /** `Stack::get`: the value `depth` places below the top. */
    function Get(depth: nat): (r: Result<Value>)
      reads this
      ensures r.Ok? <==> depth < |values|
      ensures r.Ok? ==> r.value == values[|values| - 1 - depth]
      ensures r.Err? ==> r.error == StackUnderflow
      ensures depth == 0 ==> r == Peek()
    {
      if depth >= |values| then Err(StackUnderflow) else Ok(values[|values| - 1 - depth])
    }

    /** `Stack::set`: overwrites the value `depth` places below the top and nothing else. */
    method Set(depth: nat, v: Value) returns (r: Result<()>)
      requires Valid()
      modifies this
      ensures Valid() && maxSize == old(maxSize) && |values| == old(|values|)
      ensures depth >= old(|values|) ==> r == Err(StackUnderflow) && values == old(values)
      ensures depth < old(|values|) ==> r == Ok(()) && Get(depth) == Ok(v)
      ensures forall i :: 0 <= i < |values| && i + depth != |values| - 1 ==> values[i] == old(values)[i]
    {
      if depth >= |values| {
        return Err(StackUnderflow);
      }
      values := values[|values| - 1 - depth := v];
      r := Ok(());
    }
  }
}
