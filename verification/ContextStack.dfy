/** The cascading-context stack of a request (context.go): 32 inline slots, then
    a slice that spills over. Pooled contexts come back with stale slots. */
module ContextStack {
  import opened Wrappers

  const INLINE_CAP: nat := 32

  /** A binding; the value `None` is nil. */
  datatype Binding = Binding(key: string, val: Option<string>)

  const NO_BINDING := Binding("", None)

  // ------------------------------------------------------------------------
  // The plain stack
  // ------------------------------------------------------------------------

  /** The nearest binding of `key`, nil without one. */
  function Lookup(stack: seq<Binding>, key: string): Option<string> {
    if stack == [] then None
    else if stack[|stack| - 1].key == key then stack[|stack| - 1].val
    else Lookup(stack[..|stack| - 1], key)
  }

  function Clamp(depth: int, len: nat): (r: nat)
    ensures r <= len
  {
    if depth < 0 then 0 else if depth > len then len else depth
  }

  function PopTo(stack: seq<Binding>, depth: int): seq<Binding> {
    stack[..Clamp(depth, |stack|)]
  }

  /** Popping leaves the longest prefix that is no longer than the depth; a negative
      depth is 0. */
  lemma PopToIsPrefix(stack: seq<Binding>, depth: int)
    ensures var r := PopTo(stack, depth);
            && r <= stack
            && (if depth < 0 then r == [] else |r| <= depth)
            && (r != stack ==> |r| == if depth < 0 then 0 else depth)
  {
  }

  /** Lookup finds the innermost binding of the key, whatever lies around it. */
  lemma {:induction false} LookupFindsNearest(below: seq<Binding>, b: Binding, above: seq<Binding>)
    requires forall j :: 0 <= j < |above| ==> above[j].key != b.key
    ensures Lookup(below + [b] + above, b.key) == b.val
  {
    var stack := below + [b] + above;
    if above == [] {
      assert stack == below + [b];
    } else {
      assert stack[..|stack| - 1] == below + [b] + above[..|above| - 1];
      assert stack[|stack| - 1] == above[|above| - 1];
      LookupFindsNearest(below, b, above[..|above| - 1]);
    }
  }

  lemma {:induction false} LookupFindsNothing(stack: seq<Binding>, key: string)
    requires forall j :: 0 <= j < |stack| ==> stack[j].key != key
    ensures Lookup(stack, key) == None
  {
    if stack != [] {
      LookupFindsNothing(stack[..|stack| - 1], key);
    }
  }

  datatype StackOp = PushOp(binding: Binding) | PopToOp(depth: int)

  function RunStack(stack: seq<Binding>, ops: seq<StackOp>): seq<Binding> {
    if ops == [] then stack
    else
      var before := RunStack(stack, ops[..|ops| - 1]);
      match ops[|ops| - 1]
      case PushOp(b) => before + [b]
      case PopToOp(depth) => PopTo(before, depth)
  }

  /** Whatever is pushed and popped inside a frame, popping to the depth saved at
      its start restores the stack, as long as no pop went below that depth. */
  lemma {:induction false} FrameRestores(stack: seq<Binding>, ops: seq<StackOp>)
    requires forall j :: 0 <= j < |ops| && ops[j].PopToOp? ==> ops[j].depth >= |stack|
    ensures |stack| <= |RunStack(stack, ops)|
    ensures PopTo(RunStack(stack, ops), |stack|) == stack
  {
    if ops != [] {
      FrameRestores(stack, ops[..|ops| - 1]);
    }
  }

  // ------------------------------------------------------------------------
  // The two-tier stack
  // ------------------------------------------------------------------------

  /** The live part of both tiers; what lies beyond the pointer is stale. */
  function Live(inlined: seq<Binding>, overflow: seq<Binding>, ptr: nat): seq<Binding>
    requires |inlined| == INLINE_CAP && ptr <= INLINE_CAP + |overflow|
  {
    if ptr <= INLINE_CAP then inlined[..ptr] else inlined + overflow[..ptr - INLINE_CAP]
  }

  /** Moving the pointer back drops a suffix, whatever happens beyond it. */
  lemma LivePrefix(inlined: seq<Binding>, overflow: seq<Binding>, ptr: nat,
                   inlined': seq<Binding>, overflow': seq<Binding>, ptr': nat)
    requires |inlined| == |inlined'| == INLINE_CAP && ptr' <= ptr
    requires ptr <= INLINE_CAP + |overflow| && ptr' <= INLINE_CAP + |overflow'|
    requires forall i :: 0 <= i < ptr' && i < INLINE_CAP ==> inlined'[i] == inlined[i]
    requires forall i: nat :: INLINE_CAP + i < ptr' ==> overflow'[i] == overflow[i]
    ensures |Live(inlined, overflow, ptr)| == ptr
    ensures Live(inlined', overflow', ptr') == Live(inlined, overflow, ptr)[..ptr']
  {
  }

  class RenderContext {
    const inlineCtx: array<Binding>
    var overflowCtx: seq<Binding>
    var ctxPtr: nat

    ghost predicate Valid()
      reads this
    {
      inlineCtx.Length == INLINE_CAP && ctxPtr <= INLINE_CAP + |overflowCtx|
    }

    /** The live bindings, outermost first. */
    function Contents(): seq<Binding>
      requires Valid()
      reads this, inlineCtx
    {
      Live(inlineCtx[..], overflowCtx, ctxPtr)
    }

    /** A new pool member. */
    constructor ()
      ensures Valid() && Contents() == []
      ensures fresh(inlineCtx)
    {
      inlineCtx := new Binding[INLINE_CAP](_ => NO_BINDING);
      overflowCtx := [];
      ctxPtr := 0;
    }

    /** A pool member is reused: only the pointer is reset. */
    method Acquire()
      requires Valid()
      modifies this`ctxPtr
      ensures Valid() && Contents() == []
    {
      ctxPtr := 0;
    }

    method PushContext(key: string, val: Option<string>)
      requires Valid()
      modifies this, inlineCtx
      ensures Valid() && Contents() == old(Contents()) + [Binding(key, val)]
    {
      var kv := Binding(key, val);
      if ctxPtr < INLINE_CAP {
        inlineCtx[ctxPtr] := kv;
      } else {
        var overflowIdx := ctxPtr - INLINE_CAP;
        if overflowIdx < |overflowCtx| {
          overflowCtx := overflowCtx[overflowIdx := kv];
        } else {
          overflowCtx := overflowCtx + [kv];
        }
      }
      ctxPtr := ctxPtr + 1;
    }

    /** Zeroes the inline slots from `from` up to the live boundary. */
    method ClearInline(from: nat)
      requires Valid() && from <= ctxPtr
      modifies inlineCtx
      ensures forall i :: 0 <= i < INLINE_CAP ==>
                inlineCtx[i] == if from <= i < ctxPtr then NO_BINDING else old(inlineCtx[i])
    {
      var i := from;
      while i < ctxPtr && i < INLINE_CAP
        invariant from <= i
        invariant i <= ctxPtr
        invariant forall j :: 0 <= j < INLINE_CAP ==>
                    inlineCtx[j] == if from <= j < i then NO_BINDING else old(inlineCtx[j])
      {
        inlineCtx[i] := NO_BINDING;
        i := i + 1;
      }
    }

    /** Zeroes the spilled slots in the given range. */
    method ClearOverflow(from: nat, end: nat)
      requires from <= end <= |overflowCtx|
      modifies this`overflowCtx
      ensures |overflowCtx| == old(|overflowCtx|)
      ensures forall i :: 0 <= i < |overflowCtx| ==>
                overflowCtx[i] == if from <= i < end then NO_BINDING else old(overflowCtx)[i]
    {
      var i := from;
      while i < end
        invariant from <= i <= end && |overflowCtx| == old(|overflowCtx|)
        invariant forall j :: 0 <= j < |overflowCtx| ==>
                    overflowCtx[j] == if from <= j < i then NO_BINDING else old(overflowCtx)[j]
      {
        overflowCtx := overflowCtx[i := NO_BINDING];
        i := i + 1;
      }
    }

    /** Every slot from the live boundary up to `end` is zero. */
    ghost predicate ClearedUpTo(end: nat)
      requires Valid()
      reads this, inlineCtx
    {
      && (forall i :: ctxPtr <= i < end && i < INLINE_CAP ==> inlineCtx[i] == NO_BINDING)
      && (forall i: nat :: ctxPtr <= INLINE_CAP + i < end && i < |overflowCtx| ==> overflowCtx[i] == NO_BINDING)
    }

    /** Unwinds to a saved depth, clamped to the live range, and lets go of what
        was popped. */
    method PopContextTo(savedPtr: int)
      requires Valid()
      modifies this, inlineCtx
      ensures Valid() && Contents() == PopTo(old(Contents()), savedPtr)
      ensures ClearedUpTo(old(ctxPtr))
    {
      hide Live;
      var saved := Clamp(savedPtr, ctxPtr);
      ClearInline(saved);
      if ctxPtr > INLINE_CAP {
        var overflowEnd := ctxPtr - INLINE_CAP;
        if saved >= INLINE_CAP {
          ClearOverflow(saved - INLINE_CAP, overflowEnd);
        } else {
          ClearOverflow(0, |overflowCtx|);
          overflowCtx := [];
        }
      }
      LivePrefix(old(inlineCtx[..]), old(overflowCtx), old(ctxPtr), inlineCtx[..], overflowCtx, saved);
      ctxPtr := saved;
    }

    method GetContext(key: string) returns (val: Option<string>)
      requires Valid()
      ensures val == Lookup(Contents(), key)
    {
      var i := ctxPtr - 1;
      assert Contents()[..i + 1] == Contents();
      while i >= 0
        invariant -1 <= i < ctxPtr
        invariant Lookup(Contents(), key) == Lookup(Contents()[..i + 1], key)
      {
        var kv := if i < INLINE_CAP then inlineCtx[i] else overflowCtx[i - INLINE_CAP];
        assert Contents()[..i + 1][..i] == Contents()[..i];
        if kv.key == key {
          return kv.val;
        }
        i := i - 1;
      }
      val := None;
    }
  }
}
