/**
  The three o.expr handlers of ose_o.expr.c -- parse, eval and free -- over the
  operand stack of OseStack.

  Each handler is specified by a function of the machine state (ParseSpec,
  EvalSpec, FreeSpec) and implemented by a method of class Vm that changes the
  stack and the error field in place, call by call, as the C code does. The
  foreign calls are parameters: the expression parser
  (osc_expr_parser_parseExpr), the per-node evaluator (osc_expr_eval), the
  memory allocator's success (osc_mem_alloc), the byte encoding of a stack
  element, and the reading of non-pointer bytes as a pointer.
*/
module OExpr {
  import opened OseStack

  /**
    A result atom produced by a chain node (an osc atom_u). The constructor is
    the branch its type tag selects: IntAtom for a tag OSC_TYPETAG_ISINT
    accepts, BoolAtom for OSC_TYPETAG_ISBOOL, FloatAtom for OSC_TYPETAG_ISFLOAT,
    StringAtom for OSC_TYPETAG_ISSTRING, BlobAtom for 'b', OtherAtom for any
    other tag. The payloads are what the osc_atom_u_get* accessors return:
    `value` is osc_atom_u_getInt32 / getFloat, `len` is osc_atom_u_getBlobLen
    and `storage` the bytes osc_atom_u_getBlob points at (a 4-byte length
    prefix, then the data), or None for NULL.
  */
  datatype Atom =
    | IntAtom(value: Int32)
    | BoolAtom(value: Int32)
    | FloatAtom(f: Float32)
    | StringAtom(text: string)
    | BlobAtom(len: Int32, storage: Option<seq<byte>>)
    | OtherAtom(tag: char)

  /**
    What osc_expr_eval does for one node: its return code, the buffer as the
    node leaves it, and the atom array it hands back (None for NULL).
  */
  datatype NodeOutput = NodeOutput(status: int, buf: seq<byte>, atoms: Option<seq<Atom>>)

  /** What osc_expr_parser_parseExpr does: an error, or a handle (which may be NULL). */
  datatype ParseOutcome = ParseError | Parsed(head: Ptr)

  /** What happened to the buffer Eval allocates. */
  datatype BufferFate = NotAllocated | Released | Leaked

  /** The push one atom causes before its ose_push. */
  datatype Materialized = Pushes(arg: Arg) | NoBranch | Undefined

  /** The bytes ose_pushBlob is taken to push from a NULL source. */
  function Zeros(n: nat): seq<byte>
  {
    seq(n, _ => 0)
  }

  /**
    The if / else-if chain over the atom's tag: the value pushed, NoBranch when
    no branch matches, or Undefined when ose_pushBlob would copy bytes outside
    the atom's storage (a negative length, or storage shorter than its prefix
    plus `len`). ose_pushBlob with a NULL source is taken to push `len` zero bytes.
  */
  function AtomValue(a: Atom): (r: Materialized)
    ensures r.NoBranch? <==> a.OtherAtom?
    ensures r.Undefined? ==> a.BlobAtom?
    ensures r.Pushes? && a.BlobAtom? ==> r.arg.BlobArg? && |r.arg.bytes| == a.len
  {
    match a
    case IntAtom(v) => Pushes(Int32Arg(v))
    case BoolAtom(v) => Pushes(Int32Arg(v))
    case FloatAtom(f) => Pushes(FloatArg(f))
    case StringAtom(t) => Pushes(StringArg(t))
    case BlobAtom(len, storage) =>
      if len < 0 then Undefined
      else if storage.None? then Pushes(BlobArg(Zeros(len)))
      else if 4 + len <= |storage.value| then Pushes(BlobArg(storage.value[4..4 + len]))
      else Undefined
    case OtherAtom(_) => NoBranch
  }

  /** One turn of the inner for loop: push the atom's value (if any), then ose_push. */
  function MaterializeAtom(m: Machine, a: Atom): Machine
  {
    var pushed :=
      match AtomValue(a)
      case Pushes(v) => PushCell(m, ValueCell(v))
      case NoBranch => m
      case Undefined => m.(undefined := true);
    PushInto(pushed)
  }

  /** The inner for loop over the first |atoms| atoms. */
  function MaterializeAtoms(m: Machine, atoms: seq<Atom>): Machine
    decreases |atoms|
  {
    if atoms == [] then m
    else MaterializeAtom(MaterializeAtoms(m, atoms[..|atoms| - 1]), atoms[|atoms| - 1])
  }

  /** The `if(av)` block: push an empty anonymous message, the atoms, then ose_push it. */
  function Materialize(m: Machine, atoms: seq<Atom>): Machine
  {
    PushInto(MaterializeAtoms(PushCell(m, Message(AnonAddress, [])), atoms))
  }

  datatype Step = Step(machine: Machine, buf: seq<byte>, ret: int)

  /** One turn of the `while(e)` loop body, up to the `if(ret) break`. */
  function NodeStep(m: Machine, buf: seq<byte>, node: Node, ev: (Node, seq<byte>) -> NodeOutput): Step
  {
    var out := ev(node, buf);
    Step(if out.atoms.Some? then Materialize(m, out.atoms.value) else m, out.buf, out.status)
  }

  /**
    Where the `while(e)` loop ends: the machine, the buffer, the last return code,
    and how many nodes were evaluated.
  */
  datatype LoopEnd = LoopEnd(machine: Machine, buf: seq<byte>, ret: int, visited: nat)

  /** The `while(e)` loop over the nodes still to come, in `next` order. */
  function RunChain(m: Machine, buf: seq<byte>, nodes: seq<Node>, ev: (Node, seq<byte>) -> NodeOutput): (r: LoopEnd)
    ensures r.visited <= |nodes|
    decreases |nodes|
  {
    if nodes == [] then LoopEnd(m, buf, 0, 0)
    else
      var st := NodeStep(m, buf, nodes[0], ev);
      if st.ret != 0 then LoopEnd(st.machine, st.buf, st.ret, 1)
      else
        var r := RunChain(st.machine, st.buf, nodes[1..], ev);
        r.(visited := r.visited + 1)
  }

  /** The string argument of a message whose last argument is a string (ose_peekString). */
  function PeekString(c: Cell): string
    requires LastArgTag(c) == Some(StringTag)
  {
    c.args[|c.args| - 1].s
  }

  /** ose_oexprParse. */
  function ParseSpec(m: Machine, parser: string -> ParseOutcome): Machine
  {
    if |m.stack| < 1 then SetErrno(m, ElemCount)
    else if !Top(m.stack).Message? then SetErrno(m, ElemType)
    else if LastArgTag(Top(m.stack)) != Some(StringTag) then SetErrno(m, ItemType)
    else
      var outcome := parser(PeekString(Top(m.stack)));
      if outcome.ParseError? then SetErrno(m, GenericFailure)
      else PushCell(DropTop(m), ValueCell(PtrArg(outcome.head)))
  }

  datatype EvalEnd = EvalEnd(machine: Machine, fate: BufferFate)

  /**
    ose_oexprEval. `allocOk` says whether osc_mem_alloc succeeds, `serialize`
    gives the bytes of a stack element (what the memcpy copies), `reinterpret`
    the pointer read from a cell that holds none, `ev` the node evaluator.
  */
  function EvalSpec(m: Machine, allocOk: bool, serialize: Cell -> seq<byte>,
                    reinterpret: Cell -> Ptr, ev: (Node, seq<byte>) -> NodeOutput): EvalEnd
  {
    if |m.stack| < 2 then EvalEnd(SetErrno(m, ElemCount), NotAllocated)
    else if !Top(m.stack).Message? then EvalEnd(SetErrno(m, ElemType), NotAllocated)
    else if LastArgTag(Top(m.stack)) != Some(BlobTag) then EvalEnd(SetErrno(m, ItemType), NotAllocated)
    else
      var swapped := SwapTop(m);
      if !allocOk then EvalEnd(SetErrno(swapped, GenericFailure), NotAllocated)
      else
        var buf := serialize(Top(swapped.stack));
        var dropped := DropTop(swapped);
        var e := PeekAlignedPtr(Top(dropped.stack), reinterpret);
        if e.Null? then EvalEnd(SetErrno(dropped, GenericFailure), Leaked)
        else
          var run := RunChain(PushCell(dropped, Bundle([])), buf, e.Nodes(), ev);
          var flagged := if run.ret != 0 then SetErrno(run.machine, GenericFailure) else run.machine;
          EvalEnd(PushCell(NipBelow(flagged), ValueCell(BlobArg(run.buf))), Released)
  }

  /** ose_oexprFree. */
  function FreeSpec(m: Machine, reinterpret: Cell -> Ptr): Machine
  {
    if |m.stack| < 1 then SetErrno(m, ElemCount)
    else if !Top(m.stack).Message? then SetErrno(m, ElemType)
    else if LastArgTag(Top(m.stack)) != Some(BlobTag) then SetErrno(m, ItemType)
    else
      var e := PeekAlignedPtr(Top(m.stack), reinterpret);
      if e.Null? then SetErrno(m, GenericFailure)
      else DropTop(m.(freed := m.freed + [e]))
  }

  /** The VM stack object: its cells and its error field, updated in place. */
  class Vm {
    var stack: seq<Cell>
    var errno: Errno
    ghost var undefined: bool
    ghost var freed: seq<Ptr>

    ghost function State(): Machine
      reads this
    {
      Machine(stack, errno, undefined, freed)
    }

    constructor (cells: seq<Cell>, e: Errno)
      ensures State() == Machine(cells, e, false, [])
    {
      stack, errno := cells, e;
      undefined, freed := false, [];
    }

    method SetError(e: Errno)
      modifies this
      ensures State() == SetErrno(old(State()), e)
    {
      errno := e;
    }

    method Push(c: Cell)
      modifies this
      ensures State() == PushCell(old(State()), c)
    {
      stack := stack + [c];
    }

    method Drop()
      requires |stack| >= 1
      modifies this
      ensures State() == DropTop(old(State()))
    {
      stack := stack[..|stack| - 1];
    }

    method Swap()
      requires |stack| >= 2
      modifies this
      ensures State() == SwapTop(old(State()))
    {
      var n := |stack|;
      stack := stack[..n - 2] + [stack[n - 1], stack[n - 2]];
    }

    method Nip()
      modifies this
      ensures State() == NipBelow(old(State()))
    {
      var n := |stack|;
      if n < 2 {
        undefined := true;
      } else {
        stack := stack[..n - 2] + [stack[n - 1]];
      }
    }

    /** ose_push. */
    method PushDown()
      modifies this
      ensures State() == PushInto(old(State()))
    {
      var n := |stack|;
      if n < 2 {
        undefined := true;
        return;
      }
      var top, below := stack[n - 1], stack[n - 2];
      match below
      case Bundle(es) =>
        stack := stack[..n - 2] + [Bundle(es + [top])];
      case Message(addr, args) =>
        if top.Message? {
          stack := stack[..n - 2] + [Message(addr, args + top.args)];
        } else {
          undefined := true;
        }
    }

    /** ose_oexprParse. */
    method Parse(parser: string -> ParseOutcome)
      modifies this
      ensures State() == ParseSpec(old(State()), parser)
    {
      if |stack| < 1 {
        SetError(ElemCount);
        return;
      }
      if !Top(stack).Message? {
        SetError(ElemType);
        return;
      }
      if LastArgTag(Top(stack)) != Some(StringTag) {
        SetError(ItemType);
        return;
      }
      var str := PeekString(Top(stack));
      var outcome := parser(str);
      if outcome.ParseError? {
        SetError(GenericFailure);
        return;
      }
      Drop();
      Push(ValueCell(PtrArg(outcome.head)));
    }

    /** One atom of the inner for loop: the tag branches, then the unconditional ose_push. */
    method PushAtom(a: Atom)
      modifies this
      ensures State() == MaterializeAtom(old(State()), a)
    {
      if a.IntAtom? || a.BoolAtom? {
        Push(ValueCell(Int32Arg(a.value)));
      } else if a.FloatAtom? {
        Push(ValueCell(FloatArg(a.f)));
      } else if a.StringAtom? {
        Push(ValueCell(StringArg(a.text)));
      } else if a.BlobAtom? {
        if a.len < 0 {
          undefined := true;
        } else if a.storage.None? {
          Push(ValueCell(BlobArg(Zeros(a.len))));
        } else if 4 + a.len <= |a.storage.value| {
          Push(ValueCell(BlobArg(a.storage.value[4..4 + a.len])));
        } else {
          undefined := true;
        }
      }
      PushDown();
    }

    /** The `if(av)` block: a new anonymous message, one argument per atom, pushed into the bundle. */
    method PushResults(av: seq<Atom>)
      modifies this
      ensures State() == Materialize(old(State()), av)
    {
      Push(Message(AnonAddress, []));
      ghost var started := State();
      for i := 0 to |av|
        invariant State() == MaterializeAtoms(started, av[..i])
      {
        assert av[..i + 1][..i] == av[..i];
        PushAtom(av[i]);
      }
      assert av[..|av|] == av;
      PushDown();
    }

    /** ose_oexprEval. */
    method Eval(allocOk: bool, serialize: Cell -> seq<byte>, reinterpret: Cell -> Ptr,
                ev: (Node, seq<byte>) -> NodeOutput) returns (ghost fate: BufferFate)
      modifies this
      ensures State() == EvalSpec(old(State()), allocOk, serialize, reinterpret, ev).machine
      ensures fate == EvalSpec(old(State()), allocOk, serialize, reinterpret, ev).fate
    {
      if |stack| < 2 {
        SetError(ElemCount);
        return NotAllocated;
      }
      if !Top(stack).Message? {
        SetError(ElemType);
        return NotAllocated;
      }
      if LastArgTag(Top(stack)) != Some(BlobTag) {
        SetError(ItemType);
        return NotAllocated;
      }
      Swap();
      if !allocOk {
        SetError(GenericFailure);
        return NotAllocated;
      }
      var buf := serialize(Top(stack));
      Drop();
      var e := PeekAlignedPtr(Top(stack), reinterpret);
      if e.Null? {
        SetError(GenericFailure);
        return Leaked;
      }
      var ret := 0;
      Push(Bundle([]));
      var nodes := e.Nodes();
      ghost var whole := RunChain(State(), buf, nodes, ev);
      var i := 0;
      while i < |nodes|
        invariant 0 <= i <= |nodes| && ret == 0
        invariant RunChain(State(), buf, nodes[i..], ev).machine == whole.machine
        invariant RunChain(State(), buf, nodes[i..], ev).buf == whole.buf
        invariant RunChain(State(), buf, nodes[i..], ev).ret == whole.ret
      {
        ghost var before, bufBefore := State(), buf;
        var out := ev(nodes[i], buf);
        if out.atoms.Some? {
          PushResults(out.atoms.value);
        }
        ret, buf := out.status, out.buf;
        assert nodes[i..][0] == nodes[i] && nodes[i..][1..] == nodes[i + 1..];
        assert NodeStep(before, bufBefore, nodes[i], ev) == Step(State(), buf, ret);
        if ret != 0 {
          break;
        }
        i := i + 1;
      }
      if ret != 0 {
        SetError(GenericFailure);
      }
      // the expression chain is not freed here
      Nip();
      Push(ValueCell(BlobArg(buf)));
      fate := Released;
    }

    /** ose_oexprFree. */
    method Free(reinterpret: Cell -> Ptr)
      modifies this
      ensures State() == FreeSpec(old(State()), reinterpret)
    {
      if |stack| < 1 {
        SetError(ElemCount);
        return;
      }
      if !Top(stack).Message? {
        SetError(ElemType);
        return;
      }
      if LastArgTag(Top(stack)) != Some(BlobTag) {
        SetError(ItemType);
        return;
      }
      var e := PeekAlignedPtr(Top(stack), reinterpret);
      if e.Null? {
        SetError(GenericFailure);
        return;
      }
      freed := freed + [e];
      Drop();
    }
  }
}
