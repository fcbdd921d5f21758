/**
  The slice of the ose virtual machine that the o.expr handlers use: the
  operand stack (a bundle used as a LIFO, top = last cell), its cells, the
  typed arguments a message carries, the error field, and the stack
  primitives (push a cell, drop, swap, nip, and ose_push, which moves the top
  cell into the cell below it).

  ose_stackops and ose_errno are not part of this model: the primitives below
  give them the LIFO meaning the handlers rely on. A primitive called outside
  the situations this model defines (ose_push or ose_nip on fewer than two
  cells, ose_push of a bundle into a message) sets the `undefined` flag and
  leaves the stack as it was.
*/
module OseStack {

  datatype Option<T> = None | Some(value: T)

  type byte = x: int | 0 <= x < 256
  type Int32 = x: int | -0x8000_0000 <= x < 0x8000_0000

  /** A float payload, kept as its bit pattern: the model does no arithmetic on it. */
  datatype Float32 = Float32(bits: bv32)

  /** A node of a compiled expression chain (an opaque osc_expr). */
  datatype Node = Node(id: nat)

  /**
    An expression handle: NULL, or the head of a chain. `rest` lists the nodes
    that osc_expr_next reaches from the head, in order; the chain is acyclic
    and ends in NULL.
  */
  datatype Ptr = Null | Chain(head: Node, rest: seq<Node>) {
    /** The nodes of the chain in `next` order. */
    function Nodes(): seq<Node>
      requires Chain?
    {
      [head] + rest
    }
  }

  /** The type tag ose reports for a message argument. */
  datatype Tag = Int32Tag | FloatTag | StringTag | BlobTag | OtherTag(c: char)

  /**
    A message argument. An aligned pointer is stored by ose inside a blob
    argument, so it reports BlobTag; any other argument type ose knows is
    OtherArg.
  */
  datatype Arg =
    | Int32Arg(i: Int32)
    | FloatArg(f: Float32)
    | StringArg(s: string)
    | BlobArg(bytes: seq<byte>)
    | PtrArg(p: Ptr)
    | OtherArg(tag: char)

  function TagOf(a: Arg): Tag
  {
    match a
    case Int32Arg(_) => Int32Tag
    case FloatArg(_) => FloatTag
    case StringArg(_) => StringTag
    case BlobArg(_) => BlobTag
    case PtrArg(_) => BlobTag
    case OtherArg(c) => OtherTag(c)
  }

  /** A stack cell: a message (address plus ordered arguments) or a nested bundle. */
  datatype Cell = Message(address: string, args: seq<Arg>) | Bundle(elems: seq<Cell>)

  /** The address ose gives to anonymous values (OSE_ADDRESS_ANONVAL). */
  const AnonAddress: string := ""

  /** The cell ose_pushInt32, ose_pushFloat, ose_pushString and ose_pushBlob push. */
  function ValueCell(a: Arg): Cell
  {
    Message(AnonAddress, [a])
  }

  /** The error field. The numeric values of the named codes are in ose_errno.h. */
  datatype Errno = NoError | ElemCount | ElemType | ItemType | Code(n: int)

  /** The generic failure code all three o.expr handlers set (the literal 128). */
  const GenericFailure: Errno := Code(128)

  /**
    The VM state the handlers see: the operand stack, the error field, whether a
    primitive was used outside what this model defines, and the log of chain
    heads handed to osc_expr_free (no tombstoning happens in the source; the log
    only records the caller obligation).
  */
  datatype Machine = Machine(stack: seq<Cell>, errno: Errno, undefined: bool, freed: seq<Ptr>)

  function Top(s: seq<Cell>): Cell
    requires |s| >= 1
  {
    s[|s| - 1]
  }

  /** ose_peekMessageArgType: the tag of the top message's last argument, if it has one. */
  function LastArgTag(c: Cell): Option<Tag>
  {
    if c.Message? && c.args != [] then Some(TagOf(c.args[|c.args| - 1])) else None
  }

  /**
    ose_peekAlignedPtr: the pointer stored in the top message's last argument.
    When that cell holds no pointer argument, the source reads its bytes as a
    pointer anyway; `reinterpret` stands for that reading.
  */
  function PeekAlignedPtr(c: Cell, reinterpret: Cell -> Ptr): Ptr
  {
    if c.Message? && c.args != [] && c.args[|c.args| - 1].PtrArg? then c.args[|c.args| - 1].p
    else reinterpret(c)
  }

  // The primitives, as transformations of the machine state.

  function SetErrno(m: Machine, e: Errno): Machine
  {
    m.(errno := e)
  }

  /** Every ose_push<Type> and ose_pushMessage/ose_pushBundle: a new top cell. */
  function PushCell(m: Machine, c: Cell): Machine
  {
    m.(stack := m.stack + [c])
  }

  /** ose_drop: remove the top cell. */
  function DropTop(m: Machine): Machine
    requires |m.stack| >= 1
  {
    m.(stack := m.stack[..|m.stack| - 1])
  }

  /** ose_swap: exchange the top two cells. */
  function SwapTop(m: Machine): Machine
    requires |m.stack| >= 2
  {
    var n := |m.stack|;
    m.(stack := m.stack[..n - 2] + [m.stack[n - 1], m.stack[n - 2]])
  }

  /** ose_nip: remove the cell below the top. */
  function NipBelow(m: Machine): Machine
  {
    var n := |m.stack|;
    if n < 2 then m.(undefined := true)
    else m.(stack := m.stack[..n - 2] + [m.stack[n - 1]])
  }

  /**
    ose_push: move the top cell into the cell below it. Into a bundle, the cell
    becomes that bundle's last element; into a message, a message's arguments
    are appended to that message's arguments (its address is discarded).
  */
  function PushInto(m: Machine): Machine
  {
    var n := |m.stack|;
    if n < 2 then m.(undefined := true)
    else
      var top, below := m.stack[n - 1], m.stack[n - 2];
      match below
      case Bundle(es) => m.(stack := m.stack[..n - 2] + [Bundle(es + [top])])
      case Message(addr, args) =>
        if top.Message? then m.(stack := m.stack[..n - 2] + [Message(addr, args + top.args)])
        else m.(undefined := true)
  }
}
