# o.expr for the ose VM, modelled in Dafny

`ose_o.expr.c` connects the ose stack machine to the libo expression
language. It provides three handlers, each called with the VM and
communicating only through the VM's operand stack and its error field:

- `/o.expr/parse` replaces a string on top of the stack with a handle to the
  compiled expression chain. On failure it sets an error and keeps the string.
- `/o.expr/eval` takes an expression handle (top) and a data element (below
  it). It copies the data element's bytes into a buffer and runs every node of
  the chain on that buffer, in `next` order, stopping at the first node that
  fails. For each atom array a node hands back, it adds one anonymous message to
  a results bundle. It then leaves `[results bundle, buffer as a blob]` in
  place of the two input cells. All of this holds when every atom takes a tag
  branch. When an atom does not, the closing `ose_push` pushes the results
  bundle into the handle message, which this model leaves undefined (see
  "Unsupported atom tags" below).
- `/o.expr/free` releases the chain behind the handle on top and drops that cell.

The project has three files:

- `ose_stack.dfy` (module `OseStack`): stack cells, typed arguments, the error
  field, expression handles, and the stack primitives the handlers call. Top of
  stack is the last cell. Push, drop, swap and nip have their usual meaning.
  `ose_push` moves the top cell into the cell below it: into a bundle, it
  becomes the bundle's last element; into a message, its arguments are
  appended.
- `oexpr.dfy` (module `OExpr`): the handlers.
  - `ParseSpec`, `EvalSpec` and `FreeSpec` are functions of the machine state.
  - Class `Vm` holds the stack and the error field. Its methods `Parse`,
    `Eval` and `Free` update them in place, call for call as in the C code,
    including the `while(e)` chain loop and the inner `for` loop over atoms.
  - Each method is proved equal to its specification function.
- `oexpr_props.dfy` (module `OExprProperties`): what the handlers guarantee,
  proved about the specification functions. `Reference` defines the results
  an evaluation should produce without any stack operations: one message per
  node that returns atoms, holding the atoms' values in order. When every atom
  takes a tag branch, `RunChainClean` and `EvalShape` prove that the C code's
  push/`ose_push` sequence builds exactly that bundle. For every run,
  `RunChainShape` and `EvalOutcome` prove the final buffer, the return code
  and the error field. They also prove that the machine becomes undefined
  exactly when some atom has no value. So the stack layout they state is the
  program's own only in the runs where it stays defined.

Foreign calls are parameters of the handlers:

- the parser;
- the per-node evaluator `(node, buffer) -> (status, buffer', atoms?)`;
- whether `osc_mem_alloc` succeeds;
- the byte encoding of a stack element;
- the pointer the VM reads from a cell that holds no pointer argument.

`osc_expr_next` is the successor in the handle's node sequence.

In several places the code does something other than what a reader would
expect from the handlers' purpose. The model follows the code, and each bullet
names the expected behaviour that the code does not have:

- **Cell roles in eval.** Eval checks only the top cell: it must be a message
  whose last argument is a blob. ose stores aligned pointers in blob
  arguments, so this is the handle. After `ose_swap`, the buffer copied is the
  serialized element that was second (`s` is its size). That element is then
  dropped, and the handle is read from the cell that was on top. The second
  cell's type is never checked. So the handle is not the data, and the data
  cell need not be a blob: it is serialized and dropped whatever its type.
- **Parse then free loses one cell.** Parse replaces the string cell and free
  drops the handle cell, so the stack ends one cell shallower than before
  parse, not at the same depth (`ParseThenFree`).
- **A NULL chain is an error in eval** (code 128), not an empty result. At that
  point the data cell is already dropped and the copied buffer is never freed
  (`EvalNullHandle`: fate `Leaked`).
- **Failed allocation leaves the stack swapped** (`EvalAllocFailure`).
- **Unsupported atom tags are not dropped cleanly.** `ose_push` runs for every
  atom, even when no branch pushed a value. The half-built message therefore
  moves into the results bundle early, and the closing `ose_push` pushes the
  bundle into the handle message. `MaterializeShape` proves in general that
  this happens exactly when some atom has no value, and
  `UnsupportedAtomClosesMessage` works through one case.
- **The argument type checks look at the message's last argument**, not at a
  sole argument.

## Model

| member | source | states |
|---|---|---|
| `OExpr.Vm.Parse` | ose_o.expr.c:43-74 | leaves the stack, error field and freed-log exactly as `ParseSpec` of the old state says |
| `OExpr.Vm.Eval` | ose_o.expr.c:76-171 | leaves the state, and reports the buffer's fate, exactly as `EvalSpec` of the old state says; the chain loop's invariant keeps what remains of `RunChain` equal to the whole run |
| `OExpr.Vm.Free` | ose_o.expr.c:173-199 | leaves the state exactly as `FreeSpec` of the old state says |
| `OExpr.Vm.PushAtom` | ose_o.expr.c:126-149 | one atom: the tag branch's push (or none), then the unconditional `ose_push`, as `MaterializeAtom` |
| `OExpr.Vm.PushResults` | ose_o.expr.c:119-153 | the `if(av)` block: an empty anonymous message, the loop over all atoms, and the closing `ose_push`, as `Materialize` |
| `OExpr.Vm.SetError` | ose_o.expr.c:48 | `ose_errno_set` changes only the error field |
| `OExpr.Vm.Push` | ose_o.expr.c:114 | a push adds exactly one cell on top, nothing else changes |
| `OExpr.Vm.Drop` | ose_o.expr.c:69 | `ose_drop` removes exactly the top cell |
| `OExpr.Vm.Swap` | ose_o.expr.c:94 | `ose_swap` exchanges the top two cells and keeps the rest |
| `OExpr.Vm.Nip` | ose_o.expr.c:165 | `ose_nip` removes the cell below the top |
| `OExpr.Vm.PushDown` | ose_o.expr.c:149 | `ose_push` moves the top cell into the one below (bundle element, or arguments appended to a message) |
| `OExprProperties.ParseRejects` | ose_o.expr.c:46-60 | too few cells, a non-message top, a non-string argument: `ElemCount`, `ElemType`, `ItemType` respectively, with the stack unchanged |
| `OExprProperties.ParseOutcomes` | ose_o.expr.c:61-73 | a parser error sets 128 and keeps the string cell; success replaces the top cell with a one-argument pointer message, depth unchanged, error field untouched |
| `OExprProperties.FreeRejects` | ose_o.expr.c:176-190 | too few cells, a non-message top, a non-blob argument: the matching error code, with the stack unchanged |
| `OExprProperties.FreeOutcomes` | ose_o.expr.c:191-198 | a NULL handle sets 128 and keeps the stack; any other handle is logged as released and exactly the top cell is dropped |
| `OExprProperties.ParseThenFree` | ose_o.expr.c:191-198 | free after a successful parse to a non-NULL chain reports no error, releases exactly that chain and leaves the stack one cell shorter than before parse |
| `OExprProperties.EvalRejects` | ose_o.expr.c:79-93 | fewer than two cells, a non-message top, a non-blob argument: the matching error code, stack unchanged, nothing allocated |
| `OExprProperties.EvalAllocFailure` | ose_o.expr.c:94-103 | a failed allocation sets 128 with the two top cells left swapped |
| `OExprProperties.EvalNullHandle` | ose_o.expr.c:104-111 | a NULL handle sets 128 after the data cell is dropped; the handle cell stays on top and the copied buffer is leaked |
| `OExprProperties.EvalOutcome` | ose_o.expr.c:94-166 | for every run: 128 is set exactly when the last node evaluated failed, the top blob is the `Reference` final buffer, the freed log is untouched and the buffer is released; the machine becomes undefined exactly when some atom has no value, and in the other runs the two input cells become `[results bundle, blob]` |
| `OExprProperties.EvalShape` | ose_o.expr.c:113-166 | when every atom is supported, the two input cells become `[Reference results bundle, blob of the final buffer]`; 128 is set exactly when the last node evaluated failed, partial results are kept, and the buffer is released |
| `OExprProperties.EvalKeepsBytes` | ose_o.expr.c:96-104 | when no node changes the buffer, the blob left on top is the second cell's bytes unchanged |
| `OExprProperties.EvalSingleNode` | ose_o.expr.c:113-166 | one node returning `[7, "x"]` and buffer `b'` leaves exactly one results message with arguments 7 then "x", and `b'` as the blob |
| `OExprProperties.RunChainClean` | ose_o.expr.c:113-159 | for supported atoms, the chain loop appends exactly the `Reference` messages to the results bundle and ends with the reference buffer, return code and node count |
| `OExprProperties.RunChainShape` | ose_o.expr.c:113-159 | for every run: the loop ends with the `Reference` buffer, return code and node count, with the error field untouched; the machine becomes undefined exactly when some atom has no value, and in the other runs the results bundle stays directly on the handle message |
| `OExprProperties.RunChainVisits` | ose_o.expr.c:115-159 | the loop evaluates at least one and at most all nodes; ending with 0 means every node ran; stopping early means the last node evaluated failed |
| `OExprProperties.RunChainPrefixSucceeds` | ose_o.expr.c:154-158 | every node before the last one evaluated returned 0 |
| `OExprProperties.LaterNodesIgnored` | ose_o.expr.c:154-158 | after a failure no later node is evaluated: any chain agreeing on the nodes that ran gives the same outcome |
| `OExprProperties.RunChainKeepsBuffer` | ose_o.expr.c:113-118 | nodes that leave the buffer unchanged leave the loop's final buffer equal to the copied input |
| `OExprProperties.MaterializeAtomsClean` | ose_o.expr.c:124-150 | with supported atoms, the inner loop appends one argument per atom, in order, to the message on top |
| `OExprProperties.MaterializeClean` | ose_o.expr.c:119-153 | with supported atoms, a node's atom array becomes exactly one new anonymous message, holding `ArgsOf` the atoms, at the end of the results bundle |
| `OExprProperties.MaterializeAtomShape` | ose_o.expr.c:126-149 | one turn of the inner loop: an open message stays open, with `undefined` unchanged, exactly when the atom pushes a value; otherwise its `ose_push` closes the message into the results bundle, and a closed message stays closed |
| `OExprProperties.MaterializeAtomsShape` | ose_o.expr.c:124-150 | the whole inner loop: the message stays open, with `undefined` unchanged, exactly when every atom pushes a value; otherwise the message has been closed into the bundle |
| `OExprProperties.MaterializeShape` | ose_o.expr.c:119-153 | for any atoms, the `if(av)` block leaves the machine undefined exactly when some atom has no value (the closing `ose_push` then pushes the bundle into the handle message); only when it stays defined is the bundle left directly on the handle message as a fact about the program; the error field and freed log are unchanged |
| `OExprProperties.UnsupportedAtomClosesMessage` | ose_o.expr.c:141-151 | a worked case of the general statement in `MaterializeShape`: the unsupported atom's `ose_push` closes the message early, a later value becomes a bundle element of its own, and the closing push is outside defined behaviour |
| `OExpr.AtomValue` | ose_o.expr.c:128-148 | exactly the unmatched tags push nothing; only a blob can make the push undefined; a pushed blob has the atom's reported length |
| `OExprProperties.AtomTags` | ose_o.expr.c:128-148 | int and bool atoms become int32 arguments with the same value, floats the atom's float, strings the atom's text, blobs the bytes after the 4-byte prefix, of the reported length; unsupported tags push nothing |
| `OExprProperties.BlobSkipsPrefix` | ose_o.expr.c:141-147 | a blob atom's 4-byte length prefix is skipped: the pushed blob is exactly its data |
| `OExprProperties.ArgsOfAppend` | ose_o.expr.c:124-150 | the result arguments of a concatenation are the concatenation of the results: order is kept |
| `OExprProperties.ArgsOfOmits` | ose_o.expr.c:128-148 | about the reference mapping `ArgsOf`, not the code: an atom with no value, wherever it stands, adds no argument and leaves the others in order; there are never more arguments than atoms. The code's unconditional `ose_push` (line 149) does not drop such an atom this cleanly (`UnsupportedAtomClosesMessage`) |
| `OExprProperties.ArgsOfClean` | ose_o.expr.c:124-150 | with supported atoms, the k-th argument is the value of the k-th atom |

## Left out

- The registration of the three handlers in `ose_main` (ose_o.expr.c:201-217) is dispatch-table plumbing and is not modelled.
- The expression parser, `osc_expr_eval`, `osc_expr_next` and `osc_expr_free` are foreign library calls. They are parameters: a parser function, a node evaluator function, and a handle that lists its nodes. `osc_expr_free` only appends the handle to a `freed` log.
- `osc_mem_alloc` is a success flag and `osc_mem_free` is the `BufferFate` result. No memory is modelled.
- The byte encoding of stack elements (`ose_getLastBundleElemOffset`, `ose_readInt32`, the `memcpy`) is a `serialize` parameter. The size `s` is the length of the copied bytes.
- A node that sets the buffer pointer to NULL, or that leaves `s` different from the buffer's length, is not modelled: the buffer is a byte sequence whose length is `s`.
- Reading a pointer from a cell that holds no pointer argument is a `reinterpret` parameter. Every non-NULL pointer is taken to be the head of a valid chain; dangling or garbage pointers are not modelled.
- Which raw type tags `OSC_TYPETAG_ISINT`, `ISBOOL`, `ISFLOAT` and `ISSTRING` accept is defined in osc_typetag.h, which is not part of this model. An atom arrives already classified into the branch its tag selects, carrying the value the `osc_atom_u_get*` accessor returns.
- `ose_pushBlob` with a NULL source is taken to push that many zero bytes. A blob atom with a negative length, or with storage shorter than its prefix plus its length, makes the push undefined.
- The libose stack primitives are not part of this model. Two `ose_push` cases are outside the semantics given here: a bundle pushed into a message, and fewer than two cells. So is `ose_nip` with fewer than two cells. These set the ghost `undefined` flag and leave the stack unchanged.
- Float payloads are opaque 32-bit patterns. No arithmetic is done on them.
- The numeric values of `OSE_ERR_ELEM_COUNT`, `OSE_ERR_ELEM_TYPE` and `OSE_ERR_ITEM_TYPE` are in ose_errno.h, which is not part of this model. They are distinct constructors of `Errno`, and the literal 128 is `Code(128)`.
- Pointer identity, use after free and double free are not modelled: no tombstoning exists in the source. Eval never frees the chain, so the caller must call free, and the `freed` log records those calls.
- EvalOutcome, RunChainShape, MaterializeShape: in runs that become undefined (some atom pushes no value), the stack layout these lemmas state rests on this model's convention that the bundle-into-message `ose_push` changes nothing. libose's real behaviour there is not modelled. If that push absorbed the bundle into the handle message, the final `ose_nip` (ose_o.expr.c:165) would remove a cell that belongs to the caller.
- EvalShape: the exact contents of the results bundle are stated only for runs in which every atom takes one of the five tag branches and its push stays within its storage (`AllPush`). For every run, `EvalOutcome` states the buffer and the error field, and it states that the machine becomes undefined exactly when some atom has no value. The stack layout it states is the program's own only in the runs that stay defined. The contents of the bundle in other runs are modelled call for call as written (`UnsupportedAtomClosesMessage` works one through), but no general lemma describes them.
- RunChainClean: the exact bundle contents are stated only for runs in which every atom takes a tag branch, for the same reason as EvalShape. `RunChainShape` covers the buffer, return code and node count for every run.
- MaterializeClean: stated only for atom arrays in which every atom takes a tag branch; with an unsupported atom the array does not become one message.
- MaterializeAtomsClean: stated only for atoms that all take a tag branch, for the same reason.
- ArgsOfClean: stated only for atoms that all take a tag branch; otherwise `ArgsOf` is shorter than the atom array (`ArgsOfOmits`).
