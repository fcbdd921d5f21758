/**
  What the o.expr handlers guarantee, proved about ParseSpec, EvalSpec and
  FreeSpec (and so, through the methods' postconditions, about class Vm).

  The results an evaluation should produce are given independently of the
  stack choreography by Reference: one anonymous message per node that hands
  back an atom array, holding the values of its atoms in order. RunChainClean
  and EvalShape prove that the stack pushes of the source build exactly that
  bundle whenever every atom takes one of the five tag branches.
*/
module OExprProperties {
  import opened OseStack
  import opened OExpr

  // ---------------------------------------------------------------------------
  // Reference meaning of the results

  /** Every atom takes one of the tag branches and its push stays within its storage. */
  predicate AllPush(atoms: seq<Atom>)
  {
    forall a :: a in atoms ==> AtomValue(a).Pushes?
  }

  /** The values of the atoms that have one, in order. */
  function ArgsOf(atoms: seq<Atom>): seq<Arg>
    decreases |atoms|
  {
    if atoms == [] then []
    else
      var last := AtomValue(atoms[|atoms| - 1]);
      ArgsOf(atoms[..|atoms| - 1]) + (if last.Pushes? then [last.arg] else [])
  }

  /**
    The reference outcome of evaluating `nodes` from buffer `buf`: the result
    messages, the final buffer and return code, how many nodes ran, and whether
    every atom they produced has a value.
  */
  datatype Expected = Expected(results: seq<Cell>, buf: seq<byte>, ret: int, visited: nat, clean: bool)

  function Reference(buf: seq<byte>, nodes: seq<Node>, ev: (Node, seq<byte>) -> NodeOutput): Expected
    decreases |nodes|
  {
    if nodes == [] then Expected([], buf, 0, 0, true)
    else
      var out := ev(nodes[0], buf);
      if out.status != 0 then Expected(Emitted(out), out.buf, out.status, 1, Supported(out))
      else
        var rest := Reference(out.buf, nodes[1..], ev);
        Expected(Emitted(out) + rest.results, rest.buf, rest.ret, rest.visited + 1, Supported(out) && rest.clean)
  }

  /** The result message a node's output should add: one per atom array, none without one. */
  function Emitted(out: NodeOutput): seq<Cell>
  {
    if out.atoms.Some? then [Message(AnonAddress, ArgsOf(out.atoms.value))] else []
  }

  predicate Supported(out: NodeOutput)
  {
    out.atoms.None? || AllPush(out.atoms.value)
  }

  /** The machine with `cells` appended to the bundle on top of the stack. */
  function WithResults(m: Machine, cells: seq<Cell>): Machine
    requires |m.stack| >= 1 && Top(m.stack).Bundle?
  {
    m.(stack := m.stack[..|m.stack| - 1] + [Bundle(Top(m.stack).elems + cells)])
  }

  // ---------------------------------------------------------------------------
  // Atom to argument mapping

  /** Each supported tag class becomes an argument of the matching ose type, carrying the atom's value. */
  lemma AtomTags(a: Atom)
    requires AtomValue(a).Pushes?
    ensures a.IntAtom? || a.BoolAtom? ==> AtomValue(a).arg == Int32Arg(a.value)
    ensures a.FloatAtom? ==> AtomValue(a).arg == FloatArg(a.f)
    ensures a.StringAtom? ==> AtomValue(a).arg == StringArg(a.text)
    ensures a.BlobAtom? ==> TagOf(AtomValue(a).arg) == BlobTag && |AtomValue(a).arg.bytes| == a.len
    ensures a.BlobAtom? && a.storage.Some?
            ==> 4 + a.len <= |a.storage.value| && AtomValue(a).arg == BlobArg(a.storage.value[4..4 + a.len])
    ensures !a.OtherAtom?
  {
  }

  /** A blob atom stored as a 4-byte prefix and its data is pushed as the data alone. */
  lemma BlobSkipsPrefix(prefix: seq<byte>, data: seq<byte>)
    requires |prefix| == 4 && |data| < 0x8000_0000
    ensures AtomValue(BlobAtom(|data|, Some(prefix + data))) == Pushes(BlobArg(data))
  {
    assert (prefix + data)[4..4 + |data|] == data;
  }

  /** The result arguments respect concatenation: order is kept across any split. */
  lemma {:induction false} ArgsOfAppend(xs: seq<Atom>, ys: seq<Atom>)
    ensures ArgsOf(xs + ys) == ArgsOf(xs) + ArgsOf(ys)
    decreases |ys|
  {
    if ys == [] {
      assert xs + ys == xs;
    } else {
      var init := ys[..|ys| - 1];
      assert (xs + ys)[..|xs + ys| - 1] == xs + init;
      assert (xs + ys)[|xs + ys| - 1] == ys[|ys| - 1];
      ArgsOfAppend(xs, init);
    }
  }

  /**
    In the reference meaning, an atom without a value contributes no argument
    wherever it stands, and there are never more arguments than atoms. (The
    code does not drop such an atom this cleanly: see UnsupportedAtomClosesMessage.)
  */
  lemma {:induction false} ArgsOfOmits(xs: seq<Atom>, a: Atom, ys: seq<Atom>)
    ensures |ArgsOf(xs)| <= |xs|
    ensures !AtomValue(a).Pushes? ==> ArgsOf(xs + [a] + ys) == ArgsOf(xs) + ArgsOf(ys)
    decreases |xs|
  {
    if xs != [] {
      ArgsOfOmits(xs[..|xs| - 1], a, ys);
    }
    ArgsOfAppend(xs + [a], ys);
    assert (xs + [a])[..|xs|] == xs;
  }

  /** When every atom is supported, the k-th argument is the k-th atom's value. */
  lemma {:induction false} ArgsOfClean(atoms: seq<Atom>)
    requires AllPush(atoms)
    ensures |ArgsOf(atoms)| == |atoms|
    ensures forall k :: 0 <= k < |atoms| ==> ArgsOf(atoms)[k] == AtomValue(atoms[k]).arg
    decreases |atoms|
  {
    if atoms != [] {
      var init := atoms[..|atoms| - 1];
      assert forall a :: a in init ==> a in atoms;
      ArgsOfClean(init);
    }
  }

  // ---------------------------------------------------------------------------
  // The stack choreography of one node and of the chain

  /** The inner for loop appends, in order, one argument per supported atom to the message on top. */
  lemma {:induction false} MaterializeAtomsClean(m: Machine, atoms: seq<Atom>)
    requires |m.stack| >= 1 && Top(m.stack).Message? && AllPush(atoms)
    ensures MaterializeAtoms(m, atoms)
         == m.(stack := m.stack[..|m.stack| - 1]
                        + [Message(Top(m.stack).address, Top(m.stack).args + ArgsOf(atoms))])
    decreases |atoms|
  {
    if atoms == [] {
      assert Top(m.stack).args + [] == Top(m.stack).args;
      assert m.stack[..|m.stack| - 1] + [Top(m.stack)] == m.stack;
    } else {
      var init := atoms[..|atoms| - 1];
      assert forall a :: a in init ==> a in atoms;
      MaterializeAtomsClean(m, init);
      var last := atoms[|atoms| - 1];
      assert last in atoms;
      var mid := MaterializeAtoms(m, init);
      var pushed := PushCell(mid, ValueCell(AtomValue(last).arg));
      var n := |pushed.stack|;
      assert pushed.stack[..n - 2] == m.stack[..|m.stack| - 1];
      assert Top(m.stack).args + ArgsOf(init) + [AtomValue(last).arg]
          == Top(m.stack).args + ArgsOf(atoms);
    }
  }

  /** A node's atom array becomes exactly one new message, appended to the results bundle. */
  lemma MaterializeClean(m: Machine, atoms: seq<Atom>)
    requires |m.stack| >= 1 && Top(m.stack).Bundle? && AllPush(atoms)
    ensures Materialize(m, atoms) == WithResults(m, [Message(AnonAddress, ArgsOf(atoms))])
  {
    var withMsg := PushCell(m, Message(AnonAddress, []));
    MaterializeAtomsClean(withMsg, atoms);
    assert withMsg.stack[..|withMsg.stack| - 1] == m.stack;
    assert [] + ArgsOf(atoms) == ArgsOf(atoms);
  }

  lemma WithResultsNothing(m: Machine)
    requires |m.stack| >= 1 && Top(m.stack).Bundle?
    ensures WithResults(m, []) == m
  {
    assert Top(m.stack).elems + [] == Top(m.stack).elems;
    assert m.stack[..|m.stack| - 1] + [Top(m.stack)] == m.stack;
  }

  lemma WithResultsTwice(m: Machine, xs: seq<Cell>, ys: seq<Cell>)
    requires |m.stack| >= 1 && Top(m.stack).Bundle?
    ensures WithResults(WithResults(m, xs), ys) == WithResults(m, xs + ys)
  {
    var m1 := WithResults(m, xs);
    assert m1.stack[..|m1.stack| - 1] == m.stack[..|m.stack| - 1];
    assert Top(m.stack).elems + xs + ys == Top(m.stack).elems + (xs + ys);
  }

  /** One loop turn with supported atoms appends exactly the node's Emitted message. */
  lemma NodeStepClean(m: Machine, buf: seq<byte>, node: Node, ev: (Node, seq<byte>) -> NodeOutput)
    requires |m.stack| >= 1 && Top(m.stack).Bundle? && Supported(ev(node, buf))
    ensures var out := ev(node, buf);
            NodeStep(m, buf, node, ev) == Step(WithResults(m, Emitted(out)), out.buf, out.status)
  {
    var out := ev(node, buf);
    if out.atoms.Some? {
      MaterializeClean(m, out.atoms.value);
    } else {
      WithResultsNothing(m);
    }
  }

  /**
    The `while(e)` loop, as written, builds the Reference results in the bundle
    on top of the stack and ends with the Reference buffer, code and node count.
  */
  lemma {:induction false} RunChainClean(m: Machine, buf: seq<byte>, nodes: seq<Node>,
                                         ev: (Node, seq<byte>) -> NodeOutput)
    requires |m.stack| >= 1 && Top(m.stack).Bundle?
    requires Reference(buf, nodes, ev).clean
    ensures var ref := Reference(buf, nodes, ev);
            RunChain(m, buf, nodes, ev) == LoopEnd(WithResults(m, ref.results), ref.buf, ref.ret, ref.visited)
    decreases |nodes|
  {
    if nodes == [] {
      WithResultsNothing(m);
    } else {
      var out := ev(nodes[0], buf);
      NodeStepClean(m, buf, nodes[0], ev);
      if out.status == 0 {
        var m1 := WithResults(m, Emitted(out));
        RunChainClean(m1, out.buf, nodes[1..], ev);
        WithResultsTwice(m, Emitted(out), Reference(out.buf, nodes[1..], ev).results);
      }
    }
  }

  /** The loop runs at most every node, runs all of them when it ends with 0, and stops early only on failure. */
  lemma {:induction false} RunChainVisits(m: Machine, buf: seq<byte>, nodes: seq<Node>,
                                          ev: (Node, seq<byte>) -> NodeOutput)
    ensures var r := RunChain(m, buf, nodes, ev);
            && r.visited <= |nodes|
            && (nodes != [] ==> r.visited >= 1)
            && (r.ret == 0 ==> r.visited == |nodes|)
            && (r.visited < |nodes| ==> r.ret != 0)
    decreases |nodes|
  {
    if nodes != [] {
      var st := NodeStep(m, buf, nodes[0], ev);
      if st.ret == 0 {
        RunChainVisits(st.machine, st.buf, nodes[1..], ev);
      }
    }
  }

  /** Every node before the last one evaluated returned 0: running only a shorter prefix ends with 0. */
  lemma {:induction false} RunChainPrefixSucceeds(m: Machine, buf: seq<byte>, nodes: seq<Node>,
                                                  ev: (Node, seq<byte>) -> NodeOutput, k: nat)
    requires k < RunChain(m, buf, nodes, ev).visited
    ensures k <= |nodes| && RunChain(m, buf, nodes[..k], ev).ret == 0
    decreases |nodes|
  {
    RunChainVisits(m, buf, nodes, ev);
    if k > 0 {
      var st := NodeStep(m, buf, nodes[0], ev);
      assert st.ret == 0;
      assert nodes[..k][0] == nodes[0] && nodes[..k][1..] == nodes[1..][..k - 1];
      RunChainPrefixSucceeds(st.machine, st.buf, nodes[1..], ev, k - 1);
    }
  }

  /**
    Once a node fails, no later node is evaluated: any chain that agrees on the
    nodes that ran gives the same loop outcome, whatever follows.
  */
  lemma {:induction false} LaterNodesIgnored(m: Machine, buf: seq<byte>, nodes: seq<Node>, other: seq<Node>,
                                             ev: (Node, seq<byte>) -> NodeOutput)
    requires RunChain(m, buf, nodes, ev).ret != 0
    requires RunChain(m, buf, nodes, ev).visited <= |other|
    requires other[..RunChain(m, buf, nodes, ev).visited] == nodes[..RunChain(m, buf, nodes, ev).visited]
    ensures RunChain(m, buf, other, ev) == RunChain(m, buf, nodes, ev)
    decreases |nodes|
  {
    RunChainVisits(m, buf, nodes, ev);
    var v := RunChain(m, buf, nodes, ev).visited;
    assert nodes[0] == nodes[..v][0] == other[..v][0] == other[0];
    var st := NodeStep(m, buf, nodes[0], ev);
    if st.ret == 0 {
      assert nodes[1..][..v - 1] == nodes[..v][1..] == other[..v][1..] == other[1..][..v - 1];
      LaterNodesIgnored(st.machine, st.buf, nodes[1..], other[1..], ev);
    }
  }

  /** Nodes that leave the buffer as they find it leave the loop's final buffer equal to the copied input. */
  lemma {:induction false} RunChainKeepsBuffer(m: Machine, buf: seq<byte>, nodes: seq<Node>,
                                               ev: (Node, seq<byte>) -> NodeOutput)
    requires forall n :: n in nodes ==> ev(n, buf).buf == buf
    ensures RunChain(m, buf, nodes, ev).buf == buf
    decreases |nodes|
  {
    if nodes != [] {
      assert nodes[0] in nodes;
      var st := NodeStep(m, buf, nodes[0], ev);
      if st.ret == 0 {
        assert forall n :: n in nodes[1..] ==> n in nodes;
        RunChainKeepsBuffer(st.machine, st.buf, nodes[1..], ev);
      }
    }
  }

  // ---------------------------------------------------------------------------
  // Every run, supported atoms or not: the shape of the stack

  /**
    The results bundle sits directly on `base`, whose top is the handle message,
    and the error field and the freed log are as in `m0`.
  */
  predicate ResultsOnTop(base: seq<Cell>, m: Machine, m0: Machine)
  {
    && |m.stack| == |base| + 1 && m.stack[..|base|] == base && m.stack[|base|].Bundle?
    && m.errno == m0.errno && m.freed == m0.freed
  }

  /** As ResultsOnTop, with a message still being filled above the results bundle. */
  predicate MessageOpen(base: seq<Cell>, m: Machine, m0: Machine)
  {
    && |m.stack| == |base| + 2 && m.stack[..|base|] == base
    && m.stack[|base|].Bundle? && m.stack[|base| + 1].Message?
    && m.errno == m0.errno && m.freed == m0.freed
  }

  /**
    Whatever the atom, one turn of the inner loop keeps the bundle on the handle
    message. An open message stays open, with `undefined` as it was, exactly
    when the atom pushes a value; otherwise its ose_push closes the message
    into the bundle, and the message is never reopened.
  */
  lemma MaterializeAtomShape(base: seq<Cell>, m: Machine, m0: Machine, a: Atom)
    requires |base| >= 1 && Top(base).Message?
    requires ResultsOnTop(base, m, m0) || MessageOpen(base, m, m0)
    ensures var r := MaterializeAtom(m, a);
            && (MessageOpen(base, m, m0) && AtomValue(a).Pushes? ==> MessageOpen(base, r, m0) && r.undefined == m.undefined)
            && (MessageOpen(base, m, m0) && !AtomValue(a).Pushes? ==> ResultsOnTop(base, r, m0))
            && (ResultsOnTop(base, m, m0) ==> ResultsOnTop(base, r, m0))
  {
    var k := |base|;
    var pushed :=
      match AtomValue(a)
      case Pushes(v) => PushCell(m, ValueCell(v))
      case NoBranch => m
      case Undefined => m.(undefined := true);
    var n := |pushed.stack|;
    assert pushed.stack[..k] == base;
    if AtomValue(a).Pushes? {
      assert pushed.stack[..n - 2][..k] == base;
    } else if ResultsOnTop(base, m, m0) {
      assert pushed.stack[n - 2] == Top(base);
    } else {
      assert pushed.stack[..n - 2] == base;
    }
  }

  /** The inner loop: the message stays open, with `undefined` unchanged, exactly when every atom pushes a value. */
  lemma {:induction false} MaterializeAtomsShape(base: seq<Cell>, m: Machine, m0: Machine, atoms: seq<Atom>)
    requires |base| >= 1 && Top(base).Message?
    requires ResultsOnTop(base, m, m0) || MessageOpen(base, m, m0)
    ensures var r := MaterializeAtoms(m, atoms);
            && (MessageOpen(base, m, m0) && AllPush(atoms) ==> MessageOpen(base, r, m0) && r.undefined == m.undefined)
            && (MessageOpen(base, m, m0) && !AllPush(atoms) ==> ResultsOnTop(base, r, m0))
            && (ResultsOnTop(base, m, m0) ==> ResultsOnTop(base, r, m0))
    decreases |atoms|
  {
    if atoms != [] {
      var init, last := atoms[..|atoms| - 1], atoms[|atoms| - 1];
      assert atoms == init + [last];
      assert AllPush(atoms) <==> AllPush(init) && AtomValue(last).Pushes?;
      MaterializeAtomsShape(base, m, m0, init);
      MaterializeAtomShape(base, MaterializeAtoms(m, init), m0, last);
    }
  }

  /**
    Whatever the atoms, a node's `if(av)` block leaves the results bundle on the
    handle message, and it leaves the machine undefined exactly when some atom
    has no value: the closing ose_push then pushes the bundle into the handle
    message, which this model leaves undefined (and keeps as a no-op).
  */
  lemma MaterializeShape(base: seq<Cell>, m: Machine, atoms: seq<Atom>)
    requires |base| >= 1 && Top(base).Message? && ResultsOnTop(base, m, m)
    ensures ResultsOnTop(base, Materialize(m, atoms), m)
    ensures Materialize(m, atoms).undefined == (m.undefined || !AllPush(atoms))
  {
    var withMsg := PushCell(m, Message(AnonAddress, []));
    assert withMsg.stack[..|base|] == base;
    MaterializeAtomsShape(base, withMsg, m, atoms);
    var filled := MaterializeAtoms(withMsg, atoms);
    var n := |filled.stack|;
    if MessageOpen(base, filled, m) {
      assert filled.stack[..n - 2] == base;
    } else {
      assert filled.stack[n - 2] == Top(base);
    }
  }

  /**
    For every run: the loop ends with the Reference buffer, return code and node
    count, and the error field and freed log untouched. The machine becomes
    undefined exactly when some node hands back an atom with no value; only in
    the other runs is the layout (results bundle directly on the handle message)
    a fact about the program rather than about this model's no-op convention.
  */
  lemma {:induction false} RunChainShape(base: seq<Cell>, m: Machine, buf: seq<byte>, nodes: seq<Node>,
                                         ev: (Node, seq<byte>) -> NodeOutput)
    requires |base| >= 1 && Top(base).Message? && ResultsOnTop(base, m, m)
    ensures var r, ref := RunChain(m, buf, nodes, ev), Reference(buf, nodes, ev);
            && r.buf == ref.buf && r.ret == ref.ret && r.visited == ref.visited
            && ResultsOnTop(base, r.machine, m)
            && r.machine.undefined == (m.undefined || !ref.clean)
    decreases |nodes|
  {
    if nodes != [] {
      var out := ev(nodes[0], buf);
      var st := NodeStep(m, buf, nodes[0], ev);
      if out.atoms.Some? {
        MaterializeShape(base, m, out.atoms.value);
      }
      if out.status == 0 {
        RunChainShape(base, st.machine, out.buf, nodes[1..], ev);
      }
    }
  }

  // ---------------------------------------------------------------------------
  // Parse

  /** Each precondition failure sets its own code and leaves the stack untouched. */
  lemma ParseRejects(m: Machine, parser: string -> ParseOutcome)
    ensures |m.stack| < 1 ==> ParseSpec(m, parser) == m.(errno := ElemCount)
    ensures |m.stack| >= 1 && !Top(m.stack).Message? ==> ParseSpec(m, parser) == m.(errno := ElemType)
    ensures |m.stack| >= 1 && Top(m.stack).Message? && LastArgTag(Top(m.stack)) != Some(StringTag)
            ==> ParseSpec(m, parser) == m.(errno := ItemType)
  {
  }

  /**
    On a string argument: a parser error sets 128 and keeps the message; success
    replaces the top cell by a one-argument pointer message, depth unchanged.
  */
  lemma ParseOutcomes(m: Machine, parser: string -> ParseOutcome)
    requires |m.stack| >= 1 && LastArgTag(Top(m.stack)) == Some(StringTag)
    ensures var outcome := parser(PeekString(Top(m.stack)));
            && (outcome.ParseError? ==> ParseSpec(m, parser) == m.(errno := GenericFailure))
            && (outcome.Parsed? ==>
                  && ParseSpec(m, parser)
                     == m.(stack := m.stack[..|m.stack| - 1] + [Message(AnonAddress, [PtrArg(outcome.head)])])
                  && |ParseSpec(m, parser).stack| == |m.stack|)
  {
  }

  // ---------------------------------------------------------------------------
  // Free

  /** Each precondition failure sets its own code and leaves the stack untouched. */
  lemma FreeRejects(m: Machine, reinterpret: Cell -> Ptr)
    ensures |m.stack| < 1 ==> FreeSpec(m, reinterpret) == m.(errno := ElemCount)
    ensures |m.stack| >= 1 && !Top(m.stack).Message? ==> FreeSpec(m, reinterpret) == m.(errno := ElemType)
    ensures |m.stack| >= 1 && Top(m.stack).Message? && LastArgTag(Top(m.stack)) != Some(BlobTag)
            ==> FreeSpec(m, reinterpret) == m.(errno := ItemType)
  {
  }

  /** On a blob argument: a NULL handle sets 128 and keeps the stack; any other handle is released and the top cell dropped. */
  lemma FreeOutcomes(m: Machine, reinterpret: Cell -> Ptr)
    requires |m.stack| >= 1 && LastArgTag(Top(m.stack)) == Some(BlobTag)
    ensures var e := PeekAlignedPtr(Top(m.stack), reinterpret);
            && (e.Null? ==> FreeSpec(m, reinterpret) == m.(errno := GenericFailure))
            && (e.Chain? ==> FreeSpec(m, reinterpret)
                             == m.(stack := m.stack[..|m.stack| - 1], freed := m.freed + [e]))
  {
  }

  /**
    Parse followed by Free on a string that parses to a non-NULL chain: no
    error is reported, the string cell is consumed (depth one less than before
    Parse) and exactly that chain is released.
  */
  lemma ParseThenFree(m: Machine, parser: string -> ParseOutcome, reinterpret: Cell -> Ptr)
    requires |m.stack| >= 1 && LastArgTag(Top(m.stack)) == Some(StringTag)
    requires parser(PeekString(Top(m.stack))).Parsed?
    requires parser(PeekString(Top(m.stack))).head.Chain?
    ensures FreeSpec(ParseSpec(m, parser), reinterpret)
         == m.(stack := m.stack[..|m.stack| - 1], freed := m.freed + [parser(PeekString(Top(m.stack))).head])
  {
  }

  // ---------------------------------------------------------------------------
  // Eval

  /** Each check on the top cell sets its own code and leaves the stack untouched; nothing is allocated. */
  lemma EvalRejects(m: Machine, allocOk: bool, serialize: Cell -> seq<byte>,
                    reinterpret: Cell -> Ptr, ev: (Node, seq<byte>) -> NodeOutput)
    ensures |m.stack| < 2
            ==> EvalSpec(m, allocOk, serialize, reinterpret, ev) == EvalEnd(m.(errno := ElemCount), NotAllocated)
    ensures |m.stack| >= 2 && !Top(m.stack).Message?
            ==> EvalSpec(m, allocOk, serialize, reinterpret, ev) == EvalEnd(m.(errno := ElemType), NotAllocated)
    ensures |m.stack| >= 2 && Top(m.stack).Message? && LastArgTag(Top(m.stack)) != Some(BlobTag)
            ==> EvalSpec(m, allocOk, serialize, reinterpret, ev) == EvalEnd(m.(errno := ItemType), NotAllocated)
  {
  }

  /** A failed allocation sets 128 after the swap: the two top cells are left exchanged. */
  lemma EvalAllocFailure(m: Machine, serialize: Cell -> seq<byte>,
                         reinterpret: Cell -> Ptr, ev: (Node, seq<byte>) -> NodeOutput)
    requires |m.stack| >= 2 && LastArgTag(Top(m.stack)) == Some(BlobTag)
    ensures var n := |m.stack|;
            EvalSpec(m, false, serialize, reinterpret, ev)
            == EvalEnd(m.(stack := m.stack[..n - 2] + [m.stack[n - 1], m.stack[n - 2]], errno := GenericFailure),
                       NotAllocated)
  {
  }

  /**
    A NULL handle is noticed only after the copy: the second cell is already
    dropped, 128 is set, and the copied buffer is never freed.
  */
  lemma EvalNullHandle(m: Machine, serialize: Cell -> seq<byte>,
                       reinterpret: Cell -> Ptr, ev: (Node, seq<byte>) -> NodeOutput)
    requires |m.stack| >= 2 && LastArgTag(Top(m.stack)) == Some(BlobTag)
    requires PeekAlignedPtr(Top(m.stack), reinterpret).Null?
    ensures var n := |m.stack|;
            EvalSpec(m, true, serialize, reinterpret, ev)
            == EvalEnd(m.(stack := m.stack[..n - 2] + [m.stack[n - 1]], errno := GenericFailure), Leaked)
  {
  }

  /** After the loop: `ose_nip` removes the handle cell below the results bundle, then the buffer is pushed as a blob. */
  lemma EvalTail(dropped: Machine, results: seq<Cell>, buf: seq<byte>, ret: int)
    requires |dropped.stack| >= 1
    ensures var final := WithResults(PushCell(dropped, Bundle([])), results);
            var flagged := if ret != 0 then SetErrno(final, GenericFailure) else final;
            PushCell(NipBelow(flagged), ValueCell(BlobArg(buf)))
            == dropped.(stack := dropped.stack[..|dropped.stack| - 1] + [Bundle(results), ValueCell(BlobArg(buf))],
                        errno := if ret != 0 then GenericFailure else dropped.errno)
  {
    var start := PushCell(dropped, Bundle([]));
    assert start.stack[..|start.stack| - 1] == dropped.stack;
    assert [] + results == results;
  }

  /**
    Past the checks, for every run: 128 is set exactly when the last node
    evaluated failed, the blob on top is the Reference final buffer, the freed
    log is untouched and the buffer is released. The machine becomes undefined
    exactly when some node hands back an atom with no value; in the runs where
    it does not, the handle cell and the cell below it are replaced by the
    results bundle and that blob.
  */
  lemma EvalOutcome(m: Machine, serialize: Cell -> seq<byte>,
                    reinterpret: Cell -> Ptr, ev: (Node, seq<byte>) -> NodeOutput)
    requires |m.stack| >= 2 && LastArgTag(Top(m.stack)) == Some(BlobTag)
    requires PeekAlignedPtr(Top(m.stack), reinterpret).Chain?
    ensures var n := |m.stack|;
            var ref := Reference(serialize(m.stack[n - 2]), PeekAlignedPtr(Top(m.stack), reinterpret).Nodes(), ev);
            var r := EvalSpec(m, true, serialize, reinterpret, ev);
            && r.fate == Released
            && |r.machine.stack| == n && r.machine.stack[..n - 2] == m.stack[..n - 2]
            && r.machine.stack[n - 2].Bundle? && r.machine.stack[n - 1] == ValueCell(BlobArg(ref.buf))
            && r.machine.errno == (if ref.ret != 0 then GenericFailure else m.errno)
            && r.machine.freed == m.freed
            && r.machine.undefined == (m.undefined || !ref.clean)
  {
    var n := |m.stack|;
    var e := PeekAlignedPtr(Top(m.stack), reinterpret);
    var input := serialize(m.stack[n - 2]);
    var dropped := DropTop(SwapTop(m));
    assert dropped.stack == m.stack[..n - 2] + [m.stack[n - 1]];
    assert Top(SwapTop(m).stack) == m.stack[n - 2];
    var start := PushCell(dropped, Bundle([]));
    assert start.stack[..n - 1] == dropped.stack;
    RunChainShape(dropped.stack, start, input, e.Nodes(), ev);
    var run := RunChain(start, input, e.Nodes(), ev);
    EvalTailShape(dropped, run.machine, start, run.ret, run.buf);
    assert dropped.stack[..n - 2] == m.stack[..n - 2];
  }

  /** After any loop run: `ose_nip` removes the handle cell below the results bundle, then the buffer is pushed as a blob. */
  lemma EvalTailShape(dropped: Machine, final: Machine, start: Machine, ret: int, buf: seq<byte>)
    requires |dropped.stack| >= 1 && ResultsOnTop(dropped.stack, final, start)
    ensures var flagged := if ret != 0 then SetErrno(final, GenericFailure) else final;
            var r, k := PushCell(NipBelow(flagged), ValueCell(BlobArg(buf))), |dropped.stack|;
            && |r.stack| == k + 1 && r.stack[..k - 1] == dropped.stack[..k - 1]
            && r.stack[k - 1].Bundle? && r.stack[k] == ValueCell(BlobArg(buf))
            && r.errno == (if ret != 0 then GenericFailure else start.errno)
            && r.freed == start.freed && r.undefined == final.undefined
  {
    var k := |dropped.stack|;
    assert final.stack[..k - 1] == dropped.stack[..k - 1];
  }

  /**
    Past the checks, with every produced atom supported: the handle cell and the
    cell below it are replaced by the Reference results bundle and the final
    buffer as a blob; 128 is set exactly when the last node evaluated failed,
    and the partial results stay. The buffer copied is the second cell's bytes,
    whatever that cell's type, and it is released.
  */
  lemma EvalShape(m: Machine, serialize: Cell -> seq<byte>,
                  reinterpret: Cell -> Ptr, ev: (Node, seq<byte>) -> NodeOutput)
    requires |m.stack| >= 2 && LastArgTag(Top(m.stack)) == Some(BlobTag)
    requires PeekAlignedPtr(Top(m.stack), reinterpret).Chain?
    requires Reference(serialize(m.stack[|m.stack| - 2]), PeekAlignedPtr(Top(m.stack), reinterpret).Nodes(), ev).clean
    ensures var n := |m.stack|;
            var ref := Reference(serialize(m.stack[n - 2]), PeekAlignedPtr(Top(m.stack), reinterpret).Nodes(), ev);
            EvalSpec(m, true, serialize, reinterpret, ev)
            == EvalEnd(m.(stack := m.stack[..n - 2] + [Bundle(ref.results), ValueCell(BlobArg(ref.buf))],
                          errno := if ref.ret != 0 then GenericFailure else m.errno),
                       Released)
  {
    var n := |m.stack|;
    var e := PeekAlignedPtr(Top(m.stack), reinterpret);
    var input := serialize(m.stack[n - 2]);
    var ref := Reference(input, e.Nodes(), ev);
    var dropped := DropTop(SwapTop(m));
    assert dropped.stack == m.stack[..n - 2] + [m.stack[n - 1]];
    assert Top(SwapTop(m).stack) == m.stack[n - 2];
    var start := PushCell(dropped, Bundle([]));
    RunChainClean(start, input, e.Nodes(), ev);
    EvalTail(dropped, ref.results, ref.buf, ref.ret);
  }

  /** When no node touches the buffer, the blob left on top holds the second cell's bytes unchanged. */
  lemma EvalKeepsBytes(m: Machine, serialize: Cell -> seq<byte>,
                       reinterpret: Cell -> Ptr, ev: (Node, seq<byte>) -> NodeOutput)
    requires |m.stack| >= 2 && LastArgTag(Top(m.stack)) == Some(BlobTag)
    requires PeekAlignedPtr(Top(m.stack), reinterpret).Chain?
    requires forall n :: n in PeekAlignedPtr(Top(m.stack), reinterpret).Nodes()
                         ==> ev(n, serialize(m.stack[|m.stack| - 2])).buf == serialize(m.stack[|m.stack| - 2])
    ensures var after := EvalSpec(m, true, serialize, reinterpret, ev).machine.stack;
            |after| >= 1 && Top(after) == ValueCell(BlobArg(serialize(m.stack[|m.stack| - 2])))
  {
    var n := |m.stack|;
    var e := PeekAlignedPtr(Top(m.stack), reinterpret);
    var swapped := SwapTop(m);
    var dropped := DropTop(swapped);
    RunChainKeepsBuffer(PushCell(dropped, Bundle([])), serialize(m.stack[n - 2]), e.Nodes(), ev);
  }

  /**
    The single-node case: a node that turns the buffer into `out` and hands back
    [7, "x"] leaves one results message with the arguments 7 then "x", and `out`
    as the blob.
  */
  lemma EvalSingleNode(m: Machine, serialize: Cell -> seq<byte>, reinterpret: Cell -> Ptr,
                       ev: (Node, seq<byte>) -> NodeOutput, node: Node, out: seq<byte>)
    requires |m.stack| >= 2 && LastArgTag(Top(m.stack)) == Some(BlobTag)
    requires PeekAlignedPtr(Top(m.stack), reinterpret) == Chain(node, [])
    requires ev(node, serialize(m.stack[|m.stack| - 2])) == NodeOutput(0, out, Some([IntAtom(7), StringAtom("x")]))
    ensures var n := |m.stack|;
            EvalSpec(m, true, serialize, reinterpret, ev).machine.stack
            == m.stack[..n - 2] + [Bundle([Message(AnonAddress, [Int32Arg(7), StringArg("x")])]),
                                   ValueCell(BlobArg(out))]
  {
    var atoms := [IntAtom(7), StringAtom("x")];
    assert atoms[..1] == [IntAtom(7)] && atoms[..1][..0] == [];
    assert ArgsOf(atoms) == [Int32Arg(7), StringArg("x")];
    assert AllPush(atoms);
    var nodes := Chain(node, []).Nodes();
    assert nodes == [node] && nodes[1..] == [];
    var input := serialize(m.stack[|m.stack| - 2]);
    assert Reference(out, [], ev) == Expected([], out, 0, 0, true);
    assert Reference(input, nodes, ev)
        == Expected([Message(AnonAddress, [Int32Arg(7), StringArg("x")])], out, 0, 1, true);
    EvalShape(m, serialize, reinterpret, ev);
  }

  /**
    An atom with an unsupported tag is not silently dropped: its ose_push moves
    the half-built message into the results bundle early, later values become
    bundle elements of their own, and the closing ose_push pushes the bundle
    into the handle message, which this model leaves undefined.
  */
  lemma UnsupportedAtomClosesMessage(m: Machine, addr: string, args: seq<Arg>)
    requires m.stack == [Message(addr, args), Bundle([])] && !m.undefined
    ensures Materialize(m, [OtherAtom('?'), IntAtom(7)])
         == m.(stack := [Message(addr, args), Bundle([Message(AnonAddress, []), ValueCell(Int32Arg(7))])],
               undefined := true)
  {
    var atoms := [OtherAtom('?'), IntAtom(7)];
    var handle, empty := Message(addr, args), Message(AnonAddress, []);
    var seven := ValueCell(Int32Arg(7));
    // the unsupported atom: no value is pushed, but ose_push closes the message
    var withMsg := PushCell(m, empty);
    assert withMsg.stack[..1] == [handle] && [] + [empty] == [empty];
    var afterOther := m.(stack := [handle, Bundle([empty])]);
    assert PushInto(withMsg) == afterOther;
    assert AtomValue(OtherAtom('?')) == NoBranch;
    assert MaterializeAtom(withMsg, OtherAtom('?')) == afterOther;
    assert atoms[..1] == [OtherAtom('?')] && atoms[..1][..0] == [];
    assert MaterializeAtoms(withMsg, atoms[..1]) == afterOther;
    // the int atom: its value becomes an element of the results bundle
    var pushed := PushCell(afterOther, seven);
    assert pushed.stack[..1] == [handle] && [empty] + [seven] == [empty, seven];
    var afterInt := m.(stack := [handle, Bundle([empty, seven])]);
    assert PushInto(pushed) == afterInt;
    assert MaterializeAtom(afterOther, IntAtom(7)) == afterInt;
    assert MaterializeAtoms(withMsg, atoms) == afterInt;
    // the closing ose_push would push the bundle into the handle message
    assert PushInto(afterInt) == afterInt.(undefined := true);
  }
}
