/**
 The ETH transfer inspector (crates/inspectors/src/transfer.rs): a stack of open frames over one
 growing list of transfers, rolled back by truncation, with logs merged upwards frame by frame;
 against the call tree that the hooks walk.
 */
module TransferInspector {
  import opened Common

  type Address = nat

  datatype MessageKind = Call | CallCode | DelegateCall | StaticCall | Create | Create2

  datatype TransferKind = TransferCall | TransferCreate | TransferCreate2 | TransferSelfDestruct

  datatype Transfer = Transfer(kind: TransferKind, from: Address, to: Address, value: nat)

  datatype Log = Emitted(id: nat) | TransferLog(from: Address, to: Address, value: nat)

  datatype Message = Message(kind: MessageKind, caller: Address, destination: Address, value: nat)

  /** `quiet` hosts have EIP-7708 active and emit the transfer logs themselves. */
  datatype Config = Config(internalOnly: bool, collectLogs: bool, quiet: bool)

  datatype Frame = Frame(transfers: nat, logs: seq<Log>)

  datatype State = State(transfers: seq<Transfer>, frames: seq<Frame>, logs: seq<Log>)

  // ----- hooks ----------------------------------------------------------------------------------------

  function Record(s: State, c: Config, t: Transfer): State {
    if t.value == 0 then s
    else
      var s1 := s.(transfers := s.transfers + [t]);
      if c.collectLogs && !c.quiet then AppendLogs(s1, [TransferLog(t.from, t.to, t.value)]) else s1
  }

  /** Logs go to the innermost frame; without an open frame they are lost. */
  function AppendLogs(s: State, logs: seq<Log>): State {
    if s.frames == [] then s
    else
      var top := s.frames[|s.frames| - 1];
      s.(frames := s.frames[|s.frames| - 1 := top.(logs := top.logs + logs)])
  }

  function KindOf(kind: MessageKind): Option<TransferKind> {
    match kind
    case Call => Some(TransferCall)
    case Create => Some(TransferCreate)
    case Create2 => Some(TransferCreate2)
    case _ => None
  }

  /** `root` says that the message is at the initial call depth. */
  function OnStart(s: State, c: Config, m: Message, root: bool): State {
    var s1 := s.(frames := (if root then [] else s.frames) + [Frame(|s.transfers|, [])]);
    if KindOf(m.kind).None? || (c.internalOnly && root) then s1
    else Record(s1, c, Transfer(KindOf(m.kind).value, m.caller, m.destination, m.value))
  }

  function OnEnd(s: State, failed: bool): State {
    if s.frames == [] then s
    else
      var frame, rest := s.frames[|s.frames| - 1], s.frames[..|s.frames| - 1];
      if failed then s.(frames := rest, transfers := Truncate(s.transfers, frame.transfers))
      else if rest != [] then AppendLogs(s.(frames := rest), frame.logs)
      else s.(frames := rest, logs := s.logs + frame.logs)
  }

  function Truncate<T>(xs: seq<T>, n: nat): seq<T> { if n <= |xs| then xs[..n] else xs }

  function OnLog(s: State, c: Config, log: Log): State {
    if c.collectLogs then AppendLogs(s, [log]) else s
  }

  function OnSelfdestruct(s: State, c: Config, contract: Address, target: Address, value: nat): State {
    Record(s, c, Transfer(TransferSelfDestruct, contract, target, value))
  }

  /** Frame positions are nondecreasing and lie within the list of transfers. */
  predicate FramesInOrder(s: State) {
    && (forall i :: 0 <= i < |s.frames| ==> s.frames[i].transfers <= |s.transfers|)
    && (forall i, j :: 0 <= i < j < |s.frames| ==> s.frames[i].transfers <= s.frames[j].transfers)
  }

  class Inspector {
    const config: Config
    var transfers: seq<Transfer>
    var frames: seq<Frame>
    var logs: seq<Log>

    constructor (config: Config)
      ensures Contents() == State([], [], []) && this.config == config
    {
      this.config := config;
      transfers, frames, logs := [], [], [];
    }

    function Contents(): State
      reads this
    {
      State(transfers, frames, logs)
    }

    method RecordTransfer(kind: TransferKind, from: Address, to: Address, value: nat)
      modifies this
      ensures Contents() == Record(old(Contents()), config, Transfer(kind, from, to, value))
    {
      if value == 0 { return; }
      transfers := transfers + [Transfer(kind, from, to, value)];
      if config.collectLogs && !config.quiet {
        PushLogs([TransferLog(from, to, value)]);
      }
    }

    method PushLogs(more: seq<Log>)
      modifies this`frames
      ensures Contents() == AppendLogs(old(Contents()), more)
    {
      if frames != [] {
        var top := |frames| - 1;
        frames := frames[top := frames[top].(logs := frames[top].logs + more)];
      }
    }

    method Start(m: Message, root: bool)
      modifies this
      ensures Contents() == OnStart(old(Contents()), config, m, root)
    {
      if root {
        frames := [];
      }
      frames := frames + [Frame(|transfers|, [])];
      var kind := KindOf(m.kind);
      if kind.None? || (config.internalOnly && root) { return; }
      RecordTransfer(kind.value, m.caller, m.destination, m.value);
    }

    /** A frame in the list of transfers bounds what a failure drops. */
    method End(failed: bool)
      modifies this
      ensures Contents() == OnEnd(old(Contents()), failed)
    {
      if frames == [] { return; }
      var frame := frames[|frames| - 1];
      frames := frames[..|frames| - 1];
      if failed {
        transfers := Truncate(transfers, frame.transfers);
      } else if frames != [] {
        PushLogs(frame.logs);
      } else {
        logs := logs + frame.logs;
      }
    }

    method HandleLog(log: Log)
      modifies this
      ensures Contents() == OnLog(old(Contents()), config, log)
    {
      if config.collectLogs {
        PushLogs([log]);
      }
    }

    method Selfdestruct(contract: Address, target: Address, value: nat)
      modifies this
      ensures Contents() == OnSelfdestruct(old(Contents()), config, contract, target, value)
    {
      RecordTransfer(TransferSelfDestruct, contract, target, value);
    }
  }

  // ----- any sequence of hooks ------------------------------------------------------------------------------

  datatype Hook =
    | StartHook(m: Message, root: bool)
    | EndHook(failed: bool)
    | LogHook(log: Log)
    | SelfdestructHook(contract: Address, target: Address, value: nat)

  function OnHook(s: State, c: Config, h: Hook): State {
    match h
    case StartHook(m, root) => OnStart(s, c, m, root)
    case EndHook(failed) => OnEnd(s, failed)
    case LogHook(log) => OnLog(s, c, log)
    case SelfdestructHook(contract, target, value) => OnSelfdestruct(s, c, contract, target, value)
  }

  /**
   Every hook, nested well or not, keeps the frame positions in order; and only a failing end drops
   transfers: those recorded since its frame was opened, never one recorded before.
   */
  lemma HooksKeepFramesInOrder(s: State, c: Config, h: Hook)
    requires FramesInOrder(s)
    ensures FramesInOrder(OnHook(s, c, h))
    ensures var dropsFrom := if h == EndHook(true) && s.frames != [] then s.frames[|s.frames| - 1].transfers
                             else |s.transfers|;
            s.transfers[..dropsFrom] <= OnHook(s, c, h).transfers
  {
  }

  function RunHooks(s: State, c: Config, hooks: seq<Hook>): State
    decreases |hooks|
  {
    if hooks == [] then s else RunHooks(OnHook(s, c, hooks[0]), c, hooks[1..])
  }

  /** The transfers a failing end may drop: those from the lowest open frame on. */
  function Settled(s: State): nat { if s.frames == [] then |s.transfers| else s.frames[0].transfers }

  /**
   Over any sequence of hooks, root messages after an abandoned transaction included, the frames
   stay in order and nothing recorded before the outermost open frame is ever dropped.
   */
  lemma {:induction false} HookRunsKeepSettled(s: State, c: Config, hooks: seq<Hook>)
    requires FramesInOrder(s)
    ensures FramesInOrder(RunHooks(s, c, hooks))
    ensures s.transfers[..Settled(s)] <= RunHooks(s, c, hooks).transfers
    decreases |hooks|
  {
    if hooks != [] {
      var s1 := OnHook(s, c, hooks[0]);
      HooksKeepFramesInOrder(s, c, hooks[0]);
      HookRunsKeepSettled(s1, c, hooks[1..]);
      SettledGrows(s, c, hooks[0]);
    }
  }

  lemma SettledGrows(s: State, c: Config, h: Hook)
    requires FramesInOrder(s)
    ensures var s1 := OnHook(s, c, h);
            && Settled(s) <= Settled(s1) <= |s1.transfers|
            && s.transfers[..Settled(s)] <= s1.transfers[..Settled(s1)]
  {
  }

  // ----- call trees ---------------------------------------------------------------------------------------------

  datatype Item = LogItem(log: Log) | DestroyItem(contract: Address, target: Address, value: nat) | CallItem(call: Tree)

  datatype Items = Nil | Cons(head: Item, tail: Items)

  /** A call or create: what it does, in order, and whether it succeeds. */
  datatype Tree = Tree(message: Message, items: Items, success: bool)

  /** The hooks of a call tree, in order. */
  function RunTree(s: State, c: Config, t: Tree, root: bool): State
    decreases t
  {
    OnEnd(RunItems(OnStart(s, c, t.message, root), c, t.items), !t.success)
  }

  function RunItem(s: State, c: Config, i: Item): State
    decreases i
  {
    match i
    case LogItem(log) => OnLog(s, c, log)
    case DestroyItem(contract, target, value) => OnSelfdestruct(s, c, contract, target, value)
    case CallItem(call) => RunTree(s, c, call, false)
  }

  function RunItems(s: State, c: Config, items: Items): State
    decreases items
  {
    match items
    case Nil => s
    case Cons(head, tail) => RunItems(RunItem(s, c, head), c, tail)
  }

  // The transfers and logs of a tree: an in-order walk without the failed subtrees.

  /** Only a call and the two creates move value, each under its own kind. */
  function Entry(c: Config, m: Message, root: bool): seq<Transfer> {
    if (c.internalOnly && root) || m.value == 0 then []
    else if m.kind == Call then [Transfer(TransferCall, m.caller, m.destination, m.value)]
    else if m.kind == Create then [Transfer(TransferCreate, m.caller, m.destination, m.value)]
    else if m.kind == Create2 then [Transfer(TransferCreate2, m.caller, m.destination, m.value)]
    else []
  }

  function TransferLogs(c: Config, ts: seq<Transfer>): seq<Log> {
    if c.collectLogs && !c.quiet then
      seq(|ts|, i requires 0 <= i < |ts| => TransferLog(ts[i].from, ts[i].to, ts[i].value))
    else []
  }

  function TreeTransfers(c: Config, t: Tree, root: bool): seq<Transfer> {
    if t.success then Entry(c, t.message, root) + ItemsTransfers(c, t.items) else []
  }

  function ItemTransfers(c: Config, i: Item): seq<Transfer> {
    match i
    case LogItem(_) => []
    case DestroyItem(contract, target, value) =>
      if value == 0 then [] else [Transfer(TransferSelfDestruct, contract, target, value)]
    case CallItem(call) => TreeTransfers(c, call, false)
  }

  function ItemsTransfers(c: Config, items: Items): seq<Transfer> {
    match items
    case Nil => []
    case Cons(head, tail) => ItemTransfers(c, head) + ItemsTransfers(c, tail)
  }

  function TreeLogs(c: Config, t: Tree, root: bool): seq<Log> {
    if t.success then TransferLogs(c, Entry(c, t.message, root)) + ItemsLogs(c, t.items) else []
  }

  function ItemLogs(c: Config, i: Item): seq<Log> {
    match i
    case LogItem(log) => if c.collectLogs then [log] else []
    case DestroyItem(_, _, _) => TransferLogs(c, ItemTransfers(c, i))
    case CallItem(call) => TreeLogs(c, call, false)
  }

  function ItemsLogs(c: Config, items: Items): seq<Log> {
    match items
    case Nil => []
    case Cons(head, tail) => ItemLogs(c, head) + ItemsLogs(c, tail)
  }

  /** `s` with more transfers, and more logs in its innermost frame. */
  function Extend(s: State, ts: seq<Transfer>, logs: seq<Log>): State
    requires s.frames != []
  {
    var top := s.frames[|s.frames| - 1];
    State(s.transfers + ts, s.frames[|s.frames| - 1 := top.(logs := top.logs + logs)], s.logs)
  }

  lemma ExtendTwice(s: State, ts: seq<Transfer>, us: seq<Transfer>, ls: seq<Log>, ms: seq<Log>)
    requires s.frames != []
    ensures Extend(Extend(s, ts, ls), us, ms) == Extend(s, ts + us, ls + ms)
  {
    var top := s.frames[|s.frames| - 1];
    assert top.logs + (ls + ms) == top.logs + ls + ms;
  }

  lemma ExtendNothing(s: State)
    requires s.frames != []
    ensures Extend(s, [], []) == s
  {
    var n := |s.frames| - 1;
    assert s.frames[n].logs + [] == s.frames[n].logs;
    assert s.frames[n := s.frames[n]] == s.frames;
    assert s.transfers + [] == s.transfers;
  }

  lemma RecordExtends(s: State, c: Config, t: Transfer)
    requires s.frames != []
    ensures var ts := if t.value == 0 then [] else [t]; Record(s, c, t) == Extend(s, ts, TransferLogs(c, ts))
  {
    ExtendNothing(s);
    assert TransferLogs(c, []) == [];
    if t.value != 0 {
      ExtendNothing(s.(transfers := s.transfers + [t]));
      var logs := if c.collectLogs && !c.quiet then [TransferLog(t.from, t.to, t.value)] else [];
      assert TransferLogs(c, [t]) == logs;
    }
  }

  /** The state right after a frame was pushed. */
  function Opened(s: State): State { s.(frames := s.frames + [Frame(|s.transfers|, [])]) }

  lemma StartExtends(s: State, c: Config, m: Message, root: bool)
    ensures var base := if root then s.(frames := []) else s; var entry := Entry(c, m, root);
            OnStart(s, c, m, root) == Extend(Opened(base), entry, TransferLogs(c, entry))
  {
    var base := if root then s.(frames := []) else s;
    ExtendNothing(Opened(base));
    assert TransferLogs(c, []) == [];
    if KindOf(m.kind).Some? && !(c.internalOnly && root) {
      RecordExtends(Opened(base), c, Transfer(KindOf(m.kind).value, m.caller, m.destination, m.value));
    }
  }

  /** Closing a frame hands its transfers and logs to the frame below, or drops them all. */
  lemma EndExtends(s: State, ts: seq<Transfer>, logs: seq<Log>, failed: bool)
    requires s.frames != []
    ensures OnEnd(Extend(Opened(s), ts, logs), failed) == if failed then s else Extend(s, ts, logs)
  {
    var full := Extend(Opened(s), ts, logs);
    assert full.frames[..|full.frames| - 1] == s.frames;
    assert (s.transfers + ts)[..|s.transfers|] == s.transfers;
    assert [] + logs == logs;
  }

  /** Inside a frame, a call adds exactly its in-order transfers and logs, or nothing if it fails. */
  lemma {:induction false} TreeExtends(s: State, c: Config, t: Tree)
    requires s.frames != []
    ensures RunTree(s, c, t, false) == Extend(s, TreeTransfers(c, t, false), TreeLogs(c, t, false))
    decreases t
  {
    var entry := Entry(c, t.message, false);
    StartExtends(s, c, t.message, false);
    ItemsExtend(Extend(Opened(s), entry, TransferLogs(c, entry)), c, t.items);
    ExtendTwice(Opened(s), entry, ItemsTransfers(c, t.items), TransferLogs(c, entry), ItemsLogs(c, t.items));
    EndExtends(s, entry + ItemsTransfers(c, t.items), TransferLogs(c, entry) + ItemsLogs(c, t.items), !t.success);
    ExtendNothing(s);
  }

  lemma {:induction false} ItemExtends(s: State, c: Config, i: Item)
    requires s.frames != []
    ensures RunItem(s, c, i) == Extend(s, ItemTransfers(c, i), ItemLogs(c, i))
    decreases i
  {
    match i
    case LogItem(log) =>
      ExtendNothing(s);
      assert s.transfers + [] == s.transfers;
    case DestroyItem(contract, target, value) =>
      RecordExtends(s, c, Transfer(TransferSelfDestruct, contract, target, value));
    case CallItem(call) =>
      TreeExtends(s, c, call);
  }

  lemma {:induction false} ItemsExtend(s: State, c: Config, items: Items)
    requires s.frames != []
    ensures RunItems(s, c, items) == Extend(s, ItemsTransfers(c, items), ItemsLogs(c, items))
    decreases items
  {
    match items
    case Nil => ExtendNothing(s);
    case Cons(head, tail) =>
      ItemExtends(s, c, head);
      var s1 := Extend(s, ItemTransfers(c, head), ItemLogs(c, head));
      ItemsExtend(s1, c, tail);
      ExtendTwice(s, ItemTransfers(c, head), ItemsTransfers(c, tail), ItemLogs(c, head), ItemsLogs(c, tail));
  }

  // ----- transactions ------------------------------------------------------------------------------------------------

  /**
   A frame cut off by an execution error: what it did before, and the frame that was open inside it
   at that moment. None of these frames gets an end hook.
   */
  datatype OpenTree = OpenTree(message: Message, items: Items, inner: Option<OpenTree>)

  datatype Tx = Complete(tree: Tree) | Abandoned(open: OpenTree)

  function RunOpen(s: State, c: Config, t: OpenTree, root: bool): State
    decreases t
  {
    var s1 := RunItems(OnStart(s, c, t.message, root), c, t.items);
    if t.inner.Some? then RunOpen(s1, c, t.inner.value, false) else s1
  }

  /** An abandoned transaction leaves the transfers of its open frames and of their succeeded calls. */
  function OpenTransfers(c: Config, t: OpenTree, root: bool): seq<Transfer>
    decreases t
  {
    Entry(c, t.message, root) + ItemsTransfers(c, t.items) +
    if t.inner.Some? then OpenTransfers(c, t.inner.value, false) else []
  }

  function RunTx(s: State, c: Config, tx: Tx): State {
    match tx case Complete(tree) => RunTree(s, c, tree, true) case Abandoned(open) => RunOpen(s, c, open, true)
  }

  function RunTxs(s: State, c: Config, txs: seq<Tx>): State
    decreases |txs|
  {
    if txs == [] then s else RunTxs(RunTx(s, c, txs[0]), c, txs[1..])
  }

  function TxTransfers(c: Config, tx: Tx): seq<Transfer> {
    match tx case Complete(tree) => TreeTransfers(c, tree, true) case Abandoned(open) => OpenTransfers(c, open, true)
  }

  function TxLogs(c: Config, tx: Tx): seq<Log> {
    match tx case Complete(tree) => TreeLogs(c, tree, true) case Abandoned(_) => []
  }

  function AllTransfers(c: Config, txs: seq<Tx>): seq<Transfer>
    decreases |txs|
  {
    if txs == [] then [] else TxTransfers(c, txs[0]) + AllTransfers(c, txs[1..])
  }

  function AllLogs(c: Config, txs: seq<Tx>): seq<Log>
    decreases |txs|
  {
    if txs == [] then [] else TxLogs(c, txs[0]) + AllLogs(c, txs[1..])
  }

  lemma RootExtends(s: State, c: Config, t: Tree)
    ensures RunTree(s, c, t, true) ==
            State(s.transfers + TreeTransfers(c, t, true), [], s.logs + TreeLogs(c, t, true))
  {
    var base, entry := s.(frames := []), Entry(c, t.message, true);
    StartExtends(s, c, t.message, true);
    ItemsExtend(Extend(Opened(base), entry, TransferLogs(c, entry)), c, t.items);
    ExtendTwice(Opened(base), entry, ItemsTransfers(c, t.items), TransferLogs(c, entry), ItemsLogs(c, t.items));
    var ts, logs := entry + ItemsTransfers(c, t.items), TransferLogs(c, entry) + ItemsLogs(c, t.items);
    assert (s.transfers + ts)[..|s.transfers|] == s.transfers;
    assert s.transfers + [] == s.transfers && s.logs + [] == s.logs && [] + logs == logs;
  }

  lemma {:induction false} OpenExtends(s: State, c: Config, t: OpenTree, root: bool)
    requires root || s.frames != []
    ensures var s1 := RunOpen(s, c, t, root);
            s1.transfers == s.transfers + OpenTransfers(c, t, root) && s1.logs == s.logs
    decreases t
  {
    var base, entry := if root then s.(frames := []) else s, Entry(c, t.message, root);
    StartExtends(s, c, t.message, root);
    var started := Extend(Opened(base), entry, TransferLogs(c, entry));
    ItemsExtend(started, c, t.items);
    var s1 := Extend(started, ItemsTransfers(c, t.items), ItemsLogs(c, t.items));
    assert s1.transfers == s.transfers + (entry + ItemsTransfers(c, t.items));
    if t.inner.Some? {
      OpenExtends(s1, c, t.inner.value, false);
      Assoc3(s.transfers, entry + ItemsTransfers(c, t.items), OpenTransfers(c, t.inner.value, false));
    }
  }

  lemma Assoc3<T>(a: seq<T>, b: seq<T>, c: seq<T>)
    ensures a + b + c == a + (b + c)
  {
  }

  /**
   The inspector refines the call trees: after any transactions, completed or abandoned, its
   transfers and logs are the in-order flattening of the trees without their failed subtrees. A
   later transaction never drops or repeats what an earlier one left, abandoned or not.
   */
  lemma {:induction false} InspectorFlattensTrees(s: State, c: Config, txs: seq<Tx>)
    ensures var s1 := RunTxs(s, c, txs);
            s1.transfers == s.transfers + AllTransfers(c, txs) && s1.logs == s.logs + AllLogs(c, txs)
    decreases |txs|
  {
    if txs == [] {
      assert s.transfers + [] == s.transfers && s.logs + [] == s.logs;
    } else {
      var tx, rest := txs[0], txs[1..];
      TxExtends(s, c, tx);
      InspectorFlattensTrees(RunTx(s, c, tx), c, rest);
      Assoc3(s.transfers, TxTransfers(c, tx), AllTransfers(c, rest));
      Assoc3(s.logs, TxLogs(c, tx), AllLogs(c, rest));
    }
  }

  lemma TxExtends(s: State, c: Config, tx: Tx)
    ensures RunTx(s, c, tx).transfers == s.transfers + TxTransfers(c, tx)
    ensures RunTx(s, c, tx).logs == s.logs + TxLogs(c, tx)
  {
    match tx
    case Complete(tree) =>
      RootExtends(s, c, tree);
    case Abandoned(open) =>
      OpenExtends(s, c, open, true);
      assert s.logs + [] == s.logs;
  }
}
