/** The lock-free free list of blocks: a CAS stack with a reference count and a
    "should be on the free list" bit in one 32-bit word per node. Every atomic access
    of `add`, `try_get` and `add_knowing_refcount_is_zero` is one step; any number of
    threads interleave. Nodes, threads and words default to what their constructors
    give them (`freeListRefs` 0, `freeListNext` null, thread idle). */
module FreeList {
  import opened Collections

  const REFS_MASK := 0x7FFF_FFFF
  const SHOULD_BE_ON_FREELIST := 0x8000_0000
  const WORD_VALUES := 0x1_0000_0000
  const NULL: nat := 0

  type Node = nat
  type Thread = nat

  /** Where `add_knowing_refcount_is_zero` returns to: the client of `add`, or the
      retry loop of `try_get` with the head its failed CAS observed. */
  datatype Return = ToClient | ToTryGet(head: Node)

  /** The next atomic access of a thread, with the locals it still needs. */
  datatype Pc =
    | Idle
    | LoadHead
    | LoadRefs(head: Node)
    | CasRefs(head: Node, refs: int)
    | LoadNext(head: Node)
    | CasHead(head: Node, next: Node)
    | DropTwo(head: Node)
    | DropOne(prevHead: Node, head: Node)
    | LinkLoadHead(node: Node, ret: Return)
    | LinkStoreNext(node: Node, expected: Node, ret: Return)
    | LinkStoreRefs(node: Node, expected: Node, ret: Return)
    | LinkCasHead(node: Node, expected: Node, ret: Return)
    | LinkRetreat(node: Node, expected: Node, ret: Return)

  datatype Memory = Memory(head: Node, refs: map<Node, int>, next: map<Node, Node>, pc: map<Thread, Pc>)

  datatype Event = CallAdd(t: Thread, node: Node) | CallTryGet(t: Thread) | Step(t: Thread)

  function Refs(m: Memory, n: Node): int { if n in m.refs then m.refs[n] else 0 }
  function Next(m: Memory, n: Node): Node { if n in m.next then m.next[n] else NULL }
  function PcOf(m: Memory, t: Thread): Pc { if t in m.pc then m.pc[t] else Idle }

  /** `fetch_add` on a 32-bit word. */
  function Plus(word: int, delta: int): int { (word + delta) % WORD_VALUES }

  function Goto(m: Memory, t: Thread, p: Pc): Memory { m.(pc := m.pc[t := p]) }
  function SetRefs(m: Memory, n: Node, w: int): Memory { m.(refs := m.refs[n := w]) }

  /** `while (head != nullptr)` at the top of `try_get`. */
  function TryHead(head: Node): Pc { if head == NULL then Idle else LoadRefs(head) }
  function Back(ret: Return): Pc { if ret.ToClient? then Idle else TryHead(ret.head) }

  predicate Enabled(m: Memory, e: Event) {
    match e
    case CallAdd(t, n) => PcOf(m, t).Idle? && n != NULL
    case CallTryGet(t) => PcOf(m, t).Idle?
    case Step(t) => !PcOf(m, t).Idle?
  }

  /** One atomic access. */
  function Exec(m: Memory, e: Event): Memory
    requires Enabled(m, e)
  {
    match e
    case CallAdd(t, n) =>
      var m' := SetRefs(m, n, Plus(Refs(m, n), SHOULD_BE_ON_FREELIST));
      Goto(m', t, if Refs(m, n) == 0 then LinkLoadHead(n, ToClient) else Idle)
    case CallTryGet(t) => Goto(m, t, LoadHead)
    case Step(t) => ExecPc(m, t, PcOf(m, t))
  }

  function ExecPc(m: Memory, t: Thread, pc: Pc): Memory
    requires !pc.Idle?
  {
    match pc
    case LoadHead => Goto(m, t, TryHead(m.head))
    case LoadRefs(h) =>
      Goto(m, t, if Refs(m, h) % SHOULD_BE_ON_FREELIST == 0 then LoadHead else CasRefs(h, Refs(m, h)))
    case CasRefs(h, r) =>
      if Refs(m, h) == r then Goto(SetRefs(m, h, Plus(r, 1)), t, LoadNext(h)) else Goto(m, t, LoadHead)
    case LoadNext(h) => Goto(m, t, CasHead(h, Next(m, h)))
    case CasHead(h, n) =>
      if m.head == h then Goto(m.(head := n), t, DropTwo(h)) else Goto(m, t, DropOne(h, m.head))
    case DropTwo(h) => Goto(SetRefs(m, h, Plus(Refs(m, h), -2)), t, Idle)
    case DropOne(p, h) =>
      Goto(SetRefs(m, p, Plus(Refs(m, p), -1)), t,
           if Refs(m, p) == SHOULD_BE_ON_FREELIST + 1 then LinkLoadHead(p, ToTryGet(h)) else TryHead(h))
    case LinkLoadHead(n, ret) => Goto(m, t, LinkStoreNext(n, m.head, ret))
    case LinkStoreNext(n, x, ret) => Goto(m.(next := m.next[n := x]), t, LinkStoreRefs(n, x, ret))
    case LinkStoreRefs(n, x, ret) => Goto(SetRefs(m, n, 1), t, LinkCasHead(n, x, ret))
    case LinkCasHead(n, x, ret) =>
      if m.head == x then Goto(m.(head := n), t, Back(ret)) else Goto(m, t, LinkRetreat(n, m.head, ret))
    case LinkRetreat(n, x, ret) =>
      Goto(SetRefs(m, n, Plus(Refs(m, n), SHOULD_BE_ON_FREELIST - 1)), t,
           if Refs(m, n) == 1 then LinkStoreNext(n, x, ret) else Back(ret))
  }

  // ---------------------------------------------------------------------------
  // Auxiliary account of who is responsible for each node. No step reads it.
  // ---------------------------------------------------------------------------

  datatype Role = Owned | Listed | Pending | Linking(t: Thread) | Popped(t: Thread)

  datatype Account = Account(list: seq<Node>, role: map<Node, Role>)

  function RoleOf(a: Account, n: Node): Role { if n in a.role then a.role[n] else Owned }
  function SetRole(a: Account, n: Node, r: Role): Account { a.(role := a.role[n := r]) }

  function Track(m: Memory, a: Account, e: Event): Account
    requires Enabled(m, e)
  {
    match e
    case CallAdd(t, n) => SetRole(a, n, if Refs(m, n) == 0 then Linking(t) else Pending)
    case CallTryGet(t) => a
    case Step(t) =>
      match PcOf(m, t)
      case CasHead(h, _) =>
        if m.head == h && a.list != [] then SetRole(a, h, Popped(t)).(list := a.list[1..]) else a
      case DropTwo(h) => SetRole(a, h, Owned)
      case DropOne(p, _) => if Refs(m, p) == SHOULD_BE_ON_FREELIST + 1 then SetRole(a, p, Linking(t)) else a
      case LinkCasHead(n, x, _) => if m.head == x then SetRole(a, n, Listed).(list := [n] + a.list) else a
      case LinkRetreat(n, _, _) => if Refs(m, n) == 1 then a else SetRole(a, n, Pending)
      case _ => a
  }

  /** The client's side of the protocol: `add` only nodes the clients hold; and fewer
      threads than the 31-bit reference count can count. */
  predicate Legal(m: Memory, a: Account, e: Event) {
    && Enabled(m, e)
    && |m.pc| + 2 < REFS_MASK
    && (e.CallAdd? ==> RoleOf(a, e.node).Owned?)
  }

  // ---------------------------------------------------------------------------
  // Invariant
  // ---------------------------------------------------------------------------

  /** Between a successful increment of the node's count and the matching decrement. */
  predicate Holds(p: Pc, n: Node) {
    match p
    case LoadNext(h) => h == n
    case CasHead(h, _) => h == n
    case DropTwo(h) => h == n
    case DropOne(h, _) => h == n
    case _ => false
  }

  ghost function Holders(m: Memory, n: Node): set<Thread> {
    set t | t in m.pc && Holds(m.pc[t], n)
  }

  predicate IsLinking(p: Pc) {
    p.LinkLoadHead? || p.LinkStoreNext? || p.LinkStoreRefs? || p.LinkCasHead? || p.LinkRetreat?
  }

  function At(list: seq<Node>, i: nat): Node { if i < |list| then list[i] else NULL }

  ghost predicate Chain(m: Memory, list: seq<Node>) {
    && m.head == At(list, 0)
    && (forall i :: 0 <= i < |list| ==> list[i] != NULL && Next(m, list[i]) == At(list, i + 1))
    && (forall i, j :: 0 <= i < j < |list| ==> list[i] != list[j])
  }

  ghost predicate NodeInv(m: Memory, a: Account, n: Node) {
    var h := |Holders(m, n)|;
    && (RoleOf(a, n).Listed? <==> n in a.list)
    && match RoleOf(a, n)
       case Owned => Refs(m, n) == h
       case Listed => Refs(m, n) == h + 1
       case Pending => Refs(m, n) == SHOULD_BE_ON_FREELIST + h && h > 0
       case Linking(t) =>
         && IsLinking(PcOf(m, t)) && PcOf(m, t).node == n
         && (if PcOf(m, t).LinkCasHead? || PcOf(m, t).LinkRetreat? then Refs(m, n) == h + 1
             else Refs(m, n) == SHOULD_BE_ON_FREELIST && h == 0)
       case Popped(t) => PcOf(m, t) == DropTwo(n) && Refs(m, n) == h + 1
  }

  ghost predicate ThreadInv(m: Memory, a: Account, t: Thread) {
    match PcOf(m, t)
    case LoadRefs(h) => h != NULL
    case CasRefs(h, r) => h != NULL && r % SHOULD_BE_ON_FREELIST != 0
    case LoadNext(h) => h != NULL
    case CasHead(h, n) => h != NULL && Next(m, h) == n
    case DropTwo(h) => h != NULL && RoleOf(a, h) == Popped(t)
    case DropOne(p, _) => p != NULL
    case LinkLoadHead(n, _) => n != NULL && RoleOf(a, n) == Linking(t)
    case LinkStoreNext(n, _, _) => n != NULL && RoleOf(a, n) == Linking(t)
    case LinkStoreRefs(n, x, _) => n != NULL && RoleOf(a, n) == Linking(t) && Next(m, n) == x
    case LinkCasHead(n, x, _) => n != NULL && RoleOf(a, n) == Linking(t) && Next(m, n) == x
    case LinkRetreat(n, _, _) => n != NULL && RoleOf(a, n) == Linking(t)
    case _ => true
  }

  ghost predicate Inv(m: Memory, a: Account) {
    && Chain(m, a.list)
    && (forall n: Node :: n != NULL ==> NodeInv(m, a, n))
    && (forall t: Thread :: ThreadInv(m, a, t))
  }

  // ---------------------------------------------------------------------------
  // Preservation
  // ---------------------------------------------------------------------------

  function One(b: bool): int { if b then 1 else 0 }

  /** Moving one thread changes each node's holders by that thread alone. */
  lemma HoldersAfterGoto(m: Memory, m': Memory, t: Thread, n: Node)
    requires t in m'.pc && m'.pc == m.pc[t := m'.pc[t]]
    ensures |Holders(m', n)| == |Holders(m, n)| - One(Holds(PcOf(m, t), n)) + One(Holds(PcOf(m', t), n))
    ensures Holds(PcOf(m, t), n) ==> |Holders(m, n)| > 0
    ensures |Holders(m, n)| <= |m.pc|
  {
    var before, after := Holders(m, n), Holders(m', n);
    assert after - {t} == before - {t};
    assert |before| == |before - {t}| + One(t in before);
    assert |after| == |after - {t}| + One(t in after);
    HoldersBound(m, n);
  }

  lemma HoldersBound(m: Memory, n: Node)
    ensures |Holders(m, n)| <= |m.pc|
  {
    SubsetSize(Holders(m, n), m.pc.Keys);
  }

  /** The node a thread's next access is about. */
  function Subject(p: Pc): Node {
    match p
    case Idle => NULL
    case LoadHead => NULL
    case LoadRefs(h) => h
    case CasRefs(h, _) => h
    case LoadNext(h) => h
    case CasHead(h, _) => h
    case DropTwo(h) => h
    case DropOne(p, _) => p
    case LinkLoadHead(n, _) => n
    case LinkStoreNext(n, _, _) => n
    case LinkStoreRefs(n, _, _) => n
    case LinkCasHead(n, _, _) => n
    case LinkRetreat(n, _, _) => n
  }

  lemma HolderCounts(m: Memory, t: Thread, n: Node)
    requires Holds(PcOf(m, t), n)
    ensures |Holders(m, n)| > 0
  {
    assert t in Holders(m, n);
  }

  /** Nothing the steps change is about another node. */
  lemma OtherNodeFrame(m: Memory, a: Account, t: Thread, n: Node)
    requires Legal(m, a, Step(t)) && n != NULL && n != Subject(PcOf(m, t))
    ensures Refs(Exec(m, Step(t)), n) == Refs(m, n)
    ensures RoleOf(Track(m, a, Step(t)), n) == RoleOf(a, n)
    ensures Next(Exec(m, Step(t)), n) == Next(m, n)
  {
  }

  lemma OtherNodeListed(m: Memory, a: Account, t: Thread, n: Node)
    requires Chain(m, a.list) && Legal(m, a, Step(t)) && n != NULL && n != Subject(PcOf(m, t))
    ensures n in Track(m, a, Step(t)).list <==> n in a.list
  {
    if PcOf(m, t).CasHead? && m.head == PcOf(m, t).head && a.list != [] {
      assert a.list == [m.head] + a.list[1..];
    }
  }

  lemma StepMovesOne(m: Memory, t: Thread)
    requires Enabled(m, Step(t))
    ensures var m' := Exec(m, Step(t)); t in m'.pc && m'.pc == m.pc[t := m'.pc[t]]
  {
  }

  lemma OtherNodeHeld(m: Memory, t: Thread, n: Node)
    requires Enabled(m, Step(t)) && n != NULL && n != Subject(PcOf(m, t))
    ensures Holds(PcOf(Exec(m, Step(t)), t), n) == Holds(PcOf(m, t), n)
  {
  }

  lemma OtherNodeHolders(m: Memory, t: Thread, n: Node)
    requires Enabled(m, Step(t)) && n != NULL && n != Subject(PcOf(m, t))
    ensures |Holders(Exec(m, Step(t)), n)| == |Holders(m, n)|
  {
    StepMovesOne(m, t);
    OtherNodeHeld(m, t, n);
    HoldersAfterGoto(m, Exec(m, Step(t)), t, n);
  }

  lemma NodeInvFrame(m: Memory, a: Account, m': Memory, a': Account, t: Thread, n: Node)
    requires NodeInv(m, a, n) && Refs(m', n) == Refs(m, n) && |Holders(m', n)| == |Holders(m, n)|
    requires RoleOf(a', n) == RoleOf(a, n) && (n in a'.list <==> n in a.list)
    requires forall u :: u != t ==> PcOf(m', u) == PcOf(m, u)
    requires RoleOf(a, n) != Linking(t) && RoleOf(a, n) != Popped(t)
    ensures NodeInv(m', a', n)
  {
  }

  /** A step leaves the account of every other node alone. */
  lemma OtherNodeStep(m: Memory, a: Account, t: Thread, n: Node)
    requires Inv(m, a) && Legal(m, a, Step(t)) && n != NULL && n != Subject(PcOf(m, t))
    ensures NodeInv(Exec(m, Step(t)), Track(m, a, Step(t)), n)
  {
    hide Exec, Track, Chain, Holders;
    StepMovesOne(m, t);
    OtherNodeFrame(m, a, t, n);
    OtherNodeListed(m, a, t, n);
    OtherNodeHolders(m, t, n);
    assert NodeInv(m, a, n);
    NodeInvFrame(m, a, Exec(m, Step(t)), Track(m, a, Step(t)), t, n);
  }

  /** The account of the node a `try_get` access is about. */
  lemma TryGetNodeStep(m: Memory, a: Account, t: Thread)
    requires Inv(m, a) && Legal(m, a, Step(t))
    requires var p := PcOf(m, t); p.LoadRefs? || p.CasRefs? || p.LoadNext?
    ensures NodeInv(Exec(m, Step(t)), Track(m, a, Step(t)), Subject(PcOf(m, t)))
  {
    var m', n := Exec(m, Step(t)), Subject(PcOf(m, t));
    assert ThreadInv(m, a, t) && NodeInv(m, a, n);
    HoldersAfterGoto(m, m', t, n);
  }

  lemma DropTwoNodeStep(m: Memory, a: Account, t: Thread)
    requires Inv(m, a) && Legal(m, a, Step(t)) && PcOf(m, t).DropTwo?
    ensures NodeInv(Exec(m, Step(t)), Track(m, a, Step(t)), Subject(PcOf(m, t)))
  {
    var m', n := Exec(m, Step(t)), Subject(PcOf(m, t));
    assert ThreadInv(m, a, t) && NodeInv(m, a, n);
    HoldersAfterGoto(m, m', t, n);
  }

  lemma DropOneNodeStep(m: Memory, a: Account, t: Thread)
    requires Inv(m, a) && Legal(m, a, Step(t)) && PcOf(m, t).DropOne?
    ensures NodeInv(Exec(m, Step(t)), Track(m, a, Step(t)), Subject(PcOf(m, t)))
  {
    var m', n := Exec(m, Step(t)), Subject(PcOf(m, t));
    assert ThreadInv(m, a, t) && NodeInv(m, a, n);
    HoldersAfterGoto(m, m', t, n);
  }

  lemma CasHeadNodeStep(m: Memory, a: Account, t: Thread)
    requires Inv(m, a) && Legal(m, a, Step(t)) && PcOf(m, t).CasHead?
    ensures NodeInv(Exec(m, Step(t)), Track(m, a, Step(t)), Subject(PcOf(m, t)))
  {
    var m', n := Exec(m, Step(t)), Subject(PcOf(m, t));
    assert ThreadInv(m, a, t) && NodeInv(m, a, n);
    HoldersAfterGoto(m, m', t, n);
  }

  /** The account of the node an `add_knowing_refcount_is_zero` access is about. */
  lemma LinkNodeStep(m: Memory, a: Account, t: Thread)
    requires Inv(m, a) && Legal(m, a, Step(t)) && IsLinking(PcOf(m, t))
    ensures NodeInv(Exec(m, Step(t)), Track(m, a, Step(t)), Subject(PcOf(m, t)))
  {
    var m', n := Exec(m, Step(t)), Subject(PcOf(m, t));
    assert ThreadInv(m, a, t) && NodeInv(m, a, n);
    HoldersAfterGoto(m, m', t, n);
  }

  lemma OwnThreadStep(m: Memory, a: Account, t: Thread)
    requires Inv(m, a) && Legal(m, a, Step(t))
    ensures ThreadInv(Exec(m, Step(t)), Track(m, a, Step(t)), t)
  {
    assert ThreadInv(m, a, t);
    var n := Subject(PcOf(m, t));
    if n != NULL {
      assert NodeInv(m, a, n);
      if Holds(PcOf(m, t), n) { HolderCounts(m, t, n); }
    }
  }

  lemma ThreadInvFrame(m: Memory, a: Account, m': Memory, a': Account, u: Thread)
    requires ThreadInv(m, a, u) && PcOf(m', u) == PcOf(m, u)
    requires var n := Subject(PcOf(m, u)); n != NULL ==> RoleOf(a', n) == RoleOf(a, n) && Next(m', n) == Next(m, n)
    ensures ThreadInv(m', a', u)
  {
  }

  /** Two threads on one node: only the owner of its pop or its linking may touch its
      role or its successor. */
  lemma SharedNodeStep(m: Memory, a: Account, t: Thread, u: Thread, n: Node)
    requires ThreadInv(m, a, t) && ThreadInv(m, a, u) && NodeInv(m, a, n) && Chain(m, a.list)
    requires Legal(m, a, Step(t)) && u != t
    requires n != NULL && n == Subject(PcOf(m, t)) && n == Subject(PcOf(m, u))
    ensures Holds(PcOf(m, u), n) || IsLinking(PcOf(m, u)) ==> Next(Exec(m, Step(t)), n) == Next(m, n)
    ensures PcOf(m, u).DropTwo? || IsLinking(PcOf(m, u)) ==> RoleOf(Track(m, a, Step(t)), n) == RoleOf(a, n)
  {
    HoldersBound(m, n);
    if Holds(PcOf(m, u), n) { HolderCounts(m, u, n); }
    if Holds(PcOf(m, t), n) { HolderCounts(m, t, n); }
  }

  lemma OtherThreadStep(m: Memory, a: Account, t: Thread, u: Thread)
    requires Inv(m, a) && Legal(m, a, Step(t)) && u != t
    ensures ThreadInv(Exec(m, Step(t)), Track(m, a, Step(t)), u)
  {
    var m', a', n := Exec(m, Step(t)), Track(m, a, Step(t)), Subject(PcOf(m, u));
    assert ThreadInv(m, a, t) && ThreadInv(m, a, u);
    assert PcOf(m', u) == PcOf(m, u);
    if n == NULL {
    } else if n != Subject(PcOf(m, t)) {
      OtherNodeFrame(m, a, t, n);
      ThreadInvFrame(m, a, m', a', u);
    } else {
      assert NodeInv(m, a, n);
      SharedNodeStep(m, a, t, u, n);
    }
  }

  lemma ChainPop(m: Memory, m': Memory, list: seq<Node>)
    requires Chain(m, list) && list != [] && m'.next == m.next && m'.head == At(list, 1)
    ensures Chain(m', list[1..])
  {
    forall i | 0 <= i < |list| - 1
      ensures list[1..][i] != NULL && Next(m', list[1..][i]) == At(list[1..], i + 1)
    {
      assert list[1..][i] == list[i + 1];
    }
  }

  lemma ChainPush(m: Memory, m': Memory, list: seq<Node>, n: Node)
    requires Chain(m, list) && n !in list && n != NULL
    requires m'.next == m.next && m'.head == n && Next(m, n) == m.head
    ensures Chain(m', [n] + list)
  {
    var longer := [n] + list;
    forall i | 0 <= i < |longer|
      ensures longer[i] != NULL && Next(m', longer[i]) == At(longer, i + 1)
    {
      if i > 0 { assert longer[i] == list[i - 1]; }
    }
  }

  lemma ChainFrame(m: Memory, m': Memory, list: seq<Node>)
    requires Chain(m, list) && m'.head == m.head
    requires forall n :: n in list ==> Next(m', n) == Next(m, n)
    ensures Chain(m', list)
  {
  }

  lemma ChainStep(m: Memory, a: Account, t: Thread)
    requires Inv(m, a) && Legal(m, a, Step(t))
    ensures Chain(Exec(m, Step(t)), Track(m, a, Step(t)).list)
  {
    var m', n := Exec(m, Step(t)), Subject(PcOf(m, t));
    assert ThreadInv(m, a, t);
    assert n != NULL ==> NodeInv(m, a, n);
    if PcOf(m, t).CasHead? && m.head == n {
      ChainPop(m, m', a.list);
    } else if PcOf(m, t).LinkCasHead? && m.head == PcOf(m, t).expected {
      ChainPush(m, m', a.list, n);
    } else {
      ChainFrame(m, m', a.list);
    }
  }

  /** Every atomic access keeps the invariant. */
  lemma InvKept(m: Memory, a: Account, e: Event)
    requires Inv(m, a) && Legal(m, a, e)
    ensures Inv(Exec(m, e), Track(m, a, e))
  {
    match e
    case CallAdd(t, n) => CallAddKeepsInv(m, a, t, n);
    case CallTryGet(t) => CallTryGetKeepsInv(m, a, t);
    case Step(t) =>
      var m', a' := Exec(m, e), Track(m, a, e);
      forall n: Node | n != NULL ensures NodeInv(m', a', n) {
        if n != Subject(PcOf(m, t)) { OtherNodeStep(m, a, t, n); }
        else if IsLinking(PcOf(m, t)) { LinkNodeStep(m, a, t); }
        else if PcOf(m, t).CasHead? { CasHeadNodeStep(m, a, t); }
        else if PcOf(m, t).DropTwo? { DropTwoNodeStep(m, a, t); }
        else if PcOf(m, t).DropOne? { DropOneNodeStep(m, a, t); }
        else { TryGetNodeStep(m, a, t); }
      }
      forall u: Thread ensures ThreadInv(m', a', u) {
        if u == t { OwnThreadStep(m, a, t); } else { OtherThreadStep(m, a, t, u); }
      }
      ChainStep(m, a, t);
  }

  lemma CallAddNodes(m: Memory, a: Account, t: Thread, n: Node, k: Node)
    requires Inv(m, a) && Legal(m, a, CallAdd(t, n)) && k != NULL
    ensures NodeInv(Exec(m, CallAdd(t, n)), Track(m, a, CallAdd(t, n)), k)
  {
    assert NodeInv(m, a, n) && NodeInv(m, a, k);
    HoldersAfterGoto(m, Exec(m, CallAdd(t, n)), t, k);
  }

  lemma CallAddKeepsInv(m: Memory, a: Account, t: Thread, n: Node)
    requires Inv(m, a) && Legal(m, a, CallAdd(t, n))
    ensures Inv(Exec(m, CallAdd(t, n)), Track(m, a, CallAdd(t, n)))
  {
    var m', a' := Exec(m, CallAdd(t, n)), Track(m, a, CallAdd(t, n));
    forall k: Node | k != NULL ensures NodeInv(m', a', k) { CallAddNodes(m, a, t, n, k); }
    forall u: Thread ensures ThreadInv(m', a', u) {
      assert ThreadInv(m, a, u);
    }
  }

  lemma CallTryGetKeepsInv(m: Memory, a: Account, t: Thread)
    requires Inv(m, a) && Legal(m, a, CallTryGet(t))
    ensures Inv(Exec(m, CallTryGet(t)), a)
  {
    var m' := Exec(m, CallTryGet(t));
    forall k: Node | k != NULL ensures NodeInv(m', a, k) {
      assert NodeInv(m, a, k);
      HoldersAfterGoto(m, m', t, k);
    }
    forall u: Thread ensures ThreadInv(m', a, u) {
      assert ThreadInv(m, a, u);
    }
  }

  // ---------------------------------------------------------------------------
  // Whole runs
  // ---------------------------------------------------------------------------

  datatype System = System(m: Memory, a: Account)

  const INIT := System(Memory(NULL, map[], map[], map[]), Account([], map[]))

  predicate CanDo(s: System, e: Event) { Legal(s.m, s.a, e) }

  function Do(s: System, e: Event): System
    requires CanDo(s, e)
  {
    System(Exec(s.m, e), Track(s.m, s.a, e))
  }

  ghost predicate IsRun(states: seq<System>, events: seq<Event>) {
    && |states| == |events| + 1 && states[0] == INIT
    && forall i :: 0 <= i < |events| ==> CanDo(states[i], events[i]) && states[i + 1] == Do(states[i], events[i])
  }

  /** The node a step returns from `try_get` to its caller, if it does. */
  function HandsOut(m: Memory, e: Event): Node {
    if e.Step? && PcOf(m, e.t).DropTwo? then PcOf(m, e.t).head else NULL
  }

  lemma InvInitially()
    ensures Inv(INIT.m, INIT.a)
  {
  }

  /** In every reachable state of any number of concurrent calls: the listed nodes are a
      duplicate-free chain from the head, and every node's account balances. */
  lemma {:induction false} EveryReachableStateIsSound(states: seq<System>, events: seq<Event>, i: nat)
    requires IsRun(states, events) && i < |states|
    ensures Inv(states[i].m, states[i].a)
  {
    if i == 0 {
      InvInitially();
    } else {
      EveryReachableStateIsSound(states, events, i - 1);
      InvKept(states[i - 1].m, states[i - 1].a, events[i - 1]);
    }
  }

  /** A node returned by `try_get` was no client's, and becomes its caller's. */
  lemma HandedOutNodeChangesHands(s: System, e: Event)
    requires Inv(s.m, s.a) && CanDo(s, e) && HandsOut(s.m, e) != NULL
    ensures RoleOf(s.a, HandsOut(s.m, e)) == Popped(e.t)
    ensures RoleOf(Do(s, e).a, HandsOut(s.m, e)).Owned?
  {
    assert ThreadInv(s.m, s.a, e.t);
  }

  /** Only `add` takes a node from the clients, only a hand-out gives one back. */
  lemma OwnershipMovesOnlyByCalls(s: System, e: Event, n: Node)
    requires Inv(s.m, s.a) && CanDo(s, e) && n != NULL
    ensures RoleOf(s.a, n).Owned? && !RoleOf(Do(s, e).a, n).Owned? ==> e.CallAdd? && e.node == n
    ensures !RoleOf(s.a, n).Owned? && RoleOf(Do(s, e).a, n).Owned? ==> HandsOut(s.m, e) == n
  {
    assert ThreadInv(s.m, s.a, e.t) && NodeInv(s.m, s.a, n);
    if e.Step? && PcOf(s.m, e.t).DropOne? && PcOf(s.m, e.t).prevHead == n {
      HoldersBound(s.m, n);
    }
  }

  lemma {:induction false} StaysOwnedWithoutAdd(states: seq<System>, events: seq<Event>, i: nat, j: nat, n: Node)
    requires IsRun(states, events) && i <= j < |states| && n != NULL
    requires RoleOf(states[i].a, n).Owned?
    requires forall k :: i <= k < j ==> !(events[k].CallAdd? && events[k].node == n)
    ensures RoleOf(states[j].a, n).Owned?
    decreases j - i
  {
    if i == j {
    } else {
      EveryReachableStateIsSound(states, events, i);
      OwnershipMovesOnlyByCalls(states[i], events[i], n);
      StaysOwnedWithoutAdd(states, events, i + 1, j, n);
    }
  }

  /** No node is handed to two callers without an `add` of it in between. */
  lemma NoNodeHandedOutTwice(states: seq<System>, events: seq<Event>, i: nat, j: nat, n: Node)
    requires IsRun(states, events) && i < j < |events| && n != NULL
    requires HandsOut(states[i].m, events[i]) == n && HandsOut(states[j].m, events[j]) == n
    ensures exists k :: i < k < j && events[k].CallAdd? && events[k].node == n
  {
    EveryReachableStateIsSound(states, events, i);
    HandedOutNodeChangesHands(states[i], events[i]);
    EveryReachableStateIsSound(states, events, j);
    HandedOutNodeChangesHands(states[j], events[j]);
    if forall k :: i < k < j ==> !(events[k].CallAdd? && events[k].node == n) {
      StaysOwnedWithoutAdd(states, events, i + 1, j, n);
    }
  }

  lemma {:induction false} StaysAddedUntilHandedOut(states: seq<System>, events: seq<Event>, i: nat, j: nat, n: Node)
    requires IsRun(states, events) && i <= j < |states| && n != NULL
    requires !RoleOf(states[i].a, n).Owned?
    requires forall k :: i <= k < j ==> HandsOut(states[k].m, events[k]) != n
    ensures !RoleOf(states[j].a, n).Owned?
    decreases j - i
  {
    if i == j {
    } else {
      EveryReachableStateIsSound(states, events, i);
      OwnershipMovesOnlyByCalls(states[i], events[i], n);
      StaysAddedUntilHandedOut(states, events, i + 1, j, n);
    }
  }

  predicate Quiescent(m: Memory) { forall t | t in m.pc :: m.pc[t].Idle? }

  /** With no call in flight every node is with the clients or on the list, and its
      word says which. */
  lemma QuiescentNode(s: System, n: Node)
    requires Inv(s.m, s.a) && Quiescent(s.m) && n != NULL
    ensures Refs(s.m, n) == (if n in s.a.list then 1 else 0)
    ensures RoleOf(s.a, n) == (if n in s.a.list then Listed else Owned)
  {
    assert NodeInv(s.m, s.a, n);
    assert Holders(s.m, n) == {};
  }

  /** The free list loses nothing: once no call is in flight, every node added is on the
      list or was handed out after it was added. */
  lemma AddedNodeIsListedOrTaken(states: seq<System>, events: seq<Event>, i: nat, n: Node)
    requires IsRun(states, events) && i < |events| && events[i].CallAdd? && events[i].node == n
    requires Quiescent(states[|events|].m)
    ensures n in states[|events|].a.list || exists j :: i < j < |events| && HandsOut(states[j].m, events[j]) == n
  {
    EveryReachableStateIsSound(states, events, |events|);
    QuiescentNode(states[|events|], n);
    if n !in states[|events|].a.list
       && forall j :: i < j < |events| ==> HandsOut(states[j].m, events[j]) != n {
      StaysAddedUntilHandedOut(states, events, i + 1, |events|, n);
    }
  }

  /** A thread whose head CAS succeeds installs the node's true current successor, even if
      the node left and re-entered the list since the thread first saw it. */
  lemma SuccessfulCasInstallsTrueSuccessor(s: System, t: Thread)
    requires Inv(s.m, s.a) && PcOf(s.m, t).CasHead? && s.m.head == PcOf(s.m, t).head
    ensures s.a.list != [] && s.a.list[0] == PcOf(s.m, t).head
    ensures PcOf(s.m, t).next == Next(s.m, s.m.head) == At(s.a.list, 1)
  {
    assert ThreadInv(s.m, s.a, t);
  }

  /** The word of every node: the flag is up exactly while someone must still link the node,
      and the low 31 bits are the references held plus the list's own. */
  lemma ReferenceWordMatchesHolders(s: System, n: Node)
    requires Inv(s.m, s.a) && n != NULL && |s.m.pc| + 2 < REFS_MASK
    ensures 0 <= Refs(s.m, n) < WORD_VALUES
    ensures var r := RoleOf(s.a, n);
            var linked := r.Linking? && (PcOf(s.m, r.t).LinkCasHead? || PcOf(s.m, r.t).LinkRetreat?);
            && (Refs(s.m, n) >= SHOULD_BE_ON_FREELIST <==> r.Pending? || (r.Linking? && !linked))
            && Refs(s.m, n) % SHOULD_BE_ON_FREELIST ==
               |Holders(s.m, n)| + One(r.Listed? || r.Popped? || linked)
  {
    assert NodeInv(s.m, s.a, n);
    HoldersBound(s.m, n);
  }

  /** The assertion inside `try_get`: a node just taken off the list has its flag down. */
  lemma AssertionInTryGetHolds(s: System, t: Thread)
    requires Inv(s.m, s.a) && |s.m.pc| + 2 < REFS_MASK && PcOf(s.m, t).DropTwo?
    ensures Refs(s.m, PcOf(s.m, t).head) < SHOULD_BE_ON_FREELIST
  {
    assert ThreadInv(s.m, s.a, t);
    ReferenceWordMatchesHolders(s, PcOf(s.m, t).head);
  }

  /** A node waiting to be linked always has an obliged party: the references on it are all
      about to be dropped, and the drop of the last one takes over the linking. */
  lemma PendingNodeIsNeverOrphaned(s: System, n: Node)
    requires Inv(s.m, s.a) && n != NULL && RoleOf(s.a, n).Pending?
    ensures Holders(s.m, n) != {}
    ensures forall t :: t in Holders(s.m, n) ==> !PcOf(s.m, t).DropTwo? && s.m.head != n
    ensures forall t :: Holders(s.m, n) == {t} && PcOf(s.m, t).DropOne? && CanDo(s, Step(t)) ==>
              RoleOf(Do(s, Step(t)).a, n) == Linking(t)
  {
    assert NodeInv(s.m, s.a, n);
    forall t | t in Holders(s.m, n) ensures !PcOf(s.m, t).DropTwo? {
      assert ThreadInv(s.m, s.a, t);
    }
    forall t | Holders(s.m, n) == {t} && PcOf(s.m, t).DropOne? && CanDo(s, Step(t))
      ensures RoleOf(Do(s, Step(t)).a, n) == Linking(t)
    {
      assert t in Holders(s.m, n);
    }
  }

  // ---------------------------------------------------------------------------
  // What a call comes to
  // ---------------------------------------------------------------------------

  /** One thread's own steps, as long as it is inside a call. */
  function Alone(s: System, t: Thread, steps: nat): System
    decreases steps
  {
    if steps == 0 || PcOf(s.m, t).Idle? then s
    else Alone(System(Exec(s.m, Step(t)), Track(s.m, s.a, Step(t))), t, steps - 1)
  }

  lemma {:induction false} AloneThen(s: System, t: Thread, i: nat, j: nat)
    ensures Alone(s, t, i + j) == Alone(Alone(s, t, i), t, j)
    decreases i
  {
    if i == 0 || PcOf(s.m, t).Idle? {
    } else {
      AloneThen(System(Exec(s.m, Step(t)), Track(s.m, s.a, Step(t))), t, i - 1, j);
    }
  }

  /** At the top of its loop, left alone, `try_get` gets as far as the head CAS. */
  lemma ReachesCas(s: System, t: Thread)
    requires Inv(s.m, s.a) && |s.m.pc| + 2 < REFS_MASK && PcOf(s.m, t).LoadHead? && s.a.list != []
    ensures var s' := Alone(s, t, 4);
            && PcOf(s'.m, t) == CasHead(s.a.list[0], At(s.a.list, 1)) && s'.m.head == s.a.list[0] && s'.a == s.a
            && s'.m.next == s.m.next
  {
    var h := s.m.head;
    assert NodeInv(s.m, s.a, h) && h in s.a.list;
    HoldersBound(s.m, h);
    var s1 := System(Exec(s.m, Step(t)), Track(s.m, s.a, Step(t)));
    assert PcOf(s1.m, t) == LoadRefs(h) && Refs(s1.m, h) == Refs(s.m, h);
    var s2 := System(Exec(s1.m, Step(t)), Track(s1.m, s1.a, Step(t)));
    assert PcOf(s2.m, t) == CasRefs(h, Refs(s.m, h));
    var s3 := System(Exec(s2.m, Step(t)), Track(s2.m, s2.a, Step(t)));
    assert PcOf(s3.m, t) == LoadNext(h);
    var s4 := System(Exec(s3.m, Step(t)), Track(s3.m, s3.a, Step(t)));
    assert Alone(s, t, 4) == Alone(s1, t, 3) == Alone(s2, t, 2) == Alone(s3, t, 1) == Alone(s4, t, 0);
  }

  /** Whatever the other threads are in the midst of: a `try_get` left alone takes the front of
      the list in six accesses, and finds nothing only when there is nothing. */
  lemma TryGetAloneTakesTheFront(s: System, t: Thread)
    requires Inv(s.m, s.a) && CanDo(s, CallTryGet(t)) && |s.m.pc| + 3 < REFS_MASK
    ensures var called := Do(s, CallTryGet(t));
            if s.a.list == [] then
              Alone(called, t, 1) == System(called.m.(pc := called.m.pc[t := Idle]), s.a)
            else
              var last, done := Alone(called, t, 5), Alone(called, t, 6);
              && HandsOut(last.m, Step(t)) == s.a.list[0]
              && PcOf(done.m, t).Idle? && done.a.list == s.a.list[1..] && done.m.head == At(s.a.list, 1)
  {
    var called := Do(s, CallTryGet(t));
    InvKept(s.m, s.a, CallTryGet(t));
    assert |called.m.pc| <= |s.m.pc| + 1 by { assert called.m.pc.Keys == s.m.pc.Keys + {t}; }
    if s.a.list == [] {
      FindsNothing(called, t);
    } else {
      hide Exec, Track, Inv;
      ReachesCas(called, t);
      var s4 := Alone(called, t, 4);
      CasTakes(s4, t, s.a.list[0], At(s.a.list, 1));
      AloneThen(called, t, 4, 1);
      AloneThen(called, t, 4, 2);
    }
  }

  lemma FindsNothing(s: System, t: Thread)
    requires PcOf(s.m, t).LoadHead? && s.m.head == NULL
    ensures Alone(s, t, 1) == System(s.m.(pc := s.m.pc[t := Idle]), s.a)
  {
    var s1 := System(Exec(s.m, Step(t)), Track(s.m, s.a, Step(t)));
    assert Alone(s, t, 1) == Alone(s1, t, 0);
  }

  lemma CasTakes(s: System, t: Thread, h: Node, n: Node)
    requires PcOf(s.m, t) == CasHead(h, n) && s.m.head == h && s.a.list != [] && s.a.list[0] == h
    ensures HandsOut(Alone(s, t, 1).m, Step(t)) == h
    ensures var done := Alone(s, t, 2); PcOf(done.m, t).Idle? && done.a.list == s.a.list[1..] && done.m.head == n
  {
    var s1 := System(Exec(s.m, Step(t)), Track(s.m, s.a, Step(t)));
    assert PcOf(s1.m, t) == DropTwo(h);
    var s2 := System(Exec(s1.m, Step(t)), Track(s1.m, s1.a, Step(t)));
    assert Alone(s, t, 1) == Alone(s1, t, 0) && Alone(s, t, 2) == Alone(s1, t, 1) == Alone(s2, t, 0);
  }

  /** An `add` left alone puts the node at the front at once, or, when somebody still refers to
      the node, leaves that to the last one who does. */
  lemma AddAloneLists(s: System, t: Thread, n: Node)
    requires Inv(s.m, s.a) && CanDo(s, CallAdd(t, n))
    ensures var done := Alone(Do(s, CallAdd(t, n)), t, 4);
            && PcOf(done.m, t).Idle?
            && if Holders(s.m, n) == {} then done.a.list == [n] + s.a.list && done.m.head == n && Next(done.m, n) == s.m.head
               else done.a.list == s.a.list && RoleOf(done.a, n).Pending?
  {
    assert NodeInv(s.m, s.a, n);
    assert Holders(s.m, n) != {} ==> |Holders(s.m, n)| > 0;
    HoldersBound(s.m, n);
    var s0 := Do(s, CallAdd(t, n));
    if Holders(s.m, n) == {} {
      var s1 := System(Exec(s0.m, Step(t)), Track(s0.m, s0.a, Step(t)));
      assert PcOf(s1.m, t) == LinkStoreNext(n, s.m.head, ToClient);
      var s2 := System(Exec(s1.m, Step(t)), Track(s1.m, s1.a, Step(t)));
      assert PcOf(s2.m, t) == LinkStoreRefs(n, s.m.head, ToClient);
      var s3 := System(Exec(s2.m, Step(t)), Track(s2.m, s2.a, Step(t)));
      assert PcOf(s3.m, t) == LinkCasHead(n, s.m.head, ToClient);
      var s4 := System(Exec(s3.m, Step(t)), Track(s3.m, s3.a, Step(t)));
      assert Alone(s0, t, 4) == Alone(s1, t, 3) == Alone(s2, t, 2) == Alone(s3, t, 1) == Alone(s4, t, 0);
    }
  }

  /** Between events i and j thread t is inside the call that event i began. */
  ghost predicate Inside(states: seq<System>, i: nat, j: nat, t: Thread) {
    i < j < |states| && forall k :: i < k <= j ==> !PcOf(states[k].m, t).Idle?
  }

  ghost predicate SawEmptyList(states: seq<System>, i: nat, j: nat) {
    exists k :: i < k <= j < |states| && states[k].a.list == []
  }

  /** Inside a call of `try_get`, where the head it will go on with is null. */
  predicate WillEnd(p: Pc) {
    match p
    case DropOne(_, h) => h == NULL
    case LinkLoadHead(_, ret) => ret == ToTryGet(NULL)
    case LinkStoreNext(_, _, ret) => ret == ToTryGet(NULL)
    case LinkStoreRefs(_, _, ret) => ret == ToTryGet(NULL)
    case LinkCasHead(_, _, ret) => ret == ToTryGet(NULL)
    case LinkRetreat(_, _, ret) => ret == ToTryGet(NULL)
    case _ => false
  }

  /** Not on the way back to a client of `add`. */
  predicate InTryGet(p: Pc) { IsLinking(p) ==> p.ret.ToTryGet? }

  /** How an access of `try_get` comes to a null head: it sees one, or it went on with one. */
  lemma EndsWithNullSeen(m: Memory, t: Thread)
    requires !PcOf(m, t).Idle? && InTryGet(PcOf(m, t))
    ensures var p, p' := PcOf(m, t), PcOf(Exec(m, Step(t)), t);
            && InTryGet(p')
            && (WillEnd(p') ==> m.head == NULL || WillEnd(p))
            && (p'.Idle? ==> m.head == NULL || WillEnd(p) || p.DropTwo?)
  {
  }

  lemma HeadNullIsEmpty(s: System)
    requires Inv(s.m, s.a) && s.m.head == NULL
    ensures s.a.list == []
  {
  }

  lemma {:induction false} NullWasSeen(states: seq<System>, events: seq<Event>, i: nat, j: nat, t: Thread)
    requires IsRun(states, events) && i < |events| && events[i] == CallTryGet(t) && Inside(states, i, j, t)
    ensures InTryGet(PcOf(states[j].m, t)) && (WillEnd(PcOf(states[j].m, t)) ==> SawEmptyList(states, i, j))
    decreases j
  {
    hide Inv, Do, CanDo, InTryGet, WillEnd;
    if j == i + 1 {
      CallBegins(states[i], t);
    } else {
      NullWasSeen(states, events, i, j - 1, t);
      EveryReachableStateIsSound(states, events, j - 1);
      NullIsSeen(states[j - 1], events[j - 1], t);
    }
  }

  lemma CallBegins(s: System, t: Thread)
    requires CanDo(s, CallTryGet(t))
    ensures var p := PcOf(Do(s, CallTryGet(t)).m, t); InTryGet(p) && !WillEnd(p)
  {
  }

  lemma NullIsSeen(s: System, e: Event, t: Thread)
    requires Inv(s.m, s.a) && CanDo(s, e) && !PcOf(s.m, t).Idle? && InTryGet(PcOf(s.m, t))
    ensures var p' := PcOf(Do(s, e).m, t); InTryGet(p') && (WillEnd(p') ==> s.a.list == [] || WillEnd(PcOf(s.m, t)))
  {
    if e == Step(t) {
      EndsWithNullSeen(s.m, t);
      if s.m.head == NULL { HeadNullIsEmpty(s); }
    } else {
      OthersStay(s, e, t);
    }
  }

  lemma OthersStay(s: System, e: Event, t: Thread)
    requires CanDo(s, e) && !PcOf(s.m, t).Idle? && e != Step(t)
    ensures PcOf(Do(s, e).m, t) == PcOf(s.m, t)
  {
  }

  /** In every run a `try_get` that comes back empty-handed was called, or at work, at a moment
      when the list was empty. */
  lemma EmptyHandedSawEmptyList(states: seq<System>, events: seq<Event>, i: nat, j: nat, t: Thread)
    requires IsRun(states, events) && i < j < |events| && events[i] == CallTryGet(t) && Inside(states, i, j, t)
    requires PcOf(states[j + 1].m, t).Idle? && HandsOut(states[j].m, events[j]) == NULL
    ensures SawEmptyList(states, i, j)
  {
    NullWasSeen(states, events, i, j, t);
    EveryReachableStateIsSound(states, events, j);
    OnlyOwnStepEnds(states[j], events[j], t);
    EndsEmptyHanded(states[j], t);
  }

  lemma OnlyOwnStepEnds(s: System, e: Event, t: Thread)
    requires CanDo(s, e) && !PcOf(s.m, t).Idle? && PcOf(Do(s, e).m, t).Idle?
    ensures e == Step(t)
  {
  }

  lemma EndsEmptyHanded(s: System, t: Thread)
    requires Inv(s.m, s.a) && !PcOf(s.m, t).Idle? && InTryGet(PcOf(s.m, t))
    requires PcOf(Exec(s.m, Step(t)), t).Idle? && HandsOut(s.m, Step(t)) == NULL
    ensures s.a.list == [] || WillEnd(PcOf(s.m, t))
  {
    EndsWithNullSeen(s.m, t);
    assert ThreadInv(s.m, s.a, t);
    if s.m.head == NULL { HeadNullIsEmpty(s); }
  }
}
