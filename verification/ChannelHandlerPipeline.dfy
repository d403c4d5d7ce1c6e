/** The handler pipeline: a singly linked list on the heap that refines a sequence of handlers. */
module HandlerPipeline {
  import opened Basics

  class ChannelHandler {
    const name: string
    var next: ChannelHandler?

    constructor (name: string)
      ensures this.name == name && next == null
    {
      this.name := name;
      next := null;
    }

    /** The last handler of the chain that starts here. */
    method FindLast(ghost chain: seq<ChannelHandler>) returns (last: ChannelHandler)
      requires Linked(this, chain)
      ensures last == chain[|chain| - 1]
    {
      if next == null {
        assert |chain| == 1;
        return this;
      }
      last := next;
      ghost var at := 1;
      while last.next != null
        invariant 0 <= at < |chain| && last == chain[at]
        decreases |chain| - at
      {
        last := last.next;
        at := at + 1;
      }
    }

    /** The last handler but one. */
    method FindLastPrev(ghost chain: seq<ChannelHandler>) returns (prev: ChannelHandler)
      requires Linked(this, chain) && |chain| >= 2
      ensures prev == chain[|chain| - 2]
    {
      prev := this;
      var temp := next;
      ghost var at := 1;
      while temp.next != null
        invariant 1 <= at < |chain| && temp == chain[at] && prev == chain[at - 1]
        decreases |chain| - at
      {
        prev := temp;
        temp := temp.next;
        at := at + 1;
      }
    }

    /** The handler in front of the first one behind this that has the name; null if there is none. */
    method FindNamedPrev(name: string, ghost chain: seq<ChannelHandler>) returns (prev: ChannelHandler?)
      requires Linked(this, chain)
      ensures prev == null ==> forall i :: 0 < i < |chain| ==> chain[i].name != name
      ensures prev != null ==> exists i :: 0 < i < |chain| && prev == chain[i - 1] && FirstNamed(chain, name, i, 1)
    {
      prev := this;
      var temp := next;
      ghost var at := 1;
      while temp != null
        invariant 1 <= at <= |chain| && prev == chain[at - 1]
        invariant temp == if at < |chain| then chain[at] else null
        invariant forall i :: 0 < i < at ==> chain[i].name != name
        decreases |chain| - at
      {
        if temp.name == name {
          assert FirstNamed(chain, name, at, 1);
          return;
        }
        prev := temp;
        temp := temp.next;
        at := at + 1;
      }
      prev := null;
    }

    /** The handler in front of the given one; null if that is not behind this. */
    method FindPrev(handler: ChannelHandler, ghost chain: seq<ChannelHandler>) returns (prev: ChannelHandler?)
      requires Linked(this, chain)
      ensures prev == null ==> handler !in chain[1..]
      ensures prev != null ==> exists i :: 0 < i < |chain| && prev == chain[i - 1] && chain[i] == handler
    {
      prev := this;
      var temp := next;
      ghost var at := 1;
      while temp != null
        invariant 1 <= at <= |chain| && prev == chain[at - 1]
        invariant temp == if at < |chain| then chain[at] else null
        invariant handler !in chain[1..at]
        decreases |chain| - at
      {
        if temp == handler {
          return;
        }
        assert chain[1..at + 1] == chain[1..at] + [chain[at]];
        prev := temp;
        temp := temp.next;
        at := at + 1;
      }
      assert chain[1..at] == chain[1..];
      prev := null;
    }
  }

  /** Index `i` is the first from `from` on that holds the name. */
  ghost predicate FirstNamed(chain: seq<ChannelHandler>, name: string, i: nat, from: nat) {
    from <= i < |chain| && chain[i].name == name && forall j :: from <= j < i ==> chain[j].name != name
  }

  /** Following `next` from `head` visits exactly the handlers of `chain`, in order, and then ends. */
  ghost predicate Linked(head: ChannelHandler?, chain: seq<ChannelHandler>)
    reads chain
  {
    && (head == null <==> chain == [])
    && (chain != [] ==> head == chain[0])
    && forall i :: 0 <= i < |chain| ==> chain[i].next == Successor(chain, i)
  }

  ghost function Successor(chain: seq<ChannelHandler>, i: nat): ChannelHandler?
    requires i < |chain|
  {
    if i + 1 < |chain| then chain[i + 1] else null
  }

  function Drop(chain: seq<ChannelHandler>, i: nat): seq<ChannelHandler>
    requires i < |chain|
  {
    chain[..i] + chain[i + 1..]
  }

  lemma DropDistinct(chain: seq<ChannelHandler>, i: nat)
    requires Distinct(chain) && i < |chain|
    ensures Distinct(Drop(chain, i))
  {
  }

  lemma DropRemoves(chain: seq<ChannelHandler>, i: nat)
    requires Distinct(chain) && i < |chain|
    ensures chain[i] in chain && chain[i] !in Drop(chain, i)
    ensures i == 0 ==> Drop(chain, i) == chain[1..]
  {
  }

  class ChannelHandlerPipeline {
    var head: ChannelHandler?
    ghost var chain: seq<ChannelHandler>

    /** The list is acyclic and equals the sequence. */
    ghost predicate Valid()
      reads this, chain
    {
      Distinct(chain) && Linked(head, chain)
    }

    constructor ()
      ensures Valid() && chain == []
    {
      head, chain := null, [];
    }

    /** A handler may be added if it is in no chain: it is not linked here and has no successor. */
    method AddFirst(handler: ChannelHandler?)
      requires Valid() && (handler != null ==> handler !in chain && handler.next == null)
      modifies this, if handler == null then {} else {handler}
      ensures Valid() && chain == if handler == null then old(chain) else [handler] + old(chain)
    {
      if handler != null {
        if head != null {
          handler.next := head;
        }
        head, chain := handler, [handler] + chain;
      }
    }

    method AddLast(handler: ChannelHandler?)
      requires Valid() && (handler != null ==> handler !in chain && handler.next == null)
      modifies this, chain
      ensures Valid() && chain == if handler == null then old(chain) else old(chain) + [handler]
    {
      if handler != null {
        if head != null {
          var last := head.FindLast(chain);
          last.next := handler;
        } else {
          head := handler;
        }
        chain := chain + [handler];
      }
    }

    method UnlinkHead()
      requires Valid() && head != null
      modifies this, head
      ensures Valid() && chain == old(chain)[1..] && old(head).next == null
    {
      var next := head.next;
      if next != null {
        head.next := null;
        head := next;
      } else {
        assert |chain| == 1;
        head := null;
      }
      chain := chain[1..];
    }

    /** Takes the handler behind `chain[i - 1]` out. */
    method Unlink(prev: ChannelHandler, handler: ChannelHandler, ghost i: nat)
      requires Valid() && 0 < i < |chain| && prev == chain[i - 1] && handler == chain[i]
      modifies this, prev, handler
      ensures Valid() && chain == Drop(old(chain), i) && handler.next == null
    {
      DropDistinct(chain, i);
      assert forall j :: 0 <= j < |chain| && j != i - 1 ==> chain[j] != prev;
      assert forall j :: 0 <= j < |chain| && j != i ==> chain[j] != handler;
      hide Distinct;
      if handler.next != null {
        prev.next := handler.next;
        handler.next := null;
      } else {
        assert i == |chain| - 1;
        prev.next := null;
      }
      chain := Drop(chain, i);
    }

    method RemoveFirst() returns (first: ChannelHandler?)
      requires Valid()
      modifies this, chain
      ensures Valid() && (first == null <==> old(chain) == [])
      ensures first == null ==> chain == old(chain)
      ensures first != null ==>
        first == old(chain)[0] && chain == old(chain)[1..] && first.next == null && first !in chain
    {
      if head == null {
        return null;
      }
      first := head;
      UnlinkHead();
    }

    method RemoveLast() returns (last: ChannelHandler?)
      requires Valid()
      modifies this, chain
      ensures Valid() && (last == null <==> old(chain) == [])
      ensures last == null ==> chain == old(chain)
      ensures last != null ==>
        && last == old(chain)[|old(chain)| - 1] && chain == old(chain)[..|old(chain)| - 1]
        && last.next == null && last !in chain
    {
      if head == null {
        return null;
      }
      if head.next == null {
        assert |chain| == 1;
        last := head;
        UnlinkHead();
        return;
      }
      var prev := head.FindLastPrev(chain);
      last := prev.next;
      prev.next := null;
      chain := chain[..|chain| - 1];
    }

    /** Removes the first handler with the name, and only that; an empty name matches nothing. */
    method RemoveNamed(name: string) returns (removed: ChannelHandler?)
      requires Valid()
      modifies this, chain
      ensures Valid()
      ensures removed == null ==> chain == old(chain) && (name == "" || forall h :: h in chain ==> h.name != name)
      ensures removed != null ==> name != "" && removed.next == null && removed !in chain
      ensures removed != null ==>
        exists i: nat :: FirstNamed(old(chain), name, i, 0) && removed == old(chain)[i] && chain == Drop(old(chain), i)
    {
      if head == null || name == "" {
        return null;
      }
      hide Distinct;
      if head.name == name {
        removed := head;
        assert FirstNamed(chain, name, 0, 0);
        DropRemoves(chain, 0);
        UnlinkHead();
        return;
      }
      var prev := head.FindNamedPrev(name, chain);
      if prev == null {
        return null;
      }
      ghost var i :| 0 < i < |chain| && prev == chain[i - 1] && FirstNamed(chain, name, i, 1);
      assert FirstNamed(chain, name, i, 0);
      removed := prev.next;
      DropRemoves(chain, i);
      Unlink(prev, removed, i);
    }

    method Remove(handler: ChannelHandler?) returns (found: bool)
      requires Valid()
      modifies this, chain
      ensures Valid() && (found <==> handler != null && handler in old(chain))
      ensures !found ==> chain == old(chain)
      ensures found ==> handler.next == null && handler !in chain
      ensures found ==> exists i :: 0 <= i < |old(chain)| && old(chain)[i] == handler && chain == Drop(old(chain), i)
    {
      hide Distinct;
      if head == null || handler == null {
        return false;
      }
      if head == handler {
        DropRemoves(chain, 0);
        UnlinkHead();
        return true;
      }
      var prev := head.FindPrev(handler, chain);
      if prev == null {
        assert chain == [chain[0]] + chain[1..];
        return false;
      }
      ghost var i :| 0 < i < |chain| && prev == chain[i - 1] && chain[i] == handler;
      DropRemoves(chain, i);
      Unlink(prev, prev.next, i);
      return true;
    }
  }
  // Whole runs, against a plain sequence of numbers: the k-th handler created is number k.

  datatype Op =
    | PutFirst(name: string)    // a new handler
    | PutLast(name: string)
    | TakeFirst
    | TakeLast
    | TakeNamed(name: string)
    | TakeHandler(id: nat)
    | PutBackFirst(id: nat)     // a handler that is not linked
    | PutBackLast(id: nat)

  /** The names of all handlers created so far, and the numbers of the linked ones. */
  datatype Shelf = Shelf(names: seq<string>, linked: seq<nat>) {
    predicate Ok() {
      forall j :: 0 <= j < |linked| ==> linked[j] < |names|
    }
  }

  /** The first position in `linked` whose handler has the name; the length if there is none. */
  function Position(s: Shelf, name: string): (i: nat)
    requires s.Ok()
    ensures i <= |s.linked|
    ensures i < |s.linked| ==> s.names[s.linked[i]] == name
    ensures forall j :: 0 <= j < i ==> s.names[s.linked[j]] != name
    decreases |s.linked|
  {
    if s.linked == [] || s.names[s.linked[0]] == name then 0 else 1 + Position(s.(linked := s.linked[1..]), name)
  }

  function IndexOf(linked: seq<nat>, id: nat): (i: nat)
    requires id in linked
    ensures i < |linked| && linked[i] == id
  {
    if linked[0] == id then 0 else 1 + IndexOf(linked[1..], id)
  }

  function Taken(s: Shelf, i: nat): Shelf
    requires i < |s.linked|
  {
    s.(linked := s.linked[..i] + s.linked[i + 1..])
  }

  /** The handler is there and not linked. */
  predicate Spare(s: Shelf, id: nat) {
    id < |s.names| && id !in s.linked
  }

  function Apply(s: Shelf, op: Op): (s': Shelf)
    requires s.Ok()
    ensures s'.Ok()
  {
    match op
    case PutFirst(name) => Shelf(s.names + [name], [|s.names|] + s.linked)
    case PutLast(name) => Shelf(s.names + [name], s.linked + [|s.names|])
    case TakeFirst => if s.linked == [] then s else Taken(s, 0)
    case TakeLast => if s.linked == [] then s else Taken(s, |s.linked| - 1)
    case TakeNamed(name) => if name == "" || Position(s, name) == |s.linked| then s else Taken(s, Position(s, name))
    case TakeHandler(id) => if id in s.linked then Taken(s, IndexOf(s.linked, id)) else s
    case PutBackFirst(id) => if Spare(s, id) then s.(linked := [id] + s.linked) else s
    case PutBackLast(id) => if Spare(s, id) then s.(linked := s.linked + [id]) else s
  }

  function ApplyAll(ops: seq<Op>): (s: Shelf)
    ensures s.Ok()
  {
    if ops == [] then Shelf([], []) else Apply(ApplyAll(ops[..|ops| - 1]), ops[|ops| - 1])
  }

  /** The chain is made of the handlers with the given numbers. */
  ghost predicate Numbered(chain: seq<ChannelHandler>, all: seq<ChannelHandler>, s: Shelf) {
    && Distinct(all) && |all| == |s.names| && (forall i :: 0 <= i < |all| ==> all[i].name == s.names[i])
    && |chain| == |s.linked| && s.Ok()
    && (forall j :: 0 <= j < |chain| ==> chain[j] == all[s.linked[j]])
  }

  /** The pipeline shows the shelf, and a handler that is not linked can be added again. */
  ghost predicate Shows(p: ChannelHandlerPipeline, all: seq<ChannelHandler>, s: Shelf)
    reads p, all
  {
    && Numbered(p.chain, all, s)
    && forall i :: 0 <= i < |all| && all[i] !in p.chain ==> all[i].next == null
  }

  lemma NumberedWithout(chain: seq<ChannelHandler>, all: seq<ChannelHandler>, s: Shelf, i: nat)
    requires Numbered(chain, all, s) && i < |chain|
    ensures Numbered(Drop(chain, i), all, Taken(s, i))
    ensures forall h :: h in chain <==> h in Drop(chain, i) || h == chain[i]
  {
    hide Distinct;
    assert chain == chain[..i] + [chain[i]] + chain[i + 1..];
  }

  lemma NumberedWith(chain: seq<ChannelHandler>, all: seq<ChannelHandler>, s: Shelf, id: nat)
    requires Numbered(chain, all, s) && id < |all|
    ensures Numbered([all[id]] + chain, all, s.(linked := [id] + s.linked))
    ensures Numbered(chain + [all[id]], all, s.(linked := s.linked + [id]))
    ensures id !in s.linked ==> all[id] !in chain
  {
    if all[id] in chain {
      var j :| 0 <= j < |chain| && chain[j] == all[id];
      assert all[s.linked[j]] == all[id];
    }
    hide Distinct;
  }

  lemma NumberedNew(chain: seq<ChannelHandler>, all: seq<ChannelHandler>, s: Shelf, h: ChannelHandler)
    requires Numbered(chain, all, s) && h !in all
    ensures Numbered(chain, all + [h], s.(names := s.names + [h.name])) && h !in chain
  {
  }

  lemma LinkedPosition(chain: seq<ChannelHandler>, all: seq<ChannelHandler>, s: Shelf, name: string, i: nat)
    requires Numbered(chain, all, s) && FirstNamed(chain, name, i, 0)
    ensures Position(s, name) == i
  {
    hide Position;
    var p := Position(s, name);
    assert forall j :: 0 <= j < |chain| ==> chain[j].name == s.names[s.linked[j]];
    assert s.names[s.linked[i]] == name;
  }

  lemma NoPosition(chain: seq<ChannelHandler>, all: seq<ChannelHandler>, s: Shelf, name: string)
    requires Numbered(chain, all, s) && forall h :: h in chain ==> h.name != name
    ensures Position(s, name) == |chain|
  {
    hide Position;
    assert forall j :: 0 <= j < |chain| ==> chain[j] in chain && chain[j].name == s.names[s.linked[j]];
  }

  lemma LinkedIndex(chain: seq<ChannelHandler>, all: seq<ChannelHandler>, s: Shelf, id: nat)
    requires Numbered(chain, all, s) && id < |all|
    ensures all[id] in chain <==> id in s.linked
    ensures id in s.linked ==>
      forall i :: 0 <= i < |chain| && chain[i] == all[id] && Distinct(chain) ==> i == IndexOf(s.linked, id)
  {
    hide IndexOf;
    if id in s.linked {
      assert chain[IndexOf(s.linked, id)] == all[id];
    } else {
      NumberedWith(chain, all, s, id);
    }
  }

  /** The operations that add a new handler. */
  method PutNew(p: ChannelHandlerPipeline, all: seq<ChannelHandler>, op: Op, s: Shelf)
    returns (all': seq<ChannelHandler>)
    requires p.Valid() && Shows(p, all, s) && (op.PutFirst? || op.PutLast?)
    modifies p, p.chain
    ensures p.Valid() && Shows(p, all', Apply(s, op))
    ensures forall h :: h in all' ==> h in all || fresh(h)
  {
    hide ChannelHandlerPipeline.Valid, Distinct;
    var h := new ChannelHandler(op.name);
    all' := all + [h];
    ghost var s' := s.(names := s.names + [h.name]);
    NumberedNew(p.chain, all, s, h);
    NumberedWith(p.chain, all', s', |all|);
    hide Numbered;
    assert forall g :: g in all' <==> g in all || g == h;
    if op.PutFirst? {
      p.AddFirst(h);
    } else {
      p.AddLast(h);
    }
  }

  /** The operations that add a handler again. */
  method PutOld(p: ChannelHandlerPipeline, all: seq<ChannelHandler>, op: Op, s: Shelf)
    requires p.Valid() && Shows(p, all, s) && (op.PutBackFirst? || op.PutBackLast?)
    modifies p, p.chain, all
    ensures p.Valid() && Shows(p, all, Apply(s, op))
  {
    hide ChannelHandlerPipeline.Valid, Distinct;
    if Spare(s, op.id) {
      var h := all[op.id];
      NumberedWith(p.chain, all, s, op.id);
      hide Numbered;
      assert h.next == null;
      if op.PutBackFirst? {
        p.AddFirst(h);
      } else {
        p.AddLast(h);
      }
    }
  }

  /** What a removal did: it took out the handler at `i`, as the operation says, or nothing. */
  ghost predicate Removed(
    chain: seq<ChannelHandler>, s: Shelf, op: Op, h: ChannelHandler?, i: nat, chain': seq<ChannelHandler>)
    requires s.Ok() && |chain| == |s.linked|
  {
    if h == null then chain' == chain && Apply(s, op) == s
    else i < |chain| && h == chain[i] && chain' == Drop(chain, i) && Apply(s, op) == Taken(s, i)
  }

  method TakeEnd(p: ChannelHandlerPipeline, op: Op, s: Shelf) returns (h: ChannelHandler?, ghost i: nat)
    requires p.Valid() && s.Ok() && |p.chain| == |s.linked| && (op.TakeFirst? || op.TakeLast?)
    modifies p, p.chain
    ensures p.Valid() && Removed(old(p.chain), s, op, h, i, p.chain) && (h != null ==> h.next == null)
  {
    hide ChannelHandlerPipeline.Valid;
    ghost var chain := p.chain;
    i := 0;
    if op.TakeFirst? {
      h := p.RemoveFirst();
      assert chain != [] ==> chain[1..] == Drop(chain, 0);
    } else {
      h := p.RemoveLast();
      i := if chain == [] then 0 else |chain| - 1;
      assert chain != [] ==> chain[..i] == Drop(chain, i);
    }
  }

  method TakeByName(p: ChannelHandlerPipeline, all: seq<ChannelHandler>, name: string, s: Shelf)
    returns (h: ChannelHandler?, ghost i: nat)
    requires p.Valid() && Numbered(p.chain, all, s)
    modifies p, p.chain
    ensures p.Valid() && Removed(old(p.chain), s, TakeNamed(name), h, i, p.chain) && (h != null ==> h.next == null)
  {
    ghost var chain := p.chain;
    hide ChannelHandlerPipeline.Valid;
    i := 0;
    h := p.RemoveNamed(name);
    if h != null {
      i :| FirstNamed(chain, name, i, 0) && h == chain[i] && p.chain == Drop(chain, i);
      LinkedPosition(chain, all, s, name, i);
    } else if name != "" {
      NoPosition(chain, all, s, name);
    }
  }

  method TakeByNumber(p: ChannelHandlerPipeline, all: seq<ChannelHandler>, id: nat, s: Shelf)
    returns (h: ChannelHandler?, ghost i: nat)
    requires p.Valid() && Numbered(p.chain, all, s)
    modifies p, p.chain
    ensures p.Valid() && Removed(old(p.chain), s, TakeHandler(id), h, i, p.chain) && (h != null ==> h.next == null)
  {
    ghost var chain := p.chain;
    assert Distinct(chain);
    h, i := null, 0;
    if id < |all| {
      LinkedIndex(chain, all, s, id);
      hide ChannelHandlerPipeline.Valid, Numbered, Distinct;
      var found := p.Remove(all[id]);
      if found {
        h := all[id];
        i :| 0 <= i < |chain| && chain[i] == h && p.chain == Drop(chain, i);
      }
    }
  }

  method TakeAny(p: ChannelHandlerPipeline, all: seq<ChannelHandler>, op: Op, s: Shelf)
    returns (h: ChannelHandler?, ghost i: nat)
    requires p.Valid() && Numbered(p.chain, all, s)
    requires op.TakeFirst? || op.TakeLast? || op.TakeNamed? || op.TakeHandler?
    modifies p, p.chain
    ensures p.Valid() && Removed(old(p.chain), s, op, h, i, p.chain) && (h != null ==> h.next == null)
  {
    hide ChannelHandlerPipeline.Valid, Distinct, Apply, Drop, Removed;
    if op.TakeNamed? {
      h, i := TakeByName(p, all, op.name, s);
    } else if op.TakeHandler? {
      h, i := TakeByNumber(p, all, op.id, s);
    } else {
      h, i := TakeEnd(p, op, s);
    }
  }

  /** The operations that remove a handler. */
  method Take(p: ChannelHandlerPipeline, all: seq<ChannelHandler>, op: Op, s: Shelf)
    requires p.Valid() && Shows(p, all, s) && (op.TakeFirst? || op.TakeLast? || op.TakeNamed? || op.TakeHandler?)
    modifies p, p.chain
    ensures p.Valid() && Shows(p, all, Apply(s, op))
  {
    ghost var chain := p.chain;
    hide ChannelHandlerPipeline.Valid, Distinct, Apply, Drop, Shelf.Ok;
    var h: ChannelHandler?;
    ghost var i: nat;
    h, i := TakeAny(p, all, op, s);
    if h != null {
      NumberedWithout(chain, all, s, i);
    }
    hide Numbered, Removed;
    forall k | 0 <= k < |all| && all[k] !in p.chain ensures all[k].next == null {
      if all[k] !in chain {
        assert all[k].next == old(all[k].next);
      }
    }
  }

  method Do(p: ChannelHandlerPipeline, all: seq<ChannelHandler>, op: Op, s: Shelf) returns (all': seq<ChannelHandler>)
    requires p.Valid() && Shows(p, all, s)
    modifies p, all
    ensures p.Valid() && Shows(p, all', Apply(s, op))
    ensures forall h :: h in all' ==> h in all || fresh(h)
  {
    ShownInAll(p, all, s);
    hide Shows, Apply, ChannelHandlerPipeline.Valid;
    all' := all;
    if op.PutFirst? || op.PutLast? {
      all' := PutNew(p, all, op, s);
    } else if op.PutBackFirst? || op.PutBackLast? {
      PutOld(p, all, op, s);
    } else {
      Take(p, all, op, s);
    }
  }

  /** Any sequence of operations, re-adding removed handlers included, leaves an acyclic list of exactly the
      handlers that a plain sequence of their numbers, put through the same operations, names. */
  method AnyRun(ops: seq<Op>) returns (p: ChannelHandlerPipeline, all: seq<ChannelHandler>)
    ensures p.Valid() && Shows(p, all, ApplyAll(ops))
  {
    hide Shows, Apply, ChannelHandlerPipeline.Valid;
    p := new ChannelHandlerPipeline();
    all := [];
    var s := Shelf([], []);
    assert Shows(p, all, s) by { NothingShown(p); }
    for k := 0 to |ops|
      invariant fresh(p) && p.Valid() && s == ApplyAll(ops[..k]) && Shows(p, all, s)
      invariant forall h :: h in all ==> fresh(h)
    {
      assert ops[..k + 1][..k] == ops[..k];
      assert forall i :: 0 <= i < |all| ==> all[i] in all && fresh(all[i]);
      all := Do(p, all, ops[k], s);
      s := Apply(s, ops[k]);
    }
    assert ops[..|ops|] == ops;
  }

  lemma ShownInAll(p: ChannelHandlerPipeline, all: seq<ChannelHandler>, s: Shelf)
    requires Shows(p, all, s)
    ensures forall h :: h in p.chain ==> h in all
  {
  }

  lemma NothingShown(p: ChannelHandlerPipeline)
    requires p.chain == []
    ensures Shows(p, [], Shelf([], []))
  {
  }
}
