/** internal/design/chain/logic_handler.go: handlers linked on the heap, each of which works on a shared context
    and then either answers or calls the next one. */
module Chain {
  import opened TradeModel

  /** The dynamic context of a request, which handlers write to. */
  class Context<C> {
    var value: C

    constructor (value: C)
      ensures this.value == value
    {
      this.value := value;
    }
  }

  /** work is a handler's own part of Apply: the context it leaves and its answer, None when it calls Next. */
  class Handler<Req, C, Res> {
    const work: (Req, C) -> (C, Option<Res>)
    var next: Handler?<Req, C, Res>

    constructor (work: (Req, C) -> (C, Option<Res>))
      ensures this.work == work && next == null
    {
      this.work, next := work, null;
    }

    method SetNext(h: Handler<Req, C, Res>)
      modifies this`next
      ensures next == h
    {
      next := h;
    }

    /** Runs this handler and, as long as none answers, its successors. rest is the chain from here; None is
        the zero result of a chain that ends without an answer. */
    method Apply(req: Req, ctx: Context<C>, ghost rest: seq<Handler<Req, C, Res>>) returns (r: Option<Res>)
      requires Linked(rest) && |rest| > 0 && rest[0] == this
      modifies ctx
      ensures (ctx.value, r) == Outcome(rest, req, old(ctx.value))
      decreases |rest|
    {
      ghost var tail := rest[1..];
      TailLinked(rest);
      assert |rest| > 1 ==> rest[0].next == rest[1];
      assert |rest| == 1 ==> rest[|rest| - 1].next == null;
      var (c, answer) := work(req, ctx.value);
      ctx.value := c;
      if answer.Some? {
        return answer;
      }
      if next == null {
        assert tail == [];
        return None;
      }
      assert tail[0] == next;
      r := next.Apply(req, ctx, tail);
    }
  }

  /** Each handler points to the next of the sequence, the last to none. */
  ghost predicate Linked<Req, C, Res>(hs: seq<Handler<Req, C, Res>>)
    reads set i | 0 <= i < |hs| :: hs[i]
  {
    && (forall i :: 0 <= i < |hs| - 1 ==> hs[i].next == hs[i + 1])
    && (hs != [] ==> hs[|hs| - 1].next == null)
  }

  lemma TailLinked<Req, C, Res>(hs: seq<Handler<Req, C, Res>>)
    requires Linked(hs) && |hs| > 0
    ensures Linked(hs[1..])
  {
    var tail := hs[1..];
    forall i | 0 <= i < |tail| - 1
      ensures tail[i].next == tail[i + 1]
    {
      assert hs[i + 1].next == hs[i + 2];
    }
  }

  /** The context and answer a chain leaves, taken from its head. */
  ghost function Outcome<Req, C, Res>(hs: seq<Handler<Req, C, Res>>, req: Req, c: C): (C, Option<Res>) {
    if hs == [] then (c, None)
    else
      var (d, r) := hs[0].work(req, c);
      if r.Some? then (d, r) else Outcome(hs[1..], req, d)
  }

  /** The context once the first n handlers have run, each on what the one before it left. */
  ghost function After<Req, C, Res>(hs: seq<Handler<Req, C, Res>>, req: Req, c: C, n: nat): C
    requires n <= |hs|
  {
    if n == 0 then c else hs[n - 1].work(req, After(hs, req, c, n - 1)).0
  }

  lemma {:induction false} AfterTail<Req, C, Res>(hs: seq<Handler<Req, C, Res>>, req: Req, c: C, n: nat)
    requires n < |hs|
    ensures After(hs, req, c, n + 1) == After(hs[1..], req, hs[0].work(req, c).0, n)
  {
    if n > 0 {
      AfterTail(hs, req, c, n - 1);
      assert hs[1..][n - 1] == hs[n];
    } else {
      assert After(hs, req, c, 0) == c;
    }
  }

  /** Handler n runs and passes on. */
  ghost predicate Passes<Req, C, Res>(hs: seq<Handler<Req, C, Res>>, req: Req, c: C, n: nat)
    requires n < |hs|
  {
    hs[n].work(req, After(hs, req, c, n)).1.None?
  }

  /** The chain runs its handlers in order, each on the context of its predecessors, up to the first that does
      not call Next, whose context and answer are the result; those behind it do not run. */
  lemma {:induction false} StopsAtFirstAnswer<Req, C, Res>(hs: seq<Handler<Req, C, Res>>, req: Req, c: C, n: nat)
    requires n < |hs| && !Passes(hs, req, c, n) && forall i: nat :: i < n ==> Passes(hs, req, c, i)
    ensures Outcome(hs, req, c) == hs[n].work(req, After(hs, req, c, n))
  {
    if n > 0 {
      var tail, d := hs[1..], hs[0].work(req, c).0;
      assert Passes(hs, req, c, 0);
      AfterTail(hs, req, c, n - 1);
      forall i: nat | i < n - 1
        ensures Passes(tail, req, d, i)
      {
        AfterTail(hs, req, c, i);
        assert Passes(hs, req, c, i + 1);
      }
      StopsAtFirstAnswer(tail, req, d, n - 1);
    }
  }

  /** Without an answer every handler runs and the result is the zero value. */
  lemma {:induction false} RunsAllWithoutAnswer<Req, C, Res>(hs: seq<Handler<Req, C, Res>>, req: Req, c: C)
    requires forall i: nat :: i < |hs| ==> Passes(hs, req, c, i)
    ensures Outcome(hs, req, c) == (After(hs, req, c, |hs|), None)
  {
    if hs != [] {
      var tail, d := hs[1..], hs[0].work(req, c).0;
      assert Passes(hs, req, c, 0);
      forall i: nat | i < |tail|
        ensures Passes(tail, req, d, i)
      {
        AfterTail(hs, req, c, i);
        assert Passes(hs, req, c, i + 1);
      }
      RunsAllWithoutAnswer(tail, req, d);
      AfterTail(hs, req, c, |tail|);
    }
  }

  predicate Distinct<T(==)>(s: seq<T>) { forall i, j :: 0 <= i < j < |s| ==> s[i] != s[j] }

  /** Handler k of the list does not come again before position n. */
  predicate NotAgain<T(==)>(s: seq<T>, k: nat, n: nat)
    requires k < |s| && n <= |s|
  {
    forall j :: k < j < n ==> s[j] != s[k]
  }

  /** The wiring loop: a handler given more than once keeps its last successor only. */
  method Wire<Req, C, Res>(handlers: seq<Handler<Req, C, Res>>)
    requires |handlers| > 0
    modifies set i | 0 <= i < |handlers| - 1 :: handlers[i]
    ensures forall k :: 0 <= k < |handlers| - 1 && NotAgain(handlers, k, |handlers| - 1) ==>
              handlers[k].next == handlers[k + 1]
    ensures (forall j :: 0 <= j < |handlers| - 1 ==> handlers[j] != handlers[|handlers| - 1]) ==>
              handlers[|handlers| - 1].next == old(handlers[|handlers| - 1].next)
  {
    var last := |handlers| - 1;
    for i := 0 to last
      invariant forall k :: 0 <= k < i && NotAgain(handlers, k, i) ==> handlers[k].next == handlers[k + 1]
      invariant (forall j :: 0 <= j < last ==> handlers[j] != handlers[last]) ==>
                  handlers[last].next == old(handlers[last].next)
    {
      handlers[i].SetNext(handlers[i + 1]);
      forall k | 0 <= k < i && NotAgain(handlers, k, i + 1)
        ensures handlers[k].next == handlers[k + 1]
      {
        assert NotAgain(handlers, k, i) && handlers[i] != handlers[k];
      }
    }
  }

  /** A finite chain never repeats a handler: it would go on from the second as from the first. */
  lemma {:induction false} ChainNeverRepeats<Req, C, Res>(hs: seq<Handler<Req, C, Res>>, i: nat, j: nat)
    requires Linked(hs) && i < j < |hs|
    ensures hs[i] != hs[j]
    decreases |hs| - j
  {
    assert hs[i].next == hs[i + 1];
    if j < |hs| - 1 {
      ChainNeverRepeats(hs, i + 1, j + 1);
      assert hs[j].next == hs[j + 1];
    }
  }

  class LinkedList<Req, C, Res> {
    var head: Handler?<Req, C, Res>

    /** The handlers become the chain in their order exactly when they are given once each and the last one was not
        linked before. */
    constructor (handlers: seq<Handler<Req, C, Res>>)
      modifies set i | 0 <= i < |handlers| - 1 :: handlers[i]
      ensures head == if handlers == [] then null else handlers[0]
      ensures Linked(handlers)
         <==> Distinct(handlers) && (handlers != [] ==> old(handlers[|handlers| - 1].next) == null)
    {
      head := if handlers == [] then null else handlers[0];
      new;
      if handlers != [] {
        Wire(handlers);
      }
      if Linked(handlers) {
        forall i, j | 0 <= i < j < |handlers|
          ensures handlers[i] != handlers[j]
        {
          ChainNeverRepeats(handlers, i, j);
        }
      }
    }

    /** An empty list gives the zero result; otherwise the chain runs from its head. */
    method Apply(req: Req, ctx: Context<C>, ghost chain: seq<Handler<Req, C, Res>>) returns (r: Option<Res>)
      requires Linked(chain) && head == (if chain == [] then null else chain[0])
      modifies ctx
      ensures (ctx.value, r) == Outcome(chain, req, old(ctx.value))
    {
      if head == null {
        return None;
      }
      r := head.Apply(req, ctx, chain);
    }
  }

  /** A handler wired to itself, as two equal neighbours are, starts no finite chain. */
  lemma {:induction false} SelfLinkNeverEnds<Req, C, Res>(h: Handler<Req, C, Res>, chain: seq<Handler<Req, C, Res>>)
    requires h.next == h && |chain| > 0 && chain[0] == h
    ensures !Linked(chain)
  {
    assert chain[0].next != null;
    if |chain| > 1 {
      if chain[1] == h {
        SelfLinkNeverEnds(h, chain[1..]);
        if Linked(chain) {
          TailLinked(chain);
        }
      } else {
        assert chain[0].next != chain[1];
      }
    }
  }
}
