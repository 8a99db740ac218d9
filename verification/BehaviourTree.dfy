/**
 The behaviour tree of the executive: leaves that act on a state, sequences that fail fast,
 selectors that recover, and the bounded runner. A leaf is a function from state to state
 and status, which is what a side-effecting callback amounts to.
 */
module BehaviourTree {

  datatype Status = Success | Failure | Running

  datatype Node<!S> =
    | Action(name: string, act: S -> (S, Status))
    | Sequence(name: string, children: seq<Node<S>>)
    | Selector(name: string, children: seq<Node<S>>)

  function Tick<S>(n: Node<S>, s: S): (S, Status)
    decreases n, 1
  {
    match n
    case Action(_, act) => act(s)
    case Sequence(_, children) => TickWhile(children, s, Success)
    case Selector(_, children) => TickWhile(children, s, Failure)
  }

  /** Ticks the children in order as long as they return `go`; the first other status is the answer. */
  function TickWhile<S>(children: seq<Node<S>>, s: S, go: Status): (S, Status)
    decreases children, 0
  {
    if children == [] then (s, go)
    else
      var (s', status) := Tick(children[0], s);
      if status != go then (s', status) else TickWhile(children[1..], s', go)
  }

  // ----- what a composite does, child by child

  /** The state once the first `k` children have been ticked. */
  function After<S>(children: seq<Node<S>>, s: S, k: nat): S
    requires k <= |children|
  {
    if k == 0 then s else Tick(children[k - 1], After(children, s, k - 1)).0
  }

  function StatusOf<S>(children: seq<Node<S>>, s: S, k: nat): Status
    requires k < |children|
  {
    Tick(children[k], After(children, s, k)).1
  }

  lemma {:induction false} AfterTail<S>(children: seq<Node<S>>, s: S, k: nat)
    requires 0 < k <= |children|
    ensures After(children, s, k) == After(children[1..], Tick(children[0], s).0, k - 1)
  {
    if k == 1 {
      assert After(children, s, 0) == s;
    } else {
      AfterTail(children, s, k - 1);
    }
  }

  /** The loop of `Sequence.tick` and `Selector.tick`; the last child ticked is the one a failed sequence remembers. */
  method TickChildren<S>(children: seq<Node<S>>, start: S, go: Status) returns (s: S, status: Status, ticked: nat)
    ensures (s, status) == TickWhile(children, start, go)
    ensures ticked <= |children| && s == After(children, start, ticked)
    ensures forall k :: 0 <= k < ticked - 1 ==> StatusOf(children, start, k) == go
    ensures if status == go then ticked == |children| && (ticked > 0 ==> StatusOf(children, start, ticked - 1) == go)
            else ticked > 0 && status == StatusOf(children, start, ticked - 1)
  {
    s, ticked := start, 0;
    while ticked < |children|
      invariant 0 <= ticked <= |children|
      invariant s == After(children, start, ticked)
      invariant forall k :: 0 <= k < ticked ==> StatusOf(children, start, k) == go
      invariant TickWhile(children, start, go) == TickWhile(children[ticked..], s, go)
    {
      assert children[ticked..][1..] == children[ticked + 1..];
      var r := Tick(children[ticked], s);
      s, status, ticked := r.0, r.1, ticked + 1;
      if status != go {
        return;
      }
    }
    status := go;
  }

  /** The runner: ticks until the tree settles or the budget is spent. */
  function Run<S>(root: Node<S>, s: S, budget: nat): (S, Status) {
    if budget == 0 then (s, Failure)
    else
      var (s', status) := Tick(root, s);
      if status != Running then (s', status) else Run(root, s', budget - 1)
  }

  method RunTree<S>(root: Node<S>, start: S, maxTicks: nat) returns (s: S, status: Status)
    ensures (s, status) == Run(root, start, maxTicks) && status != Running
  {
    s := start;
    var left := maxTicks;
    while left > 0
      invariant Run(root, start, maxTicks) == Run(root, s, left)
    {
      var r := Tick(root, s);
      s, status, left := r.0, r.1, left - 1;
      if status != Running {
        return;
      }
    }
    status := Failure;
  }

  /** The state after the tree has been ticked `k` times. */
  function Ticked<S>(root: Node<S>, s: S, k: nat): S {
    if k == 0 then s else Tick(root, Ticked(root, s, k - 1)).0
  }

  lemma {:induction false} TickedLater<S>(root: Node<S>, s: S, k: nat)
    requires k > 0
    ensures Ticked(root, s, k) == Ticked(root, Tick(root, s).0, k - 1)
  {
    if k == 1 {
      assert Ticked(root, s, 0) == s;
    } else {
      TickedLater(root, s, k - 1);
    }
  }

  predicate SettledAt<S>(root: Node<S>, s: S, k: nat) {
    Tick(root, Ticked(root, s, k)).1 != Running
  }

  /** The run answers with the first tick that settles; without one in the budget it fails after exactly that many ticks. */
  lemma {:induction false} FirstSettledTick<S>(root: Node<S>, s: S, budget: nat, k: nat)
    requires k <= budget && forall j: nat :: j < k ==> !SettledAt(root, s, j)
    ensures k < budget && SettledAt(root, s, k) ==> Run(root, s, budget) == Tick(root, Ticked(root, s, k))
    ensures k == budget ==> Run(root, s, budget) == (Ticked(root, s, k), Failure)
    decreases budget
  {
    if k > 0 {
      var s' := Tick(root, s).0;
      assert !SettledAt(root, s, 0) && Ticked(root, s, 0) == s;
      TickedLater(root, s, k);
      forall j: nat | j < k - 1 ensures !SettledAt(root, s', j) {
        TickedLater(root, s, j + 1);
        assert !SettledAt(root, s, j + 1);
      }
      FirstSettledTick(root, s', budget - 1, k - 1);
    }
  }

  // ----- selectors are sequences with success and failure exchanged

  function Flip(st: Status): Status {
    match st
    case Success => Failure
    case Failure => Success
    case Running => Running
  }

  /** The tree with every leaf's verdict flipped and every composite exchanged. */
  function Dual<S>(n: Node<S>): Node<S>
    decreases n, 1
  {
    match n
    case Action(name, act) => Action(name, (s: S) => (act(s).0, Flip(act(s).1)))
    case Sequence(name, children) => Selector(name, Duals(children))
    case Selector(name, children) => Sequence(name, Duals(children))
  }

  function Duals<S>(ns: seq<Node<S>>): seq<Node<S>>
    decreases ns, 0
  {
    if ns == [] then [] else [Dual(ns[0])] + Duals(ns[1..])
  }

  /** The dual tree acts the same and answers the opposite. */
  lemma {:induction false} DualTick<S>(n: Node<S>, s: S)
    ensures Tick(Dual(n), s) == (Tick(n, s).0, Flip(Tick(n, s).1))
    decreases n, 1
  {
    match n
    case Action(_, act) =>
    case Sequence(_, children) => DualTickWhile(children, s, Success);
    case Selector(_, children) => DualTickWhile(children, s, Failure);
  }

  lemma {:induction false} DualTickWhile<S>(children: seq<Node<S>>, s: S, go: Status)
    ensures TickWhile(Duals(children), s, Flip(go)) == (TickWhile(children, s, go).0, Flip(TickWhile(children, s, go).1))
    decreases children, 0
  {
    if children != [] {
      DualTick(children[0], s);
      assert Duals(children)[0] == Dual(children[0]) && Duals(children)[1..] == Duals(children[1..]);
      DualTickWhile(children[1..], Tick(children[0], s).0, go);
    }
  }

  // ----- the navigation tree

  /** A leaf that never asks to be ticked again. */
  ghost predicate Settles<S(!new)>(act: S -> (S, Status)) {
    forall s :: act(s).1 != Running
  }

  /**
   Three settling actions in a sequence, run with any budget: each runs once, in order, and
   only if those before it succeeded. This is the cascade the executive's drive follows.
   */
  lemma CascadeOfThree<S(!new)>(a: S -> (S, Status), b: S -> (S, Status), c: S -> (S, Status), s: S, budget: nat)
    requires Settles(a) && Settles(b) && Settles(c) && budget > 0
    ensures var tree := Sequence("navigate", [Action("acquire", a), Action("enter_active", b), Action("drive", c)]);
            Run(tree, s, budget) ==
            if a(s).1 == Failure then a(s)
            else if b(a(s).0).1 == Failure then b(a(s).0)
            else c(b(a(s).0).0)
  {
    var kids := [Action("acquire", a), Action("enter_active", b), Action("drive", c)];
    assert kids[1..] == [Action("enter_active", b), Action("drive", c)] && kids[1..][1..] == [Action("drive", c)];
    assert kids[1..][1..][1..] == [];
    var s1 := a(s).0;
    var s2 := b(s1).0;
    assert TickWhile(kids[1..][1..], s2, Success) == c(s2);
    assert TickWhile(kids[1..], s1, Success) == if b(s1).1 == Failure then b(s1) else c(s2);
    assert a(s).1 != Running && b(s1).1 != Running && c(s2).1 != Running;
    var answer := if a(s).1 == Failure then a(s) else if b(s1).1 == Failure then b(s1) else c(s2);
    assert TickWhile(kids, s, Success) == answer;
    assert Tick(Sequence("navigate", kids), s) == answer;
  }
}
