/** The circular doubly linked list of the xv6 buffer cache, kept in `next` and `prev` links. */
module BufList {
  import opened Lists

  /** Element `i` of the circle: the head, then the list, then the head again. */
  function At(order: seq<nat>, head: nat, i: nat): nat {
    if 1 <= i <= |order| then order[i - 1] else head
  }

  ghost predicate Edge(next: seq<nat>, prev: seq<nat>, order: seq<nat>, head: nat, i: nat)
    requires |next| == |prev| == head + 1
  {
    var x, y := At(order, head, i), At(order, head, i + 1);
    x <= head && y <= head && next[x] == y && prev[y] == x
  }

  /** From the head on, the links run through `order` and back to the head, in both directions. */
  ghost predicate Linked(next: seq<nat>, prev: seq<nat>, order: seq<nat>, head: nat) {
    && |next| == |prev| == head + 1
    && Distinct(order) && (forall i :: 0 <= i < |order| ==> order[i] < head)
    && forall i :: 0 <= i <= |order| ==> Edge(next, prev, order, head, i)
  }

  function Put(s: seq<nat>, i: nat, x: nat): seq<nat>
    requires i < |s|
  {
    s[i := x]
  }

  lemma AtApart(order: seq<nat>, head: nat, i: nat, j: nat)
    requires Distinct(order) && (forall k :: 0 <= k < |order| ==> order[k] < head)
    requires i <= |order| + 1 && j <= |order| + 1 && i != j && (1 <= i <= |order| || 1 <= j <= |order|)
    ensures At(order, head, i) != At(order, head, j)
  {
  }

  // ----- taking an element out -----

  function Rest(order: seq<nat>, k: nat): seq<nat>
    requires k < |order|
  {
    order[..k] + order[k + 1..]
  }

  lemma RestAt(order: seq<nat>, head: nat, k: nat, i: nat)
    requires k < |order|
    ensures i <= |order| ==> At(Rest(order, k), head, i) == At(order, head, if i <= k then i else i + 1)
  {
  }

  lemma RestDistinct(order: seq<nat>, k: nat, head: nat)
    requires Distinct(order) && k < |order| && forall i :: 0 <= i < |order| ==> order[i] < head
    ensures Distinct(Rest(order, k)) && order[k] !in Rest(order, k)
    ensures forall i :: 0 <= i < |Rest(order, k)| ==> Rest(order, k)[i] < head
  {
    var rest := Rest(order, k);
    forall i | 0 <= i < |rest| ensures rest[i] == order[if i < k then i else i + 1] && rest[i] != order[k] {
    }
  }

  lemma UnlinkEdge(next: seq<nat>, prev: seq<nat>, order: seq<nat>, head: nat, k: nat, i: nat)
    requires Linked(next, prev, order, head) && k < |order| && i < |order|
    ensures var p, n := At(order, head, k), At(order, head, k + 2);
      p <= head && n <= head && Edge(Put(next, p, n), Put(prev, n, p), Rest(order, k), head, i)
  {
    assert Edge(next, prev, order, head, k) && Edge(next, prev, order, head, k + 1);
    RestAt(order, head, k, i);
    RestAt(order, head, k, i + 1);
    if i < k {
      assert Edge(next, prev, order, head, i);
      AtApart(order, head, i, k);
      AtApart(order, head, i + 1, k + 2);
    } else if i > k {
      assert Edge(next, prev, order, head, i + 1);
      AtApart(order, head, i + 1, k);
      AtApart(order, head, i + 2, k + 2);
    }
  }

  /** Take element `b` out of the list. */
  method Unlink(next: seq<nat>, prev: seq<nat>, b: nat, head: nat, ghost order: seq<nat>, ghost k: nat)
    returns (next': seq<nat>, prev': seq<nat>)
    requires Linked(next, prev, order, head) && k < |order| && order[k] == b
    ensures Linked(next', prev', Rest(order, k), head)
  {
    assert Edge(next, prev, order, head, k) && Edge(next, prev, order, head, k + 1);
    var n, p := next[b], prev[b];
    prev' := Put(prev, n, p);
    next' := Put(next, p, n);
    RestDistinct(order, k, head);
    forall i | 0 <= i <= |Rest(order, k)| ensures Edge(next', prev', Rest(order, k), head, i) {
      UnlinkEdge(next, prev, order, head, k, i);
    }
  }

  // ----- putting an element in front -----

  lemma FrontAt(order: seq<nat>, head: nat, b: nat, i: nat)
    ensures At([b] + order, head, i) == if i == 0 then head else if i == 1 then b else At(order, head, i - 1)
  {
  }

  lemma FrontEdge(next: seq<nat>, prev: seq<nat>, b: nat, head: nat, order: seq<nat>, i: nat)
    requires Linked(next, prev, order, head) && b < head && b !in order && i <= |order| + 1
    ensures next[head] <= head
    ensures Edge(Put(Put(next, b, next[head]), head, b), Put(Put(prev, b, head), next[head], b), [b] + order, head, i)
  {
    assert Edge(next, prev, order, head, 0);
    FrontAt(order, head, b, i);
    FrontAt(order, head, b, i + 1);
    var f := next[head];
    assert f != b by {
      assert |order| > 0 ==> order[0] in order;
    }
    if i >= 2 {
      var j := i - 1;
      assert Edge(next, prev, order, head, j);
      assert order[j - 1] in order;
      AtApart(order, head, j, 0);
      if j + 1 <= |order| {
        assert order[j] in order;
        AtApart(order, head, j + 1, 1);
      } else {
        AtApart(order, head, 1, j + 1);
      }
    }
  }

  /** Put element `b` at the front. */
  method InsertFront(next: seq<nat>, prev: seq<nat>, b: nat, head: nat, ghost order: seq<nat>)
    returns (next': seq<nat>, prev': seq<nat>)
    requires Linked(next, prev, order, head) && b < head && b !in order
    ensures Linked(next', prev', [b] + order, head)
  {
    assert Edge(next, prev, order, head, 0);
    next', prev' := next, prev;
    next' := Put(next', b, next'[head]);
    prev' := Put(prev', b, head);
    prev' := Put(prev', next'[head], b);
    next' := Put(next', head, b);
    forall i | 0 <= i <= |[b] + order| ensures Edge(next', prev', [b] + order, head, i) {
      FrontEdge(next, prev, b, head, order, i);
    }
  }

  /** Move element `b` to the front; the others keep their order. */
  method MoveToFront(next: seq<nat>, prev: seq<nat>, b: nat, head: nat, ghost order: seq<nat>, ghost k: nat)
    returns (next': seq<nat>, prev': seq<nat>)
    requires Linked(next, prev, order, head) && k < |order| && order[k] == b
    ensures Linked(next', prev', [b] + Rest(order, k), head)
  {
    hide Edge;
    RestDistinct(order, k, head);
    next', prev' := Unlink(next, prev, b, head, order, k);
    next', prev' := InsertFront(next', prev', b, head, Rest(order, k));
  }
}
