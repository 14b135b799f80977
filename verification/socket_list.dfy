/**
 * The two lists of sockets.cpp as they are in memory: circular, doubly linked, each threaded through
 * the prev and next fields of its sockets and of a head that is no socket.
 */
module SocketLists {
  import opened AdbBase

  /** local_socket_list, local_socket_closing_list, or the socket at an address. */
  datatype Node = Main | Closing | Sock(a: nat)

  /** The prev and next fields of one node; None is null. */
  datatype Link = Link(prev: Option<Node>, next: Option<Node>)

  /** All the prev and next fields; those of a node that is not in the map are null. */
  type Links = map<Node, Link>

  function Get(m: Links, n: Node): Link { if n in m then m[n] else Link(None, None) }

  function SetNext(m: Links, n: Node, to: Option<Node>): Links { m[n := Get(m, n).(next := to)] }

  function SetPrev(m: Links, n: Node, to: Option<Node>): Links { m[n := Get(m, n).(prev := to)] }

  /** The static initialisers: each head is its own neighbour. */
  const EMPTY: Links := map[Main := Link(Some(Main), Some(Main)), Closing := Link(Some(Closing), Some(Closing))]

  // ----- what the pointers spell -----

  /** The i-th node round the circle from the head. */
  function NodeAt(head: Node, list: seq<nat>, i: nat): Node
    requires i <= |list| + 1
  {
    if i == 0 || i == |list| + 1 then head else Sock(list[i - 1])
  }

  predicate Joined(m: Links, n: Node, n': Node) { Get(m, n).next == Some(n') && Get(m, n').prev == Some(n) }

  /** From the head, next leads through just these sockets and back; prev leads the other way. */
  predicate Ring(m: Links, head: Node, list: seq<nat>) {
    && !head.Sock? && Distinct(list)
    && forall i, j :: 0 <= i && j == i + 1 <= |list| + 1 ==> Joined(m, NodeAt(head, list, i), NodeAt(head, list, j))
  }

  /** The two lists spell these sequences, no socket is on both, and one on neither has null pointers. */
  ghost predicate Spells(m: Links, main: seq<nat>, closing: seq<nat>) {
    && Ring(m, Main, main) && Ring(m, Closing, closing)
    && (forall a :: a in main ==> a !in closing)
    && (forall a :: a !in main && a !in closing ==> Get(m, Sock(a)) == Link(None, None))
  }

  lemma EmptySpells()
    ensures Spells(EMPTY, [], [])
  {
  }

  lemma {:induction false} SameNodes(m: Links, head: Node, list: seq<nat>, list': seq<nat>, i: nat)
    requires Ring(m, head, list) && Ring(m, head, list') && i <= |list| + 1 && i <= |list'| + 1
    ensures NodeAt(head, list, i) == NodeAt(head, list', i)
  {
    if i > 0 {
      SameNodes(m, head, list, list', i - 1);
      assert Joined(m, NodeAt(head, list, i - 1), NodeAt(head, list, i));
      assert Joined(m, NodeAt(head, list', i - 1), NodeAt(head, list', i));
    }
  }

  /** Pointers spell at most one sequence. */
  lemma {:induction false} RingUnique(m: Links, head: Node, list: seq<nat>, list': seq<nat>)
    requires Ring(m, head, list) && Ring(m, head, list')
    ensures list == list'
  {
    SameNodes(m, head, list, list', Min(|list|, |list'|) + 1);
    forall k | 0 <= k < |list| && k < |list'| ensures list[k] == list'[k] {
      SameNodes(m, head, list, list', k + 1);
    }
  }

  /** The neighbours of the k-th socket. */
  lemma {:induction false} Neighbours(m: Links, head: Node, list: seq<nat>, k: nat)
    requires Ring(m, head, list) && k < |list|
    ensures Get(m, Sock(list[k])) == Link(Some(NodeAt(head, list, k)), Some(NodeAt(head, list, k + 2)))
  {
    assert NodeAt(head, list, k + 1) == Sock(list[k]);
    assert Joined(m, NodeAt(head, list, k), NodeAt(head, list, k + 1));
    assert Joined(m, NodeAt(head, list, k + 1), NodeAt(head, list, k + 2));
  }

  /** The guard of remove_socket, `s->prev && s->next`, says whether the socket is on a list. */
  lemma {:induction false} OnAListIff(m: Links, main: seq<nat>, closing: seq<nat>, a: nat)
    requires Spells(m, main, closing)
    ensures Get(m, Sock(a)).prev.Some? && Get(m, Sock(a)).next.Some? <==> a in main || a in closing
  {
    if a in main {
      var k :| 0 <= k < |main| && main[k] == a;
      Neighbours(m, Main, main, k);
    } else if a in closing {
      var k :| 0 <= k < |closing| && closing[k] == a;
      Neighbours(m, Closing, closing, k);
    }
  }

  /** A change elsewhere leaves a ring alone. */
  lemma {:induction false} RingStays(m: Links, m': Links, head: Node, list: seq<nat>)
    requires Ring(m, head, list) && Get(m', head) == Get(m, head)
    requires forall a :: a in list ==> Get(m', Sock(a)) == Get(m, Sock(a))
    ensures Ring(m', head, list)
  {
    forall i, j | 0 <= i && j == i + 1 <= |list| + 1 ensures Joined(m', NodeAt(head, list, i), NodeAt(head, list, j)) {
      assert Joined(m, NodeAt(head, list, i), NodeAt(head, list, j));
    }
  }

  // ----- insert_local_socket -----

  /** The four assignments of insert_local_socket. */
  function Insert(m: Links, a: nat, head: Node): Links
    requires !head.Sock? && Get(m, head).prev.Some?
  {
    var s := Sock(a);
    var m1 := SetNext(m, s, Some(head));
    var m2 := SetPrev(m1, s, Get(m1, head).prev);
    var m3 := SetNext(m2, Get(m2, s).prev.value, Some(s));
    SetPrev(m3, head, Some(s))
  }

  lemma {:induction false} HeadJoined(m: Links, head: Node, list: seq<nat>)
    requires Ring(m, head, list)
    ensures Get(m, head).prev == Some(NodeAt(head, list, |list|)) && Get(m, head).next == Some(NodeAt(head, list, 1))
  {
    assert Joined(m, NodeAt(head, list, |list|), NodeAt(head, list, |list| + 1));
    assert Joined(m, NodeAt(head, list, 0), NodeAt(head, list, 1));
  }

  /** Which fields an insertion writes. */
  lemma {:induction false} InsertWrites(m: Links, head: Node, list: seq<nat>, a: nat, n: Node)
    requires Ring(m, head, list) && a !in list
    ensures Get(m, head).prev.Some?
    ensures var (m', last) := (Insert(m, a, head), NodeAt(head, list, |list|));
            && Get(m', n).next == (if n == last then Some(Sock(a)) else if n == Sock(a) then Some(head) else Get(m, n).next)
            && Get(m', n).prev == (if n == head then Some(Sock(a)) else if n == Sock(a) then Some(last) else Get(m, n).prev)
  {
    HeadJoined(m, head, list);
  }

  /** Insertion appends. */
  lemma {:induction false} InsertRing(m: Links, head: Node, list: seq<nat>, a: nat)
    requires Ring(m, head, list) && a !in list
    ensures Get(m, head).prev.Some? && Ring(Insert(m, a, head), head, list + [a])
  {
    HeadJoined(m, head, list);
    var m', l := Insert(m, a, head), list + [a];
    hide Insert;
    forall i, j | 0 <= i && j == i + 1 <= |l| + 1 ensures Joined(m', NodeAt(head, l, i), NodeAt(head, l, j)) {
      InsertWrites(m, head, list, a, NodeAt(head, l, i));
      InsertWrites(m, head, list, a, NodeAt(head, l, j));
      if j <= |list| {
        assert NodeAt(head, l, i) == NodeAt(head, list, i) && NodeAt(head, l, j) == NodeAt(head, list, j);
        assert Joined(m, NodeAt(head, list, i), NodeAt(head, list, j));
      }
    }
  }

  // ----- remove_socket -----

  /** remove_socket but for the id: the neighbours are joined and the pointers cleared, if they are set. */
  function Remove(m: Links, a: nat): Links {
    var s := Sock(a);
    if Get(m, s).prev.Some? && Get(m, s).next.Some? then
      var m1 := SetNext(m, Get(m, s).prev.value, Get(m, s).next);
      var m2 := SetPrev(m1, Get(m1, s).next.value, Get(m1, s).prev);
      SetPrev(SetNext(m2, s, None), s, None)
    else m
  }

  /** Which fields a removal writes. */
  lemma {:induction false} RemoveWrites(m: Links, head: Node, list: seq<nat>, k: nat, n: Node)
    requires Ring(m, head, list) && k < |list|
    ensures var (m', s) := (Remove(m, list[k]), Sock(list[k]));
            var (before, after) := (NodeAt(head, list, k), NodeAt(head, list, k + 2));
            && Get(m', n).next == (if n == s then None else if n == before then Some(after) else Get(m, n).next)
            && Get(m', n).prev == (if n == s then None else if n == after then Some(before) else Get(m, n).prev)
  {
    Neighbours(m, head, list, k);
    assert NodeAt(head, list, k) != Sock(list[k]) && NodeAt(head, list, k + 2) != Sock(list[k]);
  }

  /** Removal takes out one socket and closes the gap. */
  lemma {:induction false} RemoveRing(m: Links, head: Node, list: seq<nat>, k: nat)
    requires Ring(m, head, list) && k < |list|
    ensures Ring(Remove(m, list[k]), head, Without(list, list[k]))
  {
    EraseAt(list, k);
    WithoutDistinct(list, list[k]);
    var m', l := Remove(m, list[k]), Without(list, list[k]);
    hide Remove, Without;
    forall i, j | 0 <= i && j == i + 1 <= |l| + 1 ensures Joined(m', NodeAt(head, l, i), NodeAt(head, l, j)) {
      var (i', j') := (if i <= k then i else i + 1, if j <= k then j else j + 1);
      assert NodeAt(head, l, i) == NodeAt(head, list, i') && NodeAt(head, l, j) == NodeAt(head, list, j');
      RemoveWrites(m, head, list, k, NodeAt(head, list, i'));
      RemoveWrites(m, head, list, k, NodeAt(head, list, j'));
      if i != k {
        assert Joined(m, NodeAt(head, list, i'), NodeAt(head, list, j'));
        Apart(head, list, i', k);
        Apart(head, list, j', k + 2);
      }
    }
  }

  /** Round the circle no node comes twice, but for the head where the circle closes. */
  lemma {:induction false} Apart(head: Node, list: seq<nat>, i: nat, k: nat)
    requires Distinct(list) && !head.Sock? && i <= |list| + 1 && k <= |list| + 1
    ensures NodeAt(head, list, i) == NodeAt(head, list, k) <==> i == k || (i == 0 && k == |list| + 1) || (k == 0 && i == |list| + 1)
  {
  }

  // ----- both lists -----

  /** A new socket goes to the end of one list. */
  lemma {:induction false} InsertSpells(m: Links, main: seq<nat>, closing: seq<nat>, a: nat)
    requires Spells(m, main, closing) && a !in main && a !in closing
    ensures Get(m, Main).prev.Some? && Get(m, Closing).prev.Some?
    ensures Spells(Insert(m, a, Main), main + [a], closing)
    ensures Spells(Insert(m, a, Closing), main, closing + [a])
  {
    InsertRing(m, Main, main, a);
    InsertRing(m, Closing, closing, a);
    InsertElsewhere(m, main, Main, closing, Closing, a);
    InsertElsewhere(m, closing, Closing, main, Main, a);
    forall b | b != a && b !in main && b !in closing
      ensures Get(Insert(m, a, Main), Sock(b)) == Link(None, None) && Get(Insert(m, a, Closing), Sock(b)) == Link(None, None)
    {
      InsertWrites(m, Main, main, a, Sock(b));
      InsertWrites(m, Closing, closing, a, Sock(b));
    }
  }

  lemma {:induction false} InsertElsewhere(m: Links, list: seq<nat>, head: Node, other: seq<nat>, head': Node, a: nat)
    requires Ring(m, head, list) && Ring(m, head', other) && head != head' && a !in list && a !in other
    requires forall b :: b in list ==> b !in other
    ensures Get(m, head).prev.Some? && Ring(Insert(m, a, head), head', other)
  {
    InsertWrites(m, head, list, a, head');
    hide Insert, Ring;
    forall b | b in other ensures Get(Insert(m, a, head), Sock(b)) == Get(m, Sock(b)) {
      InsertWrites(m, head, list, a, Sock(b));
    }
    RingStays(m, Insert(m, a, head), head', other);
  }

  lemma {:induction false} RemoveOne(m: Links, list: seq<nat>, head: Node, other: seq<nat>, head': Node, a: nat)
    requires Ring(m, head, list) && Ring(m, head', other) && head != head' && a in list
    requires forall b :: b in list ==> b !in other
    ensures var m' := Remove(m, a);
            && Ring(m', head, Without(list, a)) && Ring(m', head', Without(other, a))
            && Get(m', Sock(a)) == Link(None, None)
            && forall b :: b !in list ==> Get(m', Sock(b)) == Get(m, Sock(b))
  {
    var k :| 0 <= k < |list| && list[k] == a;
    RemoveRing(m, head, list, k);
    NotThere(other, a);
    RemoveWrites(m, head, list, k, head');
    RemoveWrites(m, head, list, k, Sock(a));
    hide Remove, Ring;
    forall b | b !in list ensures Get(Remove(m, a), Sock(b)) == Get(m, Sock(b)) {
      RemoveWrites(m, head, list, k, Sock(b));
    }
    RingStays(m, Remove(m, a), head', other);
  }

  /** remove_socket takes a socket off whichever list it is on, and does nothing to one on neither. */
  lemma {:induction false} RemoveSpells(m: Links, main: seq<nat>, closing: seq<nat>, a: nat)
    requires Spells(m, main, closing)
    ensures Spells(Remove(m, a), Without(main, a), Without(closing, a))
  {
    hide Ring;
    if a in main {
      RemoveOne(m, main, Main, closing, Closing, a);
    } else if a in closing {
      RemoveOne(m, closing, Closing, main, Main, a);
    } else {
      NotThere(main, a);
      NotThere(closing, a);
    }
  }
}
