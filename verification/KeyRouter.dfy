/** Rendezvous routing: a key goes to the node of highest weight, so a membership change moves as few keys as it can. */
module KeyRouter {
  import opened Bits
  import opened Collections
  import opened Wrappers

  const U64 := 0x1_0000_0000_0000_0000
  const P33 := 0x2_0000_0000

  type Word = x: nat | x < U64

  // ----- The mixing function -----

  /** x ^ (x >> 33). */
  function Fold(x: Word): (y: Word) {
    Powers();
    XorBound(x, x / P33, 64);
    Xor(x, x / P33)
  }

  /** The high 31 bits stay, and are added into the low 33. */
  lemma {:induction false} FoldSplits(x: Word)
    ensures Fold(x) == x / P33 * P33 + Xor(x % P33, x / P33) && Xor(x % P33, x / P33) < P33
  {
    hide Xor;
    Powers();
    XorBound(x % P33, x / P33, 33);
    XorHigh(x / P33, 33, x % P33, x / P33);
  }

  /** Folding twice undoes it, since the bits folded in are the ones that stay. */
  lemma {:induction false} FoldFold(x: Word)
    ensures Fold(Fold(x)) == x
  {
    FoldSplits(x);
    FoldSplits(Fold(x));
    hide Fold, Xor;
    assert Fold(x) / P33 == x / P33 && Fold(x) % P33 == Xor(x % P33, x / P33);
    XorCancels(x % P33, x / P33);
  }

  function WrappingMul(x: Word, c: Word): Word {
    x * c % U64
  }

  lemma {:induction false} MulUndone(x: Word, c: Word, d: Word)
    requires c * d % U64 == 1
    ensures WrappingMul(WrappingMul(x, c), d) == x
  {
    var q, t := x * c / U64, c * d / U64;
    var y := WrappingMul(x, c);
    assert y == x * c - q * U64;
    assert y * d == x * (c * d) - q * d * U64;
    assert x * (c * d) == x * (t * U64 + 1) == x * t * U64 + x;
    assert y * d == (x * t - q * d) * U64 + x;
    Remainder(y * d, x * t - q * d, x);
  }

  lemma {:induction false} Remainder(n: nat, q: int, x: Word)
    requires n == q * U64 + x
    ensures n % U64 == x
  {
  }

  const C1: Word := 0xff51_afd7_ed55_8ccd
  const C2: Word := 0xc4ce_b9fe_1a85_ec53
  /** Their inverses modulo 2^64. */
  const D1: Word := 0x4f74430c22a54005
  const D2: Word := 0x9cb4b2f8129337db

  function Mix64(x: Word): Word {
    Fold(WrappingMul(Fold(WrappingMul(Fold(x), C1)), C2))
  }

  function Unmix64(x: Word): Word {
    Fold(WrappingMul(Fold(WrappingMul(Fold(x), D2)), D1))
  }

  /** Mix64 is a bijection on 64-bit words: here is its inverse, on both sides. */
  lemma {:induction false} MixBijective(x: Word)
    ensures Unmix64(Mix64(x)) == x && Mix64(Unmix64(x)) == x
  {
    hide Fold, WrappingMul;
    assert C1 * D1 % U64 == 1 && D1 * C1 % U64 == 1;
    assert C2 * D2 % U64 == 1 && D2 * C2 % U64 == 1;
    var a := WrappingMul(Fold(x), C1);
    var b := WrappingMul(Fold(a), C2);
    FoldFold(x);
    FoldFold(a);
    FoldFold(b);
    MulUndone(Fold(x), C1, D1);
    MulUndone(Fold(a), C2, D2);
    var c := WrappingMul(Fold(x), D2);
    var d := WrappingMul(Fold(c), D1);
    FoldFold(c);
    FoldFold(d);
    MulUndone(Fold(x), D2, C2);
    MulUndone(Fold(c), D1, C1);
  }

  function Weight(key: Word, node: Word): Word {
    Powers();
    XorBound(key, Mix64(node), 64);
    Mix64(Xor(key, Mix64(node)))
  }

  /** Distinct nodes never tie. */
  lemma {:induction false} NoTies(key: Word, a: Word, b: Word)
    requires Weight(key, a) == Weight(key, b)
    ensures a == b
  {
    hide Mix64, Unmix64, Xor;
    Powers();
    XorBound(key, Mix64(a), 64);
    XorBound(key, Mix64(b), 64);
    MixBijective(Xor(key, Mix64(a)));
    MixBijective(Xor(key, Mix64(b)));
    XorCommutes(key, Mix64(a));
    XorCommutes(key, Mix64(b));
    XorCancels(Mix64(a), key);
    XorCancels(Mix64(b), key);
    MixBijective(a);
    MixBijective(b);
  }

  /** Distinct keys never weigh the same at one node. */
  lemma {:induction false} KeysDiffer(a: Word, b: Word, node: Word)
    requires Weight(a, node) == Weight(b, node)
    ensures a == b
  {
    hide Mix64, Unmix64, Xor;
    Powers();
    XorBound(a, Mix64(node), 64);
    XorBound(b, Mix64(node), 64);
    MixBijective(Xor(a, Mix64(node)));
    MixBijective(Xor(b, Mix64(node)));
    XorCancels(a, Mix64(node));
    XorCancels(b, Mix64(node));
  }

  /** The key to which a node gives a chosen weight. */
  function KeyOfWeight(node: Word, weight: Word): Word {
    Powers();
    XorBound(Unmix64(weight), Mix64(node), 64);
    Xor(Unmix64(weight), Mix64(node))
  }

  /** At one node the keys and their weights correspond one to one: every weight is some key's. */
  lemma {:induction false} WeightOnto(node: Word, weight: Word)
    ensures Weight(KeyOfWeight(node, weight), node) == weight
  {
    hide Mix64, Unmix64, Xor;
    XorCancels(Unmix64(weight), Mix64(node));
    MixBijective(weight);
  }

  // ----- Routing -----

  function Members(nodes: seq<Word>): set<Word> {
    set n | n in nodes
  }

  /** Every other node weighs less. */
  ghost predicate Owns(key: Word, nodes: set<Word>, n: Word) {
    n in nodes && forall m <- nodes :: m != n ==> Weight(key, m) < Weight(key, n)
  }

  lemma {:induction false} OwnerUnique(key: Word, nodes: set<Word>, a: Word, b: Word)
    requires Owns(key, nodes, a) && Owns(key, nodes, b)
    ensures a == b
  {
    hide Weight;
  }

  /** The answer for these nodes: the owner, or none when there is no node. */
  ghost predicate Routes(key: Word, nodes: set<Word>, r: Option<Word>) {
    if nodes == {} then r.None? else r.Some? && Owns(key, nodes, r.value)
  }

  /** Strictly falling weights. */
  ghost predicate Ranked(key: Word, nodes: seq<Word>) {
    forall i, j | 0 <= i < j < |nodes| :: Weight(key, nodes[i]) > Weight(key, nodes[j])
  }

  class Router {
    var nodes: seq<Word>

    constructor ()
      ensures nodes == []
    {
      nodes := [];
    }

    method AddNode(id: Word) returns (added: bool)
      requires Distinct(nodes)
      modifies this
      ensures Distinct(nodes) && Members(nodes) == Members(old(nodes)) + {id}
      ensures added <==> id !in old(nodes)
    {
      if id in nodes {
        return false;
      }
      nodes := nodes + [id];
      return true;
    }

    method RemoveNode(id: Word) returns (removed: bool)
      requires Distinct(nodes)
      modifies this
      ensures Distinct(nodes) && Members(nodes) == Members(old(nodes)) - {id}
      ensures removed <==> id in old(nodes)
    {
      for i := 0 to |nodes|
        invariant nodes == old(nodes) && id !in nodes[..i]
      {
        if nodes[i] == id {
          RemoveAt(nodes, i);
          nodes := nodes[..i] + nodes[i + 1..];
          return true;
        }
      }
      return false;
    }

    method RouteKeyhash(key: Word) returns (r: Option<Word>)
      ensures Routes(key, Members(nodes), r)
    {
      hide Weight;
      r := None;
      for i := 0 to |nodes|
        invariant Routes(key, Members(nodes[..i]), r)
      {
        ghost var before := r;
        var w := Weight(key, nodes[i]);
        if r.None? || w > Weight(key, r.value) || (w == Weight(key, r.value) && nodes[i] < r.value) {
          r := Some(nodes[i]);
        }
        if before.Some? {
          WeightsDiffer(key, nodes[i], before.value);
        }
        assert Members(nodes[..i + 1]) == Members(nodes[..i]) + {nodes[i]} by {
          assert nodes[..i + 1] == nodes[..i] + [nodes[i]];
        }
      }
      assert nodes[..|nodes|] == nodes;
    }

    method RankKeyhash(key: Word) returns (ranked: seq<Word>)
      requires Distinct(nodes)
      ensures Ranked(key, ranked) && multiset(ranked) == multiset(nodes)
    {
      SortRanks(key, nodes);
      ranked := SortByWeight(key, nodes);
    }
  }

  lemma {:induction false} RemoveAt(nodes: seq<Word>, i: nat)
    requires Distinct(nodes) && i < |nodes|
    ensures var rest := nodes[..i] + nodes[i + 1..];
            Distinct(rest) && Members(rest) == Members(nodes) - {nodes[i]}
  {
    var rest := nodes[..i] + nodes[i + 1..];
    forall n <- nodes | n != nodes[i] ensures n in rest {
      var j :| 0 <= j < |nodes| && nodes[j] == n;
      assert rest[if j < i then j else j - 1] == n;
    }
  }

  /** The place of a node in a ranking. */
  function Insert(key: Word, ranked: seq<Word>, n: Word): seq<Word> {
    if ranked == [] then [n]
    else if Weight(key, n) > Weight(key, ranked[0]) || (Weight(key, n) == Weight(key, ranked[0]) && n < ranked[0]) then
      [n] + ranked
    else [ranked[0]] + Insert(key, ranked[1..], n)
  }

  /** The sort of the ranking: heaviest first, ties by id. */
  function SortByWeight(key: Word, nodes: seq<Word>): seq<Word> {
    if nodes == [] then [] else Insert(key, SortByWeight(key, nodes[1..]), nodes[0])
  }

  lemma {:induction false} InsertRanks(key: Word, ranked: seq<Word>, n: Word)
    requires Ranked(key, ranked) && n !in ranked
    ensures Ranked(key, Insert(key, ranked, n))
    ensures multiset(Insert(key, ranked, n)) == multiset(ranked) + multiset{n}
  {
    hide Weight;
    if ranked != [] {
      var head, tail := ranked[0], ranked[1..];
      assert ranked == [head] + tail;
      WeightsDiffer(key, n, head);
      if Weight(key, n) < Weight(key, head) {
        InsertRanks(key, tail, n);
        var inserted := Insert(key, tail, n);
        hide Insert;
        assert Insert(key, ranked, n) == [head] + inserted by { InsertAfter(key, ranked, n); }
        forall m <- inserted ensures Weight(key, head) > Weight(key, m) {
          assert m in multiset(inserted);
          assert m == n || m in tail;
        }
        RankedCons(key, head, inserted);
      } else {
        RankedCons(key, n, ranked);
      }
    }
  }

  lemma {:induction false} InsertAfter(key: Word, ranked: seq<Word>, n: Word)
    requires ranked != [] && Weight(key, n) < Weight(key, ranked[0])
    ensures Insert(key, ranked, n) == [ranked[0]] + Insert(key, ranked[1..], n)
  {
    hide Weight;
  }

  lemma {:induction false} RankedCons(key: Word, head: Word, tail: seq<Word>)
    requires Ranked(key, tail) && forall m <- tail :: Weight(key, head) > Weight(key, m)
    ensures Ranked(key, [head] + tail) && multiset([head] + tail) == multiset{head} + multiset(tail)
  {
    hide Weight;
  }

  lemma {:induction false} WeightsDiffer(key: Word, a: Word, b: Word)
    ensures a != b ==> Weight(key, a) != Weight(key, b)
  {
    hide Weight;
    if Weight(key, a) == Weight(key, b) {
      NoTies(key, a, b);
    }
  }

  /** No node is idle: each owns a key, the one to which it gives the largest weight there is. */
  lemma {:induction false} EveryNodeOwns(nodes: set<Word>, n: Word)
    requires n in nodes
    ensures Owns(KeyOfWeight(n, U64 - 1), nodes, n)
  {
    hide Weight, KeyOfWeight;
    var key := KeyOfWeight(n, U64 - 1);
    WeightOnto(n, U64 - 1);
    forall m <- nodes | m != n ensures Weight(key, m) < Weight(key, n) {
      WeightsDiffer(key, m, n);
    }
  }

  /** A ranking is the nodes, heaviest first. */
  lemma {:induction false} SortRanks(key: Word, nodes: seq<Word>)
    requires Distinct(nodes)
    ensures Ranked(key, SortByWeight(key, nodes)) && multiset(SortByWeight(key, nodes)) == multiset(nodes)
  {
    hide Weight, Insert;
    if nodes != [] {
      var sorted := SortByWeight(key, nodes[1..]);
      SortRanks(key, nodes[1..]);
      assert nodes == [nodes[0]] + nodes[1..];
      assert nodes[0] !in sorted by {
        assert nodes[0] !in nodes[1..];
        assert nodes[0] !in multiset(sorted);
      }
      InsertRanks(key, sorted, nodes[0]);
    }
  }

  // ----- What a membership change moves -----

  datatype Change = Add(id: Word) | Remove(id: Word)

  ghost function Changed(nodes: set<Word>, changes: seq<Change>): set<Word> {
    if changes == [] then nodes
    else
      var before := Changed(nodes, changes[..|changes| - 1]);
      match changes[|changes| - 1]
      case Add(id) => before + {id}
      case Remove(id) => before - {id}
  }

  /** Adds and removes, in whatever order they come: the routes are those of the node set they leave. */
  method Replay(changes: seq<Change>) returns (router: Router)
    ensures fresh(router) && Distinct(router.nodes) && Members(router.nodes) == Changed({}, changes)
  {
    router := new Router();
    for i := 0 to |changes|
      invariant fresh(router) && Distinct(router.nodes) && Members(router.nodes) == Changed({}, changes[..i])
    {
      assert changes[..i + 1][..i] == changes[..i];
      match changes[i]
      case Add(id) => var _ := router.AddNode(id);
      case Remove(id) => var _ := router.RemoveNode(id);
    }
    assert changes[..|changes|] == changes;
  }

  /** Routing depends on the node set alone. */
  lemma {:induction false} RouteUnique(key: Word, nodes: set<Word>, a: Option<Word>, b: Option<Word>)
    requires Routes(key, nodes, a) && Routes(key, nodes, b)
    ensures a == b
  {
    hide Weight;
    if nodes != {} {
      OwnerUnique(key, nodes, a.value, b.value);
    }
  }

  /** Adding a node moves a key only to the new node. */
  lemma {:induction false} AddMovesToNew(key: Word, nodes: set<Word>, id: Word, before: Option<Word>,
                                         after: Option<Word>)
    requires Routes(key, nodes, before) && Routes(key, nodes + {id}, after)
    ensures after == before || after == Some(id)
  {
    hide Weight;
    if after.value != id {
      assert Owns(key, nodes, after.value);
      OwnerUnique(key, nodes, before.value, after.value);
    }
  }

  /** Removing a node moves only the keys it owned. */
  lemma {:induction false} RemoveMovesOwned(key: Word, nodes: set<Word>, id: Word, before: Option<Word>,
                                            after: Option<Word>)
    requires Routes(key, nodes, before) && Routes(key, nodes - {id}, after) && before != Some(id)
    ensures after == before
  {
    hide Weight;
    if nodes != {} {
      assert Owns(key, nodes - {id}, before.value);
      OwnerUnique(key, nodes - {id}, before.value, after.value);
    }
  }

  lemma {:induction false} RankedMembers(ranked: seq<Word>, nodes: set<Word>)
    requires multiset(ranked) == multiset(nodes)
    ensures forall n :: n in ranked <==> n in nodes
  {
    forall n ensures n in ranked <==> n in nodes {
      assert n in ranked <==> n in multiset(ranked);
    }
  }

  /** The first of the ranking is the owner, and when it leaves, each of its keys goes to the second. */
  lemma {:induction false} RemoveMovesToSecond(key: Word, nodes: set<Word>, ranked: seq<Word>, before: Option<Word>,
                                               after: Option<Word>)
    requires Ranked(key, ranked) && multiset(ranked) == multiset(nodes) && Routes(key, nodes, before) && before.Some?
    requires Routes(key, nodes - {before.value}, after)
    ensures |ranked| >= 1 && ranked[0] == before.value
    ensures after == if |ranked| >= 2 then Some(ranked[1]) else None
  {
    hide Weight;
    RankedMembers(ranked, nodes);
    assert before.value in ranked;
    assert Owns(key, nodes, ranked[0]) by {
      forall m <- nodes | m != ranked[0] ensures Weight(key, m) < Weight(key, ranked[0]) {
        var i :| 0 <= i < |ranked| && ranked[i] == m;
      }
    }
    OwnerUnique(key, nodes, ranked[0], before.value);
    var rest := nodes - {before.value};
    if |ranked| >= 2 {
      assert ranked[1] != ranked[0];
      assert Owns(key, rest, ranked[1]) by {
        forall m <- rest | m != ranked[1] ensures Weight(key, m) < Weight(key, ranked[1]) {
          var i :| 0 <= i < |ranked| && ranked[i] == m;
        }
      }
      OwnerUnique(key, rest, ranked[1], after.value);
    } else {
      assert forall n <- nodes :: n in ranked;
    }
  }
}
