/**
 Verified chunk resume: a payload is cut into chunks, each an index-bound leaf of a Merkle tree, and a
 receiver holding only the root accepts the chunks in any order from anyone.
 */
module ChunkResume {
  import opened Wrappers
  import opened Bytes
  import opened Merkle

  /** The bytes of "dr:bao:chunk:v1". */
  const CHUNK_LEAF_CTX: bytes := [100, 114, 58, 98, 97, 111, 58, 99, 104, 117, 110, 107, 58, 118, 49]

  datatype ChunkPiece = ChunkPiece(index: nat, data: bytes, proof: InclusionProof)

  datatype Committed = Committed(root: Digest, total: nat, pieces: seq<ChunkPiece>)

  datatype BaoError = ChunkOutOfRange | ProofIndexMismatch | Unauthenticated | Incomplete

  function LeafInput(index: nat, total: nat, data: bytes): bytes {
    CHUNK_LEAF_CTX + ToLe(index, 8) + ToLe(total, 8) + data
  }

  function ChunkLeaf(h: Hash, index: nat, total: nat, data: bytes): Digest {
    h(LeafInput(index, total, data))
  }

  /** A leaf binds its chunk to its index and to the number of chunks. */
  lemma {:induction false} LeafInputInjective(i: nat, j: nat, m: nat, n: nat, a: bytes, b: bytes)
    requires i < Pow256(8) && j < Pow256(8) && m < Pow256(8) && n < Pow256(8)
    requires LeafInput(i, m, a) == LeafInput(j, n, b)
    ensures i == j && m == n && a == b
  {
    hide ToLe, FromLe, Pow256;
    var x, y := LeafInput(i, m, a), LeafInput(j, n, b);
    assert x[15..23] == ToLe(i, 8) && x[23..31] == ToLe(m, 8) && x[31..] == a;
    assert y[15..23] == ToLe(j, 8) && y[23..31] == ToLe(n, 8) && y[31..] == b;
    LeRoundTrip(i, 8);
    LeRoundTrip(j, 8);
    LeRoundTrip(m, 8);
    LeRoundTrip(n, 8);
  }

  lemma {:induction false} LeafInputIsNoNode(i: nat, total: nat, data: bytes, l: Digest, r: Digest)
    ensures LeafInput(i, total, data) != NodeInput(l, r)
  {
    hide ToLe;
    assert LeafInput(i, total, data)[0] == 100;
    assert NodeInput(l, r)[0] == 1;
  }

  // ----- Splitting -----

  /** Consecutive runs of `size` bytes, the last possibly shorter. */
  function Runs(data: bytes, size: nat): (c: seq<bytes>)
    requires size >= 1
    decreases |data|
  {
    if data == [] then []
    else if |data| <= size then [data]
    else [data[..size]] + Runs(data[size..], size)
  }

  /** The chunks of a payload; an empty payload is one empty chunk. */
  function Chunks(data: bytes, chunkSize: nat): (c: seq<bytes>)
    ensures |c| >= 1
  {
    var runs := Runs(data, if chunkSize < 1 then 1 else chunkSize);
    if runs == [] then [data] else runs
  }

  function Concat(parts: seq<bytes>): bytes {
    if parts == [] then [] else parts[0] + Concat(parts[1..])
  }

  lemma {:induction false} RunsConcat(data: bytes, size: nat)
    requires size >= 1
    ensures Concat(Runs(data, size)) == data
    decreases |data|
  {
    if |data| > size {
      RunsConcat(data[size..], size);
      assert Runs(data, size)[1..] == Runs(data[size..], size);
    }
  }

  /** Full runs, and a last one that is neither empty nor too long. */
  ghost predicate Sized(chunks: seq<bytes>, size: nat) {
    && (forall i | 0 <= i < |chunks| - 1 :: |chunks[i]| == size)
    && (chunks != [] ==> 1 <= |chunks[|chunks| - 1]| <= size)
  }

  lemma {:induction false} RunsSized(data: bytes, size: nat)
    requires size >= 1
    ensures Sized(Runs(data, size), size)
    decreases |data|
  {
    if |data| > size {
      RunsSized(data[size..], size);
    }
  }

  /** One empty chunk for an empty payload; else full chunks of the size asked for, and a last one with the rest. */
  lemma {:induction false} ChunksSized(data: bytes, chunkSize: nat)
    ensures var chunks, size := Chunks(data, chunkSize), if chunkSize < 1 then 1 else chunkSize;
      if data == [] then chunks == [[]] else Sized(chunks, size)
  {
    RunsSized(data, if chunkSize < 1 then 1 else chunkSize);
  }

  lemma {:induction false} ChunksConcat(data: bytes, chunkSize: nat)
    ensures Concat(Chunks(data, chunkSize)) == data
  {
    RunsConcat(data, if chunkSize < 1 then 1 else chunkSize);
  }

  function Leaves(h: Hash, chunks: seq<bytes>): (l: seq<Digest>)
    ensures |l| == |chunks|
  {
    seq(|chunks|, i requires 0 <= i < |chunks| => ChunkLeaf(h, i, |chunks|, chunks[i]))
  }

  function Root(h: Hash, chunks: seq<bytes>): Digest {
    MerkleRoot(h, Leaves(h, chunks))
  }

  function Piece(h: Hash, chunks: seq<bytes>, i: nat): ChunkPiece
    requires i < |chunks|
  {
    ChunkPiece(i, chunks[i], InclusionProof(i, |chunks|, ProofPath(h, Leaves(h, chunks), i)))
  }

  method SplitAndCommit(h: Hash, data: bytes, chunkSize: nat) returns (c: Committed)
    ensures var chunks := Chunks(data, chunkSize);
      && c.total == |chunks| && c.root == Root(h, chunks) && |c.pieces| == |chunks|
      && forall i :: 0 <= i < |chunks| ==> c.pieces[i] == Piece(h, chunks, i)
    ensures data == [] ==> |c.pieces| == 1 && c.pieces[0].data == []
    ensures var size := if chunkSize < 1 then 1 else chunkSize;
      data != [] ==>
        && (forall i | 0 <= i < |c.pieces| - 1 :: |c.pieces[i].data| == size)
        && |c.pieces| >= 1 && 1 <= |c.pieces[|c.pieces| - 1].data| <= size
  {
    hide ProofPath, MerkleRoot, Runs, ChunkLeaf;
    ChunksSized(data, chunkSize);
    var chunks := Chunks(data, chunkSize);
    var total := |chunks|;
    var leaves: seq<Digest> := [];
    for i := 0 to total
      invariant |leaves| == i
      invariant forall j :: 0 <= j < i ==> leaves[j] == ChunkLeaf(h, j, total, chunks[j])
    {
      leaves := leaves + [ChunkLeaf(h, i, total, chunks[i])];
    }
    assert leaves == Leaves(h, chunks);
    var root := ComputeRoot(h, leaves);
    var pieces: seq<ChunkPiece> := [];
    for i := 0 to total
      invariant |pieces| == i
      invariant forall j :: 0 <= j < i ==> pieces[j] == Piece(h, chunks, j)
    {
      var proof := BuildProof(h, leaves, i);
      pieces := pieces + [ChunkPiece(i, chunks[i], proof.value)];
    }
    return Committed(root, total, pieces);
  }

  // ----- The receiver -----

  type Slots = seq<Option<bytes>>

  /** The verdict on one offered piece: the first check that fails, or none. */
  function Verdict(h: Hash, root: Digest, total: nat, piece: ChunkPiece): Option<BaoError> {
    if piece.index >= total then Some(ChunkOutOfRange)
    else if piece.proof.index != piece.index then Some(ProofIndexMismatch)
    else if !VerifyInclusion(h, ChunkLeaf(h, piece.index, total, piece.data), piece.proof, root) then
      Some(Unauthenticated)
    else None
  }

  /** The slots after one offered piece. */
  function Accepted(h: Hash, root: Digest, slots: Slots, piece: ChunkPiece): (s: Slots)
    ensures |s| == |slots|
  {
    if Verdict(h, root, |slots|, piece).None? then slots[piece.index := Some(piece.data)] else slots
  }

  /** The slots after a whole sequence of offers. */
  function AcceptedAll(h: Hash, root: Digest, slots: Slots, pieces: seq<ChunkPiece>): (s: Slots)
    ensures |s| == |slots|
    decreases |pieces|
  {
    if pieces == [] then slots
    else Accepted(h, root, AcceptedAll(h, root, slots, pieces[..|pieces| - 1]), pieces[|pieces| - 1])
  }

  function Fresh(total: nat): (s: Slots)
    ensures |s| == total
  {
    seq(total, _ => None)
  }

  predicate Complete(slots: Slots) {
    forall i :: 0 <= i < |slots| ==> slots[i].Some?
  }

  function Filled(slots: Slots): seq<bytes> {
    if slots == [] then []
    else if slots[0].Some? then [slots[0].value] + Filled(slots[1..])
    else Filled(slots[1..])
  }

  class ChunkReceiver {
    const root: Digest
    var slots: Slots

    constructor (root: Digest, total: nat)
      ensures this.root == root && slots == Fresh(total)
    {
      this.root := root;
      slots := Fresh(total);
    }

    method Accept(h: Hash, piece: ChunkPiece) returns (r: Result<(), BaoError>)
      modifies this
      ensures slots == Accepted(h, root, old(slots), piece)
      ensures r.Ok? <==> Verdict(h, root, |old(slots)|, piece).None?
      ensures r.Err? ==> Verdict(h, root, |old(slots)|, piece) == Some(r.error)
    {
      hide RootFromPath, ChunkLeaf;
      if piece.index >= |slots| {
        return Err(ChunkOutOfRange);
      }
      if piece.proof.index != piece.index {
        return Err(ProofIndexMismatch);
      }
      var leaf := ChunkLeaf(h, piece.index, |slots|, piece.data);
      if !VerifyInclusion(h, leaf, piece.proof, root) {
        return Err(Unauthenticated);
      }
      slots := slots[piece.index := Some(piece.data)];
      return Ok(());
    }

    /** The resume request: exactly the indices whose slots are empty, ascending. */
    method Missing() returns (m: seq<nat>)
      ensures forall i :: i in m <==> 0 <= i < |slots| && slots[i].None?
      ensures forall a, b :: 0 <= a < b < |m| ==> m[a] < m[b]
    {
      m := [];
      for i := 0 to |slots|
        invariant forall j :: j in m <==> 0 <= j < i && slots[j].None?
        invariant forall a :: 0 <= a < |m| ==> m[a] < i
        invariant forall a, b :: 0 <= a < b < |m| ==> m[a] < m[b]
      {
        if slots[i].None? {
          m := m + [i];
        }
      }
    }

    method Reassemble() returns (r: Result<bytes, BaoError>)
      ensures r == if Complete(slots) then Ok(Concat(Filled(slots))) else Err(Incomplete)
    {
      if !Complete(slots) {
        return Err(Incomplete);
      }
      var out: bytes := [];
      for i := 0 to |slots|
        invariant out + Concat(Filled(slots[i..])) == Concat(Filled(slots))
      {
        assert slots[i..][1..] == slots[i + 1..];
        AppendAssociates(out, slots[i].value, Concat(Filled(slots[i + 1..])));
        out := out + slots[i].value;
      }
      assert out + [] == out;
      return Ok(out);
    }
  }

  // ----- Every stored slot is the true chunk, or the offers exhibit a collision -----

  /** Every input hashed when an honest sender commits to `chunks`. */
  ghost function HonestInputs(h: Hash, chunks: seq<bytes>): set<bytes> {
    (set i | 0 <= i < |chunks| :: LeafInput(i, |chunks|, chunks[i])) + TreeInputs(h, Leaves(h, chunks))
  }

  /** Every input the receiver hashes when it examines an offer. */
  ghost function OfferInputs(h: Hash, total: nat, piece: ChunkPiece): set<bytes> {
    {LeafInput(piece.index, total, piece.data)}
      + PathInputs(h, ChunkLeaf(h, piece.index, total, piece.data), piece.proof.path)
  }

  /** Two different inputs with one digest, one hashed by the sender and one by this offer. */
  ghost predicate Collision(h: Hash, chunks: seq<bytes>, total: nat, piece: ChunkPiece, a: bytes, b: bytes) {
    a in HonestInputs(h, chunks) && b in OfferInputs(h, total, piece) && a != b && h(a) == h(b)
  }

  ghost predicate Forges(h: Hash, chunks: seq<bytes>, piece: ChunkPiece) {
    exists a, b :: Collision(h, chunks, |chunks|, piece, a, b)
  }

  lemma {:induction false} TreeInputsAreNodes(h: Hash, leaves: seq<Digest>, a: bytes)
    requires a in TreeInputs(h, leaves)
    ensures exists l: Digest, r: Digest :: a == NodeInput(l, r)
    decreases |leaves|
  {
    hide NodeInput, SplitPoint;
    var k := SplitPoint(|leaves|);
    GrowSplit(|leaves|);
    if a in TreeInputs(h, leaves[..k]) {
      TreeInputsAreNodes(h, leaves[..k], a);
    } else if a in TreeInputs(h, leaves[k..]) {
      TreeInputsAreNodes(h, leaves[k..], a);
    }
  }

  lemma {:induction false} GrowSplit(n: nat)
    requires n >= 2
    ensures 0 < SplitPoint(n) < n
  {
    GrowBounds(1, n);
  }

  lemma {:induction false} PathInputsAreNodes(h: Hash, leaf: Digest, path: seq<ProofStep>, b: bytes)
    requires b in PathInputs(h, leaf, path)
    ensures exists l: Digest, r: Digest :: b == NodeInput(l, r)
    decreases |path|
  {
    hide NodeInput;
    var init, last := path[..|path| - 1], path[|path| - 1];
    if b in PathInputs(h, leaf, init) {
      PathInputsAreNodes(h, leaf, init, b);
    } else {
      assert b == StepInput(RootFromPath(h, leaf, init), last);
    }
  }

  /**
   A receiver that accepts a piece expects the true number of chunks and is given the true chunk at that index, or the
   piece hands over a collision.
   */
  lemma {:induction false} AcceptedIsTrue(h: Hash, chunks: seq<bytes>, total: nat, piece: ChunkPiece)
    returns (a: bytes, b: bytes)
    requires 0 < |chunks| < Pow256(8) && total < Pow256(8)
    requires Verdict(h, Root(h, chunks), total, piece).None?
    ensures (total == |chunks| && piece.data == chunks[piece.index]) || Collision(h, chunks, total, piece, a, b)
  {
    hide TreeInputs, PathInputs, LeafInput, NodeInput, RootFromPath, TreeHash, Pow256;
    var leaves := Leaves(h, chunks);
    var mine := LeafInput(piece.index, total, piece.data);
    var leaf := ChunkLeaf(h, piece.index, total, piece.data);
    RootIsTreeHash(h, leaves);
    var at := FollowPath(h, leaves, leaf, piece.proof.path);
    match at {
      case AtLeaf(i) =>
        a, b := LeafInput(i, |chunks|, chunks[i]), mine;
        if a == b {
          LeafInputInjective(i, piece.index, |chunks|, total, chunks[i], piece.data);
        }
      case AtNode(honest) =>
        a, b := honest, mine;
        TreeInputsAreNodes(h, leaves, honest);
        var l: Digest, r: Digest :| honest == NodeInput(l, r);
        LeafInputIsNoNode(piece.index, total, piece.data, l, r);
      case BelowLeaf(i, offered) =>
        a, b := LeafInput(i, |chunks|, chunks[i]), offered;
        PathInputsAreNodes(h, leaf, piece.proof.path, offered);
        var l: Digest, r: Digest :| offered == NodeInput(l, r);
        LeafInputIsNoNode(i, |chunks|, chunks[i], l, r);
      case Collides(honest, offered) =>
        a, b := honest, offered;
    }
  }

  /** Whatever is offered, in whatever order: a wrong slot means some offer was a forgery. */
  lemma {:induction false} SlotsAreTrue(h: Hash, chunks: seq<bytes>, pieces: seq<ChunkPiece>)
    requires 0 < |chunks| < Pow256(8)
    requires forall p :: p in pieces ==> !Forges(h, chunks, p)
    ensures var slots := AcceptedAll(h, Root(h, chunks), Fresh(|chunks|), pieces);
      forall i :: 0 <= i < |slots| && slots[i].Some? ==> slots[i].value == chunks[i]
    decreases |pieces|
  {
    hide Verdict, Root, Forges, Pow256;
    if pieces != [] {
      var init, last := pieces[..|pieces| - 1], pieces[|pieces| - 1];
      assert forall p :: p in init ==> p in pieces;
      SlotsAreTrue(h, chunks, init);
      if Verdict(h, Root(h, chunks), |chunks|, last).None? {
        AcceptedNotForged(h, chunks, last);
      }
    }
  }

  lemma {:induction false} AcceptedNotForged(h: Hash, chunks: seq<bytes>, piece: ChunkPiece)
    requires 0 < |chunks| < Pow256(8)
    requires Verdict(h, Root(h, chunks), |chunks|, piece).None?
    requires !Forges(h, chunks, piece)
    ensures piece.data == chunks[piece.index]
  {
    var a, b := AcceptedIsTrue(h, chunks, |chunks|, piece);
  }

  lemma {:induction false} FilledComplete(slots: Slots, chunks: seq<bytes>)
    requires |slots| == |chunks| && Complete(slots)
    requires forall i :: 0 <= i < |slots| ==> slots[i].value == chunks[i]
    ensures Filled(slots) == chunks
    decreases |slots|
  {
    if slots != [] {
      FilledComplete(slots[1..], chunks[1..]);
    }
  }

  /** A receiver that has become complete without a forgery reassembles exactly the payload. */
  lemma {:induction false} ReassemblesPayload(h: Hash, data: bytes, chunkSize: nat, pieces: seq<ChunkPiece>)
    requires var chunks := Chunks(data, chunkSize);
      && |chunks| < Pow256(8)
      && (forall p :: p in pieces ==> !Forges(h, chunks, p))
      && Complete(AcceptedAll(h, Root(h, chunks), Fresh(|chunks|), pieces))
    ensures var chunks := Chunks(data, chunkSize);
      Concat(Filled(AcceptedAll(h, Root(h, chunks), Fresh(|chunks|), pieces))) == data
  {
    hide Forges, Root, AcceptedAll, Pow256;
    var chunks := Chunks(data, chunkSize);
    SlotsAreTrue(h, chunks, pieces);
    FilledComplete(AcceptedAll(h, Root(h, chunks), Fresh(|chunks|), pieces), chunks);
    ChunksConcat(data, chunkSize);
  }

  /** The sender's own pieces always pass, whatever is already stored: a resume can finish. */
  lemma {:induction false} HonestPieceAccepted(h: Hash, chunks: seq<bytes>, slots: Slots, i: nat)
    requires |slots| == |chunks| && i < |chunks|
    ensures Accepted(h, Root(h, chunks), slots, Piece(h, chunks, i)) == slots[i := Some(chunks[i])]
  {
    hide RootFromPath, MerkleRoot, ProofPath;
    ProofVerifies(h, Leaves(h, chunks), i);
  }

  /**
   A chunk once offered honestly is stored for good, whatever else is offered before and after: if no offer forges,
   its slot holds that chunk.
   */
  lemma {:induction false} ResumeCompletes(h: Hash, chunks: seq<bytes>, pieces: seq<ChunkPiece>, i: nat)
    requires i < |chunks| < Pow256(8) && Piece(h, chunks, i) in pieces
    requires forall p :: p in pieces ==> !Forges(h, chunks, p)
    ensures AcceptedAll(h, Root(h, chunks), Fresh(|chunks|), pieces)[i] == Some(chunks[i])
  {
    hide Forges, Root, AcceptedAll, Pow256, Piece;
    SlotsAreTrue(h, chunks, pieces);
    StaysFilled(h, chunks, pieces, i);
  }

  /** Slots once filled stay filled, and an honest piece fills its own, forgeries or not. */
  lemma {:induction false} StaysFilled(h: Hash, chunks: seq<bytes>, pieces: seq<ChunkPiece>, i: nat)
    requires i < |chunks| && Piece(h, chunks, i) in pieces
    ensures AcceptedAll(h, Root(h, chunks), Fresh(|chunks|), pieces)[i].Some?
    decreases |pieces|
  {
    hide Piece, Root, Verdict;
    var init, last := pieces[..|pieces| - 1], pieces[|pieces| - 1];
    if Piece(h, chunks, i) in init {
      StaysFilled(h, chunks, init, i);
    } else {
      assert last == Piece(h, chunks, i);
      HonestPieceAccepted(h, chunks, AcceptedAll(h, Root(h, chunks), Fresh(|chunks|), init), i);
    }
  }
}
