/** The control-flow graph under construction (`ir.rs`) and the function that
    owns it: blocks are added, written to, sealed and filled, each once. */
module Ir {
  import opened ControlFlow
  import opened Wasm

  /** `sealed` stands for a known block type: no further predecessors come. */
  datatype BasicBlock = BasicBlock(sealed: bool, ins: seq<nat>, instructions: seq<Instr>, out: Out)

  const NEW_BLOCK := BasicBlock(false, [], [], NoOut)

  predicate HasEdge(blocks: seq<BasicBlock>, b: nat, n: nat) {
    b < |blocks| && n in Successors(blocks[b].out)
  }

  /** The predecessor lists hold exactly the edges of the filled blocks. */
  ghost predicate InsExact(blocks: seq<BasicBlock>) {
    forall n: nat, b: nat :: n < |blocks| ==> (b in blocks[n].ins <==> HasEdge(blocks, b, n))
  }

  ghost predicate SuccInRange(blocks: seq<BasicBlock>) {
    forall b: nat, w: nat :: HasEdge(blocks, b, w) ==> w < |blocks|
  }

  /** The exits of all blocks: what the stackifier reads. */
  function Exits(blocks: seq<BasicBlock>): (g: Graph)
    ensures |g| == |blocks| && forall b :: 0 <= b < |blocks| ==> g[b] == blocks[b].out
  {
    seq(|blocks|, b requires 0 <= b < |blocks| => blocks[b].out)
  }

  class ControlFlowGraph {
    var blocks: seq<BasicBlock>
    var resumes: seq<nat>

    ghost predicate Valid()
      reads this
    {
      InsExact(blocks) && SuccInRange(blocks)
    }

    constructor ()
      ensures Valid() && blocks == [] && resumes == []
    {
      blocks, resumes := [], [];
    }

    method AddBlock() returns (id: nat)
      requires Valid()
      modifies `blocks
      ensures Valid() && id == old(|blocks|) && blocks == old(blocks) + [NEW_BLOCK]
    {
      id := |blocks|;
      blocks := blocks + [NEW_BLOCK];
      assert forall b: nat, n: nat :: HasEdge(blocks, b, n) <==> HasEdge(old(blocks), b, n);
    }

    /** Append instructions to a block that is not filled yet. */
    method Write(bb: nat, code: seq<Instr>)
      requires Valid() && bb < |blocks| && blocks[bb].out.NoOut?
      modifies `blocks
      ensures Valid()
      ensures blocks == old(blocks)[bb := old(blocks[bb]).(instructions := old(blocks[bb]).instructions + code)]
    {
      blocks := blocks[bb := blocks[bb].(instructions := blocks[bb].instructions + code)];
      assert forall b: nat, n: nat :: HasEdge(blocks, b, n) <==> HasEdge(old(blocks), b, n);
    }

    method Seal(bb: nat)
      requires Valid() && bb < |blocks| && !blocks[bb].sealed
      modifies `blocks
      ensures Valid() && blocks == old(blocks)[bb := old(blocks[bb]).(sealed := true)]
    {
      blocks := blocks[bb := blocks[bb].(sealed := true)];
      assert forall b: nat, n: nat :: HasEdge(blocks, b, n) <==> HasEdge(old(blocks), b, n);
    }

    /** Finish a block: its successors must not be sealed. */
    method Fill(bb: nat, out: Out)
      requires Valid() && bb < |blocks| && blocks[bb].out.NoOut? && !out.NoOut?
      requires forall w :: w in Successors(out) ==> w < |blocks| && !blocks[w].sealed
      modifies `blocks
      ensures Valid() && |blocks| == old(|blocks|) && blocks[bb].out == out
      ensures forall n :: 0 <= n < |blocks| ==>
                && blocks[n].sealed == old(blocks[n]).sealed
                && blocks[n].instructions == old(blocks[n]).instructions
                && (n != bb ==> blocks[n].out == old(blocks[n]).out)
                && (n !in Successors(out) ==> blocks[n].ins == old(blocks[n]).ins)
    {
      ghost var blocks0 := blocks;
      var successors := Successors(out);
      for i := 0 to |successors|
        invariant successors == Successors(out)
        invariant |blocks| == |blocks0|
        invariant forall n :: 0 <= n < |blocks| ==> blocks[n] == blocks0[n].(ins := blocks[n].ins)
        invariant forall n: nat, b: nat :: n < |blocks| ==>
                    (b in blocks[n].ins <==> b in blocks0[n].ins || (b == bb && n in successors[..i]))
        invariant forall n :: 0 <= n < |blocks| && n !in successors[..i] ==> blocks[n].ins == blocks0[n].ins
      {
        var next := successors[i];
        assert next in Successors(out);
        blocks := blocks[next := blocks[next].(ins := blocks[next].ins + [bb])];
        assert successors[..i + 1] == successors[..i] + [next];
      }
      assert successors[..|successors|] == successors;
      blocks := blocks[bb := blocks[bb].(out := out)];
      assert forall b: nat, n: nat ::
          HasEdge(blocks, b, n) <==> HasEdge(blocks0, b, n) || (b == bb && n in Successors(out));
    }
  }

  /** A graph built by the protocol and complete is one the stackifier accepts. */
  lemma DoneIsComplete(blocks: seq<BasicBlock>)
    requires SuccInRange(blocks) && forall b :: 0 <= b < |blocks| ==> !blocks[b].out.NoOut?
    ensures Complete(Exits(blocks))
  {
    var g := Exits(blocks);
    forall b: nat, w: nat | b < |g| && w in Succ(g, b)
      ensures w < |g|
    {
      assert HasEdge(blocks, b, w);
    }
  }
}
