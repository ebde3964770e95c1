/** Block references and small helpers shared by the proof-history modules. */
module Blocks {

  datatype Option<+T> = None | Some(value: T)

  const U64_MAX: nat := 0xFFFF_FFFF_FFFF_FFFF

  function Min(a: nat, b: nat): nat {
    if a < b then a else b
  }

  function Max(a: nat, b: nat): nat {
    if a < b then b else a
  }

  /** A 256-bit hash; only equality of hashes matters to the models. */
  type Hash = nat

  /** A block number and hash together with the hash of the parent block. */
  datatype Block = Block(number: nat, hash: Hash, parent: Hash)

  /** `b` is the block the chain holds at `b`'s height. */
  predicate OnChain(chain: seq<Block>, b: Block) {
    b.number < |chain| && chain[b.number] == b
  }

  /** The block just below `b` is on the chain and is the parent `b` names. */
  predicate Anchored(chain: seq<Block>, b: Block) {
    1 <= b.number <= |chain| && chain[b.number - 1].hash == b.parent
  }

  /** Consecutive numbers from `first` on. */
  predicate Numbered(blocks: seq<Block>, first: nat) {
    forall i | 0 <= i < |blocks| :: blocks[i].number == first + i
  }

  /** Every block names the one before it, and the first one names `parent`. */
  predicate LinksTo(parent: Hash, blocks: seq<Block>) {
    && (|blocks| > 0 ==> blocks[0].parent == parent)
    && forall i | 0 < i < |blocks| :: blocks[i].parent == blocks[i - 1].hash
  }

  /** A canonical chain: it starts at block zero, is contiguous and hash-linked. */
  predicate ValidChain(chain: seq<Block>) {
    && |chain| > 0
    && Numbered(chain, 0)
    && LinksTo(chain[0].parent, chain)
  }

  lemma LeastExists(keys: set<nat>)
    requires keys != {}
    ensures exists k :: k in keys && forall j | j in keys :: k <= j
  {
    var k := Least(keys);
  }

  lemma {:induction false} Least(keys: set<nat>) returns (k: nat)
    requires keys != {}
    ensures k in keys && forall j | j in keys :: k <= j
  {
    var x: nat :| x in keys;
    k := x;
    var rest := keys - {x};
    assert forall j | j in keys :: j == x || j in rest;
    if rest != {} {
      k := Least(rest);
      k := if x < k then x else k;
    }
  }
}
