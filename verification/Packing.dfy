// How the bits of an entry represent a node: the child bitmap of a bitmap node, and the
// packed symbols of a jump node.
module Packing {
  import opened Keys
  import opened Store
  import opened Order
  import opened Bits
  import opened JumpSplit

  // ------------------------------------------------------------------
  // Child bitmaps
  // ------------------------------------------------------------------

  // Bit x is set exactly if there is a child for symbol x.
  ghost predicate IsBitmapOf(bytes: seq<Byte>, children: set<Symbol>) {
    |bytes| >= 8 && forall x: Symbol :: x in children <==> GetBit(bytes, x)
  }

  // Searching the bits finds what Fingers.BitmapChildBefore finds in the set: its
  // postcondition is the same, and leaves no choice.
  method PackedChildBefore(bytes: seq<Byte>, symbol: nat, ghost children: set<Symbol>) returns (found: bool, y: Symbol)
    requires IsBitmapOf(bytes, children) && symbol <= FANOUT + 1
    ensures found ==> y in children && y < symbol && forall z :: z in children && z < symbol ==> z <= y
    ensures !found ==> NoneBelow(children, symbol)
  {
    var r := LastBitBefore(bytes, symbol);
    if r == -1 {
      return false, SYMBOL_END;
    }
    return true, r;
  }

  method SetChildBit(bytes: array<Byte>, x: Symbol, ghost children: set<Symbol>)
    requires IsBitmapOf(bytes[..], children)
    modifies bytes
    ensures IsBitmapOf(bytes[..], children + {x})
  {
    ghost var before := bytes[..];
    SetBit(bytes, x, true);
    forall z: Symbol
      ensures z in children + {x} <==> GetBit(bytes[..], z)
    {
      GetBitMeaning(before, z);
      GetBitMeaning(bytes[..], z);
    }
  }

  // ------------------------------------------------------------------
  // Jump nodes
  // ------------------------------------------------------------------

  // The packed form of a jump node holds the symbols of the node.
  ghost predicate Packs(packed: JumpNode, node: Node)
    reads packed, packed.jumpBits
  {
    packed.Valid() && node.body.Jump? && packed.JumpSymbols() == node.body.symbols
  }

  // Splitting the packed symbols yields the packed forms of the nodes that replace the
  // jump node, and the symbol of the bitmap's child.
  method SplitPackedNode(head: JumpNode, tail: JumpNode, depth: nat, ghost node: Node, ghost color: nat)
      returns (splitSymbol: Symbol)
    requires Packs(head, node) && 0 < depth && depth + 1 < |node.body.symbols|
    requires tail.Valid() && head.jumpBits.Length >= 12 && head != tail && head.jumpBits != tail.jumpBits
    modifies head`jumpSize, tail, tail.jumpBits
    ensures Packs(head, NewHead(node, depth, color)) && Packs(tail, NewTail(node, depth, color))
    ensures NewBitmap(node, depth).body.children == {splitSymbol}
            && NewTail(node, depth, color).lastSymbol == splitSymbol
    ensures forall k :: PACKED_BYTES <= k < tail.jumpBits.Length ==> tail.jumpBits[k] == old(tail.jumpBits[k])
  {
    splitSymbol := SplitPacked(head, tail, depth);
  }

  // A split at the first symbol leaves no head.
  method SplitPackedFirst(head: JumpNode, tail: JumpNode, ghost node: Node, ghost color: nat)
      returns (splitSymbol: Symbol)
    requires Packs(head, node) && 1 < |node.body.symbols|
    requires tail.Valid() && head.jumpBits.Length >= 12 && head != tail && head.jumpBits != tail.jumpBits
    modifies head`jumpSize, tail, tail.jumpBits
    ensures Packs(tail, NewTail(node, 0, color))
    ensures NewHead(node, 0, color).body.children == {splitSymbol} && NewTail(node, 0, color).lastSymbol == splitSymbol
    ensures forall k :: PACKED_BYTES <= k < tail.jumpBits.Length ==> tail.jumpBits[k] == old(tail.jumpBits[k])
  {
    splitSymbol := SplitPacked(head, tail, 0);
  }

  // A split at the last symbol leaves no tail.
  method SplitPackedLast(head: JumpNode, depth: nat, ghost node: Node, ghost color: nat) returns (splitSymbol: Symbol)
    requires Packs(head, node) && 0 < depth && depth + 1 == |node.body.symbols|
    modifies head`jumpSize
    ensures Packs(head, NewHead(node, depth, color)) && NewBitmap(node, depth).body.children == {splitSymbol}
  {
    splitSymbol := head.JumpSymbols()[depth];
    head.SetJumpSize(depth);
  }
}
