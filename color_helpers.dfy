/** The intensity-value tree of Common.ColorHelpers: a binary tree over colour
    intensities whose nodes create their two children lazily. A node at `level`
    with `value` has ChildA at `value - 2^(7 - level)` and ChildB at
    `value + 2^(7 - level)`, both one level deeper; no node may sit below level 7. */
module ColorHelpers {
  import opened Int32

  /** The deepest level a node may be constructed at. */
  const MaxLevel: int32 := 7

  /** The message the constructor throws with. */
  const NoMoreColours: string := "There are no more colours left"

  datatype IntensityException = IntensityException(message: string)

  /** What `new IntensityValue(...)` gives: a fresh node, or the exception it throws. */
  datatype Creation = Created(node: IntensityValue) | Thrown(error: IntensityException)

  /** `1 << (7 - level)`, the distance from a node's value to either child's.
      C# computes `7 - level` in int32; wrapping changes no low five bits, so the
      masked shift count is `(7 - level) % 32` either way. */
  function Offset(level: int32): int32
  {
    ShiftLeftOne(7 - level as int)
  }

  /** The value ChildA is constructed with: `Value - (1 << (7 - Level))`. */
  function ChildAValue(value: int32, level: int32): int32
  {
    Wrap32(value as int - Offset(level) as int)
  }

  /** The value ChildB is constructed with: `Value + (1 << (7 - Level))`. */
  function ChildBValue(value: int32, level: int32): int32
  {
    Wrap32(value as int + Offset(level) as int)
  }

  /** The level either child is constructed with: `Level + 1`. */
  function ChildLevel(level: int32): int32
  {
    Wrap32(level as int + 1)
  }

  /** From any level the constructor accepts, a child is one level deeper, and
      it is refused exactly when the parent sits at level 7. */
  lemma ChildLevelFits(level: int32)
    requires level <= MaxLevel
    ensures ChildLevel(level) as int == level as int + 1
    ensures ChildLevel(level) > MaxLevel <==> level == MaxLevel
  {
  }

  /** For the levels a constructed node can be at, the offset is a power of two
      between 1 and 128, halving from one level to the next. */
  lemma OffsetRange(level: int32)
    requires 0 <= level <= MaxLevel
    ensures Offset(level) as int == Pow2(7 - level as int)
    ensures 1 <= Offset(level) <= 128
    ensures level < MaxLevel ==> Offset(level) as int == 2 * Offset(level + 1) as int
  {
    assert Pow2(7) == 128;
    if level > 0 {
      Pow2Strict(7 - level as int, 7);
    }
  }

  /** No value anywhere below a node at `level` can wrap around: the node's value
      keeps `2^(8 - level)` away from both ends of the int32 range. */
  ghost predicate HasRoom(value: int32, level: int32)
  {
    0 <= level <= MaxLevel &&
    MinInt32 + Pow2(8 - level as int) <= value as int <= MaxInt32 - Pow2(8 - level as int)
  }

  /** A node's two children straddle it: ChildA below, ChildB above, each
      `2^(7 - level)` away, so the children are `2^(8 - level)` apart. This
      holds whenever neither child's value wraps, that is, whenever the node's
      value keeps `2^(7 - level)` from both ends of the int32 range. */
  lemma ChildrenStraddle(value: int32, level: int32)
    requires 0 <= level <= MaxLevel
    requires MinInt32 + Pow2(7 - level as int) <= value as int <= MaxInt32 - Pow2(7 - level as int)
    ensures ChildAValue(value, level) as int == value as int - Pow2(7 - level as int)
    ensures ChildBValue(value, level) as int == value as int + Pow2(7 - level as int)
    ensures ChildAValue(value, level) < value < ChildBValue(value, level)
    ensures ChildBValue(value, level) as int - ChildAValue(value, level) as int == Pow2(8 - level as int)
    ensures 2 <= ChildBValue(value, level) as int - ChildAValue(value, level) as int <= 256
  {
    OffsetRange(level);
    assert Pow2(8 - level as int) == 2 * Pow2(7 - level as int);
  }

  /** Below level 7, the children of a node with room for its whole subtree are
      one level deeper and have room for theirs. */
  lemma ChildrenHaveRoom(value: int32, level: int32)
    requires HasRoom(value, level) && level < MaxLevel
    ensures ChildLevel(level) == level + 1
    ensures HasRoom(ChildAValue(value, level), level + 1)
    ensures HasRoom(ChildBValue(value, level), level + 1)
  {
    assert Pow2(8 - level as int) == 2 * Pow2(7 - level as int);
    ChildrenStraddle(value, level);
  }

  class IntensityValue {
    /** The cache behind the ChildA getter (`_ChildA`). */
    var childA: IntensityValue?
    /** The cache behind the ChildB getter (`_ChildB`). */
    var childB: IntensityValue?
    var level: int32
    var value: int32
    var parent: IntensityValue?

    /** The constructor's path that does not throw. */
    constructor Init(parent: IntensityValue?, value: int32, level: int32)
      requires level <= MaxLevel
      ensures this.parent == parent && this.value == value && this.level == level
      ensures childA == null && childB == null
    {
      this.value := value;
      this.parent := parent;
      this.level := level;
      childA := null;
      childB := null;
    }

    /** `new IntensityValue(parent, value, level)`: throws for a level deeper than
        7 and creates nothing; otherwise a fresh node holding exactly its arguments. */
    static method Construct(parent: IntensityValue?, value: int32, level: int32) returns (r: Creation)
      ensures r.Thrown? <==> level > MaxLevel
      ensures r.Thrown? ==> r.error == IntensityException(NoMoreColours)
      ensures r.Created? ==>
                fresh(r.node) && r.node.parent == parent && r.node.value == value &&
                r.node.level == level && r.node.childA == null && r.node.childB == null
    {
      if level > MaxLevel {
        return Thrown(IntensityException(NoMoreColours));
      }
      var node := new IntensityValue.Init(parent, value, level);
      r := Created(node);
    }

    /** The ChildA getter: returns the cached child if there is one; otherwise
        constructs it and caches it, unless construction throws, in which case
        the cache stays empty. Nothing but the ChildA cache changes. */
    method GetChildA() returns (r: Creation)
      modifies this`childA
      ensures old(childA) != null ==> r == Created(old(childA)) && childA == old(childA)
      ensures old(childA) == null ==> (r.Thrown? <==> ChildLevel(level) > MaxLevel)
      ensures old(childA) == null && r.Thrown? ==>
                childA == null && r.error == IntensityException(NoMoreColours)
      ensures old(childA) == null && r.Created? ==>
                fresh(r.node) && childA == r.node && r.node.parent == this &&
                r.node.value == ChildAValue(value, level) && r.node.level == ChildLevel(level) &&
                r.node.childA == null && r.node.childB == null
      ensures value == old(value) && level == old(level) && parent == old(parent) && childB == old(childB)
    {
      if childA != null {
        return Created(childA);
      }
      r := Construct(this, ChildAValue(value, level), ChildLevel(level));
      if r.Created? {
        childA := r.node;
      }
    }

    /** The ChildB getter, the mirror image of GetChildA. */
    method GetChildB() returns (r: Creation)
      modifies this`childB
      ensures old(childB) != null ==> r == Created(old(childB)) && childB == old(childB)
      ensures old(childB) == null ==> (r.Thrown? <==> ChildLevel(level) > MaxLevel)
      ensures old(childB) == null && r.Thrown? ==>
                childB == null && r.error == IntensityException(NoMoreColours)
      ensures old(childB) == null && r.Created? ==>
                fresh(r.node) && childB == r.node && r.node.parent == this &&
                r.node.value == ChildBValue(value, level) && r.node.level == ChildLevel(level) &&
                r.node.childA == null && r.node.childB == null
      ensures value == old(value) && level == old(level) && parent == old(parent) && childA == old(childA)
    {
      if childB != null {
        return Created(childB);
      }
      r := Construct(this, ChildBValue(value, level), ChildLevel(level));
      if r.Created? {
        childB := r.node;
      }
    }

    /** The Level setter. */
    method SetLevel(level: int32)
      modifies this`level
      ensures this.level == level
    {
      this.level := level;
    }

    /** The Value setter. */
    method SetValue(value: int32)
      modifies this`value
      ensures this.value == value
    {
      this.value := value;
    }

    /** The Parent setter. */
    method SetParent(parent: IntensityValue?)
      modifies this`parent
      ensures this.parent == parent
    {
      this.parent := parent;
    }
  }

  /** Which getter to call. */
  datatype Side = A | B

  /** Asks a node for the same child twice. The second answer is the first one
      whenever the first succeeded (the child is created at most once); when the
      first threw, so does the second, as it does for every node at level 7. */
  method GetChildTwice(node: IntensityValue, side: Side) returns (first: Creation, second: Creation)
    modifies node`childA, node`childB
    ensures first.Created? ==> second == first
    ensures first.Thrown? ==> second.Thrown?
    ensures side == A && old(node.childA) == null && node.level == MaxLevel ==> first.Thrown? && node.childA == null
    ensures side == B && old(node.childB) == null && node.level == MaxLevel ==> first.Thrown? && node.childB == null
    ensures side == A ==> node.childB == old(node.childB)
    ensures side == B ==> node.childA == old(node.childA)
  {
    if side == A {
      first := node.GetChildA();
      second := node.GetChildA();
    } else {
      first := node.GetChildB();
      second := node.GetChildB();
    }
  }

  /** The value the getters give the node reached from a node at `level` with
      `value` by following ChildB for each `true` and ChildA for each `false` in
      `path`, in C#'s int32 arithmetic. */
  function Walk(value: int32, level: int32, path: seq<bool>): int32
    decreases |path|
  {
    if path == [] then value
    else
      var next := if path[0] then ChildBValue(value, level) else ChildAValue(value, level);
      Walk(next, ChildLevel(level), path[1..])
  }

  /** The same walk in exact arithmetic, within levels 0 to 7. */
  function Descend(value: int, level: nat, path: seq<bool>): int
    requires level + |path| <= 7
    decreases |path|
  {
    if path == [] then value
    else
      var next := if path[0] then value + Pow2(7 - level) else value - Pow2(7 - level);
      Descend(next, level + 1, path[1..])
  }

  /** One step down from a node with room below level 7: the child is one level
      deeper, `2^(7 - level)` to the side of its step, and has room itself. */
  lemma ChildStep(value: int32, level: int32, toB: bool)
    requires HasRoom(value, level) && level < MaxLevel
    ensures var next := if toB then ChildBValue(value, level) else ChildAValue(value, level);
      next as int == (if toB then value as int + Pow2(7 - level as int) else value as int - Pow2(7 - level as int)) &&
      HasRoom(next, level + 1) &&
      ChildLevel(level) == level + 1
  {
    ChildrenHaveRoom(value, level);
    ChildrenStraddle(value, level);
  }

  /** The first step of a walk is one getter call. */
  lemma WalkStep(value: int32, level: int32, path: seq<bool>)
    requires path != []
    ensures Walk(value, level, path) ==
              Walk(if path[0] then ChildBValue(value, level) else ChildAValue(value, level), ChildLevel(level), path[1..])
  {
  }

  /** From a node with room, the getters' int32 arithmetic never wraps on the way
      down to level 7: the walk they compute is the exact one. */
  lemma {:induction false} WalkIsDescend(value: int32, level: int32, path: seq<bool>)
    requires HasRoom(value, level) && level as int + |path| <= MaxLevel as int
    ensures Walk(value, level, path) as int == Descend(value as int, level as nat, path)
    decreases |path|
  {
    if path != [] {
      var next := if path[0] then ChildBValue(value, level) else ChildAValue(value, level);
      var exact := if path[0] then value as int + Pow2(7 - level as int) else value as int - Pow2(7 - level as int);
      WalkStep(value, level, path);
      ChildStep(value, level, path[0]);
      assert next as int == exact;
      assert Descend(value as int, level as nat, path) == Descend(exact, level as nat + 1, path[1..]);
      WalkIsDescend(next, level + 1, path[1..]);
      assert Walk(next, level + 1, path[1..]) as int == Descend(exact, level as nat + 1, path[1..]);
    }
  }

  /** Every node `|path|` levels below stays strictly closer to the starting
      node's value than `2^(8 - level)`: the subtree of a node never reaches
      past the values its parent's offset separates. */
  lemma {:induction false} DescendSpread(value: int, level: nat, path: seq<bool>)
    requires level + |path| <= 7
    ensures value - (Pow2(8 - level) - Pow2(8 - level - |path|))
              <= Descend(value, level, path)
              <= value + (Pow2(8 - level) - Pow2(8 - level - |path|))
    decreases |path|
  {
    if path != [] {
      var next := if path[0] then value + Pow2(7 - level) else value - Pow2(7 - level);
      assert Pow2(8 - level) == 2 * Pow2(7 - level);
      DescendSpread(next, level + 1, path[1..]);
    }
  }

  /** A node other than the start lies strictly on the side of its first step. */
  lemma DescendSide(value: int, level: nat, path: seq<bool>)
    requires level + |path| <= 7
    requires path != []
    ensures path[0] ==> Descend(value, level, path) > value
    ensures !path[0] ==> Descend(value, level, path) < value
  {
    var next := if path[0] then value + Pow2(7 - level) else value - Pow2(7 - level);
    DescendSpread(next, level + 1, path[1..]);
  }

  /** Two paths from the same node (of any lengths that stay within level 7)
      reach the same value exactly when they are the same path. */
  lemma {:induction false} DescendDistinct(value: int, level: nat, p: seq<bool>, q: seq<bool>)
    requires level + |p| <= 7 && level + |q| <= 7
    ensures Descend(value, level, p) == Descend(value, level, q) <==> p == q
    decreases |p|
  {
    if p == [] && q == [] {
    } else if p == [] {
      DescendSide(value, level, q);
    } else if q == [] {
      DescendSide(value, level, p);
    } else if p[0] != q[0] {
      DescendSide(value, level, p);
      DescendSide(value, level, q);
    } else {
      var next := if p[0] then value + Pow2(7 - level) else value - Pow2(7 - level);
      DescendDistinct(next, level + 1, p[1..], q[1..]);
      assert p == [p[0]] + p[1..] && q == [q[0]] + q[1..];
    }
  }

  /** Every node of a subtree carries its own intensity: below a node with room,
      the getters give two nodes the same value exactly when they are the same
      node, that is, reached by the same path. */
  lemma WalkDistinct(value: int32, level: int32, p: seq<bool>, q: seq<bool>)
    requires HasRoom(value, level)
    requires level as int + |p| <= MaxLevel as int && level as int + |q| <= MaxLevel as int
    ensures Walk(value, level, p) == Walk(value, level, q) <==> p == q
  {
    WalkIsDescend(value, level, p);
    WalkIsDescend(value, level, q);
    DescendDistinct(value as int, level as nat, p, q);
  }
}
