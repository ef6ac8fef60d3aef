/** The shape of the Merkle tree: merkle/tree_calc.go, and positions: merkle/types.go:11-69. */
module TreeCalc {
  import opened ByteStrings

  /** merkle/tree_calc.go:41-50: ceil(nodeCount / bfactor). */
  function GroupCount(b: nat, nodeCount: nat): nat
    requires b >= 2
  {
    nodeCount / b + if nodeCount % b > 0 then 1 else 0
  }

  /** merkle/tree_calc.go:57-60 */
  function FirstNodeOfGroup(b: nat, group: nat): nat
    requires b >= 2
  {
    group * b
  }

  /** merkle/tree_calc.go:67-71 */
  function GroupOfNode(b: nat, node: nat): nat
    requires b >= 2
  {
    node / b
  }

  /** merkle/tree_calc.go:78-82 */
  function NodeIndexInGroup(b: nat, node: nat): nat
    requires b >= 2
  {
    node % b
  }

  // GroupOf and Groups are the same quotients without division, for reasoning.

  lemma DivModFacts(b: nat, n: nat)
    requires b >= 2
    ensures n == (n / b) * b + n % b && 0 <= n % b < b && n / b >= 0
  {
  }

  /** How many groups `n` nodes form. */
  function Groups(b: nat, n: nat): nat
    requires b >= 2
  {
    if n == 0 then 0 else if n <= b then 1 else 1 + Groups(b, n - b)
  }

  lemma GroupCountIsGroups(b: nat, n: nat)
    requires b >= 2
    ensures GroupCount(b, n) == Groups(b, n)
  {
    DivModFacts(b, n);
    var q := n / b;
    assert (q + 1) * b == q * b + b;
    GroupsIs(b, n, q);
    GroupsIs(b, n, q + 1);
    if q > 0 {
      GroupsIs(b, n, q - 1);
      assert (q - 1) * b == q * b - b;
    }
  }

  /** The group of a node, counted by whole groups before it. */
  function GroupOf(b: nat, node: nat): nat
    requires b >= 2
  {
    if node < b then 0 else 1 + GroupOf(b, node - b)
  }

  lemma {:induction false} GroupOfBounds(b: nat, node: nat)
    requires b >= 2
    ensures GroupOf(b, node) * b <= node < (GroupOf(b, node) + 1) * b
  {
    if node >= b {
      GroupOfBounds(b, node - b);
    }
  }

  lemma GroupUnique(b: nat, g: nat, h: nat, node: nat)
    requires b >= 2 && g * b <= node < (g + 1) * b && h * b <= node < (h + 1) * b
    ensures g == h
  {
  }

  lemma GroupOfIsQuotient(b: nat, node: nat)
    requires b >= 2
    ensures GroupOf(b, node) == GroupOfNode(b, node)
  {
    GroupOfBounds(b, node);
    DivModFacts(b, node);
    var q := node / b;
    assert (q + 1) * b == q * b + b;
    GroupUnique(b, GroupOf(b, node), q, node);
  }

  /** Levels of a tree with `n` leaves. */
  function TreeHeight(b: nat, n: nat): (h: nat)
    requires b >= 2
    ensures h >= 1
  {
    if n <= 1 then 1 else
    GroupsShrink(b, n);
    1 + TreeHeight(b, Groups(b, n))
  }

  /** Nodes in the row at `level` over `n` leaves. */
  function RowSize(b: nat, n: nat, level: nat): nat
    requires b >= 2
    decreases level
  {
    if level == 0 then n else RowSize(b, Groups(b, n), level - 1)
  }

  function Pow(b: nat, e: nat): nat
  {
    if e == 0 then 1 else b * Pow(b, e - 1)
  }

  lemma GroupsShrink(b: nat, n: nat)
    requires b >= 2 && n >= 2
    ensures 1 <= Groups(b, n) < n
  {
    if n > b + 1 {
      GroupsShrink(b, n - b);
    }
  }

  /** A group exists exactly when its first node does. */
  lemma {:induction false} GroupsIs(b: nat, n: nat, g: nat)
    requires b >= 2
    ensures g < Groups(b, n) <==> g * b < n
  {
    if g > 0 {
      assert g * b == (g - 1) * b + b;
      if n > b {
        GroupsIs(b, n - b, g - 1);
      } else {
        assert (g - 1) * b >= 0;
      }
    }
  }

  lemma GroupsMonotone(b: nat, n: nat, m: nat)
    requires b >= 2 && n <= m
    ensures Groups(b, n) <= Groups(b, m)
  {
    if Groups(b, n) > Groups(b, m) {
      var g := Groups(b, m);
      GroupsIs(b, n, g);
      GroupsIs(b, m, g);
      assert false;
    }
  }

  lemma {:induction false} RowSizeStep(b: nat, n: nat, level: nat)
    requires b >= 2
    ensures RowSize(b, n, level + 1) == Groups(b, RowSize(b, n, level))
    decreases level
  {
    if level > 0 {
      RowSizeStep(b, Groups(b, n), level - 1);
    }
  }

  lemma {:induction false} RowSizeMonotone(b: nat, n: nat, m: nat, level: nat)
    requires b >= 2 && n <= m
    ensures RowSize(b, n, level) <= RowSize(b, m, level)
    decreases level
  {
    if level > 0 {
      GroupsMonotone(b, n, m);
      RowSizeMonotone(b, Groups(b, n), Groups(b, m), level - 1);
    }
  }

  lemma {:induction false} HeightMonotone(b: nat, n: nat, m: nat)
    requires b >= 2 && n <= m
    ensures TreeHeight(b, n) <= TreeHeight(b, m)
    decreases m
  {
    if n > 1 {
      GroupsShrink(b, m);
      GroupsMonotone(b, n, m);
      HeightMonotone(b, Groups(b, n), Groups(b, m));
    }
  }

  /** The top row, height - 1 groupings up, is one node, and every row below it has several. */
  lemma {:induction false} TopRow(b: nat, n: nat, level: nat)
    requires b >= 2 && n >= 1
    ensures level < TreeHeight(b, n) - 1 ==> RowSize(b, n, level) >= 2
    ensures level >= TreeHeight(b, n) - 1 ==> RowSize(b, n, level) == 1
    decreases n, level
  {
    if level > 0 {
      if n == 1 {
        TopRow(b, 1, level - 1);
      } else {
        GroupsShrink(b, n);
        TopRow(b, Groups(b, n), level - 1);
      }
    }
  }

  lemma {:induction false} PowMonotone(b: nat, e: nat, f: nat)
    requires b >= 2 && e <= f
    ensures Pow(b, e) <= Pow(b, f)
  {
    if e < f {
      PowMonotone(b, e, f - 1);
      assert b * Pow(b, f - 1) >= Pow(b, f - 1);
    }
  }

  lemma {:induction false} HeightFits(b: nat, n: nat)
    requires b >= 2
    ensures Pow(b, TreeHeight(b, n) - 1) >= n
    ensures TreeHeight(b, n) >= 2 ==> Pow(b, TreeHeight(b, n) - 2) < n
    decreases n
  {
    if n > 1 {
      GroupsShrink(b, n);
      var m := Groups(b, n);
      var h := TreeHeight(b, m);
      HeightFits(b, m);
      GroupsIs(b, n, Pow(b, h - 1));
      assert Pow(b, h) == b * Pow(b, h - 1);
      if h >= 2 {
        GroupsIs(b, n, Pow(b, h - 2));
        assert Pow(b, h - 1) == b * Pow(b, h - 2);
      }
    }
  }

  /** The height is the least one whose bottom row has room for `n` leaves. */
  lemma HeightIsLeast(b: nat, n: nat, h: nat)
    requires b >= 2 && h >= 1
    ensures Pow(b, h - 1) >= n <==> h >= TreeHeight(b, n)
  {
    HeightFits(b, n);
    if h >= TreeHeight(b, n) {
      PowMonotone(b, TreeHeight(b, n) - 1, h - 1);
    } else {
      PowMonotone(b, h - 1, TreeHeight(b, n) - 2);
    }
  }

  /** An eight-bit counter counts modulo 256. */
  lemma CounterWraps(steps: nat)
    ensures (steps % 256 + 1) % 256 == (steps + 1) % 256
  {
  }

  /** merkle/tree_calc.go:25-33 with its eight-bit counter. */
  method Height(b: nat, nleaf: nat) returns (h: nat)
    requires b >= 2
    ensures h == TreeHeight(b, nleaf) % 256
  {
    h := 1;
    var nodeCount := nleaf;
    ghost var steps := 1;
    while nodeCount > 1
      invariant h == steps % 256
      invariant steps >= 1 && steps - 1 + TreeHeight(b, nodeCount) == TreeHeight(b, nleaf)
      decreases nodeCount
    {
      GroupCountIsGroups(b, nodeCount);
      GroupsShrink(b, nodeCount);
      CounterWraps(steps);
      h := (h + 1) % 256;
      steps := steps + 1;
      nodeCount := GroupCount(b, nodeCount);
    }
  }

  // ----- Positions -----

  datatype Position = Position(level: nat, index: nat)

  /** big.Int.Bytes: big endian, no leading zero, empty for zero. */
  function IntBytes(n: nat): Bytes
  {
    if n == 0 then [] else IntBytes(n / 256) + [(n % 256) as byte]
  }

  /** big.Int.SetBytes */
  function BytesInt(s: Bytes): nat
  {
    if s == [] then 0 else BytesInt(s[..|s| - 1]) * 256 + s[|s| - 1] as nat
  }

  /** merkle/types.go:39-47 */
  function PositionBytes(p: Position): Bytes
    requires p.level < 256
  {
    var ib := IntBytes(p.index);
    [p.level as byte] + if ib == [] then [0] else ib
  }

  /** merkle/types.go:20-27 */
  function UnmarshalPosition(s: Bytes): Position
    requires s != []
  {
    Position(s[0] as nat, BytesInt(s[1..]))
  }

  lemma {:induction false} IntBytesRoundTrip(n: nat)
    ensures BytesInt(IntBytes(n)) == n
  {
    if n > 0 {
      IntBytesRoundTrip(n / 256);
      var s := IntBytes(n);
      assert s[..|s| - 1] == IntBytes(n / 256);
    }
  }

  lemma DivideTwice(n: nat, d: nat)
    requires d > 0
    ensures n / 256 / d == n / (256 * d)
  {
    var q, r := n / 256 / d, n / 256 % d;
    assert n / 256 == q * d + r;
    assert n == 256 * (q * d + r) + n % 256;
    assert 256 * (q * d + r) == q * (256 * d) + 256 * r;
    assert 0 <= 256 * r + n % 256 < 256 * d;
    QuotientIs(n, 256 * d, q, 256 * r + n % 256);
  }

  lemma QuotientIs(n: nat, d: nat, q: nat, r: nat)
    requires r < d && n == q * d + r
    ensures n / d == q
  {
    var e := n / d - q;
    assert n == (n / d) * d + n % d;
    assert e * d == r - n % d;
    MultipleBound(e, d);
  }

  lemma MultipleBound(e: int, d: nat)
    ensures e >= 1 ==> e * d >= d
    ensures e <= -1 ==> e * d + d <= 0
  {
  }

  /** The bytes are the digits of the number to the base 256, the most significant first and not zero. */
  lemma {:induction false} IntBytesBigEndian(n: nat, i: nat)
    requires i < |IntBytes(n)|
    ensures Pow(256, |IntBytes(n)| - 1 - i) > 0
    ensures IntBytes(n)[i] as nat == n / Pow(256, |IntBytes(n)| - 1 - i) % 256
    ensures IntBytes(n)[0] != 0
  {
    var k := |IntBytes(n)| - 1;
    if k == 0 {
      assert n / 256 == 0;
    } else {
      IntBytesBigEndian(n / 256, if i < k then i else 0);
      if i < k {
        DivideTwice(n, Pow(256, k - 1 - i));
      }
    }
  }

  /** Unmarshalling undoes marshalling for every level and index. */
  lemma PositionRoundTrip(p: Position)
    requires p.level < 256
    ensures UnmarshalPosition(PositionBytes(p)) == p
  {
    IntBytesRoundTrip(p.index);
    var s := PositionBytes(p);
    if p.index == 0 {
      assert s[1..] == [0] && s[1..][..0] == [];
    } else {
      assert s[1..] == IntBytes(p.index);
    }
  }

  /** Distinct positions have distinct keys in the node store. */
  lemma PositionBytesInjective(p: Position, q: Position)
    requires p.level < 256 && q.level < 256 && PositionBytes(p) == PositionBytes(q)
    ensures p == q
  {
    PositionRoundTrip(p);
    PositionRoundTrip(q);
  }
}
