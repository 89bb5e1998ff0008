/**
 * The calibration (trim) side of the firmware's USB console: the 6 x 3 table
 * of signed servo trims, the menu steps that adjust one trim, the image of
 * the table written to flash, the values shown in the status diagrams, and
 * the line reader.
 */
module UsbConnection {
  import opened Wrappers
  import opened Layout
  import opened Decimal

  // ---------------------------------------------------------------------------
  // The trim table as a value
  // ---------------------------------------------------------------------------

  /** A table of trims: one row per leg, holding coxa, tibia, femur. */
  type Grid = seq<seq<int>>

  predicate IsGrid(g: Grid)
  {
    |g| == Legs && forall l :: 0 <= l < |g| ==> |g[l]| == JointsPerLeg
  }

  /** Two tables that agree on every cell are the same table. */
  lemma GridExtensionality(g: Grid, h: Grid)
    requires IsGrid(g) && IsGrid(h)
    requires forall l, j :: 0 <= l < Legs && 0 <= j < JointsPerLeg ==> g[l][j] == h[l][j]
    ensures g == h
  {
    forall l | 0 <= l < Legs
      ensures g[l] == h[l]
    {
      assert forall j :: 0 <= j < JointsPerLeg ==> g[l][j] == h[l][j];
    }
  }

  /** The table with `delta` added to the trim of joint `joint` of leg `leg`. */
  function AdjustTrim(g: Grid, leg: int, joint: int, delta: int): (g': Grid)
    requires IsGrid(g) && IsLeg(leg) && IsJoint(joint)
    ensures IsGrid(g')
    ensures g'[leg][joint] == g[leg][joint] + delta
    ensures forall l, j :: 0 <= l < Legs && 0 <= j < JointsPerLeg && (l != leg || j != joint) ==> g'[l][j] == g[l][j]
  {
    g[leg := g[leg][joint := g[leg][joint] + delta]]
  }

  /** Adjustments of one trim accumulate: two deltas act as their sum. */
  lemma AdjustTrimCumulative(g: Grid, leg: int, joint: int, d1: int, d2: int)
    requires IsGrid(g) && IsLeg(leg) && IsJoint(joint)
    ensures AdjustTrim(AdjustTrim(g, leg, joint, d1), leg, joint, d2) == AdjustTrim(g, leg, joint, d1 + d2)
  {
    GridExtensionality(AdjustTrim(AdjustTrim(g, leg, joint, d1), leg, joint, d2), AdjustTrim(g, leg, joint, d1 + d2));
  }

  // ---------------------------------------------------------------------------
  // The flash image: the table flattened row-major into 18 bytes
  // ---------------------------------------------------------------------------

  /** FLASH_PAGE_SIZE of the Pico SDK: the length of the page buffer `data_array`. */
  const FlashPageSize: nat := 256

  newtype uint8 = x: int | 0 <= x < 256

  /** The C conversion of an `int` to `uint8_t`: reduction modulo 256. */
  function ToUint8(v: int): (b: uint8)
    ensures 0 <= v < 256 ==> b as int == v
    ensures (b as int - v) % 256 == 0
  {
    (v % 256) as uint8
  }

  /** The cells of the table in row-major order: cell (l, j) at index 3 * l + j. */
  function Flatten(g: Grid): (cells: seq<int>)
    requires IsGrid(g)
    ensures |cells| == Channels
    ensures forall l, j :: 0 <= l < Legs && 0 <= j < JointsPerLeg ==> cells[FlatIndex(l, j)] == g[l][j]
  {
    seq(Channels, i requires 0 <= i < Channels => g[i / JointsPerLeg][i % JointsPerLeg])
  }

  /** The table whose row-major cells are `cells`. */
  function Unflatten(cells: seq<int>): (g: Grid)
    requires |cells| == Channels
    ensures IsGrid(g)
    ensures forall l, j :: 0 <= l < Legs && 0 <= j < JointsPerLeg ==> g[l][j] == cells[FlatIndex(l, j)]
  {
    seq(Legs, l requires 0 <= l < Legs =>
      seq(JointsPerLeg, j requires 0 <= j < JointsPerLeg => cells[FlatIndex(l, j)]))
  }

  lemma UnflattenFlatten(g: Grid)
    requires IsGrid(g)
    ensures Unflatten(Flatten(g)) == g
  {
    GridExtensionality(Unflatten(Flatten(g)), g);
  }

  lemma FlattenUnflatten(cells: seq<int>)
    requires |cells| == Channels
    ensures Flatten(Unflatten(cells)) == cells
  {
    forall i | 0 <= i < Channels
      ensures Flatten(Unflatten(cells))[i] == cells[i]
    {
      FlatIndexOfSplit(i);
    }
  }

  /** The 18 bytes `flash_data_to_memory` puts at the start of the page buffer. */
  function FlashImage(g: Grid): (bytes: seq<uint8>)
    requires IsGrid(g)
    ensures |bytes| == Channels
    ensures forall l, j :: 0 <= l < Legs && 0 <= j < JointsPerLeg ==> bytes[FlatIndex(l, j)] == ToUint8(g[l][j])
  {
    var cells := Flatten(g);
    seq(Channels, i requires 0 <= i < Channels => ToUint8(cells[i]))
  }

  /** Reading a table back from the first 18 bytes of a page. */
  function LoadImage(bytes: seq<uint8>): (g: Grid)
    requires |bytes| >= Channels
    ensures IsGrid(g)
    ensures forall l, j :: 0 <= l < Legs && 0 <= j < JointsPerLeg ==> g[l][j] == bytes[FlatIndex(l, j)] as int
  {
    Unflatten(seq(Channels, i requires 0 <= i < Channels => bytes[i] as int))
  }

  /** Each loaded trim is the stored trim modulo 256. */
  lemma LoadFlashImage(g: Grid)
    requires IsGrid(g)
    ensures forall l, j :: 0 <= l < Legs && 0 <= j < JointsPerLeg ==>
      LoadImage(FlashImage(g))[l][j] % 256 == g[l][j] % 256 && 0 <= LoadImage(FlashImage(g))[l][j] < 256
  {
  }

  /** A table whose trims all lie in 0..255 survives the trip through flash. */
  lemma FlashImageRoundTrip(g: Grid)
    requires IsGrid(g)
    requires forall l, j :: 0 <= l < Legs && 0 <= j < JointsPerLeg ==> 0 <= g[l][j] < 256
    ensures LoadImage(FlashImage(g)) == g
  {
    GridExtensionality(LoadImage(FlashImage(g)), g);
  }

  /** Adjusting one trim changes exactly one byte of the flash image, the one at its flat index. */
  lemma FlashImageOfAdjust(g: Grid, leg: int, joint: int, delta: int)
    requires IsGrid(g) && IsLeg(leg) && IsJoint(joint)
    ensures FlashImage(AdjustTrim(g, leg, joint, delta))
         == FlashImage(g)[FlatIndex(leg, joint) := ToUint8(g[leg][joint] + delta)]
  {
    var g' := AdjustTrim(g, leg, joint, delta);
    forall i | 0 <= i < Channels
      ensures FlashImage(g')[i] == FlashImage(g)[FlatIndex(leg, joint) := ToUint8(g[leg][joint] + delta)][i]
    {
      FlatIndexOfSplit(i);
      if i != FlatIndex(leg, joint) {
        assert i / JointsPerLeg != leg || i % JointsPerLeg != joint;
      }
    }
  }

  // ---------------------------------------------------------------------------
  // The status diagrams: which values are shown where
  // ---------------------------------------------------------------------------

  /** The angle shown for each cell, row-major: 90 degrees plus its trim. */
  function Angles(g: Grid): (angles: seq<int>)
    requires IsGrid(g)
    ensures |angles| == Channels
    ensures forall l, j :: 0 <= l < Legs && 0 <= j < JointsPerLeg ==> angles[FlatIndex(l, j)] == 90 + g[l][j]
  {
    var cells := Flatten(g);
    seq(Channels, i requires 0 <= i < Channels => 90 + cells[i])
  }

  /** The (leg, joint) cell the whole-body diagram shows at placeholder `k`. */
  function DiagramCell(k: int): (cell: (int, int))
    requires 0 <= k < Channels
    ensures IsLeg(cell.0) && IsJoint(cell.1)
  {
    match k
    case 0 => (0, 2)   case 1 => (5, 2)   case 2 => (0, 1)
    case 3 => (5, 1)   case 4 => (0, 0)   case 5 => (5, 0)
    case 6 => (1, 2)   case 7 => (1, 1)   case 8 => (1, 0)
    case 9 => (4, 0)   case 10 => (4, 1)  case 11 => (4, 2)
    case 12 => (2, 0)  case 13 => (3, 0)  case 14 => (2, 1)
    case 15 => (3, 1)  case 16 => (2, 2)  case _ => (3, 2)
  }

  /** The placeholder at which the whole-body diagram shows cell (`leg`, `joint`). */
  function DiagramPlaceholder(leg: int, joint: int): (k: int)
    requires IsLeg(leg) && IsJoint(joint)
    ensures 0 <= k < Channels && DiagramCell(k) == (leg, joint)
  {
    [[4, 2, 0], [8, 7, 6], [12, 14, 16], [13, 15, 17], [9, 10, 11], [5, 3, 1]][leg][joint]
  }

  /**
   * The diagram names every cell of the table, and none twice: placeholders
   * and cells correspond one to one.
   */
  lemma DiagramCellsCoverTable()
    ensures forall k :: 0 <= k < Channels ==> DiagramPlaceholder(DiagramCell(k).0, DiagramCell(k).1) == k
    ensures forall a, b :: 0 <= a < b < Channels ==> DiagramCell(a) != DiagramCell(b)
  {
  }

  /**
   * The values `crown_robot_servo_angle_status` passes to the diagram, in
   * order: placeholder k shows the angle of `DiagramCell(k)`, and every cell
   * of the table appears exactly once.
   */
  function DiagramArguments(g: Grid): (args: seq<int>)
    requires IsGrid(g)
    ensures |args| == Channels
    ensures forall k :: 0 <= k < Channels ==> args[k] == Angles(g)[FlatIndex(DiagramCell(k).0, DiagramCell(k).1)]
    ensures multiset(args) == multiset(Angles(g))
  {
    var args := seq(Channels, k requires 0 <= k < Channels => 90 + g[DiagramCell(k).0][DiagramCell(k).1]);
    DiagramShowsCellAngles(g, args);
    DiagramArgumentsByTriples(g, args);
    args
  }

  /** Values that give each placeholder its cell's angle are entries of `Angles`. */
  lemma DiagramShowsCellAngles(g: Grid, args: seq<int>)
    requires IsGrid(g)
    requires |args| == Channels
    requires forall k :: 0 <= k < Channels ==> args[k] == 90 + g[DiagramCell(k).0][DiagramCell(k).1]
    ensures forall k :: 0 <= k < Channels ==> args[k] == Angles(g)[FlatIndex(DiagramCell(k).0, DiagramCell(k).1)]
  {
    forall k | 0 <= k < Channels
      ensures args[k] == Angles(g)[FlatIndex(DiagramCell(k).0, DiagramCell(k).1)]
    {
      var cell := DiagramCell(k);
      assert Angles(g)[FlatIndex(cell.0, cell.1)] == 90 + g[cell.0][cell.1];
    }
  }

  /** The diagram's arguments, three placeholders at a time: a permutation of the angles. */
  lemma DiagramArgumentsByTriples(g: Grid, args: seq<int>)
    requires IsGrid(g)
    requires |args| == Channels
    requires forall k :: 0 <= k < Channels ==> args[k] == 90 + g[DiagramCell(k).0][DiagramCell(k).1]
    ensures multiset(args) == multiset(Angles(g))
  {
    var t0 := [90 + g[0][2], 90 + g[5][2], 90 + g[0][1]];
    var t1 := [90 + g[5][1], 90 + g[0][0], 90 + g[5][0]];
    var t2 := [90 + g[1][2], 90 + g[1][1], 90 + g[1][0]];
    var t3 := [90 + g[4][0], 90 + g[4][1], 90 + g[4][2]];
    var t4 := [90 + g[2][0], 90 + g[3][0], 90 + g[2][1]];
    var t5 := [90 + g[3][1], 90 + g[2][2], 90 + g[3][2]];
    assert args[..3] == t0;
    assert args[3..6] == t1;
    assert args[6..9] == t2;
    assert args[9..12] == t3;
    assert args[12..15] == t4;
    assert args[15..] == t5;
    assert args == args[..3] + args[3..6] + args[6..9] + args[9..12] + args[12..15] + args[15..];
    DiagramArgumentsPermuted(g, t0, t1, t2, t3, t4, t5);
  }

  lemma AnglesByRow(g: Grid)
    requires IsGrid(g)
    ensures Angles(g) == [90 + g[0][0], 90 + g[0][1], 90 + g[0][2]] + [90 + g[1][0], 90 + g[1][1], 90 + g[1][2]]
                       + [90 + g[2][0], 90 + g[2][1], 90 + g[2][2]] + [90 + g[3][0], 90 + g[3][1], 90 + g[3][2]]
                       + [90 + g[4][0], 90 + g[4][1], 90 + g[4][2]] + [90 + g[5][0], 90 + g[5][1], 90 + g[5][2]]
  {
    var rows := [90 + g[0][0], 90 + g[0][1], 90 + g[0][2]] + [90 + g[1][0], 90 + g[1][1], 90 + g[1][2]]
              + [90 + g[2][0], 90 + g[2][1], 90 + g[2][2]] + [90 + g[3][0], 90 + g[3][1], 90 + g[3][2]]
              + [90 + g[4][0], 90 + g[4][1], 90 + g[4][2]] + [90 + g[5][0], 90 + g[5][1], 90 + g[5][2]];
    forall i | 0 <= i < Channels
      ensures Angles(g)[i] == rows[i]
    {
      FlatIndexOfSplit(i);
    }
  }

  lemma TripleMultiset(a: int, b: int, c: int)
    ensures multiset([a, b, c]) == multiset{a} + multiset{b} + multiset{c}
  {
  }

  lemma SixParts(a: seq<int>, b: seq<int>, c: seq<int>, d: seq<int>, e: seq<int>, f: seq<int>)
    ensures multiset(a + b + c + d + e + f)
         == (multiset(a) + multiset(b)) + (multiset(c) + multiset(d)) + (multiset(e) + multiset(f))
    ensures multiset(a + b + c + d + e + f)
         == (multiset(a) + multiset(f)) + (multiset(b) + multiset(e)) + (multiset(c) + multiset(d))
  {
  }

  lemma DiagramArgumentsPermuted(g: Grid, t0: seq<int>, t1: seq<int>, t2: seq<int>, t3: seq<int>, t4: seq<int>, t5: seq<int>)
    requires IsGrid(g)
    requires t0 == [90 + g[0][2], 90 + g[5][2], 90 + g[0][1]]
    requires t1 == [90 + g[5][1], 90 + g[0][0], 90 + g[5][0]]
    requires t2 == [90 + g[1][2], 90 + g[1][1], 90 + g[1][0]]
    requires t3 == [90 + g[4][0], 90 + g[4][1], 90 + g[4][2]]
    requires t4 == [90 + g[2][0], 90 + g[3][0], 90 + g[2][1]]
    requires t5 == [90 + g[3][1], 90 + g[2][2], 90 + g[3][2]]
    ensures multiset(t0 + t1 + t2 + t3 + t4 + t5) == multiset(Angles(g))
  {
    var r0, r1, r2 := [90 + g[0][0], 90 + g[0][1], 90 + g[0][2]], [90 + g[1][0], 90 + g[1][1], 90 + g[1][2]], [90 + g[2][0], 90 + g[2][1], 90 + g[2][2]];
    var r3, r4, r5 := [90 + g[3][0], 90 + g[3][1], 90 + g[3][2]], [90 + g[4][0], 90 + g[4][1], 90 + g[4][2]], [90 + g[5][0], 90 + g[5][1], 90 + g[5][2]];
    calc {
      multiset(t0 + t1 + t2 + t3 + t4 + t5);
      { SixParts(t0, t1, t2, t3, t4, t5); }
      (multiset(t0) + multiset(t1)) + (multiset(t2) + multiset(t3)) + (multiset(t4) + multiset(t5));
      { InterleaveOuter(90 + g[0][0], 90 + g[0][1], 90 + g[0][2], 90 + g[5][0], 90 + g[5][1], 90 + g[5][2]); }
      (multiset(r0) + multiset(r5)) + (multiset(t2) + multiset(t3)) + (multiset(t4) + multiset(t5));
      { InterleaveMiddle(90 + g[1][0], 90 + g[1][1], 90 + g[1][2], 90 + g[4][0], 90 + g[4][1], 90 + g[4][2]); }
      (multiset(r0) + multiset(r5)) + (multiset(r1) + multiset(r4)) + (multiset(t4) + multiset(t5));
      { InterleaveInner(90 + g[2][0], 90 + g[2][1], 90 + g[2][2], 90 + g[3][0], 90 + g[3][1], 90 + g[3][2]); }
      (multiset(r0) + multiset(r5)) + (multiset(r1) + multiset(r4)) + (multiset(r2) + multiset(r3));
      { SixParts(r0, r1, r2, r3, r4, r5); }
      multiset(r0 + r1 + r2 + r3 + r4 + r5);
      { AnglesByRow(g); }
      multiset(Angles(g));
    }
  }

  /*
   * The three ways the diagram interleaves the joints of two legs `a` and
   * `b`; each pair of triples holds the six angles of those legs.
   */

  lemma InterleaveOuter(a0: int, a1: int, a2: int, b0: int, b1: int, b2: int)
    ensures multiset([a2, b2, a1]) + multiset([b1, a0, b0]) == multiset([a0, a1, a2]) + multiset([b0, b1, b2])
  {
    TripleMultiset(a0, a1, a2);
    TripleMultiset(b0, b1, b2);
    TripleMultiset(a2, b2, a1);
    TripleMultiset(b1, a0, b0);
  }

  lemma InterleaveMiddle(a0: int, a1: int, a2: int, b0: int, b1: int, b2: int)
    ensures multiset([a2, a1, a0]) + multiset([b0, b1, b2]) == multiset([a0, a1, a2]) + multiset([b0, b1, b2])
  {
    TripleMultiset(a0, a1, a2);
    TripleMultiset(a2, a1, a0);
  }

  lemma InterleaveInner(a0: int, a1: int, a2: int, b0: int, b1: int, b2: int)
    ensures multiset([a0, b0, a1]) + multiset([b1, a2, b2]) == multiset([a0, a1, a2]) + multiset([b0, b1, b2])
  {
    TripleMultiset(a0, a1, a2);
    TripleMultiset(b0, b1, b2);
    TripleMultiset(a0, b0, a1);
    TripleMultiset(b1, a2, b2);
  }

  /** What `leg_calibration_status` shows for one leg. */
  datatype LegStatus = LegStatus(diagram: seq<int>, readout: seq<string>)

  /** The joint whose angle the leg diagram shows at its angle placeholder `k`: femur, coxa, tibia. */
  function LegDiagramJoint(k: int): (joint: int)
    requires 0 <= k < JointsPerLeg
    ensures IsJoint(joint)
  {
    match k
    case 0 => 2
    case 1 => 0
    case _ => 1
  }

  /**
   * The one-leg screen: the diagram gets the 1-based leg number and the
   * femur, coxa and tibia angles; the readout below it prints the coxa,
   * tibia and femur angles in that order.
   */
  function LegStatusOf(g: Grid, leg: int): (s: LegStatus)
    requires IsGrid(g) && IsLeg(leg)
    ensures |s.diagram| == 4 && s.diagram[0] == leg + 1
    ensures forall k :: 0 <= k < JointsPerLeg ==> s.diagram[k + 1] == 90 + g[leg][LegDiagramJoint(k)]
    ensures multiset(s.diagram[1..]) == multiset{90 + g[leg][0], 90 + g[leg][1], 90 + g[leg][2]}
    ensures |s.readout| == JointsPerLeg
    ensures Atoi(s.readout[0]) == 90 + g[leg][0]
    ensures Atoi(s.readout[1]) == 90 + g[leg][1]
    ensures Atoi(s.readout[2]) == 90 + g[leg][2]
  {
    var s := LegStatus(
      [leg + 1, 90 + g[leg][2], 90 + g[leg][0], 90 + g[leg][1]],
      [FormatInt(90 + g[leg][0]), FormatInt(90 + g[leg][1]), FormatInt(90 + g[leg][2])]);
    assert s.diagram[1..] == [90 + g[leg][2], 90 + g[leg][0], 90 + g[leg][1]];
    ReadBack(90 + g[leg][0]);
    ReadBack(90 + g[leg][1]);
    ReadBack(90 + g[leg][2]);
    s
  }

  /** Each `%d` text in `texts` reads back as the matching value. */
  lemma ReadBackAll(texts: seq<string>, values: seq<int>)
    requires |texts| == |values|
    requires forall k :: 0 <= k < |texts| ==> texts[k] == FormatInt(values[k])
    ensures forall k :: 0 <= k < |texts| ==> Atoi(texts[k]) == values[k]
  {
    forall k | 0 <= k < |texts|
      ensures Atoi(texts[k]) == values[k]
    {
      ReadBack(values[k]);
    }
  }

  /** `atoi` reads the `%d` text of `v` back as `v`. */
  lemma ReadBack(v: int)
    ensures Atoi(FormatInt(v)) == v
  {
    AtoiFormatInt(v, []);
    assert FormatInt(v) + [] == FormatInt(v);
  }

  /** The diagrams print their values with `%u`: an `int` read as a 32-bit unsigned number. */
  function UnsignedText(v: int): (text: string)
    ensures |text| > 0 && AllDigits(text)
    ensures Atoi(text) == v % 0x1_0000_0000
  {
    ReadBack(v % 0x1_0000_0000);
    NatDigits(v % 0x1_0000_0000)
  }

  /** The diagrams' rendering of their values as written: `%u` for each. */
  function UnsignedTexts(values: seq<int>): (texts: seq<string>)
    ensures |texts| == |values|
    ensures forall k :: 0 <= k < |values| ==> Atoi(texts[k]) == values[k] % 0x1_0000_0000
  {
    seq(|values|, k requires 0 <= k < |values| => UnsignedText(values[k]))
  }

  /** The rendering the angle readout of the same menu uses: `%d` for each value. */
  function SignedTexts(values: seq<int>): (texts: seq<string>)
    ensures |texts| == |values|
    ensures forall k :: 0 <= k < |values| ==> Atoi(texts[k]) == values[k]
  {
    var texts := seq(|values|, k requires 0 <= k < |values| => FormatInt(values[k]));
    ReadBackAll(texts, values);
    texts
  }

  lemma NegativeAsUnsigned(v: int)
    requires -0x1_0000_0000 <= v < 0
    ensures v % 0x1_0000_0000 == v + 0x1_0000_0000
  {
  }

  /**
   * A femur trim below -90 on the first leg makes the first angle of the
   * diagram negative; as written, the diagram shows it plus 2^32 (a trim of
   * -91 shows 4294967295), while the `%d` text shows the angle itself.
   */
  lemma DiagramTextWrapsNegativeAngles(g: Grid)
    requires IsGrid(g) && -0x8000_0000 - 90 <= g[0][2] < -90
    ensures DiagramArguments(g)[0] == 90 + g[0][2] < 0
    ensures Atoi(UnsignedTexts(DiagramArguments(g))[0]) == DiagramArguments(g)[0] + 0x1_0000_0000
    ensures Atoi(SignedTexts(DiagramArguments(g))[0]) == DiagramArguments(g)[0]
  {
    NegativeAsUnsigned(DiagramArguments(g)[0]);
  }

  // ---------------------------------------------------------------------------
  // The line reader
  // ---------------------------------------------------------------------------

  predicate IsLineEnd(c: char) { c == '\n' || c == '\r' }

  /** How many characters come before the first line end of `s` (all of `s` if it has none). */
  function LineLength(s: string): (n: nat)
    ensures n <= |s|
    ensures forall k :: 0 <= k < n ==> !IsLineEnd(s[k])
    ensures n < |s| ==> IsLineEnd(s[n])
  {
    if s == [] || IsLineEnd(s[0]) then 0 else 1 + LineLength(s[1..])
  }

  /** A line followed by a line end and anything at all splits off as that line. */
  lemma {:induction false} LineLengthOfLine(line: string, end: char, rest: string)
    requires forall k :: 0 <= k < |line| ==> !IsLineEnd(line[k])
    requires IsLineEnd(end)
    ensures LineLength(line + [end] + rest) == |line|
  {
    if line != [] {
      assert (line + [end] + rest)[1..] == line[1..] + [end] + rest;
      LineLengthOfLine(line[1..], end, rest);
    }
  }

  /**
   * `get_char_from_tinyusb`: read characters from `stream` into `buffer`
   * until a '\n' or '\r' arrives. The line end is consumed but not stored,
   * and no terminating NUL is written. The source waits forever for a line
   * end and never checks the buffer's size, so both are required here.
   */
  method GetLine(stream: string, buffer: array<char>) returns (stored: nat, rest: string)
    requires LineLength(stream) < |stream|
    requires LineLength(stream) <= buffer.Length
    modifies buffer
    ensures stored == LineLength(stream)
    ensures buffer[..stored] == stream[..stored]
    ensures buffer[stored..] == old(buffer[stored..])
    ensures rest == stream[stored + 1..]
  {
    var i := 0;
    while true
      invariant 0 <= i <= LineLength(stream)
      invariant forall k :: 0 <= k < i ==> buffer[k] == stream[k]
      invariant forall k :: i <= k < buffer.Length ==> buffer[k] == old(buffer[k])
      decreases LineLength(stream) - i
    {
      var c := stream[i];
      if IsLineEnd(c) {
        break;
      }
      buffer[i] := c;
      i := i + 1;
    }
    stored, rest := i, stream[i + 1..];
  }

  // ---------------------------------------------------------------------------
  // The trim table in place, and the menu steps that change it
  // ---------------------------------------------------------------------------

  /** What the firmware answers after a calibration step. */
  datatype Reply =
    | GoBack            // an empty line: back to the leg calibration menu
    | Echo(text: string) // the new angle, 90 plus the updated trim, as `%d`
    | InvalidServo      // a joint selector other than '1', '2', '3'

  /** The joint a selector character picks: '1' coxa, '2' tibia, '3' femur. */
  function SelectedJoint(c: char): (j: Option<int>)
    ensures j.Some? <==> '1' <= c <= '3'
    ensures j.Some? ==> IsJoint(j.value) && c == DigitChar(j.value + 1)
  {
    match c
    case '1' => Some(0)
    case '2' => Some(1)
    case '3' => Some(2)
    case _ => None
  }

  /** The calibration step aborts when its input starts with a line feed. */
  predicate StartsWithNewline(input: string)
  {
    |input| > 0 && input[0] == '\n'
  }

  /**
   * Enter sent as "\r" or "\r\n" is not an abort: the text does not start
   * with '\n', and `atoi` skips the white space and finds no digits.
   */
  lemma CarriageReturnIsNoAbort(rest: string)
    requires rest == [] || rest == "\n"
    ensures !StartsWithNewline("\r" + rest)
    ensures Atoi("\r" + rest) == 0
  {
    assert ("\r" + rest)[1..] == rest;
    if rest != [] {
      assert rest[1..] == [];
      assert SkipSpace(rest) == SkipSpace([]) == [];
    }
    assert SkipSpace("\r" + rest) == [];
  }

  /**
   * What `tud_cdc_read(buffer, capacity)` hands back while `available` is
   * waiting on the console: at most `capacity` characters, from the front.
   */
  function CdcRead(available: string, capacity: nat): (received: string)
    ensures received <= available
    ensures |received| == if |available| <= capacity then |available| else capacity
  {
    if |available| <= capacity then available else available[..capacity]
  }

  /** `sizeof(char *)` on the firmware's 32-bit target. */
  const PointerSize: nat := 4

  /**
   * The characters `calibrate_servo` reads as written: `sizeof(buffer) - 1`,
   * where `buffer` is a pointer and not an array.
   */
  const AsWrittenReadCapacity: nat := PointerSize - 1

  /**
   * The characters it evidently means to read: a 16-byte buffer less its
   * terminator, as `read_integer_from_usb` does.
   */
  const CalibrationReadCapacity: nat := 15

  /** As written, typing "-100" and Enter adds -10: only "-10" is read. */
  lemma TruncatedCalibrationRead()
    ensures CdcRead("-100\n", AsWrittenReadCapacity) == "-10"
    ensures Atoi(CdcRead("-100\n", AsWrittenReadCapacity)) == -10
    ensures Atoi("-100\n") == -100
  {
    assert "-100\n"[..3] == "-10";
    AtoiFormatInt(-10, []);
    assert FormatInt(-10) + [] == "-10";
    AtoiFormatInt(-100, "\n");
    assert FormatInt(-100) + "\n" == "-100\n";
  }

  /** With the intended capacity, a number typed followed by Enter is read back whole. */
  lemma CalibrationReadRoundTrip(n: int)
    requires |FormatInt(n)| < CalibrationReadCapacity
    ensures Atoi(CdcRead(FormatInt(n) + "\n", CalibrationReadCapacity)) == n
  {
    AtoiFormatInt(n, "\n");
  }

  /** The global `servo_calibrated_value` table, six legs by coxa, tibia, femur. */
  class CalibrationTable {
    const cells: array2<int>

    predicate Valid()
    {
      cells.Length0 == Legs && cells.Length1 == JointsPerLeg
    }

    /** The table's current value. */
    function Trims(): (g: Grid)
      requires Valid()
      reads cells
      ensures IsGrid(g)
      ensures forall l, j :: 0 <= l < Legs && 0 <= j < JointsPerLeg ==> g[l][j] == cells[l, j]
    {
      seq(Legs, l requires 0 <= l < Legs reads cells =>
        seq(JointsPerLeg, j requires 0 <= j < JointsPerLeg reads cells => cells[l, j]))
    }

    /** The table as the firmware starts: every trim 0. */
    constructor ()
      ensures Valid() && fresh(cells)
      ensures forall l, j :: 0 <= l < Legs && 0 <= j < JointsPerLeg ==> Trims()[l][j] == 0
    {
      cells := new int[Legs, JointsPerLeg]((l, j) => 0);
    }

    /**
     * `calibrate_servo`: `typed` is the text waiting on the console, of which
     * at most `CalibrationReadCapacity` characters are read as `input`. A
     * leading line feed is an abort that changes nothing; the `repeat` assigned
     * on that path is a fresh local, so the caller's flag comes back as it was.
     * Otherwise `atoi(input)` is added to the one trim and the new angle is
     * echoed.
     */
    method CalibrateServo(typed: string, leg: int, servo: int, repeat: bool) returns (reply: Reply, repeat': bool)
      requires Valid() && IsLeg(leg) && IsJoint(servo)
      modifies cells
      ensures var input := CdcRead(typed, CalibrationReadCapacity);
        StartsWithNewline(input) ==>
        Trims() == old(Trims()) && reply == GoBack && repeat' == repeat
      ensures var input := CdcRead(typed, CalibrationReadCapacity);
        !StartsWithNewline(input) ==>
        Trims() == AdjustTrim(old(Trims()), leg, servo, Atoi(input)) &&
        reply == Echo(FormatInt(90 + Trims()[leg][servo])) && repeat'
    {
      var input := CdcRead(typed, CalibrationReadCapacity);
      if StartsWithNewline(input) {
        return GoBack, repeat;
      }
      ghost var before := Trims();
      cells[leg, servo] := cells[leg, servo] + Atoi(input);
      GridExtensionality(Trims(), AdjustTrim(before, leg, servo, Atoi(input)));
      reply := Echo(FormatInt(90 + cells[leg, servo]));
      repeat' := true;
    }

    /**
     * `set_leg_calibration`: dispatch on the joint selector. After a
     * calibration step, aborted or not, the flag is set to true; an invalid
     * selector leaves the table alone and sets it to false.
     */
    method SetLegCalibration(leg: int, selector: char, typed: string, repeat: bool) returns (reply: Reply, repeat': bool)
      requires Valid() && IsLeg(leg)
      modifies cells
      ensures SelectedJoint(selector).None? ==>
        Trims() == old(Trims()) && reply == InvalidServo && !repeat'
      ensures SelectedJoint(selector).Some? ==> repeat'
      ensures var input := CdcRead(typed, CalibrationReadCapacity);
        SelectedJoint(selector).Some? && StartsWithNewline(input) ==>
        Trims() == old(Trims()) && reply == GoBack
      ensures var input := CdcRead(typed, CalibrationReadCapacity);
        SelectedJoint(selector).Some? && !StartsWithNewline(input) ==>
        var joint := SelectedJoint(selector).value;
        Trims() == AdjustTrim(old(Trims()), leg, joint, Atoi(input)) &&
        reply == Echo(FormatInt(90 + Trims()[leg][joint]))
    {
      match selector
      case '1' =>
        reply, repeat' := CalibrateServo(typed, leg, 0, repeat);
        repeat' := true;
      case '2' =>
        reply, repeat' := CalibrateServo(typed, leg, 1, repeat);
        repeat' := true;
      case '3' =>
        reply, repeat' := CalibrateServo(typed, leg, 2, repeat);
        repeat' := true;
      case _ =>
        reply, repeat' := InvalidServo, false;
    }

    /**
     * The loop of `flash_data_to_memory`: the table, row-major and reduced to
     * bytes, over the first 18 bytes of the page buffer; the rest of the page
     * is left as it was.
     */
    method FlashDataToMemory(dataArray: array<uint8>)
      requires Valid() && dataArray.Length == FlashPageSize
      modifies dataArray
      ensures dataArray[..Channels] == FlashImage(Trims())
      ensures dataArray[Channels..] == old(dataArray[Channels..])
    {
      for i := 0 to Channels
        invariant forall k :: 0 <= k < i ==> dataArray[k] == ToUint8(cells[k / JointsPerLeg, k % JointsPerLeg])
        invariant dataArray[Channels..] == old(dataArray[Channels..])
      {
        dataArray[i] := ToUint8(cells[i / JointsPerLeg, i % JointsPerLeg]);
      }
      forall k | 0 <= k < Channels
        ensures dataArray[k] == FlashImage(Trims())[k]
      {
        FlatIndexOfSplit(k);
      }
    }
  }

  /**
   * Two calibration steps on the same joint, entering "5" each time on a
   * fresh table, leave the trim at 10 and echo "100".
   */
  method CalibrationScenario()
  {
    var table := new CalibrationTable();
    var reply, repeat := table.CalibrateServo("5\n", 0, 0, false);
    AtoiFormatInt(5, "\n");
    assert FormatInt(5) + "\n" == "5\n";
    reply, repeat := table.CalibrateServo("5\n", 0, 0, repeat);
    assert table.Trims()[0][0] == 10;
    assert FormatInt(100) == "100";
    assert reply == Echo("100") && repeat;
    var before := table.Trims();
    reply, repeat := table.CalibrateServo("\n", 0, 0, repeat);
    assert table.Trims() == before && reply == GoBack;
  }
}
