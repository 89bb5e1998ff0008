/**
 * The per-leg inverse kinematics of the hexapod: from a target point in a
 * leg's own frame to the commands of that leg's three servos, with the
 * hard-coded trims added after solving.
 */
module Movement {
  import opened Layout

  /** `M_PI` as the C library spells it. */
  const Pi: real := 3.14159265358979323846

  /** Radians to degrees, as the solver converts: times 180, divided by `M_PI`. */
  function Degrees(radians: real): (degrees: real)
    ensures degrees * Pi == radians * 180.0
  {
    radians * 180.0 / Pi
  }

  /**
   * The C math library the solver calls, left uninterpreted: `sqrt`, `acos`,
   * `atan2` and floating-point division `div` (what it gives for a zero
   * divisor, an infinity or a NaN, is not modelled).
   */
  datatype MathLib = MathLib(
    sqrt: real -> real,
    acos: real -> real,
    atan2: (real, real) -> real,
    div: (real, real) -> real)

  /** `sqrt` gives the non-negative square root of a non-negative argument. */
  ghost predicate ExactSqrt(m: MathLib)
  {
    forall v :: 0.0 <= v ==> 0.0 <= m.sqrt(v) && m.sqrt(v) * m.sqrt(v) == v
  }

  /** `div` is real division wherever the divisor is not zero. */
  ghost predicate ExactDivision(m: MathLib)
  {
    forall a, b :: b != 0.0 ==> m.div(a, b) == a / b
  }

  /** The link lengths L1 (coxa), L2 (tibia) and L3 (femur) of a leg. */
  datatype Links = Links(l1: real, l2: real, l3: real)

  /** Everything `endpoint` computes for one target, field by field. */
  datatype LegSolution = LegSolution(
    r1: real, r2: real, r3: real,
    phi2: real, phi3: real,
    theta1: real, theta2: real, theta3: real)

  /** `sqrt(a * a + b * b)`: the length of the hypotenuse with legs a and b. */
  function Hypot(m: MathLib, a: real, b: real): real
  {
    m.sqrt(a * a + b * b)
  }

  /**
   * `(a * a + b * b - c * c) / (2 * a * b)`: by the law of cosines, the
   * cosine of the angle between sides a and b of a triangle whose third side is c.
   */
  function CosineOpposite(m: MathLib, a: real, b: real, c: real): real
  {
    m.div(a * a + b * b - c * c, 2.0 * a * b)
  }

  /**
   * The solver's formulas for target (x, y, z); there is no reachability check
   * and no clamping. With an exact square root, r1 is the horizontal distance
   * from the coxa axis to the target, r2 that distance less the coxa link, and
   * r3 the distance from the tibia joint to the target in the leg's vertical plane.
   */
  function SolveLeg(m: MathLib, k: Links, x: real, y: real, z: real): (s: LegSolution)
    ensures s.r2 == s.r1 - k.l1
    ensures ExactSqrt(m) ==>
      0.0 <= s.r1 && s.r1 * s.r1 == x * x + y * y &&
      0.0 <= s.r3 && s.r3 * s.r3 == s.r2 * s.r2 + z * z
  {
    var r1 := Hypot(m, x, y);
    var r2 := r1 - k.l1;
    var r3 := Hypot(m, r2, z);
    HypotLength(m, x, y);
    HypotLength(m, r2, z);
    var phi2 := m.acos(CosineOpposite(m, r3, k.l2, k.l3));
    var phi3 := m.atan2(z, r2);
    LegSolution(
      r1, r2, r3, phi2, phi3,
      Degrees(m.atan2(y, x)),
      Degrees(phi2 + phi3),
      Degrees(m.acos(CosineOpposite(m, k.l2, k.l3, r3))))
  }

  /** The coxa angle, and the horizontal distances, do not depend on the height z. */
  lemma CoxaIgnoresHeight(m: MathLib, k: Links, x: real, y: real, z1: real, z2: real)
    ensures SolveLeg(m, k, x, y, z1).theta1 == SolveLeg(m, k, x, y, z2).theta1 == Degrees(m.atan2(y, x))
    ensures SolveLeg(m, k, x, y, z1).r1 == SolveLeg(m, k, x, y, z2).r1
    ensures SolveLeg(m, k, x, y, z1).r2 == SolveLeg(m, k, x, y, z2).r2
  {
  }

  /** With an exact square root, `Hypot(m, a, b)` is the length of the vector (a, b). */
  lemma HypotLength(m: MathLib, a: real, b: real)
    ensures ExactSqrt(m) ==> 0.0 <= Hypot(m, a, b) && Hypot(m, a, b) * Hypot(m, a, b) == a * a + b * b
  {
    Square(a);
    Square(b);
  }

  lemma Square(a: real)
    ensures 0.0 <= a * a
    ensures a * a == 0.0 ==> a == 0.0
  {
    if a != 0.0 {
      assert a * a / a == a;
    }
  }

  lemma NonzeroProduct(a: real, b: real)
    requires a != 0.0 && b != 0.0
    ensures a * b != 0.0
  {
    assert a * b / b == a;
  }

  /**
   * The law-of-cosines quotient for phi2 divides by zero exactly when the
   * target sits on the tibia joint: r3 is 0 just when r2 and z both are.
   */
  lemma TibiaSingularity(m: MathLib, k: Links, x: real, y: real, z: real)
    requires ExactSqrt(m)
    ensures var s := SolveLeg(m, k, x, y, z);
      s.r3 == 0.0 <==> s.r2 == 0.0 && z == 0.0
  {
    var s := SolveLeg(m, k, x, y, z);
    Square(s.r2);
    Square(z);
    Square(s.r3);
  }

  /**
   * Away from that singularity, phi2 is the angle at the tibia joint between
   * the link L2 and the line to the target: the arccosine of the law of
   * cosines on r3, L2 and L3.
   */
  lemma TibiaJointAngle(m: MathLib, k: Links, x: real, y: real, z: real)
    requires ExactDivision(m) && k.l2 != 0.0
    ensures var s := SolveLeg(m, k, x, y, z);
      s.phi2 == m.acos(CosineOpposite(m, s.r3, k.l2, k.l3)) &&
      (s.r3 != 0.0 ==>
        CosineOpposite(m, s.r3, k.l2, k.l3) == (s.r3 * s.r3 + k.l2 * k.l2 - k.l3 * k.l3) / (2.0 * s.r3 * k.l2))
  {
    var s := SolveLeg(m, k, x, y, z);
    if s.r3 != 0.0 {
      CosineQuotient(m, s.r3, k.l2, k.l3);
    }
  }

  /** The tibia angle theta2 is phi2 plus the elevation phi3 = atan2(z, r2), in degrees. */
  lemma TibiaAngle(m: MathLib, k: Links, x: real, y: real, z: real)
    ensures var s := SolveLeg(m, k, x, y, z);
      s.phi3 == m.atan2(z, s.r2) &&
      s.theta2 == Degrees(s.phi2) + Degrees(s.phi3)
  {
  }

  /**
   * The femur angle theta3 is the angle between the links L2 and L3 opposite
   * r3, in degrees; it is defined for every target once both links are non-zero.
   */
  lemma FemurAngle(m: MathLib, k: Links, x: real, y: real, z: real)
    requires ExactDivision(m) && k.l2 != 0.0 && k.l3 != 0.0
    ensures var s := SolveLeg(m, k, x, y, z);
      s.theta3 == Degrees(m.acos(CosineOpposite(m, k.l2, k.l3, s.r3))) &&
      CosineOpposite(m, k.l2, k.l3, s.r3) == (k.l2 * k.l2 + k.l3 * k.l3 - s.r3 * s.r3) / (2.0 * k.l2 * k.l3)
  {
    var s := SolveLeg(m, k, x, y, z);
    CosineQuotient(m, k.l2, k.l3, s.r3);
  }

  /** With sound division and nonzero sides, the quotient is the exact real one. */
  lemma CosineQuotient(m: MathLib, a: real, b: real, c: real)
    requires ExactDivision(m) && a != 0.0 && b != 0.0
    ensures CosineOpposite(m, a, b, c) == (a * a + b * b - c * c) / (2.0 * a * b)
  {
    NonzeroProduct(2.0 * a, b);
  }

  /** The hard-coded trims `servo_state`, in degrees: coxa, tibia, femur per leg. */
  const ServoState: seq<seq<real>> := [
    [-5.0, 0.0, -10.0],
    [0.0, -5.0, -2.0],
    [-4.0, 8.0, -10.0],
    [3.0, 0.0, 10.0],
    [0.0, 0.0, 0.0],
    [-5.0, -5.0, 0.0]]

  /** The solved angle of a joint before its trim: the tibia is centred at 90 degrees. */
  function JointAngle(s: LegSolution, joint: int): real
    requires IsJoint(joint)
  {
    if joint == 0 then s.theta1
    else if joint == 1 then s.theta2 + 90.0
    else s.theta3
  }

  /** The trim of one joint of one leg; every hard-coded trim is within 10 degrees of zero. */
  function ServoTrim(leg: int, joint: int): (trim: real)
    requires IsLeg(leg) && IsJoint(joint)
    ensures -10.0 <= trim <= 10.0
  {
    ServoState[leg][joint]
  }

  /** The command sent to joint `joint` of leg `leg`: the solved angle, then the trim. */
  function JointCommand(s: LegSolution, leg: int, joint: int): (command: real)
    requires IsLeg(leg) && IsJoint(joint)
    ensures command - ServoTrim(leg, joint) == JointAngle(s, joint)
  {
    JointAngle(s, joint) + ServoTrim(leg, joint)
  }

  /**
   * The cluster's channels after leg `leg` is commanded to `s`: the leg's
   * three channels carry its joint commands, every other channel is as it was.
   */
  function Commanded(channels: seq<real>, leg: int, s: LegSolution): (after: seq<real>)
    requires |channels| == Channels && IsLeg(leg)
    ensures |after| == Channels
    ensures forall ch :: 0 <= ch < Channels ==>
      after[ch] == if ch / JointsPerLeg == leg then JointCommand(s, leg, ch % JointsPerLeg) else channels[ch]
  {
    var after := channels[FlatIndex(leg, 0) := JointCommand(s, leg, 0)]
                         [FlatIndex(leg, 1) := JointCommand(s, leg, 1)]
                         [FlatIndex(leg, 2) := JointCommand(s, leg, 2)];
    forall ch | 0 <= ch < Channels
      ensures after[ch] == if ch / JointsPerLeg == leg then JointCommand(s, leg, ch % JointsPerLeg) else channels[ch]
    {
      FlatIndexOfSplit(ch);
    }
    after
  }

  /**
   * Commanding two different legs touches disjoint channels: the order does
   * not matter, and each leg keeps the commands it was given.
   */
  lemma LegsDoNotInterfere(channels: seq<real>, l1: int, s1: LegSolution, l2: int, s2: LegSolution)
    requires |channels| == Channels && IsLeg(l1) && IsLeg(l2) && l1 != l2
    ensures Commanded(Commanded(channels, l1, s1), l2, s2) == Commanded(Commanded(channels, l2, s2), l1, s1)
    ensures forall j :: 0 <= j < JointsPerLeg ==>
      Commanded(Commanded(channels, l1, s1), l2, s2)[FlatIndex(l1, j)] == JointCommand(s1, l1, j)
  {
    var a := Commanded(Commanded(channels, l1, s1), l2, s2);
    var b := Commanded(Commanded(channels, l2, s2), l1, s1);
    forall ch | 0 <= ch < Channels
      ensures a[ch] == b[ch]
    {
    }
  }

  /** The target the solver ignores: exactly the leg's origin. */
  predicate AtOrigin(x: real, y: real, z: real)
  {
    x == 0.0 && y == 0.0 && z == 0.0
  }

  /** One leg's solver, driving three channels of the shared servo cluster. */
  class Kinematics {
    const servos: array<real>
    const legNum: int
    var r1: real
    var r2: real
    var r3: real
    var phi2: real
    var phi3: real
    var theta1: real
    var theta2: real
    var theta3: real

    /** The fields `endpoint` last computed. */
    function Solution(): LegSolution
      reads this
    {
      LegSolution(r1, r2, r3, phi2, phi3, theta1, theta2, theta3)
    }

    /** Stores the cluster and the leg number as given. */
    constructor (servoCluster: array<real>, legNumber: int)
      ensures servos == servoCluster && legNum == legNumber
    {
      servos := servoCluster;
      legNum := legNumber;
    }

    /**
     * `Kinematics::endpoint`: at exactly the origin nothing happens;
     * otherwise the solver's fields are recomputed and the leg's three
     * channels get their trimmed commands.
     */
    method Endpoint(m: MathLib, k: Links, x: real, y: real, z: real)
      requires IsLeg(legNum) && servos.Length == Channels
      modifies this, servos
      ensures AtOrigin(x, y, z) ==> unchanged(this) && unchanged(servos)
      ensures !AtOrigin(x, y, z) ==>
        Solution() == SolveLeg(m, k, x, y, z) &&
        servos[..] == Commanded(old(servos[..]), legNum, SolveLeg(m, k, x, y, z))
    {
      if !AtOrigin(x, y, z) {
        ghost var before := servos[..];
        ghost var s := SolveLeg(m, k, x, y, z);
        r1 := Hypot(m, x, y);
        r2 := r1 - k.l1;
        r3 := Hypot(m, r2, z);
        assert r3 == s.r3;

        phi2 := m.acos(CosineOpposite(m, r3, k.l2, k.l3));
        phi3 := m.atan2(z, r2);

        theta1 := Degrees(m.atan2(y, x));
        theta2 := Degrees(phi2 + phi3);
        theta3 := Degrees(m.acos(CosineOpposite(m, k.l2, k.l3, r3)));
        assert Solution() == s;

        var c0, c1, c2 := theta1 + ServoTrim(legNum, 0), theta2 + 90.0 + ServoTrim(legNum, 1), theta3 + ServoTrim(legNum, 2);
        servos[FlatIndex(legNum, 0)] := c0;
        servos[FlatIndex(legNum, 1)] := c1;
        servos[FlatIndex(legNum, 2)] := c2;
        assert servos[..] == before[FlatIndex(legNum, 0) := c0][FlatIndex(legNum, 1) := c1][FlatIndex(legNum, 2) := c2];
        assert c0 == JointCommand(s, legNum, 0) && c1 == JointCommand(s, legNum, 1) && c2 == JointCommand(s, legNum, 2);
        assert servos[..] == Commanded(before, legNum, s);
      }
    }
  }
}
