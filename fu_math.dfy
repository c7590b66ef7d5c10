/** FUVector2 of FUMath.h over the reals: the operators that build new
    vectors are functions on the value type Vector2; the ones that assign
    the receiver's x and y (compound operators, operator=, setX, setY and a
    write through operator[]) are methods of the class Vector2Object. */
module FUMath {

  datatype Vector2 = Vector2(x: real, y: real)

  /** The default constructor's (0, 0). */
  const Zero := Vector2(0.0, 0.0)

  /** The const operator[]: 0 is x, 1 is y. */
  function Index(v: Vector2, n: int): real
    requires 0 <= n <= 1
  {
    if 0 == n then v.x else v.y
  }

  function Add(a: Vector2, b: Vector2): Vector2 {
    Vector2(a.x + b.x, a.y + b.y)
  }

  function Sub(a: Vector2, b: Vector2): Vector2 {
    Vector2(a.x - b.x, a.y - b.y)
  }

  function Mul(a: Vector2, b: Vector2): Vector2 {
    Vector2(a.x * b.x, a.y * b.y)
  }

  function Div(a: Vector2, b: Vector2): Vector2
    requires b.x != 0.0 && b.y != 0.0
  {
    Vector2(a.x / b.x, a.y / b.y)
  }

  function AddScalar(a: Vector2, s: real): Vector2 {
    Vector2(a.x + s, a.y + s)
  }

  function SubScalar(a: Vector2, s: real): Vector2 {
    Vector2(a.x - s, a.y - s)
  }

  function MulScalar(a: Vector2, s: real): Vector2 {
    Vector2(a.x * s, a.y * s)
  }

  function DivScalar(a: Vector2, s: real): Vector2
    requires s != 0.0
  {
    Vector2(a.x / s, a.y / s)
  }

  function Neg(a: Vector2): Vector2 {
    Vector2(-a.x, -a.y)
  }

  function Abs(x: real): real {
    if x < 0.0 then -x else x
  }

  /** operator==: both coordinates closer than epsilon. */
  predicate Equals(a: Vector2, b: Vector2, epsilon: real) {
    Abs(a.x - b.x) < epsilon && Abs(a.y - b.y) < epsilon
  }

  predicate NotEquals(a: Vector2, b: Vector2, epsilon: real) {
    !Equals(a, b, epsilon)
  }

  function LengthSquare(a: Vector2): (r: real)
    ensures r >= 0.0
  {
    a.x * a.x + a.y * a.y
  }

  /** The squared length ignores the sign, scales with the square of a
      scalar factor and is zero at the origin. */
  lemma LengthSquareLaws(a: Vector2, s: real)
    ensures LengthSquare(Neg(a)) == LengthSquare(a)
    ensures LengthSquare(MulScalar(a, s)) == s * s * LengthSquare(a)
    ensures LengthSquare(Zero) == 0.0
  {
  }

  /** linearInterpolation: this + (r - this) * fact. */
  function LinearInterpolation(a: Vector2, fact: real, r: Vector2): Vector2 {
    Add(a, MulScalar(Sub(r, a), fact))
  }

  /** A binary vector operator: the four component-wise ones. */
  datatype Operator = Plus | Minus | Times | Over

  function Apply(op: Operator, a: real, b: real): real
    requires op == Over ==> b != 0.0
  {
    match op
    case Plus => a + b
    case Minus => a - b
    case Times => a * b
    case Over => a / b
  }

  function Combine(op: Operator, a: Vector2, b: Vector2): Vector2
    requires op == Over ==> b.x != 0.0 && b.y != 0.0
  {
    match op
    case Plus => Add(a, b)
    case Minus => Sub(a, b)
    case Times => Mul(a, b)
    case Over => Div(a, b)
  }

  function CombineScalar(op: Operator, a: Vector2, s: real): Vector2
    requires op == Over ==> s != 0.0
  {
    match op
    case Plus => AddScalar(a, s)
    case Minus => SubScalar(a, s)
    case Times => MulScalar(a, s)
    case Over => DivScalar(a, s)
  }

  /** Every binary operator, with a vector or a scalar on the right, acts
      coordinate by coordinate as seen through operator[]. */
  lemma ComponentWise(op: Operator, a: Vector2, b: Vector2, s: real, n: int)
    requires 0 <= n <= 1
    requires op == Over ==> b.x != 0.0 && b.y != 0.0 && s != 0.0
    ensures Index(Combine(op, a, b), n) == Apply(op, Index(a, n), Index(b, n))
    ensures Index(CombineScalar(op, a, s), n) == Apply(op, Index(a, n), s)
    ensures Index(Neg(a), n) == -Index(a, n)
  {
  }

  lemma NegInvolution(a: Vector2)
    ensures Neg(Neg(a)) == a
  {
  }

  /** Interpolation starts at this vector and ends at r. */
  lemma LinearInterpolationEnds(a: Vector2, r: Vector2)
    ensures LinearInterpolation(a, 0.0, r) == a
    ensures LinearInterpolation(a, 1.0, r) == r
  {
  }

  /** operator!= is the negation of operator==, which is symmetric and, for
      a positive epsilon, reflexive. */
  lemma EqualityLaws(a: Vector2, b: Vector2, epsilon: real)
    ensures NotEquals(a, b, epsilon) <==> !Equals(a, b, epsilon)
    ensures Equals(a, b, epsilon) <==> Equals(b, a, epsilon)
    ensures epsilon > 0.0 ==> Equals(a, a, epsilon)
  {
  }

  /** An FUVector2 object whose coordinates are assigned in place. */
  class Vector2Object {
    var x: real
    var y: real

    function Value(): Vector2
      reads this
    {
      Vector2(x, y)
    }

    /** FUVector2(): (0, 0). */
    constructor ()
      ensures Value() == Zero
    {
      x, y := 0.0, 0.0;
    }

    /** FUVector2(nx, ny), and the copy constructor from a vector's value. */
    constructor FromCoordinates(nx: real, ny: real)
      ensures Value() == Vector2(nx, ny)
    {
      x, y := nx, ny;
    }

    /** operator=. */
    method Assign(rhs: Vector2)
      modifies this
      ensures Value() == rhs
    {
      x := rhs.x;
      y := rhs.y;
    }

    /** operator+=, -=, *= and /= with a vector on the right. */
    method CombineAssign(op: Operator, rhs: Vector2)
      requires op == Over ==> rhs.x != 0.0 && rhs.y != 0.0
      modifies this
      ensures Value() == Combine(op, old(Value()), rhs)
    {
      match op {
        case Plus =>
          x := x + rhs.x;
          y := y + rhs.y;
        case Minus =>
          x := x - rhs.x;
          y := y - rhs.y;
        case Times =>
          x := x * rhs.x;
          y := y * rhs.y;
        case Over =>
          x := x / rhs.x;
          y := y / rhs.y;
      }
    }

    /** operator+=, -=, *= and /= with a scalar on the right. */
    method CombineScalarAssign(op: Operator, rhs: real)
      requires op == Over ==> rhs != 0.0
      modifies this
      ensures Value() == CombineScalar(op, old(Value()), rhs)
    {
      match op {
        case Plus =>
          x := x + rhs;
          y := y + rhs;
        case Minus =>
          x := x - rhs;
          y := y - rhs;
        case Times =>
          x := x * rhs;
          y := y * rhs;
        case Over =>
          x := x / rhs;
          y := y / rhs;
      }
    }

    method SetX(newX: real)
      modifies this
      ensures x == newX && y == old(y)
    {
      x := newX;
    }

    method SetY(newY: real)
      modifies this
      ensures y == newY && x == old(x)
    {
      y := newY;
    }

    /** A write through the non-const operator[]: n = 0 writes x, n = 1 writes y. */
    method SetAt(n: int, value: real)
      requires 0 <= n <= 1
      modifies this
      ensures Index(Value(), n) == value
      ensures Index(Value(), 1 - n) == Index(old(Value()), 1 - n)
    {
      if 0 == n {
        x := value;
      } else {
        y := value;
      }
    }
  }
}
