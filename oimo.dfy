/**
 * The limit and motor settings of a rotational or translational joint in the
 * Oimo physics engine (OIMO::LimitMotor). The object only stores its eight
 * values; the solver that reads them is not part of this model.
 */
module Oimo {

  /** A three-component vector; the joint axis. */
  datatype Vec3 = Vec3(x: real, y: real, z: real)

  /** The eight stored values of a LimitMotor, taken together as one value. */
  datatype MotorState = MotorState(
    axis: Vec3,
    angle: real,
    lowerLimit: real,
    upperLimit: real,
    motorSpeed: real,
    maxMotorForce: real,
    frequency: real,
    dampingRatio: real)

  class LimitMotor {
    var axis: Vec3
    var angle: real
    var lowerLimit: real
    var upperLimit: real
    var motorSpeed: real
    var maxMotorForce: real
    var frequency: real
    var dampingRatio: real

    /** All eight fields as one value. */
    function State(): (st: MotorState)
      reads this
    {
      MotorState(axis, angle, lowerLimit, upperLimit, motorSpeed, maxMotorForce, frequency, dampingRatio)
    }

    /** LimitMotor(axis, fixed): a fixed motor starts with lower limit 0, a free one with lower limit 1. */
    constructor (axis: Vec3, fixed: bool)
      ensures State() == MotorState(axis, 0.0, if fixed then 0.0 else 1.0, 0.0, 0.0, 0.0, 0.0, 0.0)
    {
      this.axis := axis;
      angle := 0.0;
      lowerLimit := if fixed then 0.0 else 1.0;
      upperLimit := 0.0;
      motorSpeed := 0.0;
      maxMotorForce := 0.0;
      frequency := 0.0;
      dampingRatio := 0.0;
    }

    /** The copy constructor: a new motor holding the same eight values as lm. */
    constructor Copy(lm: LimitMotor)
      ensures State() == lm.State()
    {
      axis := lm.axis;
      angle := lm.angle;
      lowerLimit := lm.lowerLimit;
      upperLimit := lm.upperLimit;
      motorSpeed := lm.motorSpeed;
      maxMotorForce := lm.maxMotorForce;
      frequency := lm.frequency;
      dampingRatio := lm.dampingRatio;
    }

    /**
     * The move constructor runs the move assignment on a not yet initialised
     * object, so lm receives whatever the new object held before; C++ leaves
     * those floats indeterminate, and the model starts the object from zeros.
     */
    constructor Move(lm: LimitMotor)
      modifies lm
      ensures State() == old(lm.State())
    {
      axis := Vec3(0.0, 0.0, 0.0);
      angle, lowerLimit, upperLimit := 0.0, 0.0, 0.0;
      motorSpeed, maxMotorForce, frequency, dampingRatio := 0.0, 0.0, 0.0, 0.0;
      new;
      var self := MoveAssign(lm);
    }

    /** Copy assignment: every field takes lm's value; assigning a motor to itself changes nothing. */
    method CopyAssign(lm: LimitMotor) returns (self: LimitMotor)
      modifies this
      ensures self == this
      ensures State() == old(lm.State())
      ensures lm == this ==> State() == old(State())
      ensures lm.State() == old(lm.State())
    {
      if lm != this {
        axis := lm.axis;
        angle := lm.angle;
        lowerLimit := lm.lowerLimit;
        upperLimit := lm.upperLimit;
        motorSpeed := lm.motorSpeed;
        maxMotorForce := lm.maxMotorForce;
        frequency := lm.frequency;
        dampingRatio := lm.dampingRatio;
      }
      self := this;
    }

    /** Move assignment: the two motors exchange all eight fields; moving a motor into itself changes nothing. */
    method MoveAssign(lm: LimitMotor) returns (self: LimitMotor)
      modifies this, lm
      ensures self == this
      ensures lm != this ==> State() == old(lm.State()) && lm.State() == old(State())
      ensures lm == this ==> State() == old(State())
    {
      if lm != this {
        axis, lm.axis := lm.axis, axis;
        angle, lm.angle := lm.angle, angle;
        lowerLimit, lm.lowerLimit := lm.lowerLimit, lowerLimit;
        upperLimit, lm.upperLimit := lm.upperLimit, upperLimit;
        motorSpeed, lm.motorSpeed := lm.motorSpeed, motorSpeed;
        maxMotorForce, lm.maxMotorForce := lm.maxMotorForce, maxMotorForce;
        frequency, lm.frequency := lm.frequency, frequency;
        dampingRatio, lm.dampingRatio := lm.dampingRatio, dampingRatio;
      }
      self := this;
    }

    /** clone(): a copy returned by value, modelled as a new object with the same values. */
    method Clone() returns (c: LimitMotor)
      ensures fresh(c)
      ensures c.State() == State()
    {
      c := new LimitMotor.Copy(this);
    }

    /** cloneToNewObject(): a heap-allocated copy, distinct from this motor. */
    method CloneToNewObject() returns (c: LimitMotor)
      ensures fresh(c) && c != this
      ensures c.State() == State()
    {
      c := new LimitMotor.Copy(this);
    }

    /** setLimit: sets the two limits and nothing else. */
    method SetLimit(lower: real, upper: real)
      modifies this
      ensures State() == old(State()).(lowerLimit := lower, upperLimit := upper)
    {
      lowerLimit := lower;
      upperLimit := upper;
    }

    /** setMotor: sets the motor speed and the maximum motor force and nothing else. */
    method SetMotor(speed: real, maxForce: real)
      modifies this
      ensures State() == old(State()).(motorSpeed := speed, maxMotorForce := maxForce)
    {
      motorSpeed := speed;
      maxMotorForce := maxForce;
    }

    /** setSpring: sets the spring frequency and damping ratio and nothing else. */
    method SetSpring(frequency: real, dampingRatio: real)
      modifies this
      ensures State() == old(State()).(frequency := frequency, dampingRatio := dampingRatio)
    {
      this.frequency := frequency;
      this.dampingRatio := dampingRatio;
    }
  }

  /** Moving b into a and then moving b into a again leaves both motors as they were. */
  method MoveAssignTwice(a: LimitMotor, b: LimitMotor)
    modifies a, b
    ensures a.State() == old(a.State()) && b.State() == old(b.State())
  {
    var r := a.MoveAssign(b);
    r := a.MoveAssign(b);
  }

  /** Copying a motor and then changing the copy's limits leaves the original untouched. */
  method CopyIsIndependent(lm: LimitMotor, lower: real, upper: real) returns (c: LimitMotor)
    ensures lm.State() == old(lm.State())
    ensures c.State() == old(lm.State()).(lowerLimit := lower, upperLimit := upper)
  {
    c := lm.Clone();
    c.SetLimit(lower, upper);
  }
}
