/**
 * A wheel of the bike drawing: built from a rim diameter and a tire width,
 * it keeps the rim radius and the tire width, and answers the radius of the
 * wheel with its tire.
 */
module WheelModel {

  class Wheel {
    var radius: real
    var tireWidth: real

    /** A wheel of rim diameter `diameter` with a tire `tireWidth` high; both default to 0. */
    constructor(diameter: real := 0.0, tireWidth: real := 0.0)
      ensures 2.0 * radius == diameter
      ensures this.tireWidth == tireWidth
    {
      radius := diameter / 2.0;
      this.tireWidth := tireWidth;
    }

    /** `radiusWithTire`: the tire adds its width to the rim radius. */
    function RadiusWithTire(): (r: real)
      reads this
      ensures r - radius == tireWidth
    {
      radius + tireWidth
    }
  }

  /** The outer radius of a wheel built from a rim diameter and a tire width. */
  method OuterRadius(diameter: real, tireWidth: real) returns (r: real)
    ensures 2.0 * r == diameter + 2.0 * tireWidth
  {
    var w := new Wheel(diameter, tireWidth);
    r := w.RadiusWithTire();
  }

  /** A wheel built with the default arguments has radius 0, with or without its tire. */
  method DefaultWheel() returns (radius: real, withTire: real)
    ensures radius == 0.0 && withTire == 0.0
  {
    var w := new Wheel();
    radius := w.radius;
    withTire := w.RadiusWithTire();
  }

  /** A 622 mm rim with a 28 mm tire reaches 339 mm from the hub. */
  method RoadWheel() returns (r: real)
    ensures r == 339.0
  {
    r := OuterRadius(622.0, 28.0);
  }
}
