/**
 * A ray of the parallel beam: where it starts, which way it travels, and the side
 * length of the image it was set up for. The accessors of the C++ `Ray` class are
 * the datatype's fields; a datatype value has no separate copy and move forms.
 */
module Rays {
  import opened Geometry

  datatype Ray = Ray(origin: Vec2, direction: Vec2, length: nat)
}
