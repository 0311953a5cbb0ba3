/** XNA `Vector2` over the reals. */
module Vectors {

  datatype Vec2 = Vec2(x: real, y: real)
  {
    function Add(other: Vec2): Vec2
    {
      Vec2(x + other.x, y + other.y)
    }

    function Sub(other: Vec2): Vec2
    {
      Vec2(x - other.x, y - other.y)
    }

    function Scale(k: real): Vec2
    {
      Vec2(x * k, y * k)
    }

    function Div(k: real): Vec2
      requires k != 0.0
    {
      Vec2(x / k, y / k)
    }

    function LengthSquared(): real
    {
      x * x + y * y
    }
  }

  const Zero := Vec2(0.0, 0.0)
}
