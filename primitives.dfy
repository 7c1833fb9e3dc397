/** The primitive drawer's shape descriptor: up to four corner points, a
    colour, a filled flag, a shape-type code and, for bitmap shapes, the
    bitmap to draw. Its accessors read one field each; its setters change one
    field, or one coordinate of one field, in place. */
module Primitives {
  import opened Geometry

  /** A colour of three 8-bit channels; the descriptor only stores it. */
  datatype Color = Color(red: bv8, green: bv8, blue: bv8)

  /** A bitmap the descriptor can refer to; only its identity matters here. */
  class Bitmap { }

  /** The shape-type code of a bitmap primitive. */
  const BitmapType: int32 := 2

  class PrimitiveObject {
    var p1: Point
    var p2: Point
    var p3: Point
    var p4: Point
    var color: Color
    var filled: bool
    var shapeType: int32
    var bitmap: Bitmap?

    function GetP1(): (p: Point)
      reads this`p1
      ensures p == p1
    {
      p1
    }

    function GetP2(): (p: Point)
      reads this`p2
      ensures p == p2
    {
      p2
    }

    function GetP3(): (p: Point)
      reads this`p3
      ensures p == p3
    {
      p3
    }

    function GetP4(): (p: Point)
      reads this`p4
      ensures p == p4
    {
      p4
    }

    /** Stores `coord`, truncated to a 16-bit coordinate, as the y of the
        first point; its x and every other field are left as they were. */
    method SetPoint1Y(coord: int32)
      modifies this`p1
      ensures GetP1().x == old(GetP1().x)
      ensures GetP1().y == Wrap16(coord as int)
      ensures -0x8000 <= coord < 0x8000 ==> GetP1().y as int == coord as int
      ensures unchanged(this`p2, this`p3, this`p4, this`color, this`filled, this`shapeType, this`bitmap)
    {
      p1 := p1.(y := Wrap16(coord as int));
    }

    /** As `SetPoint1Y`, for the second point. */
    method SetPoint2Y(coord: int32)
      modifies this`p2
      ensures GetP2().x == old(GetP2().x)
      ensures GetP2().y == Wrap16(coord as int)
      ensures -0x8000 <= coord < 0x8000 ==> GetP2().y as int == coord as int
      ensures unchanged(this`p1, this`p3, this`p4, this`color, this`filled, this`shapeType, this`bitmap)
    {
      p2 := p2.(y := Wrap16(coord as int));
    }

    /** As `SetPoint1Y`, for the third point. */
    method SetPoint3Y(coord: int32)
      modifies this`p3
      ensures GetP3().x == old(GetP3().x)
      ensures GetP3().y == Wrap16(coord as int)
      ensures -0x8000 <= coord < 0x8000 ==> GetP3().y as int == coord as int
      ensures unchanged(this`p1, this`p2, this`p4, this`color, this`filled, this`shapeType, this`bitmap)
    {
      p3 := p3.(y := Wrap16(coord as int));
    }

    /** As `SetPoint1Y`, for the fourth point. */
    method SetPoint4Y(coord: int32)
      modifies this`p4
      ensures GetP4().x == old(GetP4().x)
      ensures GetP4().y == Wrap16(coord as int)
      ensures -0x8000 <= coord < 0x8000 ==> GetP4().y as int == coord as int
      ensures unchanged(this`p1, this`p2, this`p3, this`color, this`filled, this`shapeType, this`bitmap)
    {
      p4 := p4.(y := Wrap16(coord as int));
    }

    function GetType(): (t: int32)
      reads this`shapeType
      ensures t == shapeType
    {
      shapeType
    }

    /** Replaces the colour; nothing else changes. */
    method SetColor(c: Color)
      modifies this`color
      ensures GetColor() == c
      ensures unchanged(this`p1, this`p2, this`p3, this`p4, this`filled, this`shapeType, this`bitmap)
    {
      color := c;
    }

    function GetColor(): (c: Color)
      reads this`color
      ensures c == color
    {
      color
    }

    function IsFilled(): (b: bool)
      reads this`filled
      ensures b == filled
    {
      filled
    }

    /** A descriptor is a bitmap exactly when its type code is 2. */
    function IsBitmap(): (b: bool)
      reads this`shapeType
      ensures b <==> GetType() == BitmapType
    {
      shapeType == 2
    }

    /** The bitmap to draw; calling this without one is a programming error
        the engine stops on. */
    function GetBitmapHandle(): (b: Bitmap)
      reads this`bitmap
      requires bitmap != null
      ensures b == bitmap
    {
      bitmap
    }
  }
}
