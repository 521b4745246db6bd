/**
 * The drawing surface the renderer paints on. The source only ever calls
 * into it, so the model keeps the calls it receives, in order, as values:
 * colours as their packed words and screen points as coordinate pairs.
 * Fonts are not part of the model.
 */
module Surfaces {
  import opened Common

  /** A pixel position on the surface. */
  datatype ScreenPoint = ScreenPoint(X: int32, Y: int32)

  /** One call made on the surface, with the arguments it was given. */
  datatype SurfaceCall =
    | DrawRectangle(pen: bv32, x: real, y: real, width: real, height: real)
    | DrawLine(pen: bv32, from: ScreenPoint, to: ScreenPoint)
    | FillRectangle(brush: bv32, x: real, y: real, width: real, height: real)
    | TranslateTransform(dx: real, dy: real)
    | ResetTransform
    | DrawString(text: string, brush: bv32, x: real, y: real)
    | DrawPolygon(pen: bv32, points: seq<ScreenPoint>)
    | FillPolygon(brush: bv32, points: seq<ScreenPoint>)
    | DrawEllipse(pen: bv32, x: real, y: real, width: real, height: real)
    | FillEllipse(brush: bv32, x: real, y: real, width: real, height: real)
    | DrawStringAt(text: string, brush: bv32, at: ScreenPoint)

  /** A surface: everything drawn on it so far. */
  class Surface {
    var Calls: seq<SurfaceCall>

    constructor ()
      ensures Calls == []
    {
      Calls := [];
    }

    /** Receives one call. */
    method Record(call: SurfaceCall)
      modifies this`Calls
      ensures Calls == old(Calls) + [call]
    {
      Calls := Calls + [call];
    }
  }
}
