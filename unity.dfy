/**
 * The UnityEngine value types the overlay uses: `Vector2`, `Color`, the `Mathf`
 * functions, and the vertex pairs that `GL.Begin(GL.LINES)` ... `GL.End()` submits.
 * Floats are reals; `Mathf.Cos`, `Mathf.Sin` and `Mathf.Sqrt` are not interpreted,
 * so they are given as function values wherever geometry is computed.
 */
module Unity {

  datatype Vec2 = Vec2(x: real, y: real) {
    function Plus(o: Vec2): Vec2 { Vec2(x + o.x, y + o.y) }
    function Minus(o: Vec2): Vec2 { Vec2(x - o.x, y - o.y) }
    function Times(k: real): Vec2 { Vec2(x * k, y * k) }
  }

  const Zero: Vec2 := Vec2(0.0, 0.0)

  /** `UnityEngine.Color`: four float channels; `new Color(r, g, b)` has alpha 1. */
  datatype Color = Color(r: real, g: real, b: real, a: real)

  const White: Color := Color(1.0, 1.0, 1.0, 1.0)

  /** The three host math functions the geometry calls. */
  datatype Mathf = Mathf(Cos: real -> real, Sin: real -> real, Sqrt: real -> real)

  /** `Mathf.Deg2Rad` as the float constant it is. */
  const Deg2Rad: real := 0.0174532924

  /** `Vector2.normalized` treats magnitudes up to this as zero. */
  const NormalizeEpsilon: real := 0.00001

  function Magnitude(v: Vec2, m: Mathf): real {
    m.Sqrt(v.x * v.x + v.y * v.y)
  }

  /** `v.normalized`: `v / |v|`, or the zero vector when `|v|` is tiny. */
  function Normalized(v: Vec2, m: Mathf): Vec2 {
    var mag := Magnitude(v, m);
    if mag > NormalizeEpsilon then Vec2(v.x / mag, v.y / mag) else Zero
  }

  /** `Vector2.Distance(a, b)` */
  function Distance(a: Vec2, b: Vec2, m: Mathf): real {
    Magnitude(a.Minus(b), m)
  }

  /** One `GL.Vertex3(start)`, `GL.Vertex3(end)` pair inside a `GL.LINES` batch, drawn in `color`. */
  datatype Segment = Segment(start: Vec2, end: Vec2, color: Color)
}
