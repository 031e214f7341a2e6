/** Fixed configuration, geometry records and enumerations shared by the
    window-policy core of the compositor. */
module Config {

  // The compositor's compile-time configuration.
  const EdgeMargin: int := 2
  const TitlebarPadding: int := 2
  const BorderSize: int := 3
  const DoubleclickInterval: int := 500

  /** The toolkit's edge bitmask (wlr_edges): a `uint32_t` of four flags. */
  type Edges = bv32

  const EdgeNone: Edges := 0
  const EdgeTop: Edges := 1
  const EdgeBottom: Edges := 2
  const EdgeLeft: Edges := 4
  const EdgeRight: Edges := 8

  predicate Has(edges: Edges, edge: Edges) {
    edges & edge != 0
  }

  /** Linux input event codes of the two buttons the core reacts to. */
  const ButtonLeft: bv32 := 0x110
  const ButtonMiddle: bv32 := 0x112

  /** Opaque identity of a client surface. */
  type SurfaceId = nat

  /** A box with an origin and an extent (wlr_box, and the saved previous geometry). */
  datatype Box = Box(x: int, y: int, width: int, height: int)

  datatype Size = Size(width: int, height: int)

  /** The output under the cursor: only its width and height are ever read. */
  datatype Output = Output(width: int, height: int)

  /** The pointer modes of the interaction state machine. */
  datatype CursorMode = Passthrough | Move | Resize | Pressed

  /** Where a pointer hit lands relative to a window's decoration. */
  datatype Region = NoDecoration | Titlebar | Border

  datatype Option<T> = None | Some(value: T)

  /** C's `n / 2` on `int`: the quotient truncated toward zero. */
  function Half(n: int): (h: int)
    ensures n >= 0 ==> 0 <= h && h + h <= n <= h + h + 1
    ensures n < 0 ==> h <= 0 && h + h - 1 <= n <= h + h
  {
    if n >= 0 then n / 2 else -((-n) / 2)
  }
}
