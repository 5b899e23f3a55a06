/**
 * The per-file resize decision: whether an image is resized and which of its
 * sides is pinned to the limit, and the geometry argument that says so to the
 * resize command.
 */
module Resize {
  import opened Wrappers
  import opened Numerals
  import opened Probe

  /** The side pinned to the limit; the other follows the aspect ratio. */
  datatype Axis = Width | Height

  function MaxDim(d: Dims): int {
    if d.w >= d.h then d.w else d.h
  }

  /** `None` when the image is left alone, else the side to pin. */
  function Decide(d: Dims, limit: int): Option<Axis> {
    var maxDim := MaxDim(d);
    if maxDim > limit then
      if d.w > d.h then Some(Width) else Some(Height)
    else None
  }

  /**
   * An image is resized exactly when one of its sides exceeds the limit; the
   * width is pinned exactly when it is strictly the longer side, so a square
   * image or a taller one has its height pinned. Either way the pinned side
   * is a longest one and exceeds the limit.
   */
  lemma DecideCases(d: Dims, limit: int)
    ensures Decide(d, limit).Some? <==> d.w > limit || d.h > limit
    ensures Decide(d, limit) == Some(Width) <==> d.w > limit && d.w > d.h
    ensures Decide(d, limit) == Some(Height) <==> d.h > limit && d.h >= d.w
    ensures Decide(d, limit) == Some(Width) ==> d.w == MaxDim(d)
    ensures Decide(d, limit) == Some(Height) ==> d.h == MaxDim(d)
  {
  }

  /** A resize order handed to the resize command. */
  datatype Command = Convert(path: string, axis: Axis, limit: int)

  /**
   * The `-resize` geometry: "<limit>X" pins the width, "X<limit>" pins the
   * height.
   */
  function Geometry(axis: Axis, limit: int): string {
    match axis
    case Width => Show(limit) + "X"
    case Height => "X" + Show(limit)
  }

  /** Reads the pinned side and the limit back from a geometry. */
  function ParseGeometry(g: string): Option<(Axis, int)> {
    if |g| >= 1 && g[0] == 'X' then
      match ParseInt(g[1..])
      case Some(n) => Some((Height, n))
      case None => None
    else if |g| >= 1 && g[|g| - 1] == 'X' then
      match ParseInt(g[..|g| - 1])
      case Some(n) => Some((Width, n))
      case None => None
    else None
  }

  /** The geometry names exactly one side and the limit. */
  lemma GeometryRoundTrip(axis: Axis, limit: int)
    ensures ParseGeometry(Geometry(axis, limit)) == Some((axis, limit))
  {
    ParseShow(limit);
    match axis
    case Width => WidthGeometry(Show(limit));
    case Height => HeightGeometry(Show(limit));
  }

  lemma WidthGeometry(s: string)
    requires s != [] && s[0] != 'X'
    ensures ParseGeometry(s + "X") == (match ParseInt(s) case Some(n) => Some((Width, n)) case None => None)
  {
    var g := s + "X";
    assert g[0] == s[0];
    assert g[..|g| - 1] == s;
  }

  lemma HeightGeometry(s: string)
    ensures ParseGeometry("X" + s) == (match ParseInt(s) case Some(n) => Some((Height, n)) case None => None)
  {
    assert ("X" + s)[1..] == s;
  }
}
