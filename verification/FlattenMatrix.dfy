/** The matrix that fits a flattened appearance into its annotation rectangle, over the reals. */
module FlattenMatrix {

  datatype Point = Point(x: real, y: real)

  datatype Rect = Rect(left: real, bottom: real, right: real, top: real) {
    function Width(): real { right - left }
    function Height(): real { top - bottom }
    predicate IsEmpty() { left >= right || bottom >= top }

    function Normalize(): (r: Rect)
      ensures r.left <= r.right && r.bottom <= r.top
      ensures {r.left, r.right} == {left, right} && {r.bottom, r.top} == {bottom, top}
    {
      Rect(Min(left, right), Min(bottom, top), Max(left, right), Max(bottom, top))
    }
  }

  function Min(x: real, y: real): real { if y < x then y else x }
  function Max(x: real, y: real): real { if x < y then y else x }

  function Row(p: real, q: real, r: real, x: real, y: real): real { p * x + q * y + r }

  datatype Matrix = Matrix(a: real, b: real, c: real, d: real, e: real, f: real) {
    function Transform(p: Point): Point {
      Point(Row(a, c, e, p.x, p.y), Row(b, d, f, p.x, p.y))
    }

    /** The product that applies this matrix first. */
    function Concat(m: Matrix): Matrix {
      Matrix(Row(m.a, m.c, 0.0, a, b), Row(m.b, m.d, 0.0, a, b), Row(m.a, m.c, 0.0, c, d), Row(m.b, m.d, 0.0, c, d),
             Row(m.a, m.c, m.e, e, f), Row(m.b, m.d, m.f, e, f))
    }

    /** The bounding box of the image of a rectangle. */
    function TransformRect(r: Rect): (box: Rect)
      ensures box.left <= box.right && box.bottom <= box.top
    {
      var (p, q, s, t) := (Transform(Point(r.left, r.top)), Transform(Point(r.left, r.bottom)),
                           Transform(Point(r.right, r.top)), Transform(Point(r.right, r.bottom)));
      Rect(Low(p.x, q.x, s.x, t.x), Low(p.y, q.y, s.y, t.y), High(p.x, q.x, s.x, t.x), High(p.y, q.y, s.y, t.y))
    }
  }

  const IDENTITY := Matrix(1.0, 0.0, 0.0, 1.0, 0.0, 0.0)

  predicate Invertible(box: Rect, form: Matrix) {
    form.TransformRect(box).Width() != 0.0 && form.TransformRect(box).Height() != 0.0
  }

  /** GetMatrix. A box whose image has no width or height gives no number, so it is kept out. */
  function FitMatrix(annot: Rect, box: Rect, form: Matrix): Matrix
    requires !box.IsEmpty() ==> Invertible(box, form)
  {
    if box.IsEmpty() then IDENTITY
    else
      var image := form.TransformRect(box).Normalize();
      var (a, d) := (annot.Width() / image.Width(), annot.Height() / image.Height());
      Matrix(a, 0.0, 0.0, d, annot.left - image.left * a, annot.bottom - image.bottom * d)
  }

  lemma TransformConcat(m: Matrix, n: Matrix, p: Point)
    ensures m.Concat(n).Transform(p) == n.Transform(m.Transform(p))
  {
    hide Row;
    NestedRows(m, n.a, n.c, n.e, p);
    NestedRows(m, n.b, n.d, n.f, p);
  }

  lemma NestedRows(m: Matrix, g: real, h: real, k: real, p: Point)
    ensures Row(Row(g, h, 0.0, m.a, m.b), Row(g, h, 0.0, m.c, m.d), Row(g, h, k, m.e, m.f), p.x, p.y)
         == Row(g, h, k, Row(m.a, m.c, m.e, p.x, p.y), Row(m.b, m.d, m.f, p.x, p.y))
  {
    Products(m.a, m.b, m.c, m.d, m.e, m.f, g, h, k, p.x, p.y);
  }

  lemma Products(a: real, b: real, c: real, d: real, e: real, f: real, g: real, h: real, k: real, x: real, y: real)
    ensures (g * a + h * b + 0.0) * x + (g * c + h * d + 0.0) * y + (g * e + h * f + k)
         == g * (a * x + c * y + e) + h * (b * x + d * y + f) + k
  {
    assert (g * a + h * b) * x == g * (a * x) + h * (b * x);
    assert (g * c + h * d) * y == g * (c * y) + h * (d * y);
  }

  lemma ScalePair(k: real, s: real, p: real, q: real, p': real, q': real)
    requires k >= 0.0 && p' == k * p + s && q' == k * q + s
    ensures Min(p', q') == k * Min(p, q) + s && Max(p', q') == k * Max(p, q) + s
  {
    if p <= q { ScaleOrder(k, p, q); } else { ScaleOrder(k, q, p); }
  }

  lemma ScaleOrder(k: real, p: real, q: real)
    requires k >= 0.0 && p <= q
    ensures k * p <= k * q
  {
    assert k * (q - p) >= 0.0;
  }

  lemma Quotient(w: real, v: real)
    requires w >= 0.0 && v > 0.0
    ensures w / v >= 0.0 && w / v * v == w
  {
  }

  predicate Contains(r: Rect, p: Point) { r.left <= p.x <= r.right && r.bottom <= p.y <= r.top }

  /** The corners of a rectangle. */
  function Corners(r: Rect): set<Point> {
    {Point(r.left, r.bottom), Point(r.left, r.top), Point(r.right, r.bottom), Point(r.right, r.top)}
  }

  lemma RowOrder(p: real, q: real, r: real, x: real, x': real, y: real)
    requires x <= x'
    ensures p >= 0.0 ==> Row(p, q, r, x, y) <= Row(p, q, r, x', y)
    ensures p <= 0.0 ==> Row(p, q, r, x', y) <= Row(p, q, r, x, y)
  {
    var d := x' - x;
    assert p * x' == p * x + p * d;
    assert p >= 0.0 ==> p * d >= 0.0;
    assert p <= 0.0 ==> p * d <= 0.0;
  }

  /** Along one axis a row of a matrix takes numbers in between to values in between. */
  lemma RowAcross(p: real, q: real, r: real, low: real, x: real, high: real, y: real)
    requires low <= x <= high
    ensures Min(Row(p, q, r, low, y), Row(p, q, r, high, y)) <= Row(p, q, r, x, y)
    ensures Row(p, q, r, x, y) <= Max(Row(p, q, r, low, y), Row(p, q, r, high, y))
  {
    hide Row;
    RowOrder(p, q, r, low, x, y);
    RowOrder(p, q, r, x, high, y);
  }

  lemma RowTurned(p: real, q: real, r: real, x: real, y: real)
    ensures Row(p, q, r, x, y) == Row(q, p, r, y, x)
  {
  }

  lemma RowUp(p: real, q: real, r: real, x: real, low: real, y: real, high: real)
    requires low <= y <= high
    ensures Min(Row(p, q, r, x, low), Row(p, q, r, x, high)) <= Row(p, q, r, x, y)
    ensures Row(p, q, r, x, y) <= Max(Row(p, q, r, x, low), Row(p, q, r, x, high))
  {
    hide *;
    RowAcross(q, p, r, low, y, high, x);
    RowTurned(p, q, r, x, low);
    RowTurned(p, q, r, x, y);
    RowTurned(p, q, r, x, high);
  }

  lemma RowBounded(p: real, q: real, r: real, box: Rect, x: real, y: real)
    requires box.left <= x <= box.right && box.bottom <= y <= box.top
    ensures var (a, b, c, d) := (Row(p, q, r, box.left, box.top), Row(p, q, r, box.left, box.bottom),
                                 Row(p, q, r, box.right, box.top), Row(p, q, r, box.right, box.bottom));
      Low(a, b, c, d) <= Row(p, q, r, x, y) <= High(a, b, c, d)
  {
    hide Row;
    RowAcross(p, q, r, box.left, x, box.right, y);
    RowUp(p, q, r, box.left, box.bottom, y, box.top);
    RowUp(p, q, r, box.right, box.bottom, y, box.top);
  }

  /** The image of a rectangle under a matrix is the smallest rectangle around the images of its points: it holds them
      all, and each of its sides goes through the image of a corner. */
  lemma ImageIsBoundingBox(m: Matrix, r: Rect)
    ensures forall p :: Contains(r, p) ==> Contains(m.TransformRect(r), m.Transform(p))
    ensures var box := m.TransformRect(r);
      && (exists p :: p in Corners(r) && m.Transform(p).x == box.left)
      && (exists p :: p in Corners(r) && m.Transform(p).x == box.right)
      && (exists p :: p in Corners(r) && m.Transform(p).y == box.bottom)
      && (exists p :: p in Corners(r) && m.Transform(p).y == box.top)
  {
    hide Row, Low, High, Min, Max;
    forall p | Contains(r, p) ensures Contains(m.TransformRect(r), m.Transform(p)) {
      RowBounded(m.a, m.c, m.e, r, p.x, p.y);
      RowBounded(m.b, m.d, m.f, r, p.x, p.y);
    }
    var (p, q, s, t) := (Point(r.left, r.top), Point(r.left, r.bottom), Point(r.right, r.top), Point(r.right, r.bottom));
    var (p', q', s', t') := (m.Transform(p), m.Transform(q), m.Transform(s), m.Transform(t));
    OneOfFour(p'.x, q'.x, s'.x, t'.x);
    OneOfFour(p'.y, q'.y, s'.y, t'.y);
    assert p in Corners(r) && q in Corners(r) && s in Corners(r) && t in Corners(r);
  }

  lemma OneOfFour(p: real, q: real, r: real, t: real)
    ensures Low(p, q, r, t) in {p, q, r, t} && High(p, q, r, t) in {p, q, r, t}
  {
  }

  function Low(p: real, q: real, r: real, t: real): real { Min(Min(p, q), Min(r, t)) }
  function High(p: real, q: real, r: real, t: real): real { Max(Max(p, q), Max(r, t)) }

  /** q is p, scaled by k and then shifted by s. */
  predicate Shifted(k: real, s: real, p: real, q: real) { q == k * p + s }

  /** The factor k and shift s are those that take the span low..high to the span first..last. */
  predicate Spans(k: real, s: real, low: real, high: real, first: real, last: real) {
    low < high && k == (last - first) / (high - low) && s == first - low * k
  }

  /** In one dimension: the factor k and shift s that take the span of four numbers to a given one. */
  lemma SpanFits(p: real, q: real, r: real, t: real, p': real, q': real, r': real, t': real,
                 first: real, last: real, k: real, s: real)
    requires Shifted(k, s, p, p') && Shifted(k, s, q, q') && Shifted(k, s, r, r') && Shifted(k, s, t, t')
    requires first <= last && Spans(k, s, Low(p, q, r, t), High(p, q, r, t), first, last)
    ensures Low(p', q', r', t') == first && High(p', q', r', t') == last
  {
    hide Min, Max;
    var (low, high) := (Low(p, q, r, t), High(p, q, r, t));
    Quotient(last - first, high - low);
    ScalePair(k, s, p, q, p', q');
    ScalePair(k, s, r, t, r', t');
    ScalePair(k, s, Min(p, q), Min(r, t), Min(p', q'), Min(r', t'));
    ScalePair(k, s, Max(p, q), Max(r, t), Max(p', q'), Max(r', t'));
    assert k * (high - low) == k * high - k * low;
  }

  lemma FitFactors(annot: Rect, box: Rect, form: Matrix)
    requires !box.IsEmpty() && Invertible(box, form)
    ensures var (m, image) := (FitMatrix(annot, box, form), form.TransformRect(box));
      && m.b == 0.0 && m.c == 0.0
      && Spans(m.a, m.e, image.left, image.right, annot.left, annot.right)
      && Spans(m.d, m.f, image.bottom, image.top, annot.bottom, annot.top)
  {
    hide Matrix.TransformRect, Rect.Normalize;
    NormalizedStays(form.TransformRect(box));
  }

  lemma FitsAcross(annot: Rect, box: Rect, form: Matrix)
    requires annot == annot.Normalize() && !box.IsEmpty() && Invertible(box, form)
    ensures var image := form.Concat(FitMatrix(annot, box, form)).TransformRect(box);
      image.left == annot.left && image.right == annot.right
  {
    var m := FitMatrix(annot, box, form);
    FitFactors(annot, box, form);
    NormalizedSpans(annot);
    hide Min, Max, FitMatrix, Matrix.Transform, Matrix.Concat, Low, High, Shifted, Spans, Invertible;
    var (p, q, s, t) := (Point(box.left, box.top), Point(box.left, box.bottom),
                         Point(box.right, box.top), Point(box.right, box.bottom));
    CornerImage(form, m, p); CornerImage(form, m, q); CornerImage(form, m, s); CornerImage(form, m, t);
    var both := form.Concat(m);
    SpanFits(form.Transform(p).x, form.Transform(q).x, form.Transform(s).x, form.Transform(t).x,
             both.Transform(p).x, both.Transform(q).x, both.Transform(s).x, both.Transform(t).x,
             annot.left, annot.right, m.a, m.e);
  }

  lemma FitsUp(annot: Rect, box: Rect, form: Matrix)
    requires annot == annot.Normalize() && !box.IsEmpty() && Invertible(box, form)
    ensures var image := form.Concat(FitMatrix(annot, box, form)).TransformRect(box);
      image.bottom == annot.bottom && image.top == annot.top
  {
    var m := FitMatrix(annot, box, form);
    FitFactors(annot, box, form);
    NormalizedSpans(annot);
    hide Min, Max, FitMatrix, Matrix.Transform, Matrix.Concat, Low, High, Shifted, Spans, Invertible;
    var (p, q, s, t) := (Point(box.left, box.top), Point(box.left, box.bottom),
                         Point(box.right, box.top), Point(box.right, box.bottom));
    CornerImage(form, m, p); CornerImage(form, m, q); CornerImage(form, m, s); CornerImage(form, m, t);
    var both := form.Concat(m);
    SpanFits(form.Transform(p).y, form.Transform(q).y, form.Transform(s).y, form.Transform(t).y,
             both.Transform(p).y, both.Transform(q).y, both.Transform(s).y, both.Transform(t).y,
             annot.bottom, annot.top, m.d, m.f);
  }

  /** The box, drawn through the form's own matrix and then through the fitted one, covers exactly the
      annotation rectangle (section 12.5.5 of ISO 32000-1). */
  lemma FitsExactly(annot: Rect, box: Rect, form: Matrix)
    requires annot == annot.Normalize() && !box.IsEmpty() && Invertible(box, form)
    ensures form.Concat(FitMatrix(annot, box, form)).TransformRect(box) == annot
  {
    hide *;
    FitsAcross(annot, box, form);
    FitsUp(annot, box, form);
  }

  lemma CornerImage(form: Matrix, m: Matrix, p: Point)
    requires m.b == 0.0 && m.c == 0.0
    ensures Shifted(m.a, m.e, form.Transform(p).x, form.Concat(m).Transform(p).x)
    ensures Shifted(m.d, m.f, form.Transform(p).y, form.Concat(m).Transform(p).y)
  {
    TransformConcat(form, m, p);
    ScalesOnly(m, form.Transform(p));
  }

  lemma ScalesOnly(m: Matrix, p: Point)
    requires m.b == 0.0 && m.c == 0.0
    ensures m.Transform(p) == Point(m.a * p.x + m.e, m.d * p.y + m.f)
  {
  }

  lemma NormalizedStays(r: Rect)
    requires r.left <= r.right && r.bottom <= r.top
    ensures r.Normalize() == r
  {
  }

  lemma NormalizedSpans(r: Rect)
    requires r == r.Normalize()
    ensures r.left <= r.right && r.bottom <= r.top
  {
  }
}
