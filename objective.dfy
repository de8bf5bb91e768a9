/** The packaging optimizer's linear objective and its exact minimum over
    the unit box, which stands in for the bounded numerical minimization. */
module Objective {

  /** The four weights `optimize` takes, with their defaults. */
  datatype Weights = Weights(cost: real, recyclability: real, carbonFootprint: real, durability: real)

  const DEFAULT_WEIGHTS: Weights := Weights(0.3, 0.4, 0.2, 0.1)

  /** A point `x` of the search space; the fields are x[0] to x[3]. */
  datatype Point = Point(cost: real, recyclability: real, carbonFootprint: real, durability: real)

  /** The bounds `[(0, 1)] * 4`. */
  predicate InBox(x: Point)
  {
    && 0.0 <= x.cost <= 1.0
    && 0.0 <= x.recyclability <= 1.0
    && 0.0 <= x.carbonFootprint <= 1.0
    && 0.0 <= x.durability <= 1.0
  }

  /** `objective_function`: cost and carbon footprint count as they are,
      recyclability and durability are inverted as `1 - x`. */
  function Objective(w: Weights, x: Point): real
  {
    w.cost * x.cost
    + w.recyclability * (1.0 - x.recyclability)
    + w.carbonFootprint * x.carbonFootprint
    + w.durability * (1.0 - x.durability)
  }

  function MinZero(a: real): real
  {
    if a < 0.0 then a else 0.0
  }

  /** The corner of the box that minimizes each term on its own. */
  function BestCorner(w: Weights): (x: Point)
    ensures InBox(x)
  {
    Point(if w.cost < 0.0 then 1.0 else 0.0,
          if w.recyclability < 0.0 then 0.0 else 1.0,
          if w.carbonFootprint < 0.0 then 1.0 else 0.0,
          if w.durability < 0.0 then 0.0 else 1.0)
  }

  lemma TermBound(a: real, t: real)
    requires 0.0 <= t <= 1.0
    ensures MinZero(a) <= a * t
  {
    if a < 0.0 {
      assert a * t >= a * 1.0;
    }
  }

  /** The sum of the negative weights. */
  function NegativeWeightSum(w: Weights): real
  {
    MinZero(w.cost) + MinZero(w.recyclability) + MinZero(w.carbonFootprint) + MinZero(w.durability)
  }

  /** Every point of the box scores at least the sum of the negative weights. */
  lemma ObjectiveAtLeast(w: Weights, x: Point)
    requires InBox(x)
    ensures NegativeWeightSum(w) <= Objective(w, x)
  {
    TermBound(w.cost, x.cost);
    TermBound(w.recyclability, 1.0 - x.recyclability);
    TermBound(w.carbonFootprint, x.carbonFootprint);
    TermBound(w.durability, 1.0 - x.durability);
  }

  /** The best corner scores exactly the sum of the negative weights. */
  lemma BestCornerValue(w: Weights)
    ensures Objective(w, BestCorner(w)) == NegativeWeightSum(w)
  {
    var c := BestCorner(w);
    assert w.cost * c.cost == MinZero(w.cost);
    assert w.recyclability * (1.0 - c.recyclability) == MinZero(w.recyclability);
    assert w.carbonFootprint * c.carbonFootprint == MinZero(w.carbonFootprint);
    assert w.durability * (1.0 - c.durability) == MinZero(w.durability);
  }

  /** `minimize(objective_function, x0, bounds=[(0, 1)] * 4).fun`, taken as
      the exact minimum over the box: a lower bound of the objective on the
      box that the objective attains there. The start point `x0` does not
      enter into it. */
  function BoxMinimum(w: Weights, x0: Point): (m: real)
    ensures forall x | InBox(x) :: m <= Objective(w, x)
    ensures exists x | InBox(x) :: Objective(w, x) == m
  {
    BestCornerValue(w);
    assert forall x | InBox(x) :: NegativeWeightSum(w) <= Objective(w, x) by {
      forall x | InBox(x)
        ensures NegativeWeightSum(w) <= Objective(w, x)
      {
        ObjectiveAtLeast(w, x);
      }
    }
    NegativeWeightSum(w)
  }

  /** Any value that bounds the objective from below on the box and is
      attained there is the sum of the negative weights; so the minimum is
      that sum, and it is the same from every start point. */
  lemma MinimumIsNegativeWeightSum(w: Weights, m: real)
    requires forall x | InBox(x) :: m <= Objective(w, x)
    requires exists x | InBox(x) :: Objective(w, x) == m
    ensures m == NegativeWeightSum(w)
  {
    BestCornerValue(w);
    assert m <= Objective(w, BestCorner(w));
    var y :| InBox(y) && Objective(w, y) == m;
    ObjectiveAtLeast(w, y);
  }

  /** With non-negative weights (the defaults among them) the minimum is 0,
      reached at the cheapest, fully recyclable, carbon-free, most durable
      corner x = (0, 1, 0, 1). */
  lemma NonNegativeWeightsMinimum(w: Weights, x0: Point)
    requires w.cost >= 0.0 && w.recyclability >= 0.0 && w.carbonFootprint >= 0.0 && w.durability >= 0.0
    ensures BoxMinimum(w, x0) == 0.0
    ensures Objective(w, Point(0.0, 1.0, 0.0, 1.0)) == 0.0
  {
    MinimumIsNegativeWeightSum(w, BoxMinimum(w, x0));
  }

  /** The default weights are all non-negative, so every material scores 0. */
  lemma DefaultWeightsMinimum(x0: Point)
    ensures BoxMinimum(DEFAULT_WEIGHTS, x0) == 0.0
  {
    NonNegativeWeightsMinimum(DEFAULT_WEIGHTS, x0);
  }

  lemma MulMonotone(a: real, s: real, t: real)
    requires a >= 0.0 && s <= t
    ensures a * s <= a * t
  {
    assert a * t - a * s == a * (t - s);
  }

  /** Under non-negative weights lower cost and carbon footprint and higher
      recyclability and durability never raise the objective. */
  lemma ObjectiveOrientation(w: Weights, x: Point, y: Point)
    requires w.cost >= 0.0 && w.recyclability >= 0.0 && w.carbonFootprint >= 0.0 && w.durability >= 0.0
    requires y.cost <= x.cost && y.carbonFootprint <= x.carbonFootprint
    requires y.recyclability >= x.recyclability && y.durability >= x.durability
    ensures Objective(w, y) <= Objective(w, x)
  {
    MulMonotone(w.cost, y.cost, x.cost);
    MulMonotone(w.recyclability, 1.0 - y.recyclability, 1.0 - x.recyclability);
    MulMonotone(w.carbonFootprint, y.carbonFootprint, x.carbonFootprint);
    MulMonotone(w.durability, 1.0 - y.durability, 1.0 - x.durability);
  }
}
