/**
 * The spatial filter page (app/spacial-filter/page.tsx): the mock points,
 * the points inside the draggable circle, the side list of those points, and
 * the four crosshair lines that run from the canvas edges to the circle.
 * Positions are percentages of the canvas.
 */
module SpatialFilter {

  datatype Item = Item(id: int, name: string, x: real, y: real)

  /** `circleRadiusPercent`. */
  const CircleRadius: real := 5.0

  /** `distance <= circleRadiusPercent`, with both sides squared: the
      distance is a square root, so it is at most 5 exactly when the squared
      distance is at most 25. */
  predicate Within(item: Item, cx: real, cy: real)
  {
    var dx, dy := item.x - cx, item.y - cy;
    dx * dx + dy * dy <= CircleRadius * CircleRadius
  }

  /** `filteredItems`: `mockData.filter(...)` for the circle centred at
      (`cx`, `cy`). */
  function FilteredItems(items: seq<Item>, cx: real, cy: real): (r: seq<Item>)
    ensures |r| <= |items|
    ensures forall k :: 0 <= k < |r| ==> Within(r[k], cx, cy)
    ensures forall it :: it in r <==> it in items && Within(it, cx, cy)
  {
    if |items| == 0 then []
    else
      var rest := FilteredItems(items[1..], cx, cy);
      assert forall it :: it in items <==> it == items[0] || it in items[1..];
      if Within(items[0], cx, cy) then [items[0]] + rest else rest
  }

  /** `s` is `t` with some elements left out, the others kept in order:
      the first element of `t` is either kept as the first of `s` or left
      out. */
  predicate IsSubsequence<T(==)>(s: seq<T>, t: seq<T>)
    decreases |t|
  {
    if |t| == 0 then |s| == 0
    else (|s| > 0 && s[0] == t[0] && IsSubsequence(s[1..], t[1..])) || IsSubsequence(s, t[1..])
  }

  /** The filter keeps the order of `mockData`. */
  lemma {:induction false} FilterIsSubsequence(items: seq<Item>, cx: real, cy: real)
    ensures IsSubsequence(FilteredItems(items, cx, cy), items)
  {
    if |items| > 0 {
      FilterIsSubsequence(items[1..], cx, cy);
      var r := FilteredItems(items, cx, cy);
      if Within(items[0], cx, cy) {
        assert r[1..] == FilteredItems(items[1..], cx, cy);
      }
    }
  }

  /** The boundary is inclusive: a point exactly 5 away is kept, and every
      point left out is strictly farther than 5. */
  lemma FilterBoundary(items: seq<Item>, cx: real, cy: real)
    ensures forall it :: it in items && !(it in FilteredItems(items, cx, cy)) ==>
      (it.x - cx) * (it.x - cx) + (it.y - cy) * (it.y - cy) > 25.0
    ensures forall it :: it in items && (it.x - cx) * (it.x - cx) + (it.y - cy) * (it.y - cy) == 25.0 ==>
      it in FilteredItems(items, cx, cy)
  {
  }

  /** The dot colour: red for a point in the filtered list, blue otherwise. */
  datatype Colour = Red | Blue

  function DotColour(item: Item, filtered: seq<Item>): Colour
  {
    if item in filtered then Red else Blue
  }

  /** The side list: `mockData` in order, without the points that are not
      in the filtered list. */
  function SideList(items: seq<Item>, filtered: seq<Item>): (r: seq<Item>)
    ensures forall k :: 0 <= k < |r| ==> r[k] in filtered
  {
    if |items| == 0 then []
    else (if items[0] in filtered then [items[0]] else []) + SideList(items[1..], filtered)
  }

  /** The side list shows exactly the filtered points, in the same order,
      and a dot is red exactly when its point is inside the circle. */
  lemma {:induction false} SideListIsFiltered(items: seq<Item>, cx: real, cy: real)
    ensures SideList(items, FilteredItems(items, cx, cy)) == FilteredItems(items, cx, cy)
    ensures forall it :: it in items ==>
      (DotColour(it, FilteredItems(items, cx, cy)) == Red <==> Within(it, cx, cy))
  {
    SideListOf(items, FilteredItems(items, cx, cy), cx, cy);
  }

  /** Deciding membership in the full filtered list for each point of a
      suffix gives the suffix's own filtered list. */
  lemma {:induction false} SideListOf(items: seq<Item>, filtered: seq<Item>, cx: real, cy: real)
    requires forall it :: it in items && Within(it, cx, cy) ==> it in filtered
    requires forall it :: it in filtered ==> Within(it, cx, cy)
    ensures SideList(items, filtered) == FilteredItems(items, cx, cy)
  {
    if |items| > 0 {
      SideListOf(items[1..], filtered, cx, cy);
    }
  }

  /** A crosshair line: where it starts and how long it is, in percent. */
  datatype Line = Line(start: real, length: real)

  /** Half the gap the crosshair leaves around the circle's centre. */
  const HalfGap: real := 6.25

  /** The two lines along one axis for a centre at `c`: the left and right
      lines for the centre's x, the top and bottom lines for its y. */
  function Crosshair(c: real): (r: (Line, Line))
    ensures r.0.start == 0.0
    ensures r.0.start + r.0.length + 2.0 * HalfGap == r.1.start
    ensures r.1.start + r.1.length == 100.0
    ensures r.0.length + 2.0 * HalfGap + r.1.length == 100.0
  {
    (Line(0.0, c - HalfGap), Line(c + HalfGap, 100.0 - c - HalfGap))
  }

  /** The gap is centred on the circle: both lines of an axis stop `HalfGap`
      short of the centre. */
  lemma CrosshairCentred(c: real)
    ensures c - (Crosshair(c).0.start + Crosshair(c).0.length) == HalfGap
    ensures Crosshair(c).1.start - c == HalfGap
  {
  }

  /** The decimal digits of `n`, as a template literal prints them. */
  function NatToString(n: nat): (s: string)
    ensures |s| > 0
    ensures forall k :: 0 <= k < |s| ==> '0' <= s[k] <= '9'
    ensures n > 0 ==> s[0] != '0'
  {
    if n < 10 then [Digit(n)] else NatToString(n / 10) + [Digit(n % 10)]
  }

  function Digit(d: nat): (c: char)
    requires d < 10
    ensures '0' <= c <= '9'
  {
    ['0', '1', '2', '3', '4', '5', '6', '7', '8', '9'][d]
  }

  /** The number a string of decimal digits denotes. */
  function DecimalValue(s: string): nat
    requires forall k :: 0 <= k < |s| ==> '0' <= s[k] <= '9'
  {
    if |s| == 0 then 0 else DecimalValue(s[..|s| - 1]) * 10 + (s[|s| - 1] as int - '0' as int)
  }

  /** Reading the printed digits back gives the number, so distinct ids get
      distinct names. */
  lemma {:induction false} NatToStringRoundTrip(n: nat)
    ensures DecimalValue(NatToString(n)) == n
  {
    var s := NatToString(n);
    if n >= 10 {
      NatToStringRoundTrip(n / 10);
      assert s[..|s| - 1] == NatToString(n / 10);
    }
  }

  /** `generateMockData`: ninety points with ids 1 to 90, named after their
      ids, each coordinate `5 + r * 90` for the next random draw `r` (x
      first, then y). */
  method GenerateMockData(draws: seq<real>) returns (items: seq<Item>)
    requires |draws| == 180
    requires forall k :: 0 <= k < |draws| ==> 0.0 <= draws[k] < 1.0
    ensures |items| == 90
    ensures forall k :: 0 <= k < 90 ==>
      items[k] == Item(k + 1, "Item " + NatToString(k + 1), 5.0 + draws[2 * k] * 90.0, 5.0 + draws[2 * k + 1] * 90.0)
    ensures forall k :: 0 <= k < 90 ==> 5.0 <= items[k].x < 95.0 && 5.0 <= items[k].y < 95.0
  {
    items := [];
    for i := 1 to 91
      invariant |items| == i - 1
      invariant forall k :: 0 <= k < i - 1 ==>
        items[k] == Item(k + 1, "Item " + NatToString(k + 1), 5.0 + draws[2 * k] * 90.0, 5.0 + draws[2 * k + 1] * 90.0)
    {
      items := items + [Item(i, "Item " + NatToString(i), 5.0 + draws[2 * (i - 1)] * 90.0, 5.0 + draws[2 * (i - 1) + 1] * 90.0)];
    }
  }
}
