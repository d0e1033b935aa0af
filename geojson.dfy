/** The GeoJSON map demo (src/demos/geojson/src/index.js): longitude and
    latitude scaled around Beijing, the outline, walls and height of every
    ring of a MultiPolygon, and the label placed over each region. The map
    file, the random heights and the camera distance are inputs. */
module GeoJson {
  import opened Text

  /** A GeoJSON position `[lon, lat]`. */
  datatype Coord = Coord(lon: real, lat: real)

  /** A `THREE.Vector3`. */
  datatype Point3 = Point3(x: real, y: real, z: real)

  const Scale: real := 15.0
  /** `centerCoord`. */
  const Centre: Coord := Coord(116.4074, 39.9042)

  /** `convertCoordinates`: degrees from the centre, times 15. */
  function ConvertCoordinates(coord: Coord, centre: Coord): (xy: (real, real))
    ensures centre == coord ==> xy == (0.0, 0.0)
  {
    ((coord.lon - centre.lon) * Scale, (coord.lat - centre.lat) * Scale)
  }

  /** The inverse of the conversion. */
  function ToCoordinates(xy: (real, real), centre: Coord): Coord
  {
    Coord(xy.0 / Scale + centre.lon, xy.1 / Scale + centre.lat)
  }

  /** The conversion loses nothing: converting back gives the position. */
  lemma ConvertRoundTrip(coord: Coord, centre: Coord, xy: (real, real))
    ensures ToCoordinates(ConvertCoordinates(coord, centre), centre) == coord
    ensures ConvertCoordinates(ToCoordinates(xy, centre), centre) == xy
  {
  }

  /** The conversion keeps the east-west and north-south order of positions. */
  lemma ConvertKeepsOrder(a: Coord, b: Coord, centre: Coord)
    ensures a.lon < b.lon <==> ConvertCoordinates(a, centre).0 < ConvertCoordinates(b, centre).0
    ensures a.lat < b.lat <==> ConvertCoordinates(a, centre).1 < ConvertCoordinates(b, centre).1
  {
  }

  function SumX(points: seq<Point3>): real
  {
    if |points| == 0 then 0.0 else SumX(points[..|points| - 1]) + points[|points| - 1].x
  }

  function SumY(points: seq<Point3>): real
  {
    if |points| == 0 then 0.0 else SumY(points[..|points| - 1]) + points[|points| - 1].y
  }

  /** The centre `calculatePolygonCenter` returns: the origin for no points,
      otherwise the mean of the x and of the y coordinates. */
  function Center(points: seq<Point3>): (real, real)
  {
    if |points| == 0 then (0.0, 0.0) else (SumX(points) / |points| as real, SumY(points) / |points| as real)
  }

  /** `calculatePolygonCenter`: the `forEach` summing loop. */
  method CalculatePolygonCenter(points: seq<Point3>) returns (c: (real, real))
    ensures c == Center(points)
  {
    if |points| == 0 {
      return (0.0, 0.0);
    }
    var sumX, sumY := 0.0, 0.0;
    for i := 0 to |points|
      invariant sumX == SumX(points[..i]) && sumY == SumY(points[..i])
    {
      assert points[..i + 1][..i] == points[..i];
      sumX := sumX + points[i].x;
      sumY := sumY + points[i].y;
    }
    assert points[..|points|] == points;
    c := (sumX / |points| as real, sumY / |points| as real);
  }

  lemma {:induction false} SumBounds(points: seq<Point3>, lo: real, hi: real)
    requires forall i :: 0 <= i < |points| ==> lo <= points[i].x <= hi
    ensures |points| as real * lo <= SumX(points) <= |points| as real * hi
  {
    if |points| > 0 {
      var init := points[..|points| - 1];
      SumBounds(init, lo, hi);
      assert (|init| + 1) as real * lo == |init| as real * lo + lo;
      assert (|init| + 1) as real * hi == |init| as real * hi + hi;
    }
  }

  /** The centre of a nonempty point set lies between its smallest and its
      largest x: a label sits over its region. */
  lemma CenterWithinBounds(points: seq<Point3>, lo: real, hi: real)
    requires |points| > 0
    requires forall i :: 0 <= i < |points| ==> lo <= points[i].x <= hi
    ensures lo <= Center(points).0 <= hi
  {
    SumBounds(points, lo, hi);
    var n := |points| as real;
    assert SumX(points) / n >= (n * lo) / n;
    assert SumX(points) / n <= (n * hi) / n;
  }

  /** The centre of copies of one point is that point. */
  lemma {:induction false} CenterOfOnePoint(p: Point3, n: nat)
    requires n > 0
    ensures Center(seq(n, _ => p)) == (p.x, p.y)
  {
    SumOfCopies(p, n);
    assert (n as real * p.x) / n as real == p.x;
    assert (n as real * p.y) / n as real == p.y;
  }

  lemma {:induction false} SumOfCopies(p: Point3, n: nat)
    ensures SumX(seq(n, _ => p)) == n as real * p.x && SumY(seq(n, _ => p)) == n as real * p.y
  {
    if n > 0 {
      SumOfCopies(p, n - 1);
      assert seq(n, _ => p)[..n - 1] == seq(n - 1, _ => p);
    }
  }

  function Min(a: real, b: real): real { if a < b then a else b }
  function Max(a: real, b: real): real { if a > b then a else b }

  /** The scale of a label in `label.update`, for a camera at `distance`;
      at distance 0 JavaScript's `30 / 0` is `Infinity`, which `min` turns into 1. */
  function LabelScale(distance: real): (s: real)
    requires distance >= 0.0
    ensures 0.5 <= s <= 1.0
    ensures distance <= 30.0 ==> s == 1.0
    ensures distance >= 60.0 ==> s == 0.5
    ensures 30.0 < distance < 60.0 ==> s == 30.0 / distance
  {
    if distance == 0.0 then 1.0 else
      assert distance <= 30.0 ==> 30.0 / distance >= 1.0;
      assert distance >= 60.0 ==> 30.0 / distance <= 0.5;
      Max(0.5, Min(1.0, 30.0 / distance))
  }

  /** The label of a region: the feature's name over the region's centre. */
  datatype Label = Label(name: string, position: Point3)

  /** What is added to the scene for one ring. */
  datatype RingMesh = RingMesh(points: seq<Point3>, height: real, outline: seq<Point3>, walls: seq<(Point3, Point3)>)

  /** A region's ring meshes and its label. */
  datatype Region = Region(meshes: seq<RingMesh>, caption: Label)

  /** The ring's positions as points at z = 0. */
  function RingPoints(ring: seq<Coord>): (points: seq<Point3>)
    ensures |points| == |ring|
  {
    seq(|ring|, i requires 0 <= i < |ring| =>
      Point3(ConvertCoordinates(ring[i], Centre).0, ConvertCoordinates(ring[i], Centre).1, 0.0))
  }

  /** `[...points, points[0]]`: the closed outline of a nonempty ring. */
  function Outline(points: seq<Point3>): (r: seq<Point3>)
    requires |points| > 0
    ensures |r| == |points| + 1 && r[|points|] == r[0] && r[..|points|] == points
  {
    points + [points[0]]
  }

  /** One vertical line per point, from the point up to the ring's height. */
  function Walls(points: seq<Point3>, height: real): (w: seq<(Point3, Point3)>)
    ensures |w| == |points|
    ensures forall i :: 0 <= i < |points| ==>
      w[i].0 == points[i] && w[i].1 == Point3(points[i].x, points[i].y, height)
  {
    seq(|points|, i requires 0 <= i < |points| => (points[i], Point3(points[i].x, points[i].y, height)))
  }

  /** `1 + Math.random() * 0.5`. */
  function RingHeight(roll: real): (h: real)
    requires 0.0 <= roll < 1.0
    ensures 1.0 <= h < 1.5
  {
    1.0 + roll * 0.5
  }

  function RingMeshOf(ring: seq<Coord>, roll: real): RingMesh
    requires |ring| > 0 && 0.0 <= roll < 1.0
  {
    var points := RingPoints(ring);
    RingMesh(points, RingHeight(roll), Outline(points), Walls(points, RingHeight(roll)))
  }

  /** The rings of all polygons of a MultiPolygon, polygon by polygon. */
  function RingsOf(polygons: seq<seq<seq<Coord>>>): seq<seq<Coord>>
  {
    if |polygons| == 0 then [] else RingsOf(polygons[..|polygons| - 1]) + polygons[|polygons| - 1]
  }

  /** The points of all rings, in order (`allPoints`). */
  function AllPoints(rings: seq<seq<Coord>>): seq<Point3>
  {
    if |rings| == 0 then [] else AllPoints(rings[..|rings| - 1]) + RingPoints(rings[|rings| - 1])
  }

  /** `maxHeight`: the running maximum, starting from 0. */
  function MaxHeight(rolls: seq<real>): real
    requires forall i :: 0 <= i < |rolls| ==> 0.0 <= rolls[i] < 1.0
  {
    if |rolls| == 0 then 0.0 else Max(MaxHeight(rolls[..|rolls| - 1]), RingHeight(rolls[|rolls| - 1]))
  }

  predicate ValidRolls(rolls: seq<real>)
  {
    forall i :: 0 <= i < |rolls| ==> 0.0 <= rolls[i] < 1.0
  }

  /** `maxHeight` is at least every ring's height and is one of them. */
  lemma {:induction false} MaxHeightIsMaximum(rolls: seq<real>)
    requires ValidRolls(rolls) && |rolls| > 0
    ensures forall i :: 0 <= i < |rolls| ==> RingHeight(rolls[i]) <= MaxHeight(rolls)
    ensures exists i :: 0 <= i < |rolls| && MaxHeight(rolls) == RingHeight(rolls[i])
    ensures 1.0 <= MaxHeight(rolls) < 1.5
  {
    var n := |rolls|;
    var init := rolls[..n - 1];
    assert forall i :: 0 <= i < n - 1 ==> init[i] == rolls[i];
    if n == 1 {
      assert MaxHeight(rolls) == RingHeight(rolls[0]);
    } else {
      MaxHeightIsMaximum(init);
      if MaxHeight(init) >= RingHeight(rolls[n - 1]) {
        var j :| 0 <= j < n - 1 && MaxHeight(init) == RingHeight(init[j]);
        assert MaxHeight(rolls) == RingHeight(rolls[j]);
      } else {
        assert MaxHeight(rolls) == RingHeight(rolls[n - 1]);
      }
    }
  }

  /** The region of a MultiPolygon feature, or `None` when one of its rings
      is empty: there `points[0]` is undefined and building the outline throws. */
  function RegionOf(name: string, rings: seq<seq<Coord>>, rolls: seq<real>): (r: Option<Region>)
    requires |rolls| == |rings| && ValidRolls(rolls)
    ensures r.None? <==> exists i :: 0 <= i < |rings| && |rings[i]| == 0
    ensures r.Some? ==> |r.value.meshes| == |rings|
  {
    if exists i :: 0 <= i < |rings| && |rings[i]| == 0 then None
    else
      var c := Center(AllPoints(rings));
      Some(Region(seq(|rings|, i requires 0 <= i < |rings| => RingMeshOf(rings[i], rolls[i])),
                  Label(name, Point3(c.0, c.1, MaxHeight(rolls) + 0.5))))
  }

  /** Every ring of a region gets a closed outline one point longer than the
      ring, lifted to the ring's height, with one wall per point; the label
      floats half a unit above the highest ring. */
  lemma RegionShape(name: string, rings: seq<seq<Coord>>, rolls: seq<real>, i: int)
    requires |rolls| == |rings| && ValidRolls(rolls)
    requires RegionOf(name, rings, rolls).Some? && 0 <= i < |rings|
    ensures var m := RegionOf(name, rings, rolls).value.meshes[i];
      |m.outline| == |rings[i]| + 1 && m.outline[|rings[i]|] == m.outline[0] &&
      |m.walls| == |rings[i]| && 1.0 <= m.height < 1.5
    ensures var region := RegionOf(name, rings, rolls).value;
      region.meshes[i].height + 0.5 <= region.caption.position.z && 1.5 <= region.caption.position.z < 2.0
  {
    MaxHeightIsMaximum(rolls);
  }

  lemma {:induction false} RingsOfPrefix(polygons: seq<seq<seq<Coord>>>, p: int)
    requires 0 <= p <= |polygons|
    ensures |RingsOf(polygons[..p])| <= |RingsOf(polygons)|
    ensures RingsOf(polygons)[..|RingsOf(polygons[..p])|] == RingsOf(polygons[..p])
  {
    assert polygons[..|polygons|] == polygons;
    if p < |polygons| {
      var init := polygons[..|polygons| - 1];
      RingsOfPrefix(init, p);
      assert init[..p] == polygons[..p];
    }
  }

  lemma RingsOfStep(polygons: seq<seq<seq<Coord>>>, p: int)
    requires 0 <= p < |polygons|
    ensures RingsOf(polygons[..p + 1]) == RingsOf(polygons[..p]) + polygons[p]
  {
    assert polygons[..p + 1][..p] == polygons[..p];
  }

  /** The `ring.forEach` loop: each position converted and pushed. */
  method ConvertRing(ring: seq<Coord>) returns (points: seq<Point3>)
    ensures points == RingPoints(ring)
  {
    points := [];
    for i := 0 to |ring|
      invariant points == RingPoints(ring[..i])
    {
      var xy := ConvertCoordinates(ring[i], Centre);
      points := points + [Point3(xy.0, xy.1, 0.0)];
    }
    assert ring[..|ring|] == ring;
  }

  /** One ring of `loadMapData`: its points join `allPoints`, its height
      raises `maxHeight`, and its meshes are added; `outlined` is false
      when the ring is empty and building its outline throws. */
  method AddRing(ring: seq<Coord>, roll: real, meshes: seq<RingMesh>, allPoints: seq<Point3>, maxHeight: real)
    returns (outlined: bool, meshes': seq<RingMesh>, allPoints': seq<Point3>, maxHeight': real)
    requires 0.0 <= roll < 1.0
    ensures outlined <==> |ring| > 0
    ensures allPoints' == allPoints + RingPoints(ring)
    ensures maxHeight' == Max(maxHeight, RingHeight(roll))
    ensures outlined ==> meshes' == meshes + [RingMeshOf(ring, roll)]
  {
    var points := ConvertRing(ring);
    allPoints' := allPoints + points;
    var height := 1.0 + roll * 0.5;
    maxHeight' := Max(maxHeight, height);
    if |points| == 0 {
      return false, meshes, allPoints', maxHeight';
    }
    var outline := points + [points[0]];
    meshes' := meshes + [RingMesh(points, height, outline, Walls(points, height))];
    outlined := true;
  }

  /** The first `k` rings are built: none of them is empty, and the meshes,
      the collected points and the running maximum height are theirs. */
  ghost predicate Built(rings: seq<seq<Coord>>, rolls: seq<real>, k: int,
                        meshes: seq<RingMesh>, allPoints: seq<Point3>, maxHeight: real)
    requires |rolls| == |rings| && ValidRolls(rolls) && 0 <= k <= |rings|
  {
    |meshes| == k &&
    (forall i :: 0 <= i < k ==> |rings[i]| > 0 && meshes[i] == RingMeshOf(rings[i], rolls[i])) &&
    allPoints == AllPoints(rings[..k]) && maxHeight == MaxHeight(rolls[..k])
  }

  lemma BuiltStep(rings: seq<seq<Coord>>, rolls: seq<real>, k: int,
                  meshes: seq<RingMesh>, allPoints: seq<Point3>, maxHeight: real)
    requires |rolls| == |rings| && ValidRolls(rolls) && 0 <= k < |rings| && |rings[k]| > 0
    requires Built(rings, rolls, k, meshes, allPoints, maxHeight)
    ensures Built(rings, rolls, k + 1, meshes + [RingMeshOf(rings[k], rolls[k])],
                  allPoints + RingPoints(rings[k]), Max(maxHeight, RingHeight(rolls[k])))
  {
    assert rings[..k + 1][..k] == rings[..k];
    assert rolls[..k + 1][..k] == rolls[..k];
  }

  lemma BuiltRegion(name: string, rings: seq<seq<Coord>>, rolls: seq<real>,
                    meshes: seq<RingMesh>, allPoints: seq<Point3>, maxHeight: real)
    requires |rolls| == |rings| && ValidRolls(rolls)
    requires Built(rings, rolls, |rings|, meshes, allPoints, maxHeight)
    ensures RegionOf(name, rings, rolls) ==
      Some(Region(meshes, Label(name, Point3(Center(allPoints).0, Center(allPoints).1, maxHeight + 0.5))))
  {
    assert rings[..|rings|] == rings && rolls[..|rolls|] == rolls;
    assert meshes == seq(|rings|, i requires 0 <= i < |rings| => RingMeshOf(rings[i], rolls[i]));
  }

  /** One ring at index `k` of all the feature's rings, added to the first `k`. */
  method AddRingAt(ring: seq<Coord>, ghost rings: seq<seq<Coord>>, rolls: seq<real>, k: int,
                   meshes: seq<RingMesh>, allPoints: seq<Point3>, maxHeight: real)
    returns (outlined: bool, meshes': seq<RingMesh>, allPoints': seq<Point3>, maxHeight': real)
    requires |rolls| == |rings| && ValidRolls(rolls) && 0 <= k < |rings| && rings[k] == ring
    requires Built(rings, rolls, k, meshes, allPoints, maxHeight)
    ensures outlined ==> Built(rings, rolls, k + 1, meshes', allPoints', maxHeight')
    ensures !outlined ==> |rings[k]| == 0
  {
    outlined, meshes', allPoints', maxHeight' := AddRing(ring, rolls[k], meshes, allPoints, maxHeight);
    if outlined {
      BuiltStep(rings, rolls, k, meshes, allPoints, maxHeight);
    }
  }

  /** The `polygon.forEach` loop over the rings of one polygon, which sit
      at indices `k0` onwards of all the feature's rings. */
  method AddPolygon(polygon: seq<seq<Coord>>, ghost rings: seq<seq<Coord>>, rolls: seq<real>, k0: int,
                    meshes: seq<RingMesh>, allPoints: seq<Point3>, maxHeight: real)
    returns (outlined: bool, k: int, meshes': seq<RingMesh>, allPoints': seq<Point3>, maxHeight': real)
    requires |rolls| == |rings| && ValidRolls(rolls)
    requires 0 <= k0 && k0 + |polygon| <= |rings|
    requires forall q :: 0 <= q < |polygon| ==> rings[k0 + q] == polygon[q]
    requires Built(rings, rolls, k0, meshes, allPoints, maxHeight)
    ensures outlined ==> k == k0 + |polygon| && Built(rings, rolls, k, meshes', allPoints', maxHeight')
    ensures !outlined ==> exists i :: 0 <= i < |rings| && |rings[i]| == 0
  {
    meshes', allPoints', maxHeight' := meshes, allPoints, maxHeight;
    k := k0;
    for q := 0 to |polygon|
      invariant k == k0 + q
      invariant Built(rings, rolls, k, meshes', allPoints', maxHeight')
    {
      var ringOutlined;
      ringOutlined, meshes', allPoints', maxHeight' := AddRingAt(polygon[q], rings, rolls, k, meshes', allPoints', maxHeight');
      if !ringOutlined {
        assert |rings[k]| == 0;
        return false, k, meshes', allPoints', maxHeight';
      }
      k := k + 1;
    }
    outlined := true;
  }

  /** The first `p` polygons are built: their rings are the first `k` of
      all the feature's rings. */
  ghost predicate PolygonsBuilt(polygons: seq<seq<seq<Coord>>>, rolls: seq<real>, p: int, k: int,
                                meshes: seq<RingMesh>, allPoints: seq<Point3>, maxHeight: real)
    requires |rolls| == |RingsOf(polygons)| && ValidRolls(rolls) && 0 <= p <= |polygons|
  {
    k == |RingsOf(polygons[..p])| <= |RingsOf(polygons)| &&
    RingsOf(polygons)[..k] == RingsOf(polygons[..p]) &&
    Built(RingsOf(polygons), rolls, k, meshes, allPoints, maxHeight)
  }

  /** One turn of the loop over the polygons. */
  method AddPolygonAt(polygons: seq<seq<seq<Coord>>>, rolls: seq<real>, p: int, k: int,
                      meshes: seq<RingMesh>, allPoints: seq<Point3>, maxHeight: real)
    returns (outlined: bool, k': int, meshes': seq<RingMesh>, allPoints': seq<Point3>, maxHeight': real)
    requires |rolls| == |RingsOf(polygons)| && ValidRolls(rolls) && 0 <= p < |polygons|
    requires PolygonsBuilt(polygons, rolls, p, k, meshes, allPoints, maxHeight)
    ensures outlined ==> PolygonsBuilt(polygons, rolls, p + 1, k', meshes', allPoints', maxHeight')
    ensures !outlined ==> exists i :: 0 <= i < |RingsOf(polygons)| && |RingsOf(polygons)[i]| == 0
  {
    ghost var rings := RingsOf(polygons);
    var polygon := polygons[p];
    RingsOfStep(polygons, p);
    RingsOfPrefix(polygons, p + 1);
    assert rings[k..k + |polygon|] == polygon by {
      assert rings[k..k + |polygon|] == rings[..k + |polygon|][k..];
    }
    assert forall q :: 0 <= q < |polygon| ==> rings[k + q] == polygon[q] by {
      forall q | 0 <= q < |polygon| ensures rings[k + q] == polygon[q] {
        assert rings[k..k + |polygon|][q] == rings[k + q];
      }
    }
    outlined, k', meshes', allPoints', maxHeight' := AddPolygon(polygon, rings, rolls, k, meshes, allPoints, maxHeight);
  }

  /** The body of `loadMapData`'s `forEach` for one MultiPolygon feature:
      every ring of every polygon, then the label. */
  method BuildRegion(name: string, polygons: seq<seq<seq<Coord>>>, rolls: seq<real>) returns (r: Option<Region>)
    requires |rolls| == |RingsOf(polygons)| && ValidRolls(rolls)
    ensures r == RegionOf(name, RingsOf(polygons), rolls)
  {
    var meshes: seq<RingMesh> := [];
    var allPoints: seq<Point3> := [];
    var maxHeight := 0.0;
    var k := 0;
    for p := 0 to |polygons|
      invariant PolygonsBuilt(polygons, rolls, p, k, meshes, allPoints, maxHeight)
    {
      var outlined;
      outlined, k, meshes, allPoints, maxHeight := AddPolygonAt(polygons, rolls, p, k, meshes, allPoints, maxHeight);
      if !outlined {
        return None;
      }
    }
    assert polygons[..|polygons|] == polygons;
    BuiltRegion(name, RingsOf(polygons), rolls, meshes, allPoints, maxHeight);
    var center := CalculatePolygonCenter(allPoints);
    r := Some(Region(meshes, Label(name, Point3(center.0, center.1, maxHeight + 0.5))));
  }

  /** A feature of the map file: its name, its geometry type and, for a
      MultiPolygon, its polygons. */
  datatype Feature = Feature(name: string, kind: string, polygons: seq<seq<seq<Coord>>>)

  predicate IsMultiPolygon(f: Feature)
  {
    f.kind == "MultiPolygon"
  }

  /** The random rolls consumed by a feature: one per ring of a MultiPolygon, none otherwise. */
  predicate RollsFit(features: seq<Feature>, rolls: seq<seq<real>>)
  {
    |rolls| == |features| &&
    forall i :: 0 <= i < |features| ==>
      ValidRolls(rolls[i]) && (IsMultiPolygon(features[i]) ==> |rolls[i]| == |RingsOf(features[i].polygons)|)
  }

  /** The regions `loadMapData` builds; an empty ring aborts the whole load. */
  function MapRegions(features: seq<Feature>, rolls: seq<seq<real>>): Option<seq<Region>>
    requires RollsFit(features, rolls)
  {
    if |features| == 0 then Some([])
    else
      var n := |features| - 1;
      assert RollsFit(features[..n], rolls[..n]);
      match MapRegions(features[..n], rolls[..n])
      case None => None
      case Some(regions) =>
        if !IsMultiPolygon(features[n]) then Some(regions)
        else
          match RegionOf(features[n].name, RingsOf(features[n].polygons), rolls[n])
          case None => None
          case Some(region) => Some(regions + [region])
  }

  /** The names of the MultiPolygon features, in order. */
  function MultiPolygonNames(features: seq<Feature>): seq<string>
  {
    if |features| == 0 then []
    else
      var n := |features| - 1;
      MultiPolygonNames(features[..n]) + (if IsMultiPolygon(features[n]) then [features[n].name] else [])
  }

  /** Only MultiPolygon features produce regions: there is one region per
      MultiPolygon feature, labelled with its name, in the file's order. */
  lemma {:induction false} OnlyMultiPolygonsProduceRegions(features: seq<Feature>, rolls: seq<seq<real>>)
    requires RollsFit(features, rolls) && MapRegions(features, rolls).Some?
    ensures var regions := MapRegions(features, rolls).value;
      |regions| == |MultiPolygonNames(features)| &&
      forall i :: 0 <= i < |regions| ==> regions[i].caption.name == MultiPolygonNames(features)[i]
  {
    if |features| > 0 {
      var n := |features| - 1;
      assert RollsFit(features[..n], rolls[..n]);
      OnlyMultiPolygonsProduceRegions(features[..n], rolls[..n]);
    }
  }

  /** Once a prefix of the features fails, the whole load fails. */
  lemma {:induction false} FailureSticks(features: seq<Feature>, rolls: seq<seq<real>>, i: int)
    requires RollsFit(features, rolls) && 0 <= i <= |features|
    requires RollsFit(features[..i], rolls[..i]) && MapRegions(features[..i], rolls[..i]).None?
    ensures MapRegions(features, rolls).None?
    decreases |features| - i
  {
    if i < |features| {
      var m := i + 1;
      assert features[..m][..i] == features[..i] && rolls[..m][..i] == rolls[..i];
      assert RollsFit(features[..m], rolls[..m]);
      FailureSticks(features, rolls, m);
    } else {
      assert features[..i] == features && rolls[..i] == rolls;
    }
  }

  /** `loadMapData` after the file is fetched: the feature loop, which stops
      at the first ring that cannot be outlined. */
  method LoadMapData(features: seq<Feature>, rolls: seq<seq<real>>) returns (regions: Option<seq<Region>>)
    requires RollsFit(features, rolls)
    ensures regions == MapRegions(features, rolls)
  {
    var built: seq<Region> := [];
    for i := 0 to |features|
      invariant RollsFit(features[..i], rolls[..i])
      invariant MapRegions(features[..i], rolls[..i]) == Some(built)
    {
      assert features[..i + 1][..i] == features[..i] && rolls[..i + 1][..i] == rolls[..i];
      assert RollsFit(features[..i + 1], rolls[..i + 1]);
      var feature := features[i];
      if IsMultiPolygon(feature) {
        var r := BuildRegion(feature.name, feature.polygons, rolls[i]);
        if r.None? {
          FailureSticks(features, rolls, i + 1);
          return None;
        }
        built := built + [r.value];
      }
    }
    assert features[..|features|] == features && rolls[..|rolls|] == rolls;
    regions := Some(built);
  }
}
