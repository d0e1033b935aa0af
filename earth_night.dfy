/** The night-side earth demo (src/demos/earth-night/src/index.js): how city
    positions are projected onto the 1024 x 512 light texture, the random
    minor cities, the transport lines between neighbouring major cities, and
    the loading bar and control buttons. Drawing on the canvas, the bloom
    pass and the timers are not modelled; random numbers are inputs. */
module EarthNight {
  import Text

  const CanvasWidth: real := 1024.0
  const CanvasHeight: real := 512.0
  const MinorCityCount: int := 1000

  /** A position in degrees. */
  datatype City = City(lat: real, lng: real)

  /** `majorCities`. */
  const MajorCities: seq<City> := [
    City(40.7128, -74.0060),
    City(34.0522, -118.2437),
    City(51.5074, -0.1278),
    City(48.8566, 2.3522),
    City(55.7558, 37.6173),
    City(39.9042, 116.4074),
    City(35.6762, 139.6503),
    City(22.3193, 114.1694),
    City(1.3521, 103.8198),
    City(-33.8688, 151.2093),
    City(-23.5505, -46.6333),
    City(19.4326, -99.1332),
    City(37.7749, -122.4194),
    City(41.8781, -87.6298),
    City(25.2769, 55.2962),
    City(28.6139, 77.2090),
    City(31.2304, 121.4737),
    City(23.1291, 113.2644),
    City(22.5726, 88.3639),
    City(13.0827, 80.2707),
    City(19.0760, 72.8777),
    City(25.0330, 121.5654),
    City(37.5665, 126.9780),
    City(14.5995, 120.9842),
    City(3.1390, 101.6869),
    City(13.7563, 100.5018),
    City(21.0285, 105.8542),
    City(10.8231, 106.6297),
    City(-6.2088, 106.8456),
    City(30.0444, 31.2357),
    City(6.5244, 3.3792),
    City(-1.2921, 36.8219),
    City(-33.9249, 18.4241),
    City(45.4215, -75.6972),
    City(53.3498, -6.2603),
    City(52.5200, 13.4050),
    City(48.2082, 16.3738),
    City(47.3769, 8.5417),
    City(41.9028, 12.4964),
    City(40.4168, -3.7038),
    City(59.3293, 18.0686),
    City(55.6761, 12.5683),
    City(59.9139, 10.7522),
    City(60.1699, 24.9384)
  ]

  /** The equirectangular projection used for every light: longitude across, latitude down. */
  function ProjectX(lng: real, width: real): real
  {
    ((lng + 180.0) / 360.0) * width
  }

  function ProjectY(lat: real, height: real): real
  {
    ((90.0 - lat) / 180.0) * height
  }

  /** Positions on the globe land on the canvas. */
  lemma ProjectionRange(c: City, width: real, height: real)
    requires width > 0.0 && height > 0.0
    requires -90.0 <= c.lat <= 90.0 && -180.0 <= c.lng <= 180.0
    ensures 0.0 <= ProjectX(c.lng, width) <= width && 0.0 <= ProjectY(c.lat, height) <= height
  {
    ProjectXRange(c.lng, width);
    ProjectYRange(c.lat, height);
  }

  lemma ProjectXRange(lng: real, width: real)
    requires width > 0.0 && -180.0 <= lng <= 180.0
    ensures 0.0 <= ProjectX(lng, width) <= width
  {
    var t := (lng + 180.0) / 360.0;
    assert t * 360.0 == lng + 180.0;
    assert 0.0 <= t <= 1.0;
    assert width - t * width == (1.0 - t) * width;
  }

  lemma ProjectYRange(lat: real, height: real)
    requires height > 0.0 && -90.0 <= lat <= 90.0
    ensures 0.0 <= ProjectY(lat, height) <= height
  {
    var t := (90.0 - lat) / 180.0;
    assert t * 180.0 == 90.0 - lat;
    assert 0.0 <= t <= 1.0;
    assert height - t * height == (1.0 - t) * height;
    assert 0.0 <= (1.0 - t) * height;
    assert 0.0 <= t * height;
    assert ProjectY(lat, height) == t * height;
  }

  /** The date line lands on the left and right edges, the north pole on the
      top edge and the south pole on the bottom. */
  lemma ProjectionEdges(width: real, height: real)
    ensures ProjectY(90.0, height) == 0.0 && ProjectY(-90.0, height) == height
    ensures ProjectX(-180.0, width) == 0.0 && ProjectX(180.0, width) == width
  {
  }


  /** The projection is invertible on a canvas of positive size. */
  lemma ProjectionInvertible(a: City, b: City, width: real, height: real)
    requires width > 0.0 && height > 0.0
    requires ProjectX(a.lng, width) == ProjectX(b.lng, width) && ProjectY(a.lat, height) == ProjectY(b.lat, height)
    ensures a == b
  {
    assert (a.lng + 180.0) / 360.0 == (b.lng + 180.0) / 360.0;
    assert (90.0 - a.lat) / 180.0 == (90.0 - b.lat) / 180.0;
  }

  /** A minor city from two rolls in [0, 1). */
  function MinorCity(latRoll: real, lngRoll: real): City
  {
    City(latRoll * 180.0 - 90.0, lngRoll * 360.0 - 180.0)
  }

  predicate IsRoll(r: real)
  {
    0.0 <= r < 1.0
  }

  /** Minor cities never reach the north pole or longitude 180, so they always
      project onto the canvas. */
  lemma MinorCitiesInRange(latRoll: real, lngRoll: real)
    requires IsRoll(latRoll) && IsRoll(lngRoll)
    ensures var c := MinorCity(latRoll, lngRoll);
      -90.0 <= c.lat < 90.0 && -180.0 <= c.lng < 180.0 &&
      0.0 <= ProjectX(c.lng, CanvasWidth) < CanvasWidth && 0.0 < ProjectY(c.lat, CanvasHeight) <= CanvasHeight
  {
    var c := MinorCity(latRoll, lngRoll);
    assert c.lng + 180.0 == lngRoll * 360.0;
    assert ProjectX(c.lng, CanvasWidth) == lngRoll * CanvasWidth;
    assert 90.0 - c.lat == (1.0 - latRoll) * 180.0;
    assert ProjectY(c.lat, CanvasHeight) == (1.0 - latRoll) * CanvasHeight;
  }

  /** The loop of `generateCityLights` that draws the minor cities. */
  method GenerateMinorCities(rolls: seq<(real, real)>) returns (cities: seq<City>)
    requires |rolls| == MinorCityCount
    ensures |cities| == MinorCityCount
    ensures forall i :: 0 <= i < |cities| ==> cities[i] == MinorCity(rolls[i].0, rolls[i].1)
  {
    cities := [];
    for i := 0 to MinorCityCount
      invariant |cities| == i
      invariant forall k :: 0 <= k < i ==> cities[k] == MinorCity(rolls[k].0, rolls[k].1)
    {
      var lat := (rolls[i].0 * 180.0) - 90.0;
      var lng := (rolls[i].1 * 360.0) - 180.0;
      cities := cities + [City(lat, lng)];
    }
  }

  /** A transport line between two of the major cities, by index, with its end points on the canvas. */
  datatype Line = Line(from: int, to: int, x1: real, y1: real, x2: real, y2: real)

  /** The transport lines for the skip rolls: city `i` is joined to its
      successor when its roll is at most 0.5, for every `i` but the last. */
  function TransportSpec(cities: seq<City>, skipRolls: seq<real>, i: int): seq<Line>
    requires |skipRolls| == |cities| && 0 <= i <= |cities|
    decreases |cities| - i
  {
    if i >= |cities| - 1 then []
    else
      (if skipRolls[i] > 0.5 then [] else [LineBetween(cities, i, i + 1)])
      + TransportSpec(cities, skipRolls, i + 1)
  }

  /** The line from city `i` to city `j`, between their projections. */
  function LineBetween(cities: seq<City>, i: int, j: int): Line
    requires 0 <= i < |cities| && 0 <= j < |cities|
  {
    Line(i, j, ProjectX(cities[i].lng, CanvasWidth), ProjectY(cities[i].lat, CanvasHeight),
               ProjectX(cities[j].lng, CanvasWidth), ProjectY(cities[j].lat, CanvasHeight))
  }

  /** The transport loop of `generateCityLights`. `skipRolls[i]` is the roll
      drawn for city `i`; the last one is never drawn. */
  method TransportLines(cities: seq<City>, skipRolls: seq<real>) returns (lines: seq<Line>)
    requires |skipRolls| == |cities|
    ensures lines == TransportSpec(cities, skipRolls, 0)
  {
    lines := [];
    var i := 0;
    while i < |cities| - 1
      invariant 0 <= i <= |cities|
      invariant lines + TransportSpec(cities, skipRolls, i) == TransportSpec(cities, skipRolls, 0)
    {
      ghost var head := if skipRolls[i] > 0.5 then [] else [LineBetween(cities, i, i + 1)];
      assert TransportSpec(cities, skipRolls, i) == head + TransportSpec(cities, skipRolls, i + 1);
      Text.ConcatAssoc(lines, head, TransportSpec(cities, skipRolls, i + 1));
      if skipRolls[i] > 0.5 {
        assert lines + head == lines;
        i := i + 1;
        continue;
      }
      var city1 := cities[i];
      var city2 := cities[(i + 1) % |cities|];
      var x1 := ProjectX(city1.lng, CanvasWidth);
      var y1 := ProjectY(city1.lat, CanvasHeight);
      var x2 := ProjectX(city2.lng, CanvasWidth);
      var y2 := ProjectY(city2.lat, CanvasHeight);
      assert (i + 1) % |cities| == i + 1;
      assert Line(i, (i + 1) % |cities|, x1, y1, x2, y2) == LineBetween(cities, i, i + 1);
      lines := lines + [Line(i, (i + 1) % |cities|, x1, y1, x2, y2)];
      i := i + 1;
    }
  }

  /** Every line joins a city to the next one in the list: the loop stops
      before the last city, so `(i + 1) % length` never wraps around to the first. */
  lemma {:induction false} LinesJoinNeighbours(cities: seq<City>, skipRolls: seq<real>, i: int, l: Line)
    requires |skipRolls| == |cities| && 0 <= i <= |cities|
    requires l in TransportSpec(cities, skipRolls, i)
    ensures i <= l.from && l.to == l.from + 1 < |cities| && skipRolls[l.from] <= 0.5
    decreases |cities| - i
  {
    if i < |cities| - 1 && l in TransportSpec(cities, skipRolls, i + 1) {
      LinesJoinNeighbours(cities, skipRolls, i + 1, l);
    }
  }

  lemma {:induction false} NeighboursWithLowRollAreJoined(cities: seq<City>, skipRolls: seq<real>, i: int, k: int)
    requires |skipRolls| == |cities| && 0 <= i <= k < |cities| - 1 && skipRolls[k] <= 0.5
    ensures exists l :: l in TransportSpec(cities, skipRolls, i) && l.from == k
    decreases k - i
  {
    if i < k {
      NeighboursWithLowRollAreJoined(cities, skipRolls, i + 1, k);
      var l :| l in TransportSpec(cities, skipRolls, i + 1) && l.from == k;
      assert l in TransportSpec(cities, skipRolls, i);
    } else {
      assert TransportSpec(cities, skipRolls, i)[0].from == k;
    }
  }

  /** A line from city `k` is drawn exactly when `k` is not the last city and its roll is at most 0.5. */
  lemma TransportLinesChosen(cities: seq<City>, skipRolls: seq<real>, k: int)
    requires |skipRolls| == |cities| && 0 <= k < |cities|
    ensures (exists l :: l in TransportSpec(cities, skipRolls, 0) && l.from == k) <==>
      k < |cities| - 1 && skipRolls[k] <= 0.5
  {
    if exists l :: l in TransportSpec(cities, skipRolls, 0) && l.from == k {
      var l :| l in TransportSpec(cities, skipRolls, 0) && l.from == k;
      LinesJoinNeighbours(cities, skipRolls, 0, l);
    }
    if k < |cities| - 1 && skipRolls[k] <= 0.5 {
      NeighboursWithLowRollAreJoined(cities, skipRolls, 0, k);
    }
  }

  const BloomStrength: real := 1.5
  const EnhancedBloomStrength: real := 3.0

  /** The button captions. */
  const PauseRotation: string := "\U{6682}\U{505c}\U{65cb}\U{8f6c}"
  const StartRotation: string := "\U{5f00}\U{59cb}\U{65cb}\U{8f6c}"
  const HideAtmosphere: string := "\U{5173}\U{95ed}\U{5927}\U{6c14}\U{5c42}"
  const ShowAtmosphere: string := "\U{5927}\U{6c14}\U{5c42}\U{6548}\U{679c}"
  const WeakenBloom: string := "\U{51cf}\U{5f31}\U{8f89}\U{5149}"
  const EnhanceBloom: string := "\U{589e}\U{5f3a}\U{8f89}\U{5149}"

  /** One step of `updateLoadingProgress`: up by a tenth of the roll times
      100, but never past 100. */
  function NextLoadingProgress(progress: real, roll: real): (p: real)
    requires 0.0 <= progress <= 100.0 && IsRoll(roll)
    ensures progress <= p <= 100.0
    ensures progress + roll * 10.0 <= 100.0 ==> p == progress + roll * 10.0
    ensures progress + roll * 10.0 > 100.0 ==> p == 100.0
  {
    var q := progress + roll * 10.0;
    if q > 100.0 then 100.0 else q
  }

  /** The page's mutable state: the loading bar, the rotate, atmosphere and
      bloom toggles with their buttons, and the controls and bloom pass they drive. */
  class EarthPage {
    var loadingProgress: real
    var isRotating: bool
    var autoRotate: bool
    var rotateCaption: string
    var atmosphereVisible: bool
    var atmosphereCaption: string
    var isBloomEnhanced: bool
    var bloomStrength: real
    var bloomCaption: string

    ghost predicate Valid()
      reads this
    {
      0.0 <= loadingProgress <= 100.0 &&
      autoRotate == isRotating &&
      bloomStrength == (if isBloomEnhanced then EnhancedBloomStrength else BloomStrength)
    }

    /** The page after its module code ran, before the first loading step;
        the two captions that come from the page's HTML are inputs. */
    constructor (rotateCaption: string, atmosphereCaption: string)
      ensures Valid()
      ensures loadingProgress == 0.0 && isRotating && autoRotate && atmosphereVisible
      ensures !isBloomEnhanced && bloomStrength == BloomStrength && bloomCaption == EnhanceBloom
      ensures this.rotateCaption == rotateCaption && this.atmosphereCaption == atmosphereCaption
    {
      loadingProgress := 0.0;
      isRotating := true;
      autoRotate := true;
      this.rotateCaption := rotateCaption;
      atmosphereVisible := true;
      this.atmosphereCaption := atmosphereCaption;
      isBloomEnhanced := false;
      bloomStrength := 1.5;
      bloomCaption := EnhanceBloom;
    }

    /** `updateLoadingProgress`; `again` says whether it schedules itself again. */
    method UpdateLoadingProgress(roll: real) returns (again: bool)
      requires Valid() && IsRoll(roll)
      modifies this`loadingProgress
      ensures Valid()
      ensures loadingProgress == NextLoadingProgress(old(loadingProgress), roll)
      ensures old(loadingProgress) <= loadingProgress <= 100.0
      ensures again <==> loadingProgress < 100.0
    {
      loadingProgress := loadingProgress + roll * 10.0;
      if loadingProgress > 100.0 {
        loadingProgress := 100.0;
      }
      again := loadingProgress < 100.0;
    }

    /** The rotate button: flips `isRotating`, and the controls follow it. */
    method ClickRotate()
      requires Valid()
      modifies this`isRotating, this`autoRotate, this`rotateCaption
      ensures Valid()
      ensures isRotating == !old(isRotating) && autoRotate == isRotating
      ensures rotateCaption == if isRotating then PauseRotation else StartRotation
    {
      isRotating := !isRotating;
      autoRotate := isRotating;
      rotateCaption := if isRotating then PauseRotation else StartRotation;
    }

    /** The atmosphere button: flips the atmosphere's visibility. */
    method ClickAtmosphere()
      requires Valid()
      modifies this`atmosphereVisible, this`atmosphereCaption
      ensures Valid()
      ensures atmosphereVisible == !old(atmosphereVisible)
      ensures atmosphereCaption == if atmosphereVisible then HideAtmosphere else ShowAtmosphere
    {
      atmosphereVisible := !atmosphereVisible;
      atmosphereCaption := if atmosphereVisible then HideAtmosphere else ShowAtmosphere;
    }

    /** The bloom button: flips `isBloomEnhanced` and sets the bloom strength to match. */
    method ClickBloom()
      requires Valid()
      modifies this`isBloomEnhanced, this`bloomStrength, this`bloomCaption
      ensures Valid()
      ensures isBloomEnhanced == !old(isBloomEnhanced)
      ensures bloomStrength == if isBloomEnhanced then 3.0 else 1.5
      ensures bloomCaption == if isBloomEnhanced then WeakenBloom else EnhanceBloom
    {
      isBloomEnhanced := !isBloomEnhanced;
      bloomStrength := if isBloomEnhanced then 3.0 else 1.5;
      bloomCaption := if isBloomEnhanced then WeakenBloom else EnhanceBloom;
    }
  }

  /** Loading steps never move the bar back, and a full bar stays full. */
  lemma {:induction false} LoadingNeverGoesBack(progress: real, rolls: seq<real>)
    requires 0.0 <= progress <= 100.0 && forall i :: 0 <= i < |rolls| ==> IsRoll(rolls[i])
    ensures progress <= LoadAfter(progress, rolls) <= 100.0
    ensures progress == 100.0 ==> LoadAfter(progress, rolls) == 100.0
    decreases |rolls|
  {
    if |rolls| > 0 {
      LoadingNeverGoesBack(NextLoadingProgress(progress, rolls[0]), rolls[1..]);
    }
  }

  /** The bar after one loading step per roll. */
  function LoadAfter(progress: real, rolls: seq<real>): real
    requires 0.0 <= progress <= 100.0 && forall i :: 0 <= i < |rolls| ==> IsRoll(rolls[i])
    decreases |rolls|
  {
    if |rolls| == 0 then progress else LoadAfter(NextLoadingProgress(progress, rolls[0]), rolls[1..])
  }
}
