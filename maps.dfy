/** The key of the `reusableMaps` cache (player/maps.h): which kind of map,
    for which unit type, for a hurt unit or not, ordered as `std::map`
    needs. */
module Maps {

  /** `enum class MapType { Target, Cost }`. */
  datatype MapType = Target | Cost

  /** The seven unit types of the game API. Their declaration lives in the
      API header, which is not part of this model; the order below stands
      for the enum's underlying values, and only its being a fixed total
      order matters here. */
  datatype UnitType = Worker | Knight | Ranger | Mage | Healer | Factory | Rocket

  /** `MapReuseObject`. */
  datatype MapReuseObject = MapReuseObject(mapType: MapType, unitType: UnitType, isHurt: bool)

  /** The enum's underlying value, which `<` on enums compares. */
  function MapTypeValue(m: MapType): (v: nat)
    ensures v < 2
  {
    match m
    case Target => 0
    case Cost => 1
  }

  function UnitTypeValue(u: UnitType): (v: nat)
    ensures v < 7
  {
    match u
    case Worker => 0
    case Knight => 1
    case Ranger => 2
    case Mage => 3
    case Healer => 4
    case Factory => 5
    case Rocket => 6
  }

  lemma ValuesAreInjective(m: MapType, m': MapType, u: UnitType, u': UnitType)
    ensures MapTypeValue(m) == MapTypeValue(m') ==> m == m'
    ensures UnitTypeValue(u) == UnitTypeValue(u') ==> u == u'
  {
  }

  /** `bool < bool`: only `false < true`. */
  predicate BoolLess(a: bool, b: bool)
  {
    !a && b
  }

  /** `operator<`: the first field that differs decides, and equal keys
      are not less than each other. */
  predicate Less(a: MapReuseObject, b: MapReuseObject)
  {
    if a.mapType != b.mapType then MapTypeValue(a.mapType) < MapTypeValue(b.mapType)
    else if a.unitType != b.unitType then UnitTypeValue(a.unitType) < UnitTypeValue(b.unitType)
    else if a.isHurt != b.isHurt then BoolLess(a.isHurt, b.isHurt)
    else false
  }

  /** The position of a key in the lexicographic order on
      (mapType, unitType, isHurt). */
  function Rank(o: MapReuseObject): (r: nat)
    ensures r < 28
  {
    MapTypeValue(o.mapType) * 14 + UnitTypeValue(o.unitType) * 2 + (if o.isHurt then 1 else 0)
  }

  /** Different keys have different ranks. */
  lemma RankIsInjective(a: MapReuseObject, b: MapReuseObject)
    ensures Rank(a) == Rank(b) <==> a == b
  {
    if Rank(a) == Rank(b) {
      var ha, hb := if a.isHurt then 1 else 0, if b.isHurt then 1 else 0;
      assert ha == Rank(a) % 2 && hb == Rank(b) % 2;
      assert UnitTypeValue(a.unitType) == (Rank(a) / 2) % 7;
      assert UnitTypeValue(b.unitType) == (Rank(b) / 2) % 7;
      assert MapTypeValue(a.mapType) == Rank(a) / 14;
      assert MapTypeValue(b.mapType) == Rank(b) / 14;
      ValuesAreInjective(a.mapType, b.mapType, a.unitType, b.unitType);
    }
  }

  /** `operator<` is exactly the lexicographic order: mapType first, then
      unitType, then isHurt. */
  lemma LessIsLexicographic(a: MapReuseObject, b: MapReuseObject)
    ensures Less(a, b) <==> Rank(a) < Rank(b)
  {
    var ma, mb := MapTypeValue(a.mapType), MapTypeValue(b.mapType);
    var ua, ub := UnitTypeValue(a.unitType), UnitTypeValue(b.unitType);
    if a.mapType != b.mapType {
      ValuesAreInjective(a.mapType, b.mapType, a.unitType, b.unitType);
      if ma < mb {
        assert Rank(a) < (ma + 1) * 14 <= mb * 14 <= Rank(b);
      } else {
        assert Rank(b) < (mb + 1) * 14 <= ma * 14 <= Rank(a);
      }
    } else if a.unitType != b.unitType {
      ValuesAreInjective(a.mapType, b.mapType, a.unitType, b.unitType);
    }
  }

  /** A strict total order, as `std::map` requires of its comparator. */
  lemma LessIsStrictTotalOrder(a: MapReuseObject, b: MapReuseObject, c: MapReuseObject)
    ensures !Less(a, a)
    ensures Less(a, b) ==> !Less(b, a)
    ensures Less(a, b) && Less(b, c) ==> Less(a, c)
    ensures a != b ==> Less(a, b) || Less(b, a)
  {
    LessIsLexicographic(a, b);
    LessIsLexicographic(b, a);
    LessIsLexicographic(b, c);
    LessIsLexicographic(a, c);
    LessIsLexicographic(a, a);
    RankIsInjective(a, b);
  }

  /** Neither key less than the other:  `std::map` then treats them as the
      same entry, which happens exactly for identical keys. */
  lemma EquivalentIffEqual(a: MapReuseObject, b: MapReuseObject)
    ensures !Less(a, b) && !Less(b, a) <==> a == b
  {
    LessIsStrictTotalOrder(a, b, b);
  }

  /** Target maps come before cost maps, and a key for a healthy unit before
      the same key for a hurt one. */
  lemma TargetBeforeCostAndHealthyBeforeHurt(u: UnitType, u': UnitType, h: bool, h': bool, m: MapType)
    ensures Less(MapReuseObject(Target, u, h), MapReuseObject(Cost, u', h'))
    ensures Less(MapReuseObject(m, u, false), MapReuseObject(m, u, true))
    ensures !Less(MapReuseObject(m, u, true), MapReuseObject(m, u, false))
  {
  }
}
