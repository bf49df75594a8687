/** The `Zone` record and the module-level zone cache: `get_zone_by_xy`
    builds a zone for an integer grid pair and, when the cache is switched
    on, hands out one shared zone per code. */
module Zones {
  import opened Encoder
  import opened Decoder

  /** A cell: the grid pair it was built from and its code. The latitude
      and longitude of the centre are float values and are not kept. */
  class Zone {
    const x: int
    const y: int
    const code: string

    constructor (x: int, y: int, code: string)
      ensures this.x == x && this.y == y && this.code == code
    {
      this.x := x;
      this.y := y;
      this.code := code;
    }

    /** `Zone#level`: two letters, then one digit per level. */
    function Level(): int
    {
      |code| - 2
    }
  }

  /** The `@cache_on` flag and `ZONE_CACHE`, which the source keeps as
      module state. */
  class ZoneCache {
    var cacheOn: bool
    var zoneCache: map<string, Zone>

    /** Every cached zone is filed under its own code. */
    ghost predicate Valid()
      reads this
    {
      forall c :: c in zoneCache ==> zoneCache[c].code == c
    }

    /** The initial module state: cache off and empty. */
    constructor ()
      ensures Valid() && !cacheOn && zoneCache == map[]
    {
      cacheOn := false;
      zoneCache := map[];
    }

    /** `cache_on=`: only the flag changes; entries made earlier stay. */
    method SetCacheOn(value: bool)
      requires Valid()
      modifies this
      ensures Valid() && cacheOn == value && zoneCache == old(zoneCache)
    {
      cacheOn := value;
    }

    /** The integer part of `get_zone_by_xy`. With the cache on, a zone
        already filed under the code is returned as it is (its x and y may
        be another pair with the same code) and the cache is left alone;
        otherwise a new zone holding the caller's x and y, not the seam-
        swapped pair, is made and, with the cache on, filed under its code.
        With the cache off the cache is not touched. */
    method GetZoneByXY(x: int, y: int, level: nat, east: bool) returns (z: Zone)
      requires Valid()
      modifies this
      ensures Valid() && cacheOn == old(cacheOn)
      ensures z.code == EncodeCode(x, y, level, east) && z.Level() == level
      ensures old(cacheOn) && z.code in old(zoneCache) ==>
                z == old(zoneCache)[z.code] && zoneCache == old(zoneCache)
      ensures old(cacheOn) && z.code !in old(zoneCache) ==>
                fresh(z) && z.x == x && z.y == y && zoneCache == old(zoneCache)[z.code := z]
      ensures !old(cacheOn) ==>
                fresh(z) && z.x == x && z.y == y && zoneCache == old(zoneCache)
    {
      var hCode := ZoneCode(x, y, level, east);
      if cacheOn {
        if hCode in zoneCache {
          return zoneCache[hCode];
        }
        z := new Zone(x, y, hCode);
        zoneCache := zoneCache[hCode := z];
      } else {
        z := new Zone(x, y, hCode);
      }
    }

    /** `get_zone_by_code`: decode the code with `get_xy_by_code` as
        written, then hand the decoded pair and the level the code length
        gives to `get_zone_by_xy`, with its three cache cases. A code the
        decoder rejects (where Ruby raises) leaves the cache as it was. */
    method GetZoneByCode(code: string, east: bool) returns (r: Result<Zone>)
      requires Valid()
      modifies this
      ensures Valid() && cacheOn == old(cacheOn)
      ensures r.Err? <==> GetXYByCodeAsWritten(code).Err?
      ensures r.Err? ==> r.error == GetXYByCodeAsWritten(code).error && zoneCache == old(zoneCache)
      ensures r.Ok? ==>
                var g := GetXYByCodeAsWritten(code).value;
                var c := EncodeCode(g.x, g.y, |code| - 2, east);
                |code| >= 2 && r.value.code == c && r.value.Level() == |code| - 2 &&
                (old(cacheOn) && c in old(zoneCache) ==>
                   r.value == old(zoneCache)[c] && zoneCache == old(zoneCache)) &&
                (old(cacheOn) && c !in old(zoneCache) ==>
                   fresh(r.value) && r.value.x == g.x && r.value.y == g.y &&
                   zoneCache == old(zoneCache)[c := r.value]) &&
                (!old(cacheOn) ==>
                   fresh(r.value) && r.value.x == g.x && r.value.y == g.y && zoneCache == old(zoneCache))
    {
      var xy := GetXYByCode(code);
      if xy.Err? {
        return Err(xy.error);
      }
      var z := GetZoneByXY(xy.value.x, xy.value.y, |code| - 2, east);
      r := Ok(z);
    }

    /** `get_zone_by_code` over the corrected decoder, which pads before
        the remap; the same cache cases as `GetZoneByCode`. */
    method GetZoneByCodeCorrected(code: string, east: bool) returns (r: Result<Zone>)
      requires Valid()
      modifies this
      ensures Valid() && cacheOn == old(cacheOn)
      ensures r.Err? <==> GetXYByCodeFixed(code).Err?
      ensures r.Err? ==> r.error == GetXYByCodeFixed(code).error && zoneCache == old(zoneCache)
      ensures r.Ok? ==>
                var g := GetXYByCodeFixed(code).value;
                var c := EncodeCode(g.x, g.y, |code| - 2, east);
                |code| >= 2 && r.value.code == c && r.value.Level() == |code| - 2 &&
                (old(cacheOn) && c in old(zoneCache) ==>
                   r.value == old(zoneCache)[c] && zoneCache == old(zoneCache)) &&
                (old(cacheOn) && c !in old(zoneCache) ==>
                   fresh(r.value) && r.value.x == g.x && r.value.y == g.y &&
                   zoneCache == old(zoneCache)[c := r.value]) &&
                (!old(cacheOn) ==>
                   fresh(r.value) && r.value.x == g.x && r.value.y == g.y && zoneCache == old(zoneCache))
    {
      var xy := GetXYByCodeCorrected(code);
      if xy.Err? {
        return Err(xy.error);
      }
      var z := GetZoneByXY(xy.value.x, xy.value.y, |code| - 2, east);
      r := Ok(z);
    }
  }
}
