/** The back end's region classification (`get_region`): which pickup
    divisions a geocoded address lies in. Coordinates are exact reals; the
    boxes have inclusive bounds and may share edges. */
module Regions {

  import opened Wrappers
  import Text
  import ListOps

  /** A geocoded point in degrees. */
  datatype Coord = Coord(lat: real, lng: real)

  /** A latitude/longitude rectangle, bounds included. */
  datatype Box = Box(latLo: real, latHi: real, lngLo: real, lngHi: real)

  predicate InBox(b: Box, c: Coord)
  {
    b.latLo <= c.lat <= b.latHi && b.lngLo <= c.lng <= b.lngHi
  }

  const KerrytownBox: Box := Box(42.279277, 42.286811, -83.747954, -83.733047)
  const CentralBox: Box := Box(42.271742, 42.279677, -83.747954, -83.733047)
  const HillBox: Box := Box(42.274770, 42.286811, -83.733447, -83.722809)
  const LowerBurnsParkBox: Box := Box(42.264330, 42.272142, -83.747954, -83.733047)
  const UpperBurnsParkBox: Box := Box(42.264330, 42.275170, -83.733447, -83.722809)

  /** The region names in the order they are checked and reported. */
  const RegionOrder: seq<string> := ["kerrytown", "central", "hill", "lower_bp", "upper_bp", "pierpont"]

  /** The box of each region that has one; "pierpont" has none. */
  function BoxOf(name: string): Option<Box>
  {
    if name == "kerrytown" then Some(KerrytownBox)
    else if name == "central" then Some(CentralBox)
    else if name == "hill" then Some(HillBox)
    else if name == "lower_bp" then Some(LowerBurnsParkBox)
    else if name == "upper_bp" then Some(UpperBurnsParkBox)
    else None
  }

  /** The address rule: "pierpont" occurs somewhere in the lower-cased
      address. */
  predicate MentionsPierpont(address: string): (b: bool)
    ensures b <==> Text.Occurs(Text.Lower(address), "pierpont")
  {
    Text.Contains(Text.Lower(address), "pierpont")
  }

  /** Region `name` applies to this address and point. */
  predicate Admits(name: string, address: string, c: Coord)
  {
    match BoxOf(name)
    case Some(b) => InBox(b, c)
    case None => name == "pierpont" && MentionsPierpont(address)
  }

  /** The names of `names` that apply, in their order. */
  function SelectAdmitted(names: seq<string>, address: string, c: Coord): seq<string>
  {
    if names == [] then []
    else (if Admits(names[0], address, c) then [names[0]] else []) + SelectAdmitted(names[1..], address, c)
  }

  /** The value `get_region` returns: the list of matching regions, or the
      string 'Unknown' when the list would be empty. */
  datatype RegionResult = Regions(names: seq<string>) | Unknown

  /** The reference classification: the regions of `RegionOrder` that
      apply, or Unknown when none does. */
  function Classify(address: string, c: Coord): RegionResult
  {
    var names := SelectAdmitted(RegionOrder, address, c);
    if names == [] then Unknown else Regions(names)
  }

  /** The result lists region `name`. */
  predicate Lists(r: RegionResult, name: string)
  {
    r.Regions? && name in r.names
  }

  /** `get_region(address, lat, long)`: five box tests and the address
      rule, each appending its region to a local list. */
  method GetRegion(address: string, lat: real, lng: real) returns (r: RegionResult)
    ensures r == Classify(address, Coord(lat, lng))
  {
    var c := Coord(lat, lng);
    var region: seq<string> := [];
    if 42.279277 <= lat <= 42.286811 && -83.747954 <= lng <= -83.733047 {
      region := region + ["kerrytown"];
    }
    assert region == Upto(1, address, c);
    if 42.271742 <= lat <= 42.279677 && -83.747954 <= lng <= -83.733047 {
      region := region + ["central"];
    }
    assert region == Upto(2, address, c);
    if 42.274770 <= lat <= 42.286811 && -83.733447 <= lng <= -83.722809 {
      region := region + ["hill"];
    }
    assert region == Upto(3, address, c);
    if 42.264330 <= lat <= 42.272142 && -83.747954 <= lng <= -83.733047 {
      region := region + ["lower_bp"];
    }
    assert region == Upto(4, address, c);
    if 42.264330 <= lat <= 42.275170 && -83.733447 <= lng <= -83.722809 {
      region := region + ["upper_bp"];
    }
    assert region == Upto(5, address, c);
    if Text.Contains(Text.Lower(address), "pierpont") {
      region := region + ["pierpont"];
    }
    assert region == Upto(6, address, c);
    ClassifyUnfolded(address, c);
    r := if region != [] then Regions(region) else Unknown;
  }

  /** The names among the first `k` of `RegionOrder` that apply, in order. */
  function Upto(k: nat, address: string, c: Coord): seq<string>
    requires k <= |RegionOrder|
  {
    if k == 0 then []
    else Upto(k - 1, address, c) + (if Admits(RegionOrder[k - 1], address, c) then [RegionOrder[k - 1]] else [])
  }

  /** Selecting from a candidate list split in two selects from each part. */
  lemma {:induction false} SelectAdmittedAppend(a: seq<string>, b: seq<string>, address: string, c: Coord)
    ensures SelectAdmitted(a + b, address, c) == SelectAdmitted(a, address, c) + SelectAdmitted(b, address, c)
  {
    if a == [] {
      assert a + b == b;
    } else {
      assert (a + b)[1..] == a[1..] + b;
      SelectAdmittedAppend(a[1..], b, address, c);
    }
  }

  /** Testing the regions one after another, as `get_region` does, builds
      the reference classification's list. */
  lemma {:induction false} UptoSelects(k: nat, address: string, c: Coord)
    requires k <= |RegionOrder|
    ensures Upto(k, address, c) == SelectAdmitted(RegionOrder[..k], address, c)
  {
    if k > 0 {
      UptoSelects(k - 1, address, c);
      assert RegionOrder[..k] == RegionOrder[..k - 1] + [RegionOrder[k - 1]];
      SelectAdmittedAppend(RegionOrder[..k - 1], [RegionOrder[k - 1]], address, c);
    }
  }

  /** Nothing among the first `k` regions applies exactly when each of
      them fails its rule. */
  lemma {:induction false} UptoEmpty(k: nat, address: string, c: Coord)
    requires k <= |RegionOrder|
    ensures Upto(k, address, c) == [] <==> forall j :: 0 <= j < k ==> !Admits(RegionOrder[j], address, c)
  {
    if k > 0 {
      UptoEmpty(k - 1, address, c);
    }
  }

  /** The list `get_region` builds is the reference classification's. */
  lemma ClassifyUnfolded(address: string, c: Coord)
    ensures SelectAdmitted(RegionOrder, address, c) == Upto(6, address, c)
  {
    UptoSelects(6, address, c);
    assert RegionOrder[..6] == RegionOrder;
  }

  /** A name is selected exactly when it is one of the candidates and its
      rule applies. */
  lemma {:induction false} SelectAdmittedMember(names: seq<string>, address: string, c: Coord, name: string)
    ensures name in SelectAdmitted(names, address, c) <==> name in names && Admits(name, address, c)
  {
    if names != [] {
      SelectAdmittedMember(names[1..], address, c, name);
      assert names == [names[0]] + names[1..];
    }
  }

  /** The selection keeps the candidates' order. */
  lemma {:induction false} SelectAdmittedOrdered(names: seq<string>, address: string, c: Coord)
    ensures ListOps.IsSubsequence(SelectAdmitted(names, address, c), names)
  {
    if names != [] {
      SelectAdmittedOrdered(names[1..], address, c);
      var rest := SelectAdmitted(names[1..], address, c);
      if Admits(names[0], address, c) {
        assert ([names[0]] + rest)[1..] == rest;
      } else {
        assert SelectAdmitted(names, address, c) == rest;
        if rest != [] {
          assert ListOps.IsSubsequence(rest, names[1..]);
        }
      }
    }
  }

  /** Each region is listed exactly when its box contains the point (or,
      for "pierpont", the address mentions it). */
  lemma RegionListedIff(address: string, c: Coord, name: string)
    ensures Lists(Classify(address, c), name) <==> name in RegionOrder && Admits(name, address, c)
  {
    SelectAdmittedMember(RegionOrder, address, c, name);
  }

  /** The listed regions are a non-empty subsequence of the fixed order
      kerrytown, central, hill, lower_bp, upper_bp, pierpont. */
  lemma ClassifyOrdered(address: string, c: Coord)
    ensures Classify(address, c).Regions? ==>
      Classify(address, c).names != [] && ListOps.IsSubsequence(Classify(address, c).names, RegionOrder)
  {
    SelectAdmittedOrdered(RegionOrder, address, c);
  }

  /** 'Unknown' comes back exactly when no box contains the point and the
      address does not mention "pierpont". */
  lemma UnknownIff(address: string, c: Coord)
    ensures Classify(address, c).Unknown? <==>
      && !InBox(KerrytownBox, c) && !InBox(CentralBox, c) && !InBox(HillBox, c)
      && !InBox(LowerBurnsParkBox, c) && !InBox(UpperBurnsParkBox, c)
      && !MentionsPierpont(address)
  {
    ClassifyUnfolded(address, c);
    UptoEmpty(6, address, c);
    assert Admits(RegionOrder[0], address, c) == InBox(KerrytownBox, c);
    assert Admits(RegionOrder[1], address, c) == InBox(CentralBox, c);
    assert Admits(RegionOrder[2], address, c) == InBox(HillBox, c);
    assert Admits(RegionOrder[3], address, c) == InBox(LowerBurnsParkBox, c);
    assert Admits(RegionOrder[4], address, c) == InBox(UpperBurnsParkBox, c);
    assert Admits(RegionOrder[5], address, c) == MentionsPierpont(address);
  }

  /** "pierpont" depends on the address alone, whatever the coordinates. */
  lemma PierpontByAddressOnly(address: string, c: Coord)
    ensures Lists(Classify(address, c), "pierpont") <==> MentionsPierpont(address)
  {
    RegionListedIff(address, c, "pierpont");
  }

  /** Neighbouring boxes share their edges: in the band where Kerrytown
      and Central overlap a point is listed in both. */
  lemma KerrytownCentralOverlap(address: string, c: Coord)
    requires 42.279277 <= c.lat <= 42.279677 && -83.747954 <= c.lng <= -83.733047
    ensures Lists(Classify(address, c), "kerrytown") && Lists(Classify(address, c), "central")
  {
    RegionListedIff(address, c, "kerrytown");
    RegionListedIff(address, c, "central");
  }

  /** The Hill overlaps Kerrytown along a thin strip of longitudes. */
  lemma KerrytownHillOverlap(address: string, c: Coord)
    requires 42.279277 <= c.lat <= 42.286811 && -83.733447 <= c.lng <= -83.733047
    ensures Lists(Classify(address, c), "kerrytown") && Lists(Classify(address, c), "hill")
  {
    RegionListedIff(address, c, "kerrytown");
    RegionListedIff(address, c, "hill");
  }

  /** A listed region is always one of the six names, so never "Unknown". */
  lemma ListedNamesKnown(address: string, c: Coord, name: string)
    requires Lists(Classify(address, c), name)
    ensures name in RegionOrder && name != "Unknown"
  {
    ClassifyOrdered(address, c);
    ListOps.SubsequenceElements(Classify(address, c).names, RegionOrder, name);
  }
}
