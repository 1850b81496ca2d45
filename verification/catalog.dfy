/**
 * The constant fixtures of the project search page: the region list, the
 * region-to-province table and the three mock projects. They never change.
 */
module Catalog {
  import opened Wrappers

  datatype Status = Planning | Ongoing | Completed

  /** One mock project record as the search page lists it. */
  datatype Project = Project(
    id: string,
    name: string,
    location: string,
    budget: nat,
    status: Status,
    progress: nat,
    agency: string)

  /** The seventeen selectable regions, in display order. */
  const Regions: seq<string> := [
    "NCR - National Capital Region",
    "CAR - Cordillera Administrative Region",
    "Region I - Ilocos Region",
    "Region II - Cagayan Valley",
    "Region III - Central Luzon",
    "Region IV-A - CALABARZON",
    "Region IV-B - MIMAROPA",
    "Region V - Bicol Region",
    "Region VI - Western Visayas",
    "Region VII - Central Visayas",
    "Region VIII - Eastern Visayas",
    "Region IX - Zamboanga Peninsula",
    "Region X - Northern Mindanao",
    "Region XI - Davao Region",
    "Region XII - SOCCSKSARGEN",
    "Region XIII - Caraga",
    "BARMM - Bangsamoro Autonomous Region"
  ]

  const Ncr := "NCR - National Capital Region"
  const CentralLuzon := "Region III - Central Luzon"
  const Calabarzon := "Region IV-A - CALABARZON"

  /** Provinces/cities are listed for three regions only. */
  const Provinces: map<string, seq<string>> := map[
    Ncr := ["Manila", "Quezon City", "Makati", "Pasig", "Taguig", "Mandaluyong"],
    CentralLuzon := ["Bataan", "Bulacan", "Nueva Ecija", "Pampanga", "Tarlac", "Zambales"],
    Calabarzon := ["Batangas", "Cavite", "Laguna", "Quezon", "Rizal"]
  ]

  /** The mock project list, in the order the page holds it. */
  const MockProjects: seq<Project> := [
    Project("DPWH-2024-001", "Maharlika Highway Rehabilitation Project",
            "Bataan, Region III", 150000000, Ongoing, 65, "DPWH"),
    Project("DEPED-2024-002", "School Building Construction - Bataan National High School",
            "Bataan, Region III", 25000000, Completed, 100, "DepEd"),
    Project("DOH-2024-003", "Rural Health Unit Modernization",
            "Bataan, Region III", 8000000, Planning, 15, "DOH")
  ]

  /** The id of some mock project. */
  predicate IsMockId(id: string) {
    exists i :: 0 <= i < |MockProjects| && MockProjects[i].id == id
  }

  /**
   * The province list the page offers for a region, if any: the guard of the
   * province selector needs a non-empty region that is a key of the table.
   */
  function ProvinceOptions(region: string): (r: Option<seq<string>>)
    ensures r.Some? <==> region in {Ncr, CentralLuzon, Calabarzon}
    ensures r.Some? ==> |r.value| > 0 && region in Regions
    ensures r.Some? ==> region in Provinces && r.value == Provinces[region]
  {
    if region != "" && region in Provinces then Some(Provinces[region]) else None
  }

  /** Exactly three of the seventeen regions, those at positions 0, 4 and 5, offer a province selector. */
  lemma OnlyThreeRegionsHaveProvinces()
    ensures |Regions| == 17
    ensures forall i :: 0 <= i < |Regions| ==>
              (ProvinceOptions(Regions[i]).Some? <==> i in {0, 4, 5})
  {
  }

  /** Every mock id is non-empty, and the ids are pairwise distinct. */
  lemma MockIdsWellFormed()
    ensures forall i :: 0 <= i < |MockProjects| ==> |MockProjects[i].id| > 0
    ensures forall i, j :: 0 <= i < j < |MockProjects| ==> MockProjects[i].id != MockProjects[j].id
  {
  }
}
