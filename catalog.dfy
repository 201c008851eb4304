/** The catalogue entities the mix code reads: brands and their flavors. */
module Catalog {
  import opened Wrappers

  datatype Brand = Brand(id: int, name: string, slug: string)

  /**
   * A tobacco flavor as the API returns it: `brand` is the joined brand row
   * (absent when the join was not requested) and `flavorProfile` its tag list.
   */
  datatype Flavor = Flavor(
    id: int,
    name: string,
    brandId: int,
    brand: Option<Brand>,
    flavorProfile: Option<seq<string>>,
    isAvailable: bool,
    isDeleted: bool)
}
