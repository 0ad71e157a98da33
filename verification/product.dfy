/** The product record shared by the catalogue, cart, admin table and
    downloads, and the filter vocabularies offered by the catalogue. */
module Products {

  datatype Product = Product(
    id: string,
    name: string,
    description: string,
    price: real,
    category: string,
    brand: string,
    inStock: bool,
    rating: real)

  /** The wildcard entry of both filter lists. */
  const All: string := "All"

  const Categories: seq<string> := ["All", "Electronics", "Accessories", "Storage"]
  const Brands: seq<string> := ["All", "TechBrand", "AudioPro", "WearTech", "GamingGear", "DataStore"]
}
