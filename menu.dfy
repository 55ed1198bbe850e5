/** The menu catalog: the Product record and the six-item constant catalog
    (data/menu.ts). */
module Menu {

  /** The four menu categories a product may belong to. */
  datatype Category = Signature | Milk | Fruit | Classic

  /** A taste profile on three axes; the catalog keeps each axis in 0..10.
      The same shape is used for a customer's stated preference. */
  datatype Attributes = Attributes(sweet: int, creamy: int, fruity: int)

  /** A menu entry. Prices are whole rupiah. */
  datatype Product = Product(
    id: string,
    name: string,
    price: int,
    description: string,
    image: string,
    category: Category,
    attributes: Attributes)

  /** An axis value the catalog promises: between 0 and 10 inclusive. */
  predicate InTasteRange(v: int) {
    0 <= v <= 10
  }

  predicate ValidAttributes(a: Attributes) {
    InTasteRange(a.sweet) && InTasteRange(a.creamy) && InTasteRange(a.fruity)
  }

  /** What every catalog entry satisfies: taste axes in range and a positive price. */
  predicate ValidProduct(p: Product) {
    ValidAttributes(p.attributes) && p.price > 0
  }

  /** No two entries share an id. */
  predicate DistinctIds(ps: seq<Product>) {
    forall i, j :: 0 <= i < j < |ps| ==> ps[i].id != ps[j].id
  }

  /** The shop's catalog, in display order. */
  const Products: seq<Product> := [
    Product("1", "Royal Golden Milk Tea", 18000,
            "Signature black tea blended with premium fresh milk and golden brown sugar.",
            "/images/royal-milk-tea.png", Signature, Attributes(8, 9, 0)),
    Product("2", "Imperial Jasmine Honey", 15000,
            "Fragrant jasmine tea with organic honey and aloe vera toppings.",
            "/images/jasmine-honey.png", Classic, Attributes(6, 0, 2)),
    Product("3", "Sakura Berry Frappe", 22000,
            "Japanese sakura essence blended with strawberry and cream cheese foam.",
            "/images/sakura-berry.png", Fruit, Attributes(9, 7, 9)),
    Product("4", "Kyoto Macha Latte", 20000,
            "Imported matcha from Kyoto with fresh milk, rich and earthy.",
            "/images/matcha-latte.png", Milk, Attributes(5, 8, 0)),
    Product("5", "Tropical Mango Breeze", 18000,
            "Refreshing mango tea with real mango chunks and mint leaves.",
            "/images/mango-breeze.png", Fruit, Attributes(7, 1, 10)),
    Product("6", "Dark Roasted Oolong", 14000,
            "Pure roasted oolong tea, strong and energetic.",
            "/images/oolong.png", Classic, Attributes(1, 0, 0))
  ]

  /** The catalog has six entries with ids "1" to "6" in order, so the ids are distinct. */
  lemma CatalogIds()
    ensures |Products| == 6
    ensures forall i :: 0 <= i < 6 ==> Products[i].id == [(('1' as int) + i) as char]
    ensures DistinctIds(Products)
  {
  }

  /** Every catalog entry keeps its taste axes in 0..10 and has a positive price. */
  lemma CatalogValid()
    ensures forall p :: p in Products ==> ValidProduct(p)
  {
  }

  /** The Signature entry is the one whose taste profile is (8, 9, 0); no other
      entry has that profile. */
  lemma OnlyRoyalMatches()
    ensures forall p :: p in Products && p.attributes == Attributes(8, 9, 0) ==> p.id == "1"
  {
  }
}
