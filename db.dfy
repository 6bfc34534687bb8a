/**
 * The two MongoDB collections the routes read and write. Each collection is
 * a sequence of documents; its order stands for the order a query returns.
 */
module Db {
  import opened ProductModel
  import opened CategoryModel

  class Database {
    var products: seq<Product>
    var categories: seq<Category>

    /** The unique indexes (`_id`, `sku`, category `name`) hold. */
    ghost predicate Valid()
      reads this
    {
      && UniqueIds(products)
      && UniqueSkus(products)
      && UniqueCategoryIds(categories)
      && UniqueNames(categories)
    }

    constructor ()
      ensures Valid()
      ensures products == [] && categories == []
    {
      products := [];
      categories := [];
    }
  }
}
