/** The two product schemas of the storefront. `Product` is the catalog record
    used by the screens and the session state; `StoredProduct` is the schema
    with a closed category set, used by the device-local favorites store and
    the product card. Prices are integers in kuruş (hundredths of a lira).
    The server-assigned `createdAt`/`updatedAt` timestamps are not modelled. */
module Models {
  import opened Common

  /** A catalog product. `sizes` and `colors` are optional because records
      read from the remote store may lack them, and the filter screen reads
      them with optional chaining. */
  datatype Product = Product(
    id: string,
    name: string,
    description: string,
    price: int,
    category: string,
    imageUrl: string,
    sizes: Option<seq<string>>,
    colors: Option<seq<string>>,
    stock: int)

  /** What the add/edit form edits and submits. */
  datatype ProductFormData = ProductFormData(
    name: string,
    description: string,
    price: int,
    category: string,
    imageUrl: string,
    sizes: seq<string>,
    colors: seq<string>,
    stock: int)

  /** The closed category set of the second schema. */
  datatype Category = Tshirt | Pants | Dress | Shoes | Accessories

  /** A product snapshot as kept in the local favorites store. */
  datatype StoredProduct = StoredProduct(
    id: string,
    name: string,
    description: string,
    price: int,
    category: Category,
    size: seq<string>,
    color: seq<string>,
    images: seq<string>,
    stock: int)

  /** The remote lookup by id (`getProductById`): a product or nothing. */
  type Lookup = string -> Option<Product>

  /** The ids for which `getProductById` rejects (a network or permission
      error) instead of answering. */
  type Rejects = string -> bool

  /** Where a loop that awaits one lookup per id stops: the position of the
      first rejected id, or `|ids|` when none is rejected. */
  function FirstRejection(ids: seq<string>, rejects: Rejects): (k: nat)
    ensures k <= |ids|
    ensures forall j :: 0 <= j < k ==> !rejects(ids[j])
    ensures k < |ids| ==> rejects(ids[k])
    decreases |ids|
  {
    if ids == [] || rejects(ids[0]) then 0
    else
      var k := FirstRejection(ids[1..], rejects);
      assert forall j :: 1 <= j < k + 1 ==> ids[j] == ids[1..][j - 1];
      1 + k
  }
}
