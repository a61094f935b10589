/** The product variants and the factory that builds them from a type name
    (api/product/ProductModel.php). */
module ProductModel {
  import opened Wrappers

  /** Attribute values are kept as the already-rendered number texts that PHP
      interpolates into a description; their arithmetic is not modelled. */
  type Num = string

  /** An attribute a variant does not use: PHP's integer 0, rendered "0". */
  const Zero: Num := "0"

  /** The closed set of variants (the PHP subclasses of Product). */
  datatype Kind = Book | Furniture | Dvd

  /** The nine stored properties of the abstract Product base class plus the
      subclass it was constructed as. The destructors are the getters. */
  datatype Product = Product(
    kind: Kind,
    sku: string, name: string, price: Num, productType: string,
    size: Num, height: Num, width: Num, length: Num, weight: Num)

  /** The type names the factory accepts, spelled exactly as in its switch. */
  const BookType := "Book"
  const FurnitureType := "Furniture"
  const DvdType := "DVD"

  predicate IsKnownType(productType: string) {
    productType == BookType || productType == FurnitureType || productType == DvdType
  }

  /** Every attribute the variant does not use holds zero. */
  predicate UnusedAreZero(p: Product) {
    match p.kind
    case Book => p.size == Zero && p.height == Zero && p.width == Zero && p.length == Zero
    case Furniture => p.size == Zero && p.weight == Zero
    case Dvd => p.height == Zero && p.width == Zero && p.length == Zero && p.weight == Zero
  }

  /** getDescription, dispatched on the variant. */
  function Description(p: Product): string {
    match p.kind
    case Book => "Weight: " + p.weight + "KG"
    case Furniture => "Dimensions: " + p.height + "x" + p.width + "x" + p.length
    case Dvd => "Size: " + p.size + " MB"
  }

  /** The Book constructor: forwards weight and passes 0 for the four other attributes. */
  function NewBook(sku: string, name: string, price: Num, productType: string, weight: Num): (p: Product)
    ensures p.kind == Book && UnusedAreZero(p) && p.weight == weight
    ensures p.sku == sku && p.name == name && p.price == price && p.productType == productType
  {
    Product(Book, sku, name, price, productType, Zero, Zero, Zero, Zero, weight)
  }

  /** The Furniture constructor: forwards the three dimensions; size and weight
      fall back to the base constructor's default 0. */
  function NewFurniture(sku: string, name: string, price: Num, productType: string,
                        height: Num, width: Num, length: Num): (p: Product)
    ensures p.kind == Furniture && UnusedAreZero(p)
    ensures p.height == height && p.width == width && p.length == length
    ensures p.sku == sku && p.name == name && p.price == price && p.productType == productType
  {
    Product(Furniture, sku, name, price, productType, Zero, height, width, length, Zero)
  }

  /** The Dvd constructor: forwards size; the dimensions and weight fall back to
      the base constructor's default 0. */
  function NewDvd(sku: string, name: string, price: Num, productType: string, size: Num): (p: Product)
    ensures p.kind == Dvd && UnusedAreZero(p) && p.size == size
    ensures p.sku == sku && p.name == name && p.price == price && p.productType == productType
  {
    Product(Dvd, sku, name, price, productType, size, Zero, Zero, Zero, Zero)
  }

  /** ProductFactory::createProduct. An unknown type name is the PHP exception,
      carried here as the failure message. */
  function CreateProduct(sku: string, name: string, price: Num, productType: string,
                         size: Num, height: Num, width: Num, length: Num, weight: Num)
    : (r: Result<Product, string>)
    ensures r.Success? <==> IsKnownType(productType)
    ensures r.Failure? ==> r.error == "Invalid product type: " + productType
    ensures r.Success? ==>
      && UnusedAreZero(r.value)
      && r.value.sku == sku && r.value.name == name && r.value.price == price
      && r.value.productType == productType
    ensures productType == BookType ==>
      r.Success? && r.value.kind == Book && Description(r.value) == "Weight: " + weight + "KG"
    ensures productType == FurnitureType ==>
      r.Success? && r.value.kind == Furniture
      && Description(r.value) == "Dimensions: " + height + "x" + width + "x" + length
    ensures productType == DvdType ==>
      r.Success? && r.value.kind == Dvd && Description(r.value) == "Size: " + size + " MB"
  {
    if productType == BookType then Success(NewBook(sku, name, price, productType, weight))
    else if productType == FurnitureType then
      Success(NewFurniture(sku, name, price, productType, height, width, length))
    else if productType == DvdType then Success(NewDvd(sku, name, price, productType, size))
    else Failure("Invalid product type: " + productType)
  }

  /** Type names differing from the accepted ones only by letter case are refused. */
  lemma CaseVariantsRejected(sku: string, name: string, price: Num,
                             size: Num, height: Num, width: Num, length: Num, weight: Num)
    ensures CreateProduct(sku, name, price, "book", size, height, width, length, weight)
            == Failure("Invalid product type: book")
    ensures CreateProduct(sku, name, price, "Dvd", size, height, width, length, weight)
            == Failure("Invalid product type: Dvd")
    ensures CreateProduct(sku, name, price, "FURNITURE", size, height, width, length, weight).Failure?
  {
    assert "book" != BookType && "Dvd" != DvdType && "FURNITURE" != FurnitureType;
    assert "Invalid product type: " + "book" == "Invalid product type: book";
    assert "Invalid product type: " + "Dvd" == "Invalid product type: Dvd";
  }

  /** A variant's description does not depend on the factory arguments the variant
      ignores: two calls that agree on the type and on the attributes that type
      uses produce the same description. */
  lemma DescriptionIgnoresUnused(productType: string, sku: string, name: string, price: Num,
                                 size: Num, height: Num, width: Num, length: Num, weight: Num,
                                 size': Num, height': Num, width': Num, length': Num, weight': Num)
    requires IsKnownType(productType)
    requires productType == BookType ==> weight == weight'
    requires productType == FurnitureType ==> height == height' && width == width' && length == length'
    requires productType == DvdType ==> size == size'
    ensures CreateProduct(sku, name, price, productType, size, height, width, length, weight)
            == CreateProduct(sku, name, price, productType, size', height', width', length', weight')
  {
  }

  /** A Book's or a DVD's description determines the attribute it was built from. */
  lemma DescriptionDeterminesAttribute(p: Product, q: Product)
    requires p.kind == q.kind && p.kind != Furniture
    requires Description(p) == Description(q)
    ensures p.kind == Book ==> p.weight == q.weight
    ensures p.kind == Dvd ==> p.size == q.size
  {
    var d := Description(p);
    if p.kind == Book {
      assert |p.weight| == |q.weight|;
      assert p.weight == d[8..|d| - 2] == q.weight;
    } else {
      assert |p.size| == |q.size|;
      assert p.size == d[6..|d| - 3] == q.size;
    }
  }

  /** One product of each variant and its description: a 0.5 KG book, a
      10x20x30 piece of furniture and a 700 MB DVD. */
  lemma DescriptionExamples()
    ensures Description(CreateProduct("B1", "Novel", "9.99", "Book", "0", "0", "0", "0", "0.5")
                        .Extract()) == "Weight: 0.5KG"
    ensures Description(CreateProduct("D1", "Movie", "14.99", "DVD", "700", "0", "0", "0", "0")
                        .Extract()) == "Size: 700 MB"
    ensures Description(CreateProduct("F1", "Chair", "49.99", "Furniture", "0", "10", "20", "30", "0")
                        .Extract()) == "Dimensions: 10x20x30"
  {
  }
}
