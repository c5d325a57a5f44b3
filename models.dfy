/**
 * The two stored entities of the forecaster app, `Product` and `Sale`
 * (forecaster/models.py), with money held as integer cents.
 */
module Models {
  import opened Wrappers

  /** The closed set of product categories (`CATEGORY_CHOICES`). */
  datatype Category = Electronics | Clothing | Home | Books | Toys

  /** The stored value of a category choice. */
  function CategoryName(c: Category): string
  {
    match c
    case Electronics => "Electronics"
    case Clothing => "Clothing"
    case Home => "Home"
    case Books => "Books"
    case Toys => "Toys"
  }

  /** The choices in the order the model declares them. */
  const CategoryChoices: seq<Category> := [Electronics, Clothing, Home, Books, Toys]

  /** Validation of a stored string against the choices: only the five names are accepted. */
  function ParseCategory(name: string): (r: Option<Category>)
    ensures r.Some? ==> CategoryName(r.value) == name
    ensures r.None? <==> forall c: Category :: CategoryName(c) != name
  {
    if name == "Electronics" then Some(Electronics)
    else if name == "Clothing" then Some(Clothing)
    else if name == "Home" then Some(Home)
    else if name == "Books" then Some(Books)
    else if name == "Toys" then Some(Toys)
    else None
  }

  /** Every category is one of the five declared choices, and the choices are distinct. */
  lemma ChoicesAreClosed(c: Category)
    ensures c in CategoryChoices
    ensures |CategoryChoices| == 5
    ensures forall i, j :: 0 <= i < j < |CategoryChoices| ==> CategoryChoices[i] != CategoryChoices[j]
    ensures ParseCategory(CategoryName(c)) == Some(c)
  {
  }

  // ---------------------------------------------------------------------------
  // Fixed-point decimals as cents

  function Pow10(n: nat): (r: nat)
    ensures r >= 1
  {
    if n == 0 then 1 else 10 * Pow10(n - 1)
  }

  /**
   * A `DecimalField(max_digits = digits, decimal_places = 2)` holds, counted in
   * cents, exactly the integers with at most `digits` decimal digits.
   */
  predicate FitsDecimal(cents: int, digits: nat)
  {
    var bound: int := Pow10(digits);
    -bound < cents < bound
  }

  /** `Product.price`: 10 digits, 2 of them decimal places. */
  const PriceDigits: nat := 10
  /** `Sale.total_revenue`: 15 digits, 2 of them decimal places. */
  const RevenueDigits: nat := 15

  /** Field defaults of `Product`. */
  const DefaultStockLevel: int := 0
  const DefaultReorderPoint: int := 10

  // ---------------------------------------------------------------------------
  // Timestamps

  type Month = m: int | 1 <= m <= 12 witness 1
  type Hour = h: int | 0 <= h < 24
  /** Day of the week, 0 for Monday up to 6 for Sunday. */
  type Weekday = d: int | 0 <= d < 7

  /**
   * A sale timestamp, already broken into the calendar fields the report
   * reads; converting an instant into them is not part of this model.
   */
  datatype DateTime = DateTime(year: int, month: Month, day: int, hour: Hour, weekday: Weekday)

  // ---------------------------------------------------------------------------
  // Entities

  class Product {
    var name: string
    var category: Category
    var currentStockLevel: int
    var reorderPoint: int
    /** Unit price in cents. */
    var price: int

    /** The price is representable in its column. */
    predicate PriceFits()
      reads this
    {
      FitsDecimal(price, PriceDigits)
    }

    /** The alert condition of the dashboard: stock strictly below the reorder point. */
    predicate IsLowStock()
      reads this
    {
      currentStockLevel < reorderPoint
    }

    /** A product created with the field defaults for stock and reorder point. */
    constructor (name: string, category: Category, price: int)
      ensures this.name == name && this.category == category && this.price == price
      ensures currentStockLevel == DefaultStockLevel && reorderPoint == DefaultReorderPoint
      ensures IsLowStock()
    {
      this.name := name;
      this.category := category;
      this.price := price;
      currentStockLevel := DefaultStockLevel;
      reorderPoint := DefaultReorderPoint;
    }

    /** An edit of the price followed by a save of the product. */
    method Reprice(newPrice: int)
      modifies this
      ensures price == newPrice
      ensures name == old(name) && category == old(category)
      ensures currentStockLevel == old(currentStockLevel) && reorderPoint == old(reorderPoint)
    {
      price := newPrice;
    }
  }

  class Sale {
    /** The product sold; the model does not reassign a sale's product. */
    const product: Product
    /** A plain integer column: neither positivity nor any bound is enforced. */
    var quantitySold: int
    var saleDate: DateTime
    /** Revenue in cents, as last stored. */
    var totalRevenue: int

    /** A sale built with every column given, as a bulk insert does it (no `save`). */
    constructor (product: Product, quantitySold: int, saleDate: DateTime, totalRevenue: int)
      ensures this.product == product && this.quantitySold == quantitySold
      ensures this.saleDate == saleDate && this.totalRevenue == totalRevenue
    {
      this.product := product;
      this.quantitySold := quantitySold;
      this.saleDate := saleDate;
      this.totalRevenue := totalRevenue;
    }

    /**
     * `save`: recompute the revenue from the product's current price, then
     * persist. The revenue is assigned whatever it was before; `fits` tells
     * whether the new value is representable in the 15-digit column.
     */
    method Save() returns (fits: bool)
      modifies this
      ensures totalRevenue == product.price * quantitySold
      ensures quantitySold == old(quantitySold) && saleDate == old(saleDate)
      ensures unchanged(product)
      ensures fits <==> FitsDecimal(totalRevenue, RevenueDigits)
    {
      totalRevenue := product.price * quantitySold;
      fits := FitsDecimal(totalRevenue, RevenueDigits);
    }
  }

  /**
   * The stored revenue follows the price of the most recent save: a price
   * change leaves it as it was until the sale is saved again.
   */
  method RepriceBetweenSaves(sale: Sale, newPrice: int) returns (stale: int, current: int)
    modifies sale, sale.product
    ensures stale == old(sale.product.price) * sale.quantitySold
    ensures current == newPrice * sale.quantitySold
    ensures sale.totalRevenue == current && sale.product.price == newPrice
  {
    var _ := sale.Save();
    sale.product.Reprice(newPrice);
    stale := sale.totalRevenue;
    var _ := sale.Save();
    current := sale.totalRevenue;
  }
}
