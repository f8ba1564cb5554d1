/** The product record the listing receives from the products route. Prices,
    discounts and ratings are JavaScript numbers; they are exact reals here. */
module Products {

  datatype Product = Product(
    id: int,
    title: string,
    description: string,
    price: real,
    discountPercentage: real,
    rating: real,
    brand: string,
    category: string,
    stock: int,
    thumbnail: string,
    images: seq<string>)
}
