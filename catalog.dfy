/** The product catalog (`PRODUCTS`) is an input to the model; only the fields the cart and
    the views read are kept. Prices are whole cents. */
module Catalog {

  datatype Product = Product(id: string, title: string, price: int, image: string, category: string)
}
