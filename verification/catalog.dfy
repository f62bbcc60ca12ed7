/** The `Product` record and the sample list shown on the home screen. */
module Catalog {
  import opened KotlinText

  datatype Product = Product(
    id: int32,
    nombre: string,
    precio: string,     // displayed only, never parsed
    stock: int32,
    imageUrl: string,
    descripcion: string)

  const DescripcionPorDefecto: string :=
    "Producto de segunda mano en excelente estado, ideal para darle una segunda vida."

  /** The constructor call that omits `descripcion` and so takes its default. */
  function NewProduct(id: int32, nombre: string, precio: string, stock: int32, imageUrl: string): (p: Product)
    ensures p.id == id && p.nombre == nombre && p.precio == precio
    ensures p.stock == stock && p.imageUrl == imageUrl
    ensures p.descripcion == DescripcionPorDefecto
  {
    Product(id, nombre, precio, stock, imageUrl, DescripcionPorDefecto)
  }

  function SampleProducts(): (ps: seq<Product>)
    ensures |ps| == 5
    ensures forall i :: 0 <= i < |ps| ==> ps[i].id as int == i + 1
    ensures forall i :: 0 <= i < |ps| ==> ps[i].stock > 0
    ensures forall i :: 0 <= i < |ps| ==> ps[i].descripcion == DescripcionPorDefecto
  {
    [ NewProduct(1, "Polera Vintage", "12.990", 10, "https://placehold.co/150x150/555/FFF?text=T-Shirt"),
      NewProduct(2, "Zapatillas Urban", "29.990", 5, "https://placehold.co/150x150/444/FFF?text=Sneakers"),
      NewProduct(3, "Bolso Tote RY", "14.990", 3, "https://placehold.co/150x150/333/FFF?text=Bag"),
      NewProduct(4, "Chaqueta Denim", "35.000", 1, "https://placehold.co/150x150/222/FFF?text=Jacket"),
      NewProduct(5, "Pantalón Cargo", "18.500", 8, "https://placehold.co/150x150/111/FFF?text=Pants") ]
  }

  lemma SampleIdsDistinct()
    ensures forall i, j :: 0 <= i < j < |SampleProducts()| ==> SampleProducts()[i].id != SampleProducts()[j].id
  {
  }
}
