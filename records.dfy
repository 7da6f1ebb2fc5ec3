/**
 * The records the catalogue pages pass around: a product of the product
 * database, an entry of a customer catalogue's `pecas` list, and a customer
 * catalogue file.
 */
module Records {
  import opened Wrappers

  /**
   * A product as stored in `database/database.json` and embedded in customer
   * catalogues. The fields read with `.get` are optional.
   */
  datatype Product = Product(
    codigo: Option<string>,
    nome: string,
    descricao: string,
    imagem: Option<string>,
    manual: Option<string>)

  /** An entry of a catalogue's `pecas` list: a product record or a bare code. */
  datatype Item = Record(fields: Product) | Bare(code: string)

  /** A customer catalogue file; every key is optional in the JSON document. */
  datatype Catalogue = Catalogue(
    cliente: Option<string>,
    vendedor: Option<string>,
    contato: Option<string>,
    pecas: Option<seq<Item>>)

  /** Wraps every product of a list as a record entry of a catalogue. */
  function AsItems(ps: seq<Product>): (r: seq<Item>)
    ensures |r| == |ps|
    ensures forall i :: 0 <= i < |ps| ==> r[i] == Record(ps[i])
  {
    seq(|ps|, i requires 0 <= i < |ps| => Record(ps[i]))
  }
}
