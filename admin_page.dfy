/**
 * The admin page (`pages/admin.py`): look a product up by code and add it to
 * the catalogue being assembled, register a new product, remove a piece
 * from the catalogue being assembled, and save the customer catalogue.
 */
module AdminPage {
  import opened Wrappers
  import opened Records
  import opened Slugs
  import opened Assets
  import opened GitHubSync

  /** `buscar_produto_por_codigo(produtos, codigo)`: the first product whose `codigo` equals the query. */
  function FindByCode(produtos: seq<Product>, codigo: string): (r: Option<Product>)
    ensures r.None? <==> forall i :: 0 <= i < |produtos| ==> produtos[i].codigo != Some(codigo)
    ensures r.Some? ==> exists i :: 0 <= i < |produtos| && produtos[i] == r.value &&
                                    produtos[i].codigo == Some(codigo) &&
                                    forall j :: 0 <= j < i ==> produtos[j].codigo != Some(codigo)
    decreases |produtos|
  {
    if produtos == [] then None
    else if produtos[0].codigo == Some(codigo) then Some(produtos[0])
    else
      var r := FindByCode(produtos[1..], codigo);
      assert forall i :: 1 <= i < |produtos| ==> produtos[i] == produtos[1..][i - 1];
      r
  }

  /** Why a form action was refused. */
  datatype FormError =
    | MissingCode        // "Digite o CÓDIGO do novo produto!"
    | MissingFields      // "Preencha todos os campos e envie a imagem!"
    | MissingClientData  // "Preencha os dados do cliente!"
    | NoPieces           // "Adicione ao menos uma peça!"

  /**
   * The product record built by "Salvar Novo Produto" (admin.py lines
   * 208-265): `image` is the uploaded image's file name, `imageUpload` and
   * `pdfUpload` what `github_upload` returned for the image and the manual
   * (no manual upload when no PDF was given).
   */
  function NewProduct(codigo: string, nome: string, descricao: string, image: Option<string>,
                      imageUpload: Upload, pdfUpload: Option<Upload>, cfg: Repo): (r: Result<Product, FormError>)
    ensures codigo == "" ==> r == Err(MissingCode)
    ensures codigo != "" && (nome == "" || descricao == "" || image.None?) ==> r == Err(MissingFields)
    ensures r.Ok? <==> codigo != "" && nome != "" && descricao != "" && image.Some?
    ensures r.Ok? ==> r.value.codigo == Some(codigo) && r.value.nome == nome && r.value.descricao == descricao
    ensures r.Ok? ==> r.value.imagem == Some(ImagePath(codigo, Extension(image.value)))
    ensures r.Ok? ==> (r.value.manual.Some? <==> pdfUpload.Some? && Succeeded(pdfUpload.value))
    ensures r.Ok? && r.value.manual.Some? ==> r.value.manual.value == RawUrl(cfg, "pdfs/" + ManualFileName(codigo))
  {
    if codigo == "" then Err(MissingCode)
    else if nome == "" || descricao == "" || image.None? then Err(MissingFields)
    else
      var ext := Extension(image.value);
      var manualUrl := if pdfUpload.Some? && Succeeded(pdfUpload.value)
                       then Some(RawUrl(cfg, "pdfs/" + ManualFileName(codigo))) else None;
      Ok(Product(Some(codigo), nome, descricao, Some(ImagePath(codigo, ext)), manualUrl))
  }

  /**
   * The gate and the record of "Salvar Catálogo do Cliente" (admin.py lines
   * 299-314): the file name and the catalogue written to it.
   */
  function CatalogueToSave(cliente: string, vendedor: string, contato: string, pecas: seq<Product>)
    : (r: Result<(string, Catalogue), FormError>)
    ensures cliente == "" || vendedor == "" || contato == "" ==> r == Err(MissingClientData)
    ensures cliente != "" && vendedor != "" && contato != "" && pecas == [] ==> r == Err(NoPieces)
    ensures r.Ok? <==> cliente != "" && vendedor != "" && contato != "" && pecas != []
    ensures r.Ok? ==> r.value.0 == Slug(cliente) + ".json"
    ensures r.Ok? ==> r.value.1 == Catalogue(Some(cliente), Some(vendedor), Some(contato), Some(AsItems(pecas)))
  {
    if cliente == "" || vendedor == "" || contato == "" then Err(MissingClientData)
    else if pecas == [] then Err(NoPieces)
    else
      FileNameIsSlugFile(cliente);
      Ok((CatalogueFileName(cliente), Catalogue(Some(cliente), Some(vendedor), Some(contato), Some(AsItems(pecas)))))
  }

  /** The admin page's state: the product list, the catalogue being assembled, and the saved catalogue files. */
  class AdminSession {
    /** The list read from `database/database.json`. */
    var produtos: seq<Product>
    /** `st.session_state.pecas_cliente`. */
    var pecasCliente: seq<Product>
    /** The `clientes/` directory, by file name. */
    var clientes: map<string, Catalogue>

    constructor (produtos: seq<Product>, clientes: map<string, Catalogue>)
      ensures this.produtos == produtos && this.clientes == clientes && pecasCliente == []
    {
      this.produtos := produtos;
      this.clientes := clientes;
      pecasCliente := [];
    }

    /** "Buscar peça por código": a found product is appended to the catalogue being assembled. */
    method SearchPiece(codigo: string) returns (found: Option<Product>)
      modifies this
      ensures found == FindByCode(old(produtos), codigo)
      ensures pecasCliente == old(pecasCliente) + (if found.Some? then [found.value] else [])
      ensures produtos == old(produtos) && clientes == old(clientes)
    {
      found := FindByCode(produtos, codigo);
      if found.Some? {
        pecasCliente := pecasCliente + [found.value];
      }
    }

    /**
     * "Salvar Novo Produto": the new record is appended to the product list
     * (no check for an existing code) and to the catalogue being assembled.
     */
    method SaveNewProduct(codigo: string, nome: string, descricao: string, image: Option<string>,
                          imageUpload: Upload, pdfUpload: Option<Upload>, cfg: Repo)
      returns (r: Result<Product, FormError>)
      modifies this
      ensures r == NewProduct(codigo, nome, descricao, image, imageUpload, pdfUpload, cfg)
      ensures r.Ok? ==> produtos == old(produtos) + [r.value] && pecasCliente == old(pecasCliente) + [r.value]
      ensures r.Err? ==> produtos == old(produtos) && pecasCliente == old(pecasCliente)
      ensures clientes == old(clientes)
    {
      r := NewProduct(codigo, nome, descricao, image, imageUpload, pdfUpload, cfg);
      if r.Ok? {
        produtos := produtos + [r.value];
        pecasCliente := pecasCliente + [r.value];
      }
    }

    /** "Remover" on the piece at position `i` of the catalogue being assembled. */
    method RemovePiece(i: nat)
      requires i < |pecasCliente|
      modifies this
      ensures pecasCliente == old(pecasCliente)[..i] + old(pecasCliente)[i + 1..]
      ensures produtos == old(produtos) && clientes == old(clientes)
    {
      pecasCliente := pecasCliente[..i] + pecasCliente[i + 1..];
    }

    /** "Salvar Catálogo do Cliente": nothing is written when the gate refuses. */
    method SaveCatalogue(cliente: string, vendedor: string, contato: string)
      returns (r: Result<string, FormError>)
      modifies this
      ensures r.Ok? <==> CatalogueToSave(cliente, vendedor, contato, old(pecasCliente)).Ok?
      ensures r.Err? ==> r.error == CatalogueToSave(cliente, vendedor, contato, old(pecasCliente)).error
      ensures r.Err? ==> clientes == old(clientes)
      ensures r.Ok? ==> r.value == Slug(cliente) + ".json" &&
                        clientes == old(clientes)[r.value := CatalogueToSave(cliente, vendedor, contato, old(pecasCliente)).value.1]
      ensures produtos == old(produtos) && pecasCliente == old(pecasCliente)
    {
      var toSave := CatalogueToSave(cliente, vendedor, contato, pecasCliente);
      match toSave {
        case Err(e) =>
          r := Err(e);
        case Ok((name, data)) =>
          clientes := clientes[name := data];
          r := Ok(name);
      }
    }
  }
}
