/**
 * The catalogue editor (`pages/editar_catalogos.py`): open a customer
 * catalogue, confirm an edit of one piece (mirrored into the product list),
 * remove marked pieces (and every product with their codes), add a new
 * piece, and save the catalogue under the edited customer name.
 *
 * Every item of an edited catalogue is a product record: the page reads
 * each item with `.get`, which a bare code does not have.
 */
module CatalogueEditor {
  import opened Wrappers
  import opened Records
  import opened Text
  import opened Assets
  import opened GitHubSync

  /** True when every item of a `pecas` list is a product record. */
  predicate AllRecords(items: seq<Item>)
  {
    forall i :: 0 <= i < |items| ==> items[i].Record?
  }

  /** The product records of a `pecas` list made only of records. */
  function Fields(items: seq<Item>): (r: seq<Product>)
    requires AllRecords(items)
    ensures |r| == |items|
    ensures forall i :: 0 <= i < |items| ==> items[i] == Record(r[i])
  {
    seq(|items|, i requires 0 <= i < |items| => items[i].fields)
  }

  /** The catalogue as the editor holds it, `cliente` already defaulted. */
  datatype Draft = Draft(cliente: string, vendedor: Option<string>, contato: Option<string>, pecas: seq<Product>)

  /**
   * Opening a catalogue file (lines 150-154): one without `pecas` is
   * refused, and a missing `cliente` becomes the empty string.
   */
  function OpenCatalogue(c: Catalogue): (r: Option<Draft>)
    requires c.pecas.Some? ==> AllRecords(c.pecas.value)
    ensures r.None? <==> c.pecas.None?
    ensures r.Some? ==> r.value.cliente == c.cliente.GetOr("") && AsItems(r.value.pecas) == c.pecas.value
    ensures r.Some? ==> r.value.vendedor == c.vendedor && r.value.contato == c.contato
  {
    match c.pecas
    case None => None
    case Some(items) =>
      var ps := Fields(items);
      assert AsItems(ps) == items;
      Some(Draft(c.cliente.GetOr(""), c.vendedor, c.contato, ps))
  }

  /** The document `salvar_catalogo` writes for a draft. */
  function Saved(d: Draft): (r: Catalogue)
    ensures r.cliente == Some(d.cliente) && r.vendedor == d.vendedor && r.contato == d.contato
    ensures r.pecas.Some? && |r.pecas.value| == |d.pecas|
    ensures forall i :: 0 <= i < |d.pecas| ==> r.pecas.value[i] == Record(d.pecas[i])
  {
    Catalogue(Some(d.cliente), d.vendedor, d.contato, Some(AsItems(d.pecas)))
  }

  /** Opening what was saved gives the same draft back. */
  lemma OpenSaved(d: Draft)
    ensures OpenCatalogue(Saved(d)) == Some(d)
  {
    var r := OpenCatalogue(Saved(d));
    assert AsItems(r.value.pecas) == AsItems(d.pecas);
    assert r.value.pecas == d.pecas by {
      assert forall i :: 0 <= i < |d.pecas| ==> Record(r.value.pecas[i]) == Record(d.pecas[i]);
    }
  }

  /** Saving a catalogue that has a `cliente` and `pecas` without editing it writes the same document. */
  lemma SaveOpened(c: Catalogue)
    requires c.cliente.Some? && c.pecas.Some? && AllRecords(c.pecas.value)
    ensures Saved(OpenCatalogue(c).value) == c
  {
  }

  /** The changes "Confirmar alterações" makes to one record: `None` leaves that field as it was. */
  datatype Edit = Edit(nome: string, descricao: string, imagem: Option<string>, manual: Option<string>)

  /** One record after an edit: the code is kept, the image and the manual change only when given. */
  function Apply(p: Product, e: Edit): (r: Product)
    ensures r.codigo == p.codigo && r.nome == e.nome && r.descricao == e.descricao
    ensures r.imagem == (if e.imagem.Some? then e.imagem else p.imagem)
    ensures r.manual == (if e.manual.Some? then e.manual else p.manual)
  {
    Product(p.codigo, e.nome, e.descricao,
            if e.imagem.Some? then e.imagem else p.imagem,
            if e.manual.Some? then e.manual else p.manual)
  }

  /**
   * The product list after an edit of the piece with code `code`: only the
   * first product with that code changes (lines 277-285).
   */
  function UpdateFirst(ps: seq<Product>, code: Option<string>, e: Edit): (r: seq<Product>)
    ensures |r| == |ps|
    ensures (forall i :: 0 <= i < |ps| ==> ps[i].codigo != code) ==> r == ps
    ensures forall k ::
              (0 <= k < |ps| && ps[k].codigo == code && forall j :: 0 <= j < k ==> ps[j].codigo != code) ==>
              r == ps[k := Apply(ps[k], e)]
    decreases |ps|
  {
    if ps == [] then []
    else if ps[0].codigo == code then [Apply(ps[0], e)] + ps[1..]
    else
      var rest := UpdateFirst(ps[1..], code, e);
      assert forall k :: 1 <= k < |ps| ==> ps[k] == ps[1..][k - 1];
      assert forall k :: 1 <= k < |ps| && ps[k].codigo == code ==>
        [ps[0]] + ps[1..][k - 1 := Apply(ps[k], e)] == ps[k := Apply(ps[k], e)];
      [ps[0]] + rest
  }

  /** The first product with the code, at `k`, is the one that takes the edit. */
  lemma UpdateFirstAt(ps: seq<Product>, code: Option<string>, e: Edit, k: nat)
    requires k < |ps| && ps[k].codigo == code
    requires forall j :: 0 <= j < k ==> ps[j].codigo != code
    ensures UpdateFirst(ps, code, e) == ps[k := Apply(ps[k], e)]
  {
  }

  /** With no product carrying the code, nothing changes. */
  lemma UpdateFirstNone(ps: seq<Product>, code: Option<string>, e: Edit)
    requires forall j :: 0 <= j < |ps| ==> ps[j].codigo != code
    ensures UpdateFirst(ps, code, e) == ps
  {
  }

  /** `p.get('codigo', i)` as it appears in a file name: the code, or the piece's position. */
  function PieceCode(p: Product, i: nat): (r: string)
    ensures p.codigo.Some? ==> r == p.codigo.value
    ensures p.codigo.None? ==> r == NatToString(i) && IsDigits(r)
  {
    match p.codigo
    case Some(c) => c
    case None => NatToString(i)
  }

  /**
   * The manual URL recorded after a PDF upload (lines 250-270 and 376-393):
   * pinned to the commit when the PUT answered with a commit SHA, on the
   * branch otherwise, and none when the upload failed.
   */
  function ManualUrl(cfg: Repo, fileName: string, u: Upload): (r: Option<string>)
    ensures r.Some? <==> Succeeded(u)
    ensures r.Some? && u.commitSha.Some? && u.commitSha.value != "" ==>
              r.value == RawUrlAtCommit(cfg, "pdfs/" + fileName, u.commitSha.value)
    ensures r.Some? && (u.commitSha.None? || u.commitSha.value == "") ==>
              r.value == RawUrl(cfg, "pdfs/" + fileName)
    ensures r.Some? ==> |r.value| > |fileName| + 6 && r.value[|r.value| - |fileName| - 6..] == "/pdfs/" + fileName
  {
    if !Succeeded(u) then None
    else
      var path := "pdfs/" + fileName;
      var url := if u.commitSha.Some? && u.commitSha.value != ""
                 then RawUrlAtCommit(cfg, path, u.commitSha.value)
                 else RawUrl(cfg, path);
      assert "/" + path == "/pdfs/" + fileName;
      Some(url)
  }

  /**
   * The edit that "Confirmar alterações" applies to piece `i` (`p`): the typed
   * name and description, the new image's local path when an image was
   * uploaded, and the manual URL when a PDF upload succeeded.
   */
  function PieceEdit(p: Product, i: nat, nome: string, descricao: string, newImage: Option<string>,
                     pdfUpload: Option<Upload>, cfg: Repo): (e: Edit)
    ensures e.nome == nome && e.descricao == descricao
    ensures e.imagem.Some? <==> newImage.Some?
    ensures newImage.Some? ==> e.imagem.value == ImagePath(PieceCode(p, i), Extension(newImage.value))
    ensures e.manual.Some? <==> pdfUpload.Some? && Succeeded(pdfUpload.value)
  {
    Edit(nome, descricao,
         if newImage.Some? then Some(ImagePath(PieceCode(p, i), Extension(newImage.value))) else None,
         if pdfUpload.Some? then ManualUrl(cfg, ManualFileName(PieceCode(p, i)), pdfUpload.value) else None)
  }

  /** The products that remain after dropping every product whose code is in `codes`. */
  function FilterOut(ps: seq<Product>, codes: set<Option<string>>): (r: seq<Product>)
    ensures |r| <= |ps|
    ensures forall p :: p in r <==> p in ps && p.codigo !in codes
    decreases |ps|
  {
    if ps == [] then []
    else
      var rest := FilterOut(ps[1..], codes);
      assert forall p :: p in ps <==> p == ps[0] || p in ps[1..];
      (if ps[0].codigo in codes then [] else [ps[0]]) + rest
  }

  /** Filtering distributes over concatenation, so the remaining products keep their order. */
  lemma {:induction false} FilterOutAppend(a: seq<Product>, b: seq<Product>, codes: set<Option<string>>)
    ensures FilterOut(a + b, codes) == FilterOut(a, codes) + FilterOut(b, codes)
    decreases |a|
  {
    if a == [] {
      assert a + b == b;
    } else {
      assert (a + b)[0] == a[0];
      assert (a + b)[1..] == a[1..] + b;
      FilterOutAppend(a[1..], b, codes);
    }
  }

  /** A list in which no product has a filtered code is left as it is. */
  lemma {:induction false} FilterOutNothing(ps: seq<Product>, codes: set<Option<string>>)
    requires forall i :: 0 <= i < |ps| ==> ps[i].codigo !in codes
    ensures FilterOut(ps, codes) == ps
    decreases |ps|
  {
    if ps != [] {
      FilterOutNothing(ps[1..], codes);
    }
  }

  /** Filtering one code after another is filtering both at once. */
  lemma {:induction false} FilterOutTwice(ps: seq<Product>, a: set<Option<string>>, b: set<Option<string>>)
    ensures FilterOut(FilterOut(ps, a), b) == FilterOut(ps, a + b)
    decreases |ps|
  {
    if ps != [] {
      FilterOutTwice(ps[1..], a, b);
      var head := if ps[0].codigo in a then [] else [ps[0]];
      FilterOutAppend(head, FilterOut(ps[1..], a), b);
      if ps[0].codigo !in a {
        assert FilterOut(head, b) == (if ps[0].codigo in b then [] else [ps[0]]) by {
          assert head[1..] == [];
        }
      }
    }
  }

  /** The pieces at positions `lo..` that are not marked, in order. */
  function KeepFrom(s: seq<Product>, marked: set<nat>, lo: nat): seq<Product>
    requires lo <= |s|
    decreases |s| - lo
  {
    if lo == |s| then []
    else (if lo in marked then [] else [s[lo]]) + KeepFrom(s, marked, lo + 1)
  }

  /** The pieces that are not marked, in their original order. */
  function Without(s: seq<Product>, marked: set<nat>): seq<Product>
  {
    KeepFrom(s, marked, 0)
  }

  /** A stretch without marks is kept whole. */
  lemma {:induction false} KeepFromUnmarked(s: seq<Product>, marked: set<nat>, lo: nat, hi: nat)
    requires lo <= hi <= |s|
    requires forall i :: lo <= i < hi ==> i !in marked
    ensures KeepFrom(s, marked, lo) == s[lo..hi] + KeepFrom(s, marked, hi)
    decreases hi - lo
  {
    if lo < hi {
      KeepFromUnmarked(s, marked, lo + 1, hi);
      assert KeepFrom(s, marked, lo) == [s[lo]] + KeepFrom(s, marked, lo + 1);
      assert s[lo..hi] == [s[lo]] + s[lo + 1..hi];
    } else {
      assert s[lo..hi] == [];
    }
  }

  /** With no mark nothing is removed. */
  lemma WithoutNothing(s: seq<Product>)
    ensures Without(s, {}) == s
  {
    KeepFromUnmarked(s, {}, 0, |s|);
  }

  /** With one mark `Without` is a single `pop(i)`. */
  lemma WithoutOne(s: seq<Product>, i: nat)
    requires i < |s|
    ensures Without(s, {i}) == s[..i] + s[i + 1..]
  {
    KeepFromUnmarked(s, {i}, 0, i);
    KeepFromUnmarked(s, {i}, i + 1, |s|);
    assert s[i + 1..|s|] == s[i + 1..];
  }

  /** The codes of the marked pieces. */
  function CodesAt(s: seq<Product>, marked: set<nat>): set<Option<string>>
  {
    set i | i in marked && i < |s| :: s[i].codigo
  }

  /** Every non-empty set of indices has a largest element. */
  lemma {:induction false} LargestExists(m: set<nat>)
    requires m != {}
    ensures exists x :: x in m && forall y :: y in m ==> y <= x
    decreases |m|
  {
    var x :| x in m;
    if m != {x} {
      LargestExists(m - {x});
      var z :| z in m - {x} && forall y :: y in m - {x} ==> y <= z;
      var top := if x <= z then z else x;
      forall y | y in m
        ensures y <= top
      {
        if y != x {
          assert y in m - {x};
        }
      }
      assert top in m;
    }
  }

  /**
   * Where the descending removal stands: the indices still to pop are the
   * marked ones below `t`, and the list is the original up to `t` followed by
   * the unmarked pieces from `t` on.
   */
  ghost predicate Popping(orig: seq<Product>, marked: set<nat>, rest: set<nat>, t: nat, pecas: seq<Product>)
  {
    && rest <= marked && t <= |orig|
    && (forall i :: i in rest ==> i < t)
    && (forall i :: i in marked && i < t ==> i in rest)
    && pecas == orig[..t] + KeepFrom(orig, marked, t)
  }

  /** Before the first pop the list is the original one. */
  lemma PoppingStart(orig: seq<Product>, marked: set<nat>)
    requires forall i :: i in marked ==> i < |orig|
    ensures Popping(orig, marked, marked, |orig|, orig)
  {
    assert orig[..|orig|] == orig;
  }

  /** Cutting position `k` out of `a + b`, with `k` inside `a`. */
  lemma SplitAround(a: seq<Product>, b: seq<Product>, k: nat)
    requires k < |a|
    ensures (a + b)[..k] == a[..k] && (a + b)[k] == a[k] && (a + b)[k + 1..] == a[k + 1..] + b
  {
    assert (a + b)[..k] == a[..k];
    assert (a + b)[k + 1..] == a[k + 1..] + b;
  }

  /** One pop, on the list alone: popping marked index `idx` below an unmarked stretch up to `t`. */
  lemma PopAt(orig: seq<Product>, marked: set<nat>, t: nat, idx: nat, pecas: seq<Product>)
    requires idx < t <= |orig| && idx in marked
    requires forall i :: idx < i < t ==> i !in marked
    requires pecas == orig[..t] + KeepFrom(orig, marked, t)
    ensures idx < |pecas| && pecas[idx] == orig[idx]
    ensures pecas[..idx] + pecas[idx + 1..] == orig[..idx] + KeepFrom(orig, marked, idx)
  {
    var head, tail := orig[..t], KeepFrom(orig, marked, t);
    SplitAround(head, tail, idx);
    assert head[..idx] == orig[..idx] && head[idx] == orig[idx];
    assert head[idx + 1..] == orig[idx + 1..t];
    KeepFromUnmarked(orig, marked, idx + 1, t);
    assert KeepFrom(orig, marked, idx) == KeepFrom(orig, marked, idx + 1);
  }

  /** Popping the largest remaining index removes the originally marked piece at that index. */
  lemma PopLargest(orig: seq<Product>, marked: set<nat>, rest: set<nat>, t: nat,
                   idx: nat, pecas: seq<Product>)
    requires Popping(orig, marked, rest, t, pecas)
    requires idx in rest && forall j :: j in rest ==> j <= idx
    ensures idx < |pecas| && pecas[idx] == orig[idx]
    ensures Popping(orig, marked, rest - {idx}, idx, pecas[..idx] + pecas[idx + 1..])
  {
    forall i | idx < i < t
      ensures i !in marked
    {
      assert i !in rest;
    }
    PopAt(orig, marked, t, idx, pecas);
  }

  /** When nothing is left to pop, the list is the original without the marked pieces. */
  lemma PoppingDone(orig: seq<Product>, marked: set<nat>, t: nat, pecas: seq<Product>)
    requires Popping(orig, marked, {}, t, pecas)
    ensures pecas == Without(orig, marked)
  {
    KeepFromUnmarked(orig, marked, 0, t);
    assert orig[..t] == orig[0..t];
  }

  /** Filtering the popped piece's code extends the filter by the codes of one more removed index. */
  lemma FilterOneMore(ps: seq<Product>, orig: seq<Product>, marked: set<nat>, rest: set<nat>, idx: nat)
    requires idx < |orig| && idx in rest && rest <= marked
    ensures FilterOut(FilterOut(ps, CodesAt(orig, marked - rest)), {orig[idx].codigo})
         == FilterOut(ps, CodesAt(orig, marked - (rest - {idx})))
  {
    assert marked - (rest - {idx}) == (marked - rest) + {idx};
    assert CodesAt(orig, marked - (rest - {idx})) == CodesAt(orig, marked - rest) + {orig[idx].codigo};
    FilterOutTwice(ps, CodesAt(orig, marked - rest), {orig[idx].codigo});
  }

  /** Why "Adicionar peça" was refused: "Preencha todos os campos e envie uma imagem." */
  datatype AddError = MissingCodeNameOrImage

  /**
   * The piece "Adicionar peça" builds (lines 340-396): code, name and image
   * are required (the description is not); the image keeps its local path;
   * `manual` is present only when the PDF upload succeeded.
   */
  function NewPiece(codigo: string, nome: string, descricao: string, image: Option<string>,
                    pdfUpload: Option<Upload>, cfg: Repo): (r: Result<Product, AddError>)
    ensures r.Err? <==> codigo == "" || nome == "" || image.None?
    ensures r.Ok? ==> r.value.codigo == Some(codigo) && r.value.nome == nome && r.value.descricao == descricao
    ensures r.Ok? ==> r.value.imagem == Some(ImagePath(codigo, Extension(image.value)))
    ensures r.Ok? ==> (r.value.manual.Some? <==> pdfUpload.Some? && Succeeded(pdfUpload.value))
    ensures r.Ok? && r.value.manual.Some? ==> r.value.manual == ManualUrl(cfg, ManualFileName(codigo), pdfUpload.value)
  {
    if codigo == "" || nome == "" || image.None? then Err(MissingCodeNameOrImage)
    else
      var manualUrl := if pdfUpload.Some? then ManualUrl(cfg, ManualFileName(codigo), pdfUpload.value) else None;
      Ok(Product(Some(codigo), nome, descricao, Some(ImagePath(codigo, Extension(image.value))), manualUrl))
  }

  /**
   * The position of the first product carrying `code`, or `|ps|` when none
   * does: the `for prod in produtos` loop of lines 277-285 up to its `break`.
   */
  method FirstWithCode(ps: seq<Product>, code: Option<string>) returns (k: nat)
    ensures k <= |ps|
    ensures forall j :: 0 <= j < k ==> ps[j].codigo != code
    ensures k < |ps| ==> ps[k].codigo == code
  {
    k := 0;
    while k < |ps|
      invariant k <= |ps|
      invariant forall j :: 0 <= j < k ==> ps[j].codigo != code
    {
      if ps[k].codigo == code {
        return;
      }
      k := k + 1;
    }
  }

  /** The editor page's state: the open catalogue and the product list of `database/database.json`. */
  class Editor {
    var cliente: string
    var vendedor: Option<string>
    var contato: Option<string>
    var pecas: seq<Product>
    var produtos: seq<Product>

    constructor (d: Draft, produtos: seq<Product>)
      ensures cliente == d.cliente && vendedor == d.vendedor && contato == d.contato && pecas == d.pecas
      ensures this.produtos == produtos
    {
      cliente := d.cliente;
      vendedor := d.vendedor;
      contato := d.contato;
      pecas := d.pecas;
      this.produtos := produtos;
    }

    /** The catalogue document as it stands. */
    function Current(): Draft
      reads this
    {
      Draft(cliente, vendedor, contato, pecas)
    }

    /**
     * "Confirmar alterações" on piece `i` (lines 197-285): the piece takes the
     * edit, and so does the first product with the piece's code.
     */
    method ConfirmEdit(i: nat, nome: string, descricao: string, newImage: Option<string>,
                       pdfUpload: Option<Upload>, cfg: Repo)
      requires i < |pecas|
      modifies this
      ensures pecas == old(pecas)[i := Apply(old(pecas)[i], PieceEdit(old(pecas)[i], i, nome, descricao, newImage, pdfUpload, cfg))]
      ensures produtos == UpdateFirst(old(produtos), old(pecas)[i].codigo,
                                      PieceEdit(old(pecas)[i], i, nome, descricao, newImage, pdfUpload, cfg))
      ensures cliente == old(cliente) && vendedor == old(vendedor) && contato == old(contato)
    {
      var p := pecas[i];
      var e := PieceEdit(p, i, nome, descricao, newImage, pdfUpload, cfg);
      pecas := pecas[i := Apply(p, e)];
      var ps := produtos;
      var k := FirstWithCode(ps, p.codigo);
      if k < |ps| {
        UpdateFirstAt(ps, p.codigo, e, k);
        produtos := ps[k := Apply(ps[k], e)];
      } else {
        UpdateFirstNone(ps, p.codigo, e);
      }
    }

    /**
     * The removal block (lines 305-316): the marked pieces are popped from
     * the largest index down, and after each pop every product with the
     * popped piece's code is dropped from the product list.
     */
    method RemoveMarked(marked: set<nat>)
      requires forall i :: i in marked ==> i < |pecas|
      modifies this
      ensures pecas == Without(old(pecas), marked)
      ensures produtos == FilterOut(old(produtos), CodesAt(old(pecas), marked))
      ensures cliente == old(cliente) && vendedor == old(vendedor) && contato == old(contato)
    {
      ghost var orig := pecas;
      ghost var t: nat := |pecas|;
      var rest := marked;
      PoppingStart(orig, marked);
      FilterOutNothing(produtos, {});
      assert CodesAt(orig, marked - rest) == {} by {
        assert marked - rest == {};
      }
      while rest != {}
        invariant Popping(orig, marked, rest, t, pecas)
        invariant produtos == FilterOut(old(produtos), CodesAt(orig, marked - rest))
        invariant cliente == old(cliente) && vendedor == old(vendedor) && contato == old(contato)
        decreases rest
      {
        LargestExists(rest);
        var idx :| idx in rest && forall j :: j in rest ==> j <= idx;
        PopLargest(orig, marked, rest, t, idx, pecas);
        var codigoRemovido := pecas[idx].codigo;
        pecas := pecas[..idx] + pecas[idx + 1..];
        FilterOneMore(old(produtos), orig, marked, rest, idx);
        produtos := FilterOut(produtos, {codigoRemovido});
        rest := rest - {idx};
        t := idx;
      }
      PoppingDone(orig, marked, t, pecas);
      assert marked - rest == marked;
    }

    /** "Adicionar peça": the same new record is appended to the catalogue and to the product list. */
    method AddPiece(codigo: string, nome: string, descricao: string, image: Option<string>,
                    pdfUpload: Option<Upload>, cfg: Repo) returns (r: Result<Product, AddError>)
      modifies this
      ensures r == NewPiece(codigo, nome, descricao, image, pdfUpload, cfg)
      ensures r.Ok? ==> pecas == old(pecas) + [r.value] && produtos == old(produtos) + [r.value]
      ensures r.Err? ==> pecas == old(pecas) && produtos == old(produtos)
      ensures cliente == old(cliente) && vendedor == old(vendedor) && contato == old(contato)
    {
      r := NewPiece(codigo, nome, descricao, image, pdfUpload, cfg);
      if r.Ok? {
        pecas := pecas + [r.value];
        produtos := produtos + [r.value];
      }
    }

    /** "Salvar catálogo" (line 445): the customer name becomes the edited one and the document is written. */
    method Save(clienteEdit: string) returns (saved: Catalogue)
      modifies this
      ensures cliente == clienteEdit
      ensures saved == Saved(Draft(clienteEdit, old(vendedor), old(contato), old(pecas)))
      ensures vendedor == old(vendedor) && contato == old(contato) && pecas == old(pecas) && produtos == old(produtos)
    {
      cliente := clienteEdit;
      saved := Saved(Current());
    }
  }
}
