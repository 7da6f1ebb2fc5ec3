/**
 * Properties that connect the pages: a catalogue saved on the admin page is
 * the file the customer page opens for the customer's slug, and its pieces
 * resolve against the product database; a product removed in the editor is
 * skipped on the customer page; and the admin search and the customer page
 * pick different products when two share a code.
 */
module Scenarios {
  import opened Wrappers
  import opened Records
  import opened Text
  import opened Slugs
  import opened DatabaseIndex
  import opened ClientPage
  import opened AdminPage
  import opened CatalogueEditor
  import opened CatalogueListing

  /** The codes of a list of coded products, in order. */
  function CodesOf(ps: seq<Product>): seq<string>
    requires AllCoded(ps)
  {
    seq(|ps|, i requires 0 <= i < |ps| => ps[i].codigo.value)
  }

  /** A catalogue made of coded product records normalises to their codes. */
  lemma {:induction false} NormalisedRecords(ps: seq<Product>)
    requires AllCoded(ps)
    ensures Normalised(AsItems(ps)) == CodesOf(ps)
    decreases |ps|
  {
    if ps != [] {
      var n := |ps| - 1;
      var init := ps[..n];
      assert AsItems(ps) == AsItems(init) + [Record(ps[n])];
      NormalisedAppend(AsItems(init), [Record(ps[n])]);
      NormalisedRecords(init);
      assert [Record(ps[n])][1..] == [];
      assert CodesOf(ps) == CodesOf(init) + [ps[n].codigo.value];
    }
  }

  /**
   * A catalogue the admin page saves for `cliente` is the file that both the
   * customer login and the listing link open, and the customer page shows
   * every saved piece, in order, as the database has it.
   */
  lemma AdminSaveReachesCustomer(cliente: string, vendedor: string, contato: string,
                                 pecas: seq<Product>, produtos: seq<Product>)
    requires CatalogueToSave(cliente, vendedor, contato, pecas).Ok?
    requires AllCoded(pecas) && AllCoded(produtos)
    requires forall i :: 0 <= i < |pecas| ==> pecas[i].codigo.value in Index(produtos)
    ensures var (file, doc) := CatalogueToSave(cliente, vendedor, contato, pecas).value;
            file == CustomerFile(Slug(cliente)) &&
            file == CustomerFile(LinkTarget(cliente)[10..]) &&
            (!IsBlank(cliente) ==> file == CustomerFile(EnterAsCustomer(cliente).value)) &&
            var shown := OpenCustomer(Slug(cliente), Some(doc)).value;
            shown.nome == cliente &&
            var resolved := Resolved(Normalised(shown.pecas), Index(produtos));
            |resolved| == |pecas| &&
            forall i :: 0 <= i < |pecas| ==> resolved[i] == Entry(Index(produtos), pecas[i].codigo.value)
  {
    var (file, doc) := CatalogueToSave(cliente, vendedor, contato, pecas).value;
    assert file == CustomerFile(Slug(cliente));
    assert LinkTarget(cliente)[10..] == Slug(cliente);
    var shown := OpenCustomer(Slug(cliente), Some(doc)).value;
    assert shown.pecas == AsItems(pecas);
    NormalisedRecords(pecas);
    ResolvedAllPresent(CodesOf(pecas), Index(produtos));
  }

  /** Appending one coded product to a list updates its index at that code. */
  lemma IndexSnoc(ps: seq<Product>, p: Product)
    requires AllCoded(ps) && p.codigo.Some?
    ensures AllCoded(ps + [p]) && Index(ps + [p]) == Index(ps)[p.codigo.value := p]
  {
    assert (ps + [p])[..|ps|] == ps;
  }

  /** Filtering keeps every product coded. */
  lemma FilterOutCoded(ps: seq<Product>, codes: set<Option<string>>)
    requires AllCoded(ps)
    ensures AllCoded(FilterOut(ps, codes))
  {
    var kept := FilterOut(ps, codes);
    forall i | 0 <= i < |kept|
      ensures kept[i].codigo.Some?
    {
      assert kept[i] in kept;
    }
  }

  /** One step of the removal proof, on maps alone: updating at `x` and then removing `c`. */
  lemma UpdateThenRemove(before: map<string, Product>, keptBefore: map<string, Product>,
                         c: string, x: string, v: Product)
    requires keptBefore == before - {c}
    ensures (if x == c then keptBefore else keptBefore[x := v]) == before[x := v] - {c}
  {
  }

  /** Filtering a list that ends in `last`. */
  lemma FilterOutSnoc(ps: seq<Product>, codes: set<Option<string>>)
    requires ps != []
    ensures FilterOut(ps, codes) == FilterOut(ps[..|ps| - 1], codes) +
              (if ps[|ps| - 1].codigo in codes then [] else [ps[|ps| - 1]])
  {
    var n := |ps| - 1;
    assert ps == ps[..n] + [ps[n]];
    FilterOutAppend(ps[..n], [ps[n]], codes);
    assert [ps[n]][1..] == [];
  }

  /** Unfolds the index of a non-empty list at its last product. */
  lemma IndexUnfold(ps: seq<Product>)
    requires AllCoded(ps) && ps != []
    ensures Index(ps) == Index(ps[..|ps| - 1])[ps[|ps| - 1].codigo.value := ps[|ps| - 1]]
  {
  }

  /**
   * Dropping every product with code `c` (the editor's removal) removes `c`
   * from the customer page's index and leaves every other entry as it was.
   */
  lemma {:induction false} IndexAfterFilterOut(ps: seq<Product>, c: string)
    requires AllCoded(ps)
    ensures AllCoded(FilterOut(ps, {Some(c)}))
    ensures Index(FilterOut(ps, {Some(c)})) == Index(ps) - {c}
    decreases |ps|
  {
    FilterOutCoded(ps, {Some(c)});
    if ps != [] {
      var n := |ps| - 1;
      var init, last := ps[..n], ps[n];
      var keptInit := FilterOut(init, {Some(c)});
      IndexAfterFilterOut(init, c);
      FilterOutSnoc(ps, {Some(c)});
      IndexUnfold(ps);
      UpdateThenRemove(Index(init), Index(keptInit), c, last.codigo.value, last);
      if last.codigo == Some(c) {
        assert FilterOut(ps, {Some(c)}) == keptInit by {
          assert keptInit + [] == keptInit;
        }
      } else {
        assert FilterOut(ps, {Some(c)}) == keptInit + [last];
        IndexSnoc(keptInit, last);
      }
    }
  }

  /** After the editor removes the products with code `c`, the customer page skips `c` wherever it is listed. */
  lemma RemovedCodeIsSkipped(ps: seq<Product>, c: string, before: seq<string>, after: seq<string>)
    requires AllCoded(ps)
    ensures AllCoded(FilterOut(ps, {Some(c)}))
    ensures Resolved(before + [c] + after, Index(FilterOut(ps, {Some(c)})))
         == Resolved(before + after, Index(FilterOut(ps, {Some(c)})))
  {
    IndexAfterFilterOut(ps, c);
    ResolvedSkipsMissing(before, c, after, Index(FilterOut(ps, {Some(c)})));
  }

  /**
   * New products are appended without a duplicate check, so with two
   * products sharing a code the admin search finds the first one while the
   * customer page's index holds the last one.
   */
  lemma DuplicateCodeViewsDiffer(older: seq<Product>, p: Product, q: Product)
    requires AllCoded(older) && p.codigo.Some? && q.codigo == p.codigo
    requires forall i :: 0 <= i < |older| ==> older[i].codigo != p.codigo
    ensures FindByCode(older + [p, q], p.codigo.value) == Some(p)
    ensures Index(older + [p, q])[p.codigo.value] == q
  {
    var ps := older + [p, q];
    assert ps[|older|] == p && ps[|older| + 1] == q;
    IndexLastWins(ps, |older| + 1);
  }
}
