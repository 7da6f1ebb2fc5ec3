/**
 * The customer page (`app.py`; `pages/pesquisa.py` repeats it, apart from
 * its prompt texts, and adds the manual buttons): open the catalogue named by the `cliente`
 * query parameter, turn its `pecas` list into codes, resolve the codes
 * against the product database, collect the ticked pieces and build the
 * order message handed to the messaging link.
 */
module ClientPage {
  import opened Wrappers
  import opened Records
  import opened Text
  import opened PieceSelection

  /** `carregar_cliente(cliente_id)` reads `clientes/<cliente_id>.json`: the file name it opens. */
  function CustomerFile(clienteId: string): (r: string)
    ensures |r| == |clienteId| + 5 && r[..|clienteId|] == clienteId && r[|clienteId|..] == ".json"
  {
    clienteId + ".json"
  }

  /** Different customer ids open different files. */
  lemma CustomerFileInjective(a: string, b: string)
    ensures CustomerFile(a) == CustomerFile(b) ==> a == b
  {
    if CustomerFile(a) == CustomerFile(b) {
      assert a == CustomerFile(a)[..|a|] == CustomerFile(b)[..|b|] == b;
    }
  }

  /** What the page shows once the catalogue file is open. */
  datatype Header = Header(nome: string, contato: string, pecas: seq<Item>)

  /**
   * `carregar_cliente` gave `loaded` for `cliente_id`: an unknown customer
   * stops the page; the shown name defaults to the id, the seller's contact
   * to `""` and the piece list to `[]`.
   */
  function OpenCustomer(clienteId: string, loaded: Option<Catalogue>): (r: Option<Header>)
    ensures r.None? <==> loaded.None?
    ensures r.Some? && loaded.value.cliente.None? ==> r.value.nome == clienteId
    ensures r.Some? && loaded.value.contato.None? ==> r.value.contato == ""
    ensures r.Some? && loaded.value.pecas.None? ==> r.value.pecas == []
    ensures r.Some? && loaded.value.cliente.Some? ==> r.value.nome == loaded.value.cliente.value
    ensures r.Some? && loaded.value.contato.Some? ==> r.value.contato == loaded.value.contato.value
    ensures r.Some? && loaded.value.pecas.Some? ==> r.value.pecas == loaded.value.pecas.value
  {
    match loaded
    case None => None
    case Some(c) => Some(Header(c.cliente.GetOr(clienteId), c.contato.GetOr(""), c.pecas.GetOr([])))
  }

  /** The code an entry contributes: a record's `codigo`, nothing for a record without one, a bare entry itself. */
  function ItemCode(it: Item): Option<string>
  {
    match it
    case Record(p) => p.codigo
    case Bare(code) => Some(code)
  }

  /** `codigos_pecas` for a list of entries: their codes, in order, skipping records without a code. */
  function Normalised(items: seq<Item>): (r: seq<string>)
    ensures |r| <= |items|
    decreases |items|
  {
    if items == [] then []
    else
      var last := items[|items| - 1];
      Normalised(items[..|items| - 1]) + (if ItemCode(last).Some? then [ItemCode(last).value] else [])
  }

  /** Normalisation works entry by entry: the codes of a concatenation are the concatenated codes. */
  lemma {:induction false} NormalisedAppend(a: seq<Item>, b: seq<Item>)
    ensures Normalised(a + b) == Normalised(a) + Normalised(b)
    decreases |b|
  {
    if b == [] {
      assert a + b == a;
    } else {
      var b' := b[..|b| - 1];
      assert (a + b)[..|a + b| - 1] == a + b';
      NormalisedAppend(a, b');
    }
  }

  /** A record without `codigo` contributes nothing: the entries around it normalise as if it were absent. */
  lemma NormalisedSkipsUncoded(a: seq<Item>, p: Product, b: seq<Item>)
    requires p.codigo.None?
    ensures Normalised(a + [Record(p)] + b) == Normalised(a + b)
  {
    NormalisedAppend(a + [Record(p)], b);
    NormalisedAppend(a, [Record(p)]);
    NormalisedAppend(a, b);
    assert [Record(p)][..0] == [];
  }

  /** A list of bare codes normalises to those codes (records with a code: `Scenarios.NormalisedRecords`). */
  lemma {:induction false} NormalisedBareCodes(codes: seq<string>)
    ensures Normalised(seq(|codes|, i requires 0 <= i < |codes| => Bare(codes[i]))) == codes
    decreases |codes|
  {
    var items := seq(|codes|, i requires 0 <= i < |codes| => Bare(codes[i]));
    if codes != [] {
      var init := codes[..|codes| - 1];
      NormalisedBareCodes(init);
      assert items[..|items| - 1] == seq(|init|, i requires 0 <= i < |init| => Bare(init[i]));
      assert codes == init + [codes[|codes| - 1]];
    }
  }

  /** The normalisation loop (app.py lines 87-98). */
  method NormaliseItems(items: seq<Item>) returns (codes: seq<string>)
    ensures codes == Normalised(items)
  {
    codes := [];
    var i := 0;
    while i < |items|
      invariant 0 <= i <= |items|
      invariant codes == Normalised(items[..i])
    {
      assert items[..i + 1][..i] == items[..i];
      match items[i] {
        case Record(p) =>
          if p.codigo.Some? {
            codes := codes + [p.codigo.value];
          }
        case Bare(code) =>
          codes := codes + [code];
      }
      i := i + 1;
    }
    assert items[..|items|] == items;
  }

  /** `pecas_bd[codigo].copy()` with `item["codigo"] = codigo`. */
  function Entry(db: map<string, Product>, code: string): (r: Product)
    requires code in db
    ensures r.codigo == Some(code)
  {
    db[code].(codigo := Some(code))
  }

  /**
   * `pecas` for a list of codes: one copy of the database entry per code
   * present in the database, with its `codigo` set, in the order of the
   * codes; codes missing from the database are skipped.
   */
  function Resolved(codes: seq<string>, db: map<string, Product>): (r: seq<Product>)
    ensures |r| <= |codes|
    ensures forall i :: 0 <= i < |r| ==> r[i].codigo.Some? && r[i].codigo.value in db &&
                                          r[i] == Entry(db, r[i].codigo.value)
    decreases |codes|
  {
    if codes == [] then []
    else
      var last := codes[|codes| - 1];
      Resolved(codes[..|codes| - 1], db) + (if last in db then [Entry(db, last)] else [])
  }

  /** Resolution works code by code. */
  lemma {:induction false} ResolvedAppend(a: seq<string>, b: seq<string>, db: map<string, Product>)
    ensures Resolved(a + b, db) == Resolved(a, db) + Resolved(b, db)
    decreases |b|
  {
    if b == [] {
      assert a + b == a;
    } else {
      var b' := b[..|b| - 1];
      assert (a + b)[..|a + b| - 1] == a + b';
      ResolvedAppend(a, b', db);
    }
  }

  /**
   * When every code is in the database, nothing is skipped and nothing is
   * merged: the i-th piece is the entry of the i-th code, duplicates included.
   */
  lemma {:induction false} ResolvedAllPresent(codes: seq<string>, db: map<string, Product>)
    requires forall i :: 0 <= i < |codes| ==> codes[i] in db
    ensures |Resolved(codes, db)| == |codes|
    ensures forall i :: 0 <= i < |codes| ==> Resolved(codes, db)[i] == Entry(db, codes[i])
    decreases |codes|
  {
    if codes != [] {
      ResolvedAllPresent(codes[..|codes| - 1], db);
    }
  }

  /** A code missing from the database contributes nothing, wherever it stands. */
  lemma ResolvedSkipsMissing(a: seq<string>, code: string, b: seq<string>, db: map<string, Product>)
    requires code !in db
    ensures Resolved(a + [code] + b, db) == Resolved(a + b, db)
  {
    ResolvedAppend(a + [code], b, db);
    ResolvedAppend(a, [code], db);
    ResolvedAppend(a, b, db);
    assert [code][..0] == [];
  }

  /** The resolution loop (app.py lines 106-113). */
  method ResolveCodes(codes: seq<string>, db: map<string, Product>) returns (pecas: seq<Product>)
    ensures pecas == Resolved(codes, db)
  {
    pecas := [];
    var i := 0;
    while i < |codes|
      invariant 0 <= i <= |codes|
      invariant pecas == Resolved(codes[..i], db)
    {
      assert codes[..i + 1][..i] == codes[..i];
      var codigo := codes[i];
      if codigo in db {
        var item := db[codigo].(codigo := Some(codigo));
        pecas := pecas + [item];
      }
      i := i + 1;
    }
    assert codes[..|codes|] == codes;
  }

  /** The pieces whose checkbox is ticked, in page order. */
  function Selected(pecas: seq<Product>, ticks: seq<bool>): (r: seq<Product>)
    requires |ticks| == |pecas|
    ensures |r| <= |pecas|
    ensures forall p :: p in r ==> p in pecas
    decreases |pecas|
  {
    if pecas == [] then []
    else
      var n := |pecas| - 1;
      Selected(pecas[..n], ticks[..n]) + (if ticks[n] then [pecas[n]] else [])
  }

  /** Rendering one more piece appends it to the selection exactly when its box is ticked. */
  lemma {:induction false} SelectedSnoc(pecas: seq<Product>, ticks: seq<bool>, x: Product, b: bool)
    requires |ticks| == |pecas|
    ensures Selected(pecas + [x], ticks + [b]) == Selected(pecas, ticks) + (if b then [x] else [])
  {
    var p' := pecas + [x];
    var t' := ticks + [b];
    assert p'[..|pecas|] == pecas;
    assert t'[..|pecas|] == ticks;
  }

  /** Nothing is selected exactly when no box is ticked. */
  lemma {:induction false} SelectedEmptyIffNoTick(pecas: seq<Product>, ticks: seq<bool>)
    requires |ticks| == |pecas|
    ensures Selected(pecas, ticks) == [] <==> forall i :: 0 <= i < |ticks| ==> !ticks[i]
    decreases |pecas|
  {
    if pecas != [] {
      var n := |pecas| - 1;
      SelectedEmptyIffNoTick(pecas[..n], ticks[..n]);
      if forall i :: 0 <= i < n ==> !ticks[..n][i] {
        if !ticks[n] {
          assert forall i :: 0 <= i < |ticks| ==> !ticks[i] by {
            forall i | 0 <= i < |ticks| ensures !ticks[i] {
              if i < n { assert ticks[..n][i] == ticks[i]; }
            }
          }
        }
      } else {
        var j :| 0 <= j < n && ticks[..n][j];
        assert ticks[j];
      }
    }
  }

  /** A piece is selected exactly when it sits at some ticked position. */
  lemma {:induction false} SelectedMembers(pecas: seq<Product>, ticks: seq<bool>, x: Product)
    requires |ticks| == |pecas|
    ensures x in Selected(pecas, ticks) <==> exists i :: 0 <= i < |ticks| && ticks[i] && pecas[i] == x
    decreases |pecas|
  {
    if pecas != [] {
      var n := |pecas| - 1;
      SelectedMembers(pecas[..n], ticks[..n], x);
      if x in Selected(pecas, ticks) {
        if x in Selected(pecas[..n], ticks[..n]) {
          var j :| 0 <= j < n && ticks[..n][j] && pecas[..n][j] == x;
          assert ticks[j] && pecas[j] == x;
        } else {
          assert ticks[n] && pecas[n] == x;
        }
      } else {
        forall i | 0 <= i < |ticks| && ticks[i]
          ensures pecas[i] != x
        {
          if i < n {
            assert ticks[..n][i] && pecas[..n][i] == pecas[i];
          }
        }
      }
    }
  }

  /** The quantities recorded for the ticked pieces, written in page order. */
  function Quantities(pecas: seq<Product>, ticks: seq<bool>, qtys: seq<nat>): (r: map<string, nat>)
    requires |ticks| == |pecas| == |qtys|
    requires forall i :: 0 <= i < |pecas| ==> pecas[i].codigo.Some?
    ensures Priced(Selected(pecas, ticks), r)
    decreases |pecas|
  {
    if pecas == [] then map[]
    else
      var n := |pecas| - 1;
      var before := Quantities(pecas[..n], ticks[..n], qtys[..n]);
      if ticks[n] then before[pecas[n].codigo.value := qtys[n]] else before
  }

  /** Quantities are recorded for exactly the codes of the ticked pieces. */
  lemma {:induction false} QuantitiesKeys(pecas: seq<Product>, ticks: seq<bool>, qtys: seq<nat>, k: string)
    requires |ticks| == |pecas| == |qtys|
    requires forall i :: 0 <= i < |pecas| ==> pecas[i].codigo.Some?
    ensures k in Quantities(pecas, ticks, qtys) <==>
            exists i :: 0 <= i < |pecas| && ticks[i] && pecas[i].codigo == Some(k)
    decreases |pecas|
  {
    if pecas != [] {
      var n := |pecas| - 1;
      var ps, ts, qs := pecas[..n], ticks[..n], qtys[..n];
      QuantitiesKeys(ps, ts, qs, k);
      var before := Quantities(ps, ts, qs);
      assert Quantities(pecas, ticks, qtys) == if ticks[n] then before[pecas[n].codigo.value := qtys[n]] else before;
      if k in before {
        var i :| 0 <= i < n && ts[i] && ps[i].codigo == Some(k);
        assert ticks[i] && pecas[i].codigo == Some(k);
      }
      if exists i :: 0 <= i < |pecas| && ticks[i] && pecas[i].codigo == Some(k) {
        var i :| 0 <= i < |pecas| && ticks[i] && pecas[i].codigo == Some(k);
        if i < n {
          assert ts[i] && ps[i].codigo == Some(k);
        }
      }
    }
  }

  /**
   * The recorded quantity of a code is the one entered for the LAST ticked
   * piece carrying it; codes of unticked pieces only are not recorded.
   */
  lemma {:induction false} QuantityOfLastTicked(pecas: seq<Product>, ticks: seq<bool>, qtys: seq<nat>, j: nat)
    requires |ticks| == |pecas| == |qtys|
    requires forall i :: 0 <= i < |pecas| ==> pecas[i].codigo.Some?
    requires j < |pecas| && ticks[j]
    requires forall k :: j < k < |pecas| && ticks[k] ==> pecas[k].codigo != pecas[j].codigo
    ensures pecas[j].codigo.value in Quantities(pecas, ticks, qtys)
    ensures Quantities(pecas, ticks, qtys)[pecas[j].codigo.value] == qtys[j]
    decreases |pecas|
  {
    var n := |pecas| - 1;
    if j < n {
      QuantityOfLastTicked(pecas[..n], ticks[..n], qtys[..n], j);
    }
  }

  /**
   * The selection loop (app.py lines 121-128): `render_peca` for every
   * resolved piece, with the checkbox states and quantities the user entered.
   */
  method SelectPieces(pecas: seq<Product>, ticks: seq<bool>, qtys: seq<nat>) returns (sel: Selection)
    requires |ticks| == |pecas| == |qtys|
    requires forall i :: 0 <= i < |pecas| ==> pecas[i].codigo.Some?
    requires forall i :: 0 <= i < |pecas| && ticks[i] ==> qtys[i] >= 1
    ensures fresh(sel) && sel.Valid()
    ensures sel.pecas == Selected(pecas, ticks)
    ensures sel.quantidades == Quantities(pecas, ticks, qtys)
  {
    sel := new Selection();
    var idx := 0;
    while idx < |pecas|
      invariant 0 <= idx <= |pecas|
      invariant fresh(sel) && sel.Valid()
      invariant sel.pecas == Selected(pecas[..idx], ticks[..idx])
      invariant sel.quantidades == Quantities(pecas[..idx], ticks[..idx], qtys[..idx])
    {
      assert pecas[..idx + 1][..idx] == pecas[..idx];
      assert ticks[..idx + 1][..idx] == ticks[..idx];
      assert qtys[..idx + 1][..idx] == qtys[..idx];
      sel.RenderPeca(pecas[idx], idx, ticks[idx], qtys[idx]);
      idx := idx + 1;
    }
    assert pecas[..|pecas|] == pecas && ticks[..|ticks|] == ticks && qtys[..|qtys|] == qtys;
  }

  /** The first line of every order message. */
  const OrderTitle := "Pedido de Reposi\U{00E7}\U{00E3}o de Pe\U{00E7}as"

  /** Every selected piece has a code with a recorded quantity, as `Selection.Valid` keeps. */
  predicate Priced(sel: seq<Product>, q: map<string, nat>)
  {
    forall i :: 0 <= i < |sel| ==> sel[i].codigo.Some? && sel[i].codigo.value in q
  }

  /** `f"- {p['nome']} (código {p['codigo']}) — Quantidade: {quantidades[p['codigo']]}"`. */
  function ItemLine(p: Product, q: map<string, nat>): (r: string)
    requires p.codigo.Some? && p.codigo.value in q
    ensures |r| > 2 && r[..2] == "- "
    ensures OneLine(p.nome) && OneLine(p.codigo.value) ==> OneLine(r)
  {
    var digits := NatToString(q[p.codigo.value]);
    assert forall k :: 0 <= k < |digits| ==> digits[k] != '\n';
    "- " + p.nome + " (c\U{00F3}digo " + p.codigo.value + ") \U{2014} Quantidade: " + NatToString(q[p.codigo.value])
  }

  /** One line per selected piece, in selection order. */
  function ItemLines(sel: seq<Product>, q: map<string, nat>): (r: seq<string>)
    requires Priced(sel, q)
    ensures |r| == |sel|
    ensures forall i :: 0 <= i < |sel| ==> r[i] == ItemLine(sel[i], q)
  {
    seq(|sel|, i requires 0 <= i < |sel| => ItemLine(sel[i], q))
  }

  /** The text of the order, or nothing when no piece is selected (the page stops). */
  function OrderMessage(nome: string, sel: seq<Product>, q: map<string, nat>): (r: Option<string>)
    requires Priced(sel, q)
    ensures r.None? <==> sel == []
  {
    if sel == [] then None
    else
      var textoItens := Join(ItemLines(sel, q), '\n');
      Some(Opening(nome) + ['\n'] + textoItens)
  }

  /** The message up to the item lines: title, `Cliente: {nome}`, a blank line, `Itens Selecionados:`. */
  function Opening(nome: string): (r: string)
    ensures |r| > |OrderTitle| && r[..|OrderTitle|] == OrderTitle && r[|OrderTitle|] == '\n'
  {
    OrderTitle + ['\n'] + ("Cliente: " + nome) + ['\n'] + "" + ['\n'] + "Itens Selecionados:"
  }

  /** A string with no line break. */
  predicate OneLine(s: string)
  {
    '\n' !in s
  }

  /** Item lines hold no line break when names and codes hold none. */
  lemma ItemLinesAreOneLine(sel: seq<Product>, q: map<string, nat>)
    requires Priced(sel, q)
    requires forall i :: 0 <= i < |sel| ==> OneLine(sel[i].nome) && OneLine(sel[i].codigo.value)
    ensures forall i :: 0 <= i < |sel| ==> OneLine(ItemLines(sel, q)[i])
  {
    forall i | 0 <= i < |sel| ensures OneLine(ItemLines(sel, q)[i]) {
      assert ItemLines(sel, q)[i] == ItemLine(sel[i], q);
    }
  }

  /** The four fixed lines that open the message. */
  function HeadLines(nome: string): seq<string>
  {
    [OrderTitle, "Cliente: " + nome, "", "Itens Selecionados:"]
  }

  /** The four head lines joined by line breaks are the message's opening. */
  lemma HeadJoin(nome: string)
    ensures Join(HeadLines(nome), '\n') == Opening(nome)
  {
    var head := HeadLines(nome);
    var l1, l2, l3 := "Cliente: " + nome, "", "Itens Selecionados:";
    assert head[1..] == [l1, l2, l3];
    assert [l1, l2, l3][1..] == [l2, l3];
    assert [l2, l3][1..] == [l3];
    assert Join([l3], '\n') == l3;
    var j2 := Join([l2, l3], '\n');
    assert j2 == l2 + ['\n'] + l3;
    var j1 := Join([l1, l2, l3], '\n');
    assert j1 == l1 + ['\n'] + j2;
    assert Join(head, '\n') == OrderTitle + ['\n'] + j1;
  }

  /** The message is the head lines and the item lines joined by line breaks. */
  lemma OrderMessageIsJoin(nome: string, sel: seq<Product>, q: map<string, nat>)
    requires Priced(sel, q) && sel != []
    ensures OrderMessage(nome, sel, q).value == Join(HeadLines(nome) + ItemLines(sel, q), '\n')
  {
    HeadJoin(nome);
    JoinAppend(HeadLines(nome), ItemLines(sel, q), '\n');
  }

  /**
   * Read line by line, the message is the title, `Cliente: {nome}`, a blank
   * line, `Itens Selecionados:`, then exactly one line per selected piece in
   * selection order, provided names and codes hold no line break.
   */
  lemma OrderMessageLines(nome: string, sel: seq<Product>, q: map<string, nat>)
    requires Priced(sel, q) && sel != []
    requires OneLine(nome)
    requires forall i :: 0 <= i < |sel| ==> OneLine(sel[i].nome) && OneLine(sel[i].codigo.value)
    ensures Split(OrderMessage(nome, sel, q).value, '\n') == HeadLines(nome) + ItemLines(sel, q)
  {
    var head := HeadLines(nome);
    var items := ItemLines(sel, q);
    var all := head + items;
    ItemLinesAreOneLine(sel, q);
    assert OneLine(OrderTitle);
    forall i | 0 <= i < |all| ensures '\n' !in all[i] {
      if i >= |head| {
        assert all[i] == items[i - |head|];
      }
    }
    OrderMessageIsJoin(nome, sel, q);
    SplitJoin(all, '\n');
  }

  /** What `pdf_button` renders: an info note, or a link button to the URL. */
  datatype ManualWidget = NoManualNote | ManualLink(url: string)

  /** `pdf_button(url)`: an empty or missing URL gives the "no manual" note and no link. */
  function PdfButton(url: Option<string>): (r: ManualWidget)
    ensures r.ManualLink? <==> url.Some? && url.value != ""
    ensures r.ManualLink? ==> r.url == url.value
  {
    if url.None? || url.value == "" then NoManualNote else ManualLink(url.value)
  }

  /**
   * The manual button under each piece (pages/pesquisa.py): shown only when
   * `peca.get("manual")` is non-empty, so the note of `PdfButton` never appears there.
   */
  function ManualButton(peca: Product): (r: Option<ManualWidget>)
    ensures r.Some? <==> peca.manual.Some? && peca.manual.value != ""
    ensures r.Some? ==> r.value == ManualLink(peca.manual.value)
  {
    if peca.manual.Some? && peca.manual.value != "" then Some(PdfButton(peca.manual)) else None
  }

  /**
   * The whole page for a customer id: open the catalogue, normalise, resolve,
   * select, and build the message; `None` when the customer is unknown or
   * nothing was selected.
   */
  method RenderCustomerPage(clienteId: string, loaded: Option<Catalogue>, db: map<string, Product>,
                            ticks: seq<bool>, qtys: seq<nat>) returns (mensagem: Option<string>)
    requires loaded.Some? ==>
      var pieces := Resolved(Normalised(loaded.value.pecas.GetOr([])), db);
      |ticks| == |pieces| == |qtys| && forall i :: 0 <= i < |pieces| && ticks[i] ==> qtys[i] >= 1
    ensures loaded.None? ==> mensagem.None?
    ensures loaded.Some? ==>
      var pieces := Resolved(Normalised(loaded.value.pecas.GetOr([])), db);
      var sel := Selected(pieces, ticks);
      mensagem.Some? <==> sel != []
    ensures loaded.Some? ==> (mensagem.Some? <==> exists i :: 0 <= i < |ticks| && ticks[i])
    ensures mensagem.Some? ==>
      var pieces := Resolved(Normalised(loaded.value.pecas.GetOr([])), db);
      mensagem == OrderMessage(OpenCustomer(clienteId, loaded).value.nome,
                               Selected(pieces, ticks), Quantities(pieces, ticks, qtys))
  {
    var header := OpenCustomer(clienteId, loaded);
    if header.None? {
      return None;
    }
    var codigos := NormaliseItems(header.value.pecas);
    var pecas := ResolveCodes(codigos, db);
    var sel := SelectPieces(pecas, ticks, qtys);
    SelectedEmptyIffNoTick(pecas, ticks);
    if sel.pecas == [] {
      return None;
    }
    mensagem := OrderMessage(header.value.nome, sel.pecas, sel.quantidades);
  }
}
