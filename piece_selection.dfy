/**
 * `render_peca`: one piece of the customer page with its "Selecionar"
 * checkbox and, when ticked, its quantity input. A ticked piece is appended
 * to the caller's `pecas_selecionadas` list and its quantity is written to
 * the caller's `quantidades` dictionary under its code.
 */
module PieceSelection {
  import opened Wrappers
  import opened Records
  import opened Text

  /** The two collections `render_peca` mutates in place. */
  class Selection {
    /** `pecas_selecionadas`, in the order the pieces were ticked on the page. */
    var pecas: seq<Product>
    /** `quantidades`, keyed by piece code. */
    var quantidades: map<string, nat>

    /** Every selected piece has a code with a recorded quantity, and every quantity is at least 1. */
    ghost predicate Valid()
      reads this
    {
      && (forall i :: 0 <= i < |pecas| ==> pecas[i].codigo.Some? && pecas[i].codigo.value in quantidades)
      && (forall k :: k in quantidades ==> quantidades[k] >= 1)
    }

    /** `pecas_selecionadas = []` and `quantidades = {}`. */
    constructor ()
      ensures Valid()
      ensures pecas == [] && quantidades == map[]
    {
      pecas := [];
      quantidades := map[];
    }

    /**
     * `render_peca(peca, idx, quantidades, pecas_selecionadas)` where the
     * user left the checkbox as `ticked` and the number input (minimum 1) at
     * `qtd`. Pieces on the page always carry a code (resolution sets it).
     */
    method RenderPeca(peca: Product, idx: nat, ticked: bool, qtd: nat)
      requires Valid()
      requires peca.codigo.Some?
      requires ticked ==> qtd >= 1
      modifies this
      ensures Valid()
      ensures pecas == if ticked then old(pecas) + [peca] else old(pecas)
      ensures quantidades == if ticked then old(quantidades)[peca.codigo.value := qtd] else old(quantidades)
    {
      if ticked {
        pecas := pecas + [peca];
        quantidades := quantidades[peca.codigo.value := qtd];
      }
    }
  }

  /** The checkbox widget key `f"chk_{peca['codigo']}_{idx}"`. */
  function CheckboxKey(codigo: string, idx: nat): (r: string)
    ensures |r| > 0 && r[0] == 'c'
    ensures LastSegment(r, '_') == NatToString(idx)
  {
    var prefix := "chk_" + codigo;
    KeyEndsWithIndex(prefix, idx);
    prefix + "_" + NatToString(idx)
  }

  /** The quantity widget key `f"qtd_{peca['codigo']}_{idx}"`. */
  function QuantityKey(codigo: string, idx: nat): (r: string)
    ensures |r| > 0 && r[0] == 'q'
    ensures LastSegment(r, '_') == NatToString(idx)
  {
    var prefix := "qtd_" + codigo;
    KeyEndsWithIndex(prefix, idx);
    prefix + "_" + NatToString(idx)
  }

  /**
   * Pieces at different positions never share a widget key, whatever their
   * codes (even codes holding `_`): the position is the key's last segment.
   */
  lemma WidgetKeysDistinct(c1: string, i1: nat, c2: string, i2: nat)
    requires i1 != i2
    ensures CheckboxKey(c1, i1) != CheckboxKey(c2, i2)
    ensures QuantityKey(c1, i1) != QuantityKey(c2, i2)
  {
    DigitsValueOfNatToString(i1);
    DigitsValueOfNatToString(i2);
  }

  /** A checkbox key is never a quantity key, whatever the codes and positions, the same position included. */
  lemma CheckboxIsNotQuantity(c1: string, i1: nat, c2: string, i2: nat)
    ensures CheckboxKey(c1, i1) != QuantityKey(c2, i2)
  {
  }

  /** The position can be read back from a key: it is the last `_`-separated segment. */
  lemma KeyEndsWithIndex(prefix: string, idx: nat)
    ensures LastSegment(prefix + "_" + NatToString(idx), '_') == NatToString(idx)
  {
    NoSeparatorInDigits(idx);
    assert prefix + "_" + NatToString(idx) == prefix + ['_'] + NatToString(idx);
    LastSegmentAfterSeparator(prefix, NatToString(idx), '_');
  }

  /** `str(idx)` holds no underscore. */
  lemma NoSeparatorInDigits(n: nat)
    ensures '_' !in NatToString(n)
  {
    var s := NatToString(n);
    forall i | 0 <= i < |s| ensures s[i] != '_' {
    }
  }
}
