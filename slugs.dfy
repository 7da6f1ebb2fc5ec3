/**
 * How a customer's name becomes the name of its catalogue file (admin page)
 * and the slug the customer page looks the file up by (home page, catalogue
 * listing).
 */
module Slugs {
  import opened Wrappers
  import opened Text

  /** The lookup slug: `nome.lower().replace(" ", "_")`. */
  function Slug(nome: string): (r: string)
    ensures |r| == |nome|
    ensures ' ' !in r
  {
    Replace(Lower(nome), ' ', '_')
  }

  /** The catalogue file name: `f"{cliente.replace(' ', '_').lower()}.json"`. */
  function CatalogueFileName(cliente: string): (r: string)
    ensures |r| == |cliente| + 5 && r[|cliente|..] == ".json"
    ensures forall i :: 0 <= i < |cliente| ==> r[i] == LowerChar(if cliente[i] == ' ' then '_' else cliente[i])
  {
    Lower(Replace(cliente, ' ', '_')) + ".json"
  }

  /** Lower-casing commutes with replacing spaces by underscores. */
  lemma {:induction false} LowerReplaceCommute(s: string)
    ensures Lower(Replace(s, ' ', '_')) == Replace(Lower(s), ' ', '_')
    decreases |s|
  {
    if s != [] {
      LowerReplaceCommute(s[1..]);
      assert Replace(s, ' ', '_')[1..] == Replace(s[1..], ' ', '_');
      assert Lower(s)[1..] == Lower(s[1..]);
    }
  }

  /**
   * The file the admin page writes for a customer is the file the customer
   * page opens for the slug of the same name (`clientes/{slug}.json`), and
   * neither holds a space.
   */
  lemma FileNameIsSlugFile(cliente: string)
    ensures CatalogueFileName(cliente) == Slug(cliente) + ".json"
    ensures ' ' !in CatalogueFileName(cliente)
  {
    LowerReplaceCommute(cliente);
  }

  /**
   * The home page's "enter as customer" action: a blank name is refused,
   * otherwise the query parameter `cliente` becomes the slug of the name as
   * typed (it is not stripped).
   */
  function EnterAsCustomer(typed: string): (r: Option<string>)
    ensures r.None? <==> IsBlank(typed)
    ensures r.Some? ==> r.value == Slug(typed) && |r.value| == |typed| && ' ' !in r.value
  {
    if IsBlank(typed) then None else Some(Slug(typed))
  }

  /** The slug of "Acme Co" is "acme_co". */
  lemma SlugOfSpacedName()
    ensures Slug("Acme Co") == "acme_co"
  {
    var name := "Acme Co";
    var low := Lower(name);
    assert low[0] == 'a' && low[4] == ' ' && low[5] == 'c';
    assert low == "acme co";
    var r := Replace(low, ' ', '_');
    assert r[4] == '_';
    assert r == "acme_co";
  }

  /**
   * Slugs do not keep case or underscores apart: "Acme Co" and "acme_co"
   * collide, since the slug of "acme_co" is itself.
   */
  lemma SlugCollision()
    ensures Slug("acme_co") == Slug("Acme Co")
  {
    SlugOfSpacedName();
    var name := "acme_co";
    var low := Lower(name);
    assert low == name;
    assert Replace(low, ' ', '_') == name;
  }

  /** Slugs do not trim: surrounding spaces survive as underscores. */
  lemma SlugKeepsOuterSpaces()
    ensures Slug(" Acme Co ") == "_acme_co_"
  {
    var name := " Acme Co ";
    var low := Lower(name);
    assert |low| == 9;
    assert low[0] == ' ' && low[1] == 'a' && low[2] == 'c' && low[3] == 'm' && low[4] == 'e';
    assert low[5] == ' ' && low[6] == 'c' && low[7] == 'o' && low[8] == ' ';
    assert low == " acme co ";
    var r := Replace(low, ' ', '_');
    assert |r| == 9;
    assert r[0] == '_' && r[1] == 'a' && r[2] == 'c' && r[3] == 'm' && r[4] == 'e';
    assert r[5] == '_' && r[6] == 'c' && r[7] == 'o' && r[8] == '_';
    assert r == "_acme_co_";
  }
}
