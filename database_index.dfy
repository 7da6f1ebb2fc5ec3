/**
 * `carregar_database`: the product list of `database/database.json` turned
 * into a dictionary keyed by `codigo`, or an empty dictionary on any failure.
 */
module DatabaseIndex {
  import opened Wrappers
  import opened Records

  /** Every product carries a `codigo` (otherwise `item["codigo"]` raises `KeyError`). */
  predicate AllCoded(ps: seq<Product>)
  {
    forall i :: 0 <= i < |ps| ==> ps[i].codigo.Some?
  }

  /** `{item["codigo"]: item for item in lista}`: inserted in list order, so a later duplicate wins. */
  function Index(ps: seq<Product>): (r: map<string, Product>)
    requires AllCoded(ps)
    ensures forall k :: k in r <==> exists i :: 0 <= i < |ps| && ps[i].codigo == Some(k)
    ensures forall k :: k in r ==> r[k].codigo == Some(k)
    decreases |ps|
  {
    if ps == [] then map[]
    else
      var last := ps[|ps| - 1];
      var r := Index(ps[..|ps| - 1])[last.codigo.value := last];
      assert forall k :: (exists i :: 0 <= i < |ps| && ps[i].codigo == Some(k)) ==> k in r by {
        forall k | exists i :: 0 <= i < |ps| && ps[i].codigo == Some(k) ensures k in r {
          var i :| 0 <= i < |ps| && ps[i].codigo == Some(k);
          if i < |ps| - 1 {
            assert ps[..|ps| - 1][i] == ps[i];
          }
        }
      }
      r
  }

  /** For a duplicated code, the entry is the LAST product of the list that carries it. */
  lemma {:induction false} IndexLastWins(ps: seq<Product>, j: nat)
    requires AllCoded(ps)
    requires j < |ps|
    requires forall k :: j < k < |ps| ==> ps[k].codigo != ps[j].codigo
    ensures ps[j].codigo.value in Index(ps)
    ensures Index(ps)[ps[j].codigo.value] == ps[j]
    decreases |ps|
  {
    if j < |ps| - 1 {
      var init := ps[..|ps| - 1];
      assert init[j] == ps[j];
      IndexLastWins(init, j);
    }
  }

  /** What reading `database/database.json` produced. */
  datatype DatabaseFile = Missing | Malformed | Loaded(items: seq<Product>)

  /**
   * `carregar_database()`: the index of the stored list; `{}` when the file
   * is missing, does not parse, or holds a product without `codigo`.
   */
  function LoadDatabase(f: DatabaseFile): (r: map<string, Product>)
    ensures !f.Loaded? ==> r == map[]
    ensures f.Loaded? && !AllCoded(f.items) ==> r == map[]
    ensures f.Loaded? && AllCoded(f.items) ==>
      forall i :: 0 <= i < |f.items| ==> f.items[i].codigo.value in r
    ensures f.Loaded? && AllCoded(f.items) ==> r == Index(f.items)
    ensures forall k :: k in r ==> r[k].codigo == Some(k) && f.Loaded? && r[k] in f.items
  {
    if f.Loaded? && AllCoded(f.items) then
      var r := Index(f.items);
      assert forall k :: k in r ==> r[k] in f.items by {
        forall k | k in r ensures r[k] in f.items {
          var j :| 0 <= j < |f.items| && f.items[j].codigo == Some(k);
          var last := LastWithCode(f.items, j);
          IndexLastWins(f.items, last);
        }
      }
      r
    else map[]
  }

  /** The position of the last product that shares the code of `ps[j]`. */
  function LastWithCode(ps: seq<Product>, j: nat): (r: nat)
    requires j < |ps|
    ensures j <= r < |ps| && ps[r].codigo == ps[j].codigo
    ensures forall k :: r < k < |ps| ==> ps[k].codigo != ps[j].codigo
    decreases |ps| - j
  {
    if exists k :: j < k < |ps| && ps[k].codigo == ps[j].codigo then
      var k :| j < k < |ps| && ps[k].codigo == ps[j].codigo;
      LastWithCode(ps, k)
    else j
  }
}
