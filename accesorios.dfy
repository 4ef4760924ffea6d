/**
 * The accessory catalog: the `accesorios` table and the `modelos_accesorios` join table
 * that prices an accessory for one vehicle model. Nothing here writes either table.
 */
module Accesorios {
  import opened Wrappers

  datatype Accesorio = Accesorio(
    nombre: string,
    stock: int,
    descripcion: string,
    habilitado: int,
    eliminado: int,
    idOferta: Option<int>)

  /** A row of `modelos_accesorios`: the price of an accessory for a model. */
  datatype ModeloAccesorio = ModeloAccesorio(idModelo: int, idAccesorio: int, precio: real)

  /** A row of `porModelo`'s join: the accessory with its model-scoped price. */
  datatype AccesorioConPrecio = AccesorioConPrecio(idAccesorio: int, accesorio: Accesorio, precio: real)

  /** `habilitado = 1 AND eliminado = 0 AND stock > 0`. */
  predicate Ofertable(a: Accesorio)
  {
    a.habilitado == 1 && a.eliminado == 0 && a.stock > 0
  }

  /** `disponibles`: exactly the offerable accessories, in no particular order. */
  function Disponibles(accesorios: map<int, Accesorio>): (r: map<int, Accesorio>)
    ensures forall id :: id in r <==>
      id in accesorios && accesorios[id].habilitado == 1 && accesorios[id].eliminado == 0 && accesorios[id].stock > 0
    ensures forall id :: id in r ==> r[id] == accesorios[id]
  {
    map id | id in accesorios && Ofertable(accesorios[id]) :: accesorios[id]
  }

  /** `find`: the accessory with that id, if any. */
  function Find(accesorios: map<int, Accesorio>, id: int): (r: Option<Accesorio>)
    ensures r.Some? <==> id in accesorios
    ensures r.Some? ==> r.value == accesorios[id]
  {
    if id in accesorios then Some(accesorios[id]) else None
  }

  /**
   * `porModelo`: one row per join row of model `idModelo` whose accessory exists and is
   * offerable, carrying the join row's price.
   */
  function PorModelo(accesorios: map<int, Accesorio>, ma: seq<ModeloAccesorio>, idModelo: int)
    : (r: seq<AccesorioConPrecio>)
    ensures forall x :: x in r ==>
      && ModeloAccesorio(idModelo, x.idAccesorio, x.precio) in ma
      && x.idAccesorio in accesorios && x.accesorio == accesorios[x.idAccesorio]
      && Ofertable(x.accesorio)
    ensures forall f :: f in ma && f.idModelo == idModelo && f.idAccesorio in accesorios
                        && Ofertable(accesorios[f.idAccesorio]) ==>
      AccesorioConPrecio(f.idAccesorio, accesorios[f.idAccesorio], f.precio) in r
    ensures |r| <= |ma|
  {
    if ma == [] then []
    else
      var f := ma[0];
      var rest := PorModelo(accesorios, ma[1..], idModelo);
      assert forall g :: g in ma[1..] ==> g in ma;
      assert forall g :: g in ma ==> g == f || g in ma[1..];
      if f.idModelo == idModelo && f.idAccesorio in accesorios && Ofertable(accesorios[f.idAccesorio])
      then [AccesorioConPrecio(f.idAccesorio, accesorios[f.idAccesorio], f.precio)] + rest
      else rest
  }

  /** The join rows `porModelo` keeps for model `idModelo`. */
  predicate Califica(accesorios: map<int, Accesorio>, f: ModeloAccesorio, idModelo: int)
  {
    f.idModelo == idModelo && f.idAccesorio in accesorios && Ofertable(accesorios[f.idAccesorio])
  }

  /**
   * The join returns one row per qualifying join row, duplicates included: each kept join
   * row `f` appears in `porModelo` exactly as many times as it occurs in the join table.
   */
  lemma {:induction false} PorModeloMultiplicidad(accesorios: map<int, Accesorio>, ma: seq<ModeloAccesorio>,
                                                  idModelo: int, f: ModeloAccesorio)
    requires Califica(accesorios, f, idModelo)
    ensures multiset(PorModelo(accesorios, ma, idModelo))[AccesorioConPrecio(f.idAccesorio, accesorios[f.idAccesorio], f.precio)]
            == multiset(ma)[f]
    decreases |ma|
  {
    if ma != [] {
      PorModeloMultiplicidad(accesorios, ma[1..], idModelo, f);
      assert ma == [ma[0]] + ma[1..];
    }
  }

  /** `SUM(precio) ... WHERE idModelo = ? AND idAccesorio IN (...)`, with an empty sum read as 0. */
  function SumaPrecios(ma: seq<ModeloAccesorio>, idModelo: int, ids: set<int>): real
  {
    if ma == [] then 0.0
    else
      (if ma[0].idModelo == idModelo && ma[0].idAccesorio in ids then ma[0].precio else 0.0)
      + SumaPrecios(ma[1..], idModelo, ids)
  }

  /**
   * `calcularPrecioAccesorios`: an empty selection returns 0 without querying; otherwise the
   * sum over the join table, where the selected ids act as a set. Only the join table is read.
   */
  function CalcularPrecioAccesorios(ma: seq<ModeloAccesorio>, idModelo: int, accesorioIds: seq<int>)
    : (total: real)
    ensures |accesorioIds| == 0 ==> total == 0.0
    ensures total == SumaPrecios(ma, idModelo, set a | a in accesorioIds)
    ensures (forall f :: f in ma ==> f.precio >= 0.0) ==> total >= 0.0
  {
    SumaSinSeleccion(ma, idModelo);
    assert |accesorioIds| == 0 ==> (set a | a in accesorioIds) == {};
    SumaNoNegativa(ma, idModelo, set a | a in accesorioIds);
    if |accesorioIds| == 0 then 0.0
    else SumaPrecios(ma, idModelo, set a | a in accesorioIds)
  }

  /** The early return for an empty selection agrees with the query: no row matches `IN ()`. */
  lemma {:induction false} SumaSinSeleccion(ma: seq<ModeloAccesorio>, idModelo: int)
    ensures SumaPrecios(ma, idModelo, {}) == 0.0
  {
    if ma != [] {
      SumaSinSeleccion(ma[1..], idModelo);
    }
  }

  lemma {:induction false} SumaNoNegativa(ma: seq<ModeloAccesorio>, idModelo: int, ids: set<int>)
    ensures (forall f :: f in ma ==> f.precio >= 0.0) ==> SumaPrecios(ma, idModelo, ids) >= 0.0
  {
    if ma != [] {
      assert forall f :: f in ma[1..] ==> f in ma;
      SumaNoNegativa(ma[1..], idModelo, ids);
    }
  }

  /** Listing an id twice, or in another order, does not change the total. */
  lemma DuplicadosNoCuentan(ma: seq<ModeloAccesorio>, idModelo: int, ids1: seq<int>, ids2: seq<int>)
    requires forall a :: a in ids1 <==> a in ids2
    ensures CalcularPrecioAccesorios(ma, idModelo, ids1) == CalcularPrecioAccesorios(ma, idModelo, ids2)
  {
    var s1, s2 := set a | a in ids1, set a | a in ids2;
    assert forall a :: a in s1 <==> a in s2;
    assert s1 == s2;
  }

  /** An id with no join row for the model contributes nothing. */
  lemma {:induction false} NoVinculadoNoSuma(ma: seq<ModeloAccesorio>, idModelo: int, ids: set<int>, x: int)
    requires forall f :: f in ma ==> !(f.idModelo == idModelo && f.idAccesorio == x)
    ensures SumaPrecios(ma, idModelo, ids + {x}) == SumaPrecios(ma, idModelo, ids)
  {
    if ma != [] {
      assert forall f :: f in ma[1..] ==> f in ma;
      NoVinculadoNoSuma(ma[1..], idModelo, ids, x);
    }
  }

  /** The total over two disjoint selections is the sum of the two totals. */
  lemma {:induction false} SumaUnion(ma: seq<ModeloAccesorio>, idModelo: int, a: set<int>, b: set<int>)
    requires a !! b
    ensures SumaPrecios(ma, idModelo, a + b) == SumaPrecios(ma, idModelo, a) + SumaPrecios(ma, idModelo, b)
  {
    if ma != [] {
      SumaUnion(ma[1..], idModelo, a, b);
    }
  }

  /** No join row matches the model and selection: the total is 0. */
  lemma {:induction false} SinFilasEsCero(ma: seq<ModeloAccesorio>, idModelo: int, ids: set<int>)
    requires forall f :: f in ma ==> !(f.idModelo == idModelo && f.idAccesorio in ids)
    ensures SumaPrecios(ma, idModelo, ids) == 0.0
  {
    if ma != [] {
      assert forall f :: f in ma[1..] ==> f in ma;
      SinFilasEsCero(ma[1..], idModelo, ids);
    }
  }

  /** The join table's key (idModelo, idAccesorio) is unique. */
  predicate ClaveUnica(ma: seq<ModeloAccesorio>)
  {
    forall i, j :: 0 <= i < j < |ma| ==>
      !(ma[i].idModelo == ma[j].idModelo && ma[i].idAccesorio == ma[j].idAccesorio)
  }

  /** Selecting one linked accessory totals exactly its model-scoped price. */
  lemma {:induction false} SumaDeUnAccesorio(ma: seq<ModeloAccesorio>, k: nat)
    requires ClaveUnica(ma)
    requires k < |ma|
    ensures SumaPrecios(ma, ma[k].idModelo, {ma[k].idAccesorio}) == ma[k].precio
  {
    var m, x := ma[k].idModelo, ma[k].idAccesorio;
    var tail := ma[1..];
    assert ClaveUnica(tail) by {
      forall i, j | 0 <= i < j < |tail|
        ensures !(tail[i].idModelo == tail[j].idModelo && tail[i].idAccesorio == tail[j].idAccesorio)
      {
        assert tail[i] == ma[i + 1] && tail[j] == ma[j + 1];
      }
    }
    if k == 0 {
      assert forall f :: f in tail ==> !(f.idModelo == m && f.idAccesorio in {x}) by {
        forall f | f in tail ensures !(f.idModelo == m && f.idAccesorio in {x}) {
          var j :| 0 <= j < |tail| && tail[j] == f;
          assert f == ma[j + 1];
        }
      }
      SinFilasEsCero(tail, m, {x});
    } else {
      assert tail[k - 1] == ma[k];
      SumaDeUnAccesorio(tail, k - 1);
    }
  }
}
