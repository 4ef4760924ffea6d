/** The vehicle model: its status constants, availability predicates, catalog queries and status update. */
module Vehiculos {
  import opened Wrappers
  import opened Php
  import opened Schema
  import Ordering

  const DISPONIBLE: string := "DISPONIBLE"
  const RESERVADO: string := "RESERVADO"
  const VENDIDO: string := "VENDIDO"
  const NO_DISPONIBLE: string := "NO_DISPONIBLE"

  /** The declared vehicle statuses. */
  const ESTADOS: set<string> := {DISPONIBLE, RESERVADO, VENDIDO, NO_DISPONIBLE}

  /** Strict comparison of the status with the literal `DISPONIBLE`. */
  predicate EstaDisponible(v: Vehiculo)
    ensures EstaDisponible(v) <==> v.estado == DISPONIBLE
    ensures EstaDisponible(v) ==> v.estado in ESTADOS
  {
    v.estado == DISPONIBLE
  }

  /** A vehicle is new when its mileage is zero. */
  predicate EsNuevo(v: Vehiculo)
    ensures EsNuevo(v) <==> v.kilometraje == 0
  {
    v.kilometraje == 0
  }

  /** `where('estado', 'DISPONIBLE')`: the available vehicles, in no particular order. */
  function Disponibles(vehiculos: map<int, Vehiculo>): (r: map<int, Vehiculo>)
    ensures forall id :: id in r <==> id in vehiculos && vehiculos[id].estado == DISPONIBLE
    ensures forall id :: id in r ==> r[id] == vehiculos[id]
  {
    map id | id in vehiculos && EstaDisponible(vehiculos[id]) :: vehiculos[id]
  }

  /** `hay` contains `needle` as a contiguous substring (`LIKE '%needle%'`). */
  predicate Contiene(hay: string, needle: string)
  {
    (|needle| <= |hay| && hay[..|needle|] == needle) || (|hay| > 0 && Contiene(hay[1..], needle))
  }

  /** One condition of the `WHERE` clause that `filtrar` builds. */
  datatype Condicion =
    | EstadoIgual(estado: string)
    | MarcaContiene(texto: string)
    | TipoIgual(tipo: string)
    | PrecioDesde(minimo: real)
    | PrecioHasta(maximo: real)

  predicate Cumple(c: Condicion, v: Vehiculo)
  {
    match c
    case EstadoIgual(e) => v.estado == e
    case MarcaContiene(m) => Contiene(v.marca, m)
    case TipoIgual(t) => v.tipo == t
    case PrecioDesde(p) => v.precio >= p
    case PrecioHasta(p) => v.precio <= p
  }

  /** The conditions are joined with `AND`. */
  predicate CumpleTodas(cs: seq<Condicion>, v: Vehiculo)
  {
    forall i :: 0 <= i < |cs| ==> Cumple(cs[i], v)
  }

  lemma CumpleTodasAppend(cs: seq<Condicion>, c: Condicion, v: Vehiculo)
    ensures CumpleTodas(cs + [c], v) <==> CumpleTodas(cs, v) && Cumple(c, v)
  {
    if CumpleTodas(cs, v) && Cumple(c, v) {
      forall i | 0 <= i < |cs + [c]| ensures Cumple((cs + [c])[i], v) {
        if i < |cs| { assert (cs + [c])[i] == cs[i]; }
      }
    }
    if CumpleTodas(cs + [c], v) {
      forall i | 0 <= i < |cs| ensures Cumple(cs[i], v) {
        assert (cs + [c])[i] == cs[i];
      }
      assert (cs + [c])[|cs|] == c;
    }
  }

  /** What the four optional filters of `filtrar` ask of a vehicle; a falsy filter asks nothing. */
  predicate PasaFiltros(v: Vehiculo, marca: Option<string>, tipo: Option<string>,
                        precioMin: Option<real>, precioMax: Option<real>)
  {
    && v.estado == DISPONIBLE
    && (TruthyString(marca) ==> Contiene(v.marca, marca.value))
    && (TruthyString(tipo) ==> v.tipo == tipo.value)
    && (TruthyReal(precioMin) ==> v.precio >= precioMin.value)
    && (TruthyReal(precioMax) ==> v.precio <= precioMax.value)
  }

  /**
   * `filtrar`: starts from `estado = 'DISPONIBLE'` and appends one condition per truthy
   * argument; the query then runs through `Ejecutar` (ordered by marca, modelo).
   */
  method Filtrar(marca: Option<string>, tipo: Option<string>, precioMin: Option<real>, precioMax: Option<real>)
    returns (q: seq<Condicion>)
    ensures |q| >= 1 && q[0] == EstadoIgual(DISPONIBLE)
    ensures forall v :: CumpleTodas(q, v) <==> PasaFiltros(v, marca, tipo, precioMin, precioMax)
    ensures !TruthyString(marca) && !TruthyString(tipo) && !TruthyReal(precioMin) && !TruthyReal(precioMax) ==>
      q == [EstadoIgual(DISPONIBLE)]
  {
    q := [EstadoIgual(DISPONIBLE)];
    if TruthyString(marca) {
      q := q + [MarcaContiene(marca.value)];
    }
    if TruthyString(tipo) {
      q := q + [TipoIgual(tipo.value)];
    }
    if TruthyReal(precioMin) {
      q := q + [PrecioDesde(precioMin.value)];
    }
    if TruthyReal(precioMax) {
      q := q + [PrecioHasta(precioMax.value)];
    }
    forall v ensures CumpleTodas(q, v) <==> PasaFiltros(v, marca, tipo, precioMin, precioMax) {
      var q0 := [EstadoIgual(DISPONIBLE)];
      var q1 := if TruthyString(marca) then q0 + [MarcaContiene(marca.value)] else q0;
      var q2 := if TruthyString(tipo) then q1 + [TipoIgual(tipo.value)] else q1;
      var q3 := if TruthyReal(precioMin) then q2 + [PrecioDesde(precioMin.value)] else q2;
      assert q == if TruthyReal(precioMax) then q3 + [PrecioHasta(precioMax.value)] else q3;
      assert Cumple(q0[0], v) <==> v.estado == DISPONIBLE;
      assert CumpleTodas(q0, v) <==> v.estado == DISPONIBLE;
      if TruthyString(marca) { CumpleTodasAppend(q0, MarcaContiene(marca.value), v); }
      if TruthyString(tipo) { CumpleTodasAppend(q1, TipoIgual(tipo.value), v); }
      if TruthyReal(precioMin) { CumpleTodasAppend(q2, PrecioDesde(precioMin.value), v); }
      if TruthyReal(precioMax) { CumpleTodasAppend(q3, PrecioHasta(precioMax.value), v); }
    }
  }

  /** A result row: the vehicle with its id. */
  datatype FilaVehiculo = FilaVehiculo(id: int, vehiculo: Vehiculo)

  /** `ORDER BY marca, modelo`. */
  predicate AntesPorMarcaModelo(a: FilaVehiculo, b: FilaVehiculo)
  {
    Ordering.PairLe(a.vehiculo.marca, a.vehiculo.modelo, b.vehiculo.marca, b.vehiculo.modelo)
  }

  lemma AntesPorMarcaModeloEsPreorden()
    ensures Ordering.TotalPreorder(AntesPorMarcaModelo)
  {
    forall a, b ensures AntesPorMarcaModelo(a, b) || AntesPorMarcaModelo(b, a) {
      Ordering.PairLeTotal(a.vehiculo.marca, a.vehiculo.modelo, b.vehiculo.marca, b.vehiculo.modelo);
    }
    forall a, b, c | AntesPorMarcaModelo(a, b) && AntesPorMarcaModelo(b, c)
      ensures AntesPorMarcaModelo(a, c)
    {
      Ordering.PairLeTransitive(a.vehiculo.marca, a.vehiculo.modelo, b.vehiculo.marca,
                                b.vehiculo.modelo, c.vehiculo.marca, c.vehiculo.modelo);
    }
  }

  /** The rows of the vehicles that meet every condition, in no order. */
  ghost function FilasQueCumplen(vehiculos: map<int, Vehiculo>, q: seq<Condicion>): (s: set<FilaVehiculo>)
    ensures forall f :: f in s ==> f.id in vehiculos && vehiculos[f.id] == f.vehiculo && CumpleTodas(q, f.vehiculo)
    ensures forall id :: id in vehiculos && CumpleTodas(q, vehiculos[id]) ==> FilaVehiculo(id, vehiculos[id]) in s
  {
    set id | id in vehiculos && CumpleTodas(q, vehiculos[id]) :: FilaVehiculo(id, vehiculos[id])
  }

  /** The vehicle rows satisfying every condition of `q`, ordered by marca, then modelo. */
  ghost function Ejecutar(vehiculos: map<int, Vehiculo>, q: seq<Condicion>): (r: seq<FilaVehiculo>)
    ensures forall i :: 0 <= i < |r| ==>
      r[i].id in vehiculos && vehiculos[r[i].id] == r[i].vehiculo && CumpleTodas(q, r[i].vehiculo)
    ensures forall id :: id in vehiculos && CumpleTodas(q, vehiculos[id]) ==>
      exists i :: 0 <= i < |r| && r[i].id == id
    ensures forall i, j :: 0 <= i < j < |r| ==> r[i].id != r[j].id
    ensures forall i, j :: 0 <= i < j < |r| ==> AntesPorMarcaModelo(r[i], r[j])
  {
    var filas := FilasQueCumplen(vehiculos, q);
    AntesPorMarcaModeloEsPreorden();
    Ordering.Ordered(filas, AntesPorMarcaModelo)
  }

  /**
   * `where('estado', 'DISPONIBLE')` and `filtrar` with no filter return the same vehicles:
   * any condition list that asks what `filtrar` asks with every filter absent (as the one
   * `Filtrar(None, None, None, None)` returns does) selects exactly the DISPONIBLE ones.
   */
  lemma DisponiblesEsFiltrarSinFiltros(vehiculos: map<int, Vehiculo>, q: seq<Condicion>)
    requires forall v :: CumpleTodas(q, v) <==> PasaFiltros(v, None, None, None, None)
    ensures forall id :: id in Disponibles(vehiculos) <==>
      exists i :: 0 <= i < |Ejecutar(vehiculos, q)| && Ejecutar(vehiculos, q)[i].id == id
  {
    var r := Ejecutar(vehiculos, q);
    forall id ensures id in Disponibles(vehiculos) <==> exists i :: 0 <= i < |r| && r[i].id == id {
      if exists i :: 0 <= i < |r| && r[i].id == id {
        var i :| 0 <= i < |r| && r[i].id == id;
        assert CumpleTodas(q, r[i].vehiculo);
      }
    }
  }

  /** `UPDATE vehiculos SET estado = ? WHERE id = ?`: any status is accepted, only that row changes. */
  function ActualizarEstadoEn(vehiculos: map<int, Vehiculo>, id: int, estado: string): (r: map<int, Vehiculo>)
    ensures r.Keys == vehiculos.Keys
    ensures id in vehiculos ==> r[id] == vehiculos[id].(estado := estado)
    ensures forall j :: j in vehiculos && j != id ==> r[j] == vehiculos[j]
  {
    if id in vehiculos then vehiculos[id := vehiculos[id].(estado := estado)] else vehiculos
  }

  /**
   * `actualizarEstado` on the loaded vehicle `v` whose id is `id`: writes the stored row's
   * status and returns the in-memory object with the same new status.
   */
  method ActualizarEstado(db: Database, id: int, v: Vehiculo, estado: string) returns (actualizado: Vehiculo)
    modifies db
    ensures db.State() == old(db.State()).(vehiculos := ActualizarEstadoEn(old(db.vehiculos), id, estado))
    ensures actualizado == v.(estado := estado)
  {
    if id in db.vehiculos {
      db.vehiculos := db.vehiculos[id := db.vehiculos[id].(estado := estado)];
    }
    actualizado := v.(estado := estado);
  }
}
