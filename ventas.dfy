/**
 * The sale model: `realizar`, which sells a vehicle (optionally against a reservation),
 * and the two sale listings.
 */
module Ventas {
  import opened Wrappers
  import opened Php
  import opened Schema
  import opened Vehiculos
  import Reservas
  import Vendedores
  import Ordering

  /** The declared payment methods; `realizar` stores whatever it is given. */
  const METODOS_PAGO: set<string> := {"EFECTIVO", "TARJETA_CREDITO", "TARJETA_DEBITO", "TRANSFERENCIA", "FINANCIADO"}

  /** What a successful `realizar` returns. */
  datatype VentaRealizada = VentaRealizada(ventaId: int, precioFinal: real, comisionVendedor: real)

  /** `if ($reservaId)` and then `$reserva && $reserva->estaActiva()`. */
  predicate ReservaAplicable(t: Tables, reservaId: Option<int>)
  {
    TruthyInt(reservaId) && reservaId.value in t.reservas && Reservas.EstaActiva(t.reservas[reservaId.value])
  }

  /** The vehicle statuses a sale accepts. */
  predicate VendibleEstado(estado: string)
    ensures VendibleEstado(estado) <==> estado == DISPONIBLE || estado == RESERVADO
  {
    estado in {DISPONIBLE, RESERVADO}
  }

  /**
   * `realizar`: fails, with every table unchanged, when the vehicle is missing, then when it is
   * neither DISPONIBLE nor RESERVADO, then when the seller is unknown. Otherwise the seller's
   * 5 percent commission is taken on the full price; an applicable reservation is completed
   * and its deposit is taken off the price; the sale row is inserted under the next id with
   * the reservation id as given; and the vehicle becomes VENDIDO.
   */
  function RealizarStep(t: Tables, clienteId: int, vendedorId: int, vehiculoId: int, metodoPago: string,
                        reservaId: Option<int>, ahora: int): (s: Step<VentaRealizada>)
    ensures vehiculoId !in t.vehiculos ==> s == Step(t, Fail(VehiculoNoEncontrado))
    ensures vehiculoId in t.vehiculos && !(t.vehiculos[vehiculoId].estado in {DISPONIBLE, RESERVADO}) ==>
      s == Step(t, Fail(VehiculoNoDisponibleParaVenta))
    ensures vehiculoId in t.vehiculos && t.vehiculos[vehiculoId].estado in {DISPONIBLE, RESERVADO}
            && vendedorId !in t.vendedores ==>
      s == Step(t, Fail(VendedorNoValido))
    ensures s.result.Ok? <==>
      vehiculoId in t.vehiculos && t.vehiculos[vehiculoId].estado in {DISPONIBLE, RESERVADO}
      && vendedorId in t.vendedores
    ensures s.result.Ok? ==>
      var precio := t.vehiculos[vehiculoId].precio;
      var hecha := s.result.value;
      && hecha.ventaId == t.nextVentaId
      && hecha.comisionVendedor == precio * 5.0 / 100.0
      && hecha.precioFinal
         == (if ReservaAplicable(t, reservaId) then precio - t.reservas[reservaId.value].montoSena else precio)
      && s.tables.ventas == t.ventas[hecha.ventaId := Venta(clienteId, vendedorId, vehiculoId, reservaId,
                                                          hecha.precioFinal, metodoPago, hecha.comisionVendedor, ahora)]
      && s.tables.reservas
         == (if ReservaAplicable(t, reservaId) then Reservas.CompletarStep(t, reservaId.value).reservas else t.reservas)
      && s.tables.vehiculos == ActualizarEstadoEn(t.vehiculos, vehiculoId, VENDIDO)
      && s.tables.nextVentaId == t.nextVentaId + 1
      && s.tables == t.(ventas := s.tables.ventas, reservas := s.tables.reservas,
                        vehiculos := s.tables.vehiculos, nextVentaId := s.tables.nextVentaId)
  {
    if vehiculoId !in t.vehiculos then Step(t, Fail(VehiculoNoEncontrado))
    else
      var vehiculo := t.vehiculos[vehiculoId];
      if !VendibleEstado(vehiculo.estado) then Step(t, Fail(VehiculoNoDisponibleParaVenta))
      else
        var vendedor := Vendedores.Find(t.vendedores, vendedorId);
        if vendedor.None? then Step(t, Fail(VendedorNoValido))
        else
          Vendedores.ComisionDeVendedorEncontrado(t.vendedores, vendedorId, vehiculo.precio);
          var comision := vendedor.value.CalcularComision(vehiculo.precio);
          var aplicable := ReservaAplicable(t, reservaId);
          var t1 := if aplicable then Reservas.CompletarStep(t, reservaId.value) else t;
          var precioFinal := if aplicable then vehiculo.precio - t.reservas[reservaId.value].montoSena
                             else vehiculo.precio;
          var id := t.nextVentaId;
          var t2 := t1.(ventas := t1.ventas[id := Venta(clienteId, vendedorId, vehiculoId, reservaId,
                                                        precioFinal, metodoPago, comision, ahora)],
                        nextVentaId := id + 1);
          var t3 := t2.(vehiculos := ActualizarEstadoEn(t2.vehiculos, vehiculoId, VENDIDO));
          Step(t3, Ok(VentaRealizada(id, precioFinal, comision)))
  }

  /** `realizar`, inside one transaction; every failure is raised before the first write. */
  method Realizar(db: Database, clienteId: int, vendedorId: int, vehiculoId: int, metodoPago: string,
                  reservaId: Option<int>, ahora: int) returns (r: Outcome<VentaRealizada>)
    modifies db
    ensures Step(db.State(), r) == RealizarStep(old(db.State()), clienteId, vendedorId, vehiculoId, metodoPago, reservaId, ahora)
  {
    if vehiculoId !in db.vehiculos {
      return Fail(VehiculoNoEncontrado);
    }
    var vehiculo := db.vehiculos[vehiculoId];
    if !VendibleEstado(vehiculo.estado) {
      return Fail(VehiculoNoDisponibleParaVenta);
    }
    var vendedor := Vendedores.Find(db.vendedores, vendedorId);
    if vendedor.None? {
      return Fail(VendedorNoValido);
    }
    var precioFinal := vehiculo.precio;
    var comision := vendedor.value.CalcularComision(precioFinal);
    if TruthyInt(reservaId) && reservaId.value in db.reservas {
      var reserva := db.reservas[reservaId.value];
      if Reservas.EstaActiva(reserva) {
        var completada := Reservas.Completar(db, reservaId.value);
        precioFinal := precioFinal - reserva.montoSena;
      }
    }
    var ventaId := db.nextVentaId;
    db.ventas := db.ventas[ventaId := Venta(clienteId, vendedorId, vehiculoId, reservaId,
                                            precioFinal, metodoPago, comision, ahora)];
    db.nextVentaId := ventaId + 1;
    vehiculo := ActualizarEstado(db, vehiculoId, vehiculo, VENDIDO);
    r := Ok(VentaRealizada(ventaId, precioFinal, comision));
  }

  /** `CONCAT(nombre, ' ', apellido)`. */
  function NombreCompleto(u: Usuario): string
  {
    u.nombre + " " + u.apellido
  }

  /** A row of `conDetalles`. */
  datatype VentaConDetalles = VentaConDetalles(
    id: int, venta: Venta, marca: string, modelo: string, anio: int,
    clienteNombre: string, vendedorNombre: string)

  /** The three inner joins of `conDetalles`, and its optional `WHERE v.vendedor_id = ?`. */
  predicate EnDetalles(t: Tables, vendedorId: Option<int>, id: int)
  {
    && id in t.ventas
    && t.ventas[id].vehiculoId in t.vehiculos
    && t.ventas[id].clienteId in t.usuarios
    && t.ventas[id].vendedorId in t.usuarios
    && (TruthyInt(vendedorId) ==> t.ventas[id].vendedorId == vendedorId.value)
  }

  function Detalle(t: Tables, id: int, venta: Venta): VentaConDetalles
    requires venta.vehiculoId in t.vehiculos && venta.clienteId in t.usuarios && venta.vendedorId in t.usuarios
  {
    var ve := t.vehiculos[venta.vehiculoId];
    VentaConDetalles(id, venta, ve.marca, ve.modelo, ve.anio,
                     NombreCompleto(t.usuarios[venta.clienteId]), NombreCompleto(t.usuarios[venta.vendedorId]))
  }

  /** The `WHERE` clause `conDetalles` may append: every bound seller id must match. */
  predicate CumpleParametros(params: seq<int>, venta: Venta)
  {
    forall k :: 0 <= k < |params| ==> venta.vendedorId == params[k]
  }

  /**
   * How `conDetalles` grows its query: the seller condition and its parameter are appended
   * only for a truthy seller id, so a missing or zero id lists every seller's sales.
   */
  method ConDetallesParametros(vendedorId: Option<int>) returns (params: seq<int>)
    ensures |params| <= 1
    ensures params == [] <==> !TruthyInt(vendedorId)
    ensures forall venta :: CumpleParametros(params, venta) <==>
      (TruthyInt(vendedorId) ==> venta.vendedorId == vendedorId.value)
  {
    params := [];
    if TruthyInt(vendedorId) {
      params := params + [vendedorId.value];
    }
    forall venta ensures CumpleParametros(params, venta) <==>
      (TruthyInt(vendedorId) ==> venta.vendedorId == vendedorId.value)
    {
      if TruthyInt(vendedorId) {
        assert params[0] == vendedorId.value;
      }
    }
  }

  /** `ORDER BY v.created_at DESC`. */
  predicate DetalleMasReciente(a: VentaConDetalles, b: VentaConDetalles)
  {
    a.venta.createdAt >= b.venta.createdAt
  }

  lemma DetalleMasRecienteEsPreorden()
    ensures Ordering.TotalPreorder(DetalleMasReciente)
  {
    forall a: VentaConDetalles, b: VentaConDetalles ensures DetalleMasReciente(a, b) || DetalleMasReciente(b, a) {
    }
    forall a: VentaConDetalles, b: VentaConDetalles, c: VentaConDetalles | DetalleMasReciente(a, b) && DetalleMasReciente(b, c) ensures DetalleMasReciente(a, c) {
    }
  }

  /** The joined rows `conDetalles` selects, in no order. */
  ghost function FilasDetalles(t: Tables, vendedorId: Option<int>): (s: set<VentaConDetalles>)
    ensures forall f :: f in s ==> EnDetalles(t, vendedorId, f.id) && f == Detalle(t, f.id, t.ventas[f.id])
    ensures forall id :: EnDetalles(t, vendedorId, id) ==> Detalle(t, id, t.ventas[id]) in s
  {
    set id | id in t.ventas && EnDetalles(t, vendedorId, id) :: Detalle(t, id, t.ventas[id])
  }

  /** A duplicate-free, newest-first layout of those rows lists each selected sale once. */
  lemma DetallesOrdenados(t: Tables, vendedorId: Option<int>, r: seq<VentaConDetalles>)
    requires forall x :: x in r <==> x in FilasDetalles(t, vendedorId)
    requires forall i, j :: 0 <= i < j < |r| ==> r[i] != r[j]
    requires Ordering.SortedBy(r, DetalleMasReciente)
    ensures forall i :: 0 <= i < |r| ==>
      EnDetalles(t, vendedorId, r[i].id) && r[i] == Detalle(t, r[i].id, t.ventas[r[i].id])
    ensures forall id :: EnDetalles(t, vendedorId, id) ==> exists i :: 0 <= i < |r| && r[i].id == id
    ensures forall i, j :: 0 <= i < j < |r| ==> r[i].id != r[j].id
    ensures forall i, j :: 0 <= i < j < |r| ==> r[i].venta.createdAt >= r[j].venta.createdAt
  {
    var filas := FilasDetalles(t, vendedorId);
    forall i | 0 <= i < |r|
      ensures EnDetalles(t, vendedorId, r[i].id) && r[i] == Detalle(t, r[i].id, t.ventas[r[i].id])
    {
      assert r[i] in filas;
    }
    forall i, j | 0 <= i < j < |r| ensures r[i].id != r[j].id && r[i].venta.createdAt >= r[j].venta.createdAt {
      assert r[i] in filas && r[j] in filas;
      assert DetalleMasReciente(r[i], r[j]);
    }
    forall id | EnDetalles(t, vendedorId, id) ensures exists i :: 0 <= i < |r| && r[i].id == id {
      assert Detalle(t, id, t.ventas[id]) in r;
    }
  }

  /**
   * `conDetalles(vendedorId)`: every sale whose vehicle, client and seller rows exist, with
   * their display columns, restricted to that seller when the id is truthy, newest first.
   */
  ghost function ConDetalles(t: Tables, vendedorId: Option<int>): (r: seq<VentaConDetalles>)
    ensures forall i :: 0 <= i < |r| ==>
      EnDetalles(t, vendedorId, r[i].id) && r[i] == Detalle(t, r[i].id, t.ventas[r[i].id])
    ensures forall id :: EnDetalles(t, vendedorId, id) ==> exists i :: 0 <= i < |r| && r[i].id == id
    ensures forall i, j :: 0 <= i < j < |r| ==> r[i].id != r[j].id
    ensures forall i, j :: 0 <= i < j < |r| ==> r[i].venta.createdAt >= r[j].venta.createdAt
  {
    DetalleMasRecienteEsPreorden();
    var r := Ordering.Ordered(FilasDetalles(t, vendedorId), DetalleMasReciente);
    DetallesOrdenados(t, vendedorId, r);
    r
  }

  /** A row of `comprasCliente`. */
  datatype VentaConVehiculo = VentaConVehiculo(id: int, venta: Venta, marca: string, modelo: string, anio: int)

  predicate CompraDe(t: Tables, clienteId: int, id: int)
  {
    id in t.ventas && t.ventas[id].clienteId == clienteId && t.ventas[id].vehiculoId in t.vehiculos
  }

  function Compra(t: Tables, id: int): VentaConVehiculo
    requires id in t.ventas && t.ventas[id].vehiculoId in t.vehiculos
  {
    var venta := t.ventas[id];
    var ve := t.vehiculos[venta.vehiculoId];
    VentaConVehiculo(id, venta, ve.marca, ve.modelo, ve.anio)
  }

  predicate CompraMasReciente(a: VentaConVehiculo, b: VentaConVehiculo)
  {
    a.venta.createdAt >= b.venta.createdAt
  }

  lemma CompraMasRecienteEsPreorden()
    ensures Ordering.TotalPreorder(CompraMasReciente)
  {
    forall a: VentaConVehiculo, b: VentaConVehiculo ensures CompraMasReciente(a, b) || CompraMasReciente(b, a) {
    }
    forall a: VentaConVehiculo, b: VentaConVehiculo, c: VentaConVehiculo | CompraMasReciente(a, b) && CompraMasReciente(b, c) ensures CompraMasReciente(a, c) {
    }
  }

  /** The joined rows of that client's purchases, in no order. */
  ghost function FilasCompras(t: Tables, clienteId: int): (s: set<VentaConVehiculo>)
    ensures forall f :: f in s ==> CompraDe(t, clienteId, f.id) && f == Compra(t, f.id)
    ensures forall id :: CompraDe(t, clienteId, id) ==> Compra(t, id) in s
  {
    set id | id in t.ventas && CompraDe(t, clienteId, id) :: Compra(t, id)
  }

  /** A duplicate-free, newest-first layout of those rows lists each purchase once. */
  lemma ComprasOrdenadas(t: Tables, clienteId: int, r: seq<VentaConVehiculo>)
    requires forall x :: x in r <==> x in FilasCompras(t, clienteId)
    requires forall i, j :: 0 <= i < j < |r| ==> r[i] != r[j]
    requires Ordering.SortedBy(r, CompraMasReciente)
    ensures forall i :: 0 <= i < |r| ==> CompraDe(t, clienteId, r[i].id) && r[i] == Compra(t, r[i].id)
    ensures forall id :: CompraDe(t, clienteId, id) ==> exists i :: 0 <= i < |r| && r[i].id == id
    ensures forall i, j :: 0 <= i < j < |r| ==> r[i].id != r[j].id
    ensures forall i, j :: 0 <= i < j < |r| ==> r[i].venta.createdAt >= r[j].venta.createdAt
  {
    var filas := FilasCompras(t, clienteId);
    forall i | 0 <= i < |r| ensures CompraDe(t, clienteId, r[i].id) && r[i] == Compra(t, r[i].id) {
      assert r[i] in filas;
    }
    forall i, j | 0 <= i < j < |r| ensures r[i].id != r[j].id && r[i].venta.createdAt >= r[j].venta.createdAt {
      assert r[i] in filas && r[j] in filas;
      assert CompraMasReciente(r[i], r[j]);
    }
    forall id | CompraDe(t, clienteId, id) ensures exists i :: 0 <= i < |r| && r[i].id == id {
      assert Compra(t, id) in r;
    }
  }

  /** `comprasCliente(clienteId)`: that client's sales whose vehicle row exists, newest first. */
  ghost function ComprasCliente(t: Tables, clienteId: int): (r: seq<VentaConVehiculo>)
    ensures forall i :: 0 <= i < |r| ==> CompraDe(t, clienteId, r[i].id) && r[i] == Compra(t, r[i].id)
    ensures forall id :: CompraDe(t, clienteId, id) ==> exists i :: 0 <= i < |r| && r[i].id == id
    ensures forall i, j :: 0 <= i < j < |r| ==> r[i].id != r[j].id
    ensures forall i, j :: 0 <= i < j < |r| ==> r[i].venta.createdAt >= r[j].venta.createdAt
  {
    CompraMasRecienteEsPreorden();
    var r := Ordering.Ordered(FilasCompras(t, clienteId), CompraMasReciente);
    ComprasOrdenadas(t, clienteId, r);
    r
  }
}
