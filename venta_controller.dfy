/**
 * The sale endpoints: a role gate in front of each sale operation or listing. The seller of
 * a new sale and the owner of a listing always come from the session.
 */
module VentaController {
  import opened Wrappers
  import opened Php
  import opened Schema
  import Auth
  import Ventas

  /** The request fields `store` reads (`reserva_id` is `None` when it is absent). */
  datatype DatosVenta = DatosVenta(clienteId: int, vehiculoId: int, metodoPago: string, reservaId: Option<int>)

  /**
   * `store(datos)`: only a VENDEDOR sells, and the seller passed to `realizar` is the
   * session user, whatever the request says.
   */
  function StoreStep(t: Tables, sesion: Auth.Sesion, datos: DatosVenta, ahora: int): (s: Step<Ventas.VentaRealizada>)
    reads sesion
    ensures !sesion.HasRole(Auth.VENDEDOR) ==> s == Step(t, Fail(SoloVendedores))
    ensures sesion.HasRole(Auth.VENDEDOR) ==>
      s == Ventas.RealizarStep(t, datos.clienteId, sesion.usuarioId.value, datos.vehiculoId,
                               datos.metodoPago, datos.reservaId, ahora)
    ensures s.result.Ok? ==> s.tables.ventas[s.result.value.ventaId].vendedorId == sesion.usuarioId.value
    ensures s.result.Ok? && datos.reservaId.None? ==>
      s.tables.reservas == t.reservas && s.result.value.precioFinal == t.vehiculos[datos.vehiculoId].precio
  {
    if !sesion.HasRole(Auth.VENDEDOR) then Step(t, Fail(SoloVendedores))
    else Ventas.RealizarStep(t, datos.clienteId, sesion.Id().value, datos.vehiculoId,
                             datos.metodoPago, datos.reservaId, ahora)
  }

  method Store(db: Database, sesion: Auth.Sesion, datos: DatosVenta, ahora: int)
    returns (r: Outcome<Ventas.VentaRealizada>)
    modifies db
    ensures Step(db.State(), r) == StoreStep(old(db.State()), sesion, datos, ahora)
  {
    if !sesion.HasRole(Auth.VENDEDOR) {
      return Fail(SoloVendedores);
    }
    var vendedorId := sesion.Id().value;
    r := Ventas.Realizar(db, datos.clienteId, vendedorId, datos.vehiculoId, datos.metodoPago, datos.reservaId, ahora);
  }

  /** `misVentas`: a VENDEDOR sees `conDetalles` of their own id, hence only their own sales. */
  ghost function MisVentas(t: Tables, sesion: Auth.Sesion): (r: Outcome<seq<Ventas.VentaConDetalles>>)
    reads sesion
    ensures r.Fail? <==> !sesion.HasRole(Auth.VENDEDOR)
    ensures r.Fail? ==> r.error == NoAutorizado
    ensures r.Ok? ==> r.value == Ventas.ConDetalles(t, sesion.usuarioId)
    ensures r.Ok? && TruthyInt(sesion.usuarioId) ==>
      forall i :: 0 <= i < |r.value| ==> r.value[i].venta.vendedorId == sesion.usuarioId.value
  {
    if !sesion.HasRole(Auth.VENDEDOR) then Fail(NoAutorizado)
    else Ok(Ventas.ConDetalles(t, sesion.Id()))
  }

  /** `misCompras`: a CLIENTE sees `comprasCliente` of their own id. */
  ghost function MisCompras(t: Tables, sesion: Auth.Sesion): (r: Outcome<seq<Ventas.VentaConVehiculo>>)
    reads sesion
    ensures r.Fail? <==> !sesion.HasRole(Auth.CLIENTE)
    ensures r.Fail? ==> r.error == NoAutorizado
    ensures r.Ok? ==> r.value == Ventas.ComprasCliente(t, sesion.usuarioId.value)
    ensures r.Ok? ==> forall i :: 0 <= i < |r.value| ==> r.value[i].venta.clienteId == sesion.usuarioId.value
  {
    if !sesion.HasRole(Auth.CLIENTE) then Fail(NoAutorizado)
    else Ok(Ventas.ComprasCliente(t, sesion.Id().value))
  }

  /** `index`: an ADMINISTRADOR sees every sale with its details. */
  ghost function Index(t: Tables, sesion: Auth.Sesion): (r: Outcome<seq<Ventas.VentaConDetalles>>)
    reads sesion
    ensures r.Fail? <==> !sesion.HasRole(Auth.ADMINISTRADOR)
    ensures r.Fail? ==> r.error == NoAutorizado
    ensures r.Ok? ==> r.value == Ventas.ConDetalles(t, None)
  {
    if !sesion.HasRole(Auth.ADMINISTRADOR) then Fail(NoAutorizado)
    else Ok(Ventas.ConDetalles(t, None))
  }

  /** `show(id)`: the stored sale, or not found. No session is required. */
  function Show(t: Tables, id: int): (r: Outcome<Venta>)
    ensures r.Ok? <==> id in t.ventas
    ensures r.Ok? ==> r.value == t.ventas[id]
    ensures r.Fail? ==> r.error == VentaNoEncontrada
  {
    if id in t.ventas then Ok(t.ventas[id]) else Fail(VentaNoEncontrada)
  }
}
