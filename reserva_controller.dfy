/**
 * The reservation endpoints: role and ownership guards in front of the reservation model.
 * Each guard chain is a function of the tables and the session; the endpoints that write
 * are methods proved to have the effect that function describes.
 */
module ReservaController {
  import opened Wrappers
  import opened Schema
  import Auth
  import Reservas

  /**
   * `store(vehiculoId, accesorioIds)`: only a logged-in CLIENTE reserves, always in their
   * own name; the accessory ids never reach `crear`.
   */
  function StoreStep(t: Tables, sesion: Auth.Sesion, vehiculoId: int, accesorioIds: seq<int>, ahora: int)
    : (s: Step<Reservas.ReservaCreada>)
    reads sesion
    ensures !sesion.HasRole(Auth.CLIENTE) ==> s == Step(t, Fail(DebeIniciarSesionComoCliente))
    ensures sesion.HasRole(Auth.CLIENTE) ==>
      s == Reservas.CrearStep(t, sesion.usuarioId.value, vehiculoId, ahora)
    ensures s.result.Ok? ==>
      s.tables.reservas[s.result.value.reservaId].clienteId == sesion.usuarioId.value
  {
    if !sesion.HasRole(Auth.CLIENTE) then Step(t, Fail(DebeIniciarSesionComoCliente))
    else Reservas.CrearStep(t, sesion.Id().value, vehiculoId, ahora)
  }

  /** The accessory selection has no effect on the outcome of `store`. */
  lemma StoreIgnoraAccesorios(t: Tables, sesion: Auth.Sesion, vehiculoId: int, a1: seq<int>, a2: seq<int>, ahora: int)
    ensures StoreStep(t, sesion, vehiculoId, a1, ahora) == StoreStep(t, sesion, vehiculoId, a2, ahora)
  {
  }

  method Store(db: Database, sesion: Auth.Sesion, vehiculoId: int, accesorioIds: seq<int>, ahora: int)
    returns (r: Outcome<Reservas.ReservaCreada>)
    modifies db
    ensures Step(db.State(), r) == StoreStep(old(db.State()), sesion, vehiculoId, accesorioIds, ahora)
  {
    if !sesion.HasRole(Auth.CLIENTE) {
      return Fail(DebeIniciarSesionComoCliente);
    }
    var clienteId := sesion.Id().value;
    r := Reservas.Crear(db, clienteId, vehiculoId, ahora);
  }

  /** `misReservas`: a CLIENTE sees `conVehiculo` of their own id, and only their reservations. */
  ghost function MisReservas(t: Tables, sesion: Auth.Sesion): (r: Outcome<seq<Reservas.ReservaConVehiculo>>)
    reads sesion
    ensures r.Fail? <==> !sesion.HasRole(Auth.CLIENTE)
    ensures r.Fail? ==> r.error == NoAutorizado
    ensures r.Ok? ==> r.value == Reservas.ConVehiculo(t, sesion.usuarioId.value)
    ensures r.Ok? ==> forall i :: 0 <= i < |r.value| ==> r.value[i].reserva.clienteId == sesion.usuarioId.value
  {
    if !sesion.HasRole(Auth.CLIENTE) then Fail(NoAutorizado)
    else Ok(Reservas.ConVehiculo(t, sesion.Id().value))
  }

  /**
   * The ownership lookups of `cancelar`, kept abstract: the client DNI of the quotation a
   * reservation belongs to, and the client DNI of a user.
   */
  datatype Propiedad = Propiedad(dniCotizacion: map<int, string>, dniCliente: map<int, string>)

  /** A non-admin passes the ownership check: the reservation's quotation has the caller's DNI. */
  predicate EsDuenio(p: Propiedad, reservaId: int, userId: int)
  {
    reservaId in p.dniCotizacion && userId in p.dniCliente && p.dniCliente[userId] == p.dniCotizacion[reservaId]
  }

  /**
   * `cancelar(reservaId)`: not logged in fails first, then a missing reservation; a
   * non-admin then needs a quotation for it and must own it; only then is the reservation
   * cancelled. Every failing guard leaves the tables unchanged.
   */
  function CancelarStep(t: Tables, sesion: Auth.Sesion, p: Propiedad, reservaId: int): (s: Step<real>)
    reads sesion
    ensures !sesion.Check() ==> s == Step(t, Fail(DebeIniciarSesion))
    ensures sesion.Check() && reservaId !in t.reservas ==> s == Step(t, Fail(ReservaNoEncontrada))
    ensures sesion.Check() && reservaId in t.reservas && !sesion.HasRole(Auth.ADMINISTRADOR) ==>
      && (reservaId !in p.dniCotizacion ==> s == Step(t, Fail(CotizacionNoEncontrada)))
      && (reservaId in p.dniCotizacion && !EsDuenio(p, reservaId, sesion.usuarioId.value) ==>
            s == Step(t, Fail(NoAutorizado)))
    ensures s.result.Ok? ==>
      && sesion.Check() && reservaId in t.reservas
      && (sesion.HasRole(Auth.ADMINISTRADOR) || EsDuenio(p, reservaId, sesion.usuarioId.value))
      && s.result.value == t.reservas[reservaId].montoSena
    ensures sesion.Check() && reservaId in t.reservas
            && (sesion.HasRole(Auth.ADMINISTRADOR) || EsDuenio(p, reservaId, sesion.usuarioId.value)) ==>
      s == Reservas.CancelarStep(t, reservaId)
  {
    if !sesion.Check() then Step(t, Fail(DebeIniciarSesion))
    else if reservaId !in t.reservas then Step(t, Fail(ReservaNoEncontrada))
    else
      var userId := sesion.Id().value;
      var esAdmin := sesion.HasRole(Auth.ADMINISTRADOR);
      if !esAdmin && reservaId !in p.dniCotizacion then Step(t, Fail(CotizacionNoEncontrada))
      else if !esAdmin && !(userId in p.dniCliente && p.dniCliente[userId] == p.dniCotizacion[reservaId]) then
        Step(t, Fail(NoAutorizado))
      else Reservas.CancelarStep(t, reservaId)
  }

  method Cancelar(db: Database, sesion: Auth.Sesion, p: Propiedad, reservaId: int) returns (r: Outcome<real>)
    modifies db
    ensures Step(db.State(), r) == CancelarStep(old(db.State()), sesion, p, reservaId)
  {
    if !sesion.Check() {
      return Fail(DebeIniciarSesion);
    }
    if reservaId !in db.reservas {
      return Fail(ReservaNoEncontrada);
    }
    var userId := sesion.Id().value;
    var esAdmin := sesion.HasRole(Auth.ADMINISTRADOR);
    if !esAdmin {
      if reservaId !in p.dniCotizacion {
        return Fail(CotizacionNoEncontrada);
      }
      if !(userId in p.dniCliente && p.dniCliente[userId] == p.dniCotizacion[reservaId]) {
        return Fail(NoAutorizado);
      }
    }
    r := Reservas.Cancelar(db, reservaId);
  }

  /** `show(id)`: the stored reservation, or not found. No session is required. */
  function Show(t: Tables, id: int): (r: Outcome<Reserva>)
    ensures r.Ok? <==> id in t.reservas
    ensures r.Ok? ==> r.value == t.reservas[id]
    ensures r.Fail? ==> r.error == ReservaNoEncontrada
  {
    if id in t.reservas then Ok(t.reservas[id]) else Fail(ReservaNoEncontrada)
  }
}
