/**
 * The reservation model: deposit and validity rules, and the three writes of the
 * reservation workflow (`crear`, `cancelar`, `completar`), each first as the effect it has
 * on the tables (`...Step`) and then as the step-by-step method proved to have that effect.
 */
module Reservas {
  import opened Wrappers
  import opened Schema
  import opened Vehiculos
  import Ordering

  const ACTIVA: string := "ACTIVA"
  const COMPLETADA: string := "COMPLETADA"
  const CANCELADA: string := "CANCELADA"
  const VENCIDA: string := "VENCIDA"

  /** The declared reservation statuses. */
  const ESTADOS: set<string> := {ACTIVA, COMPLETADA, CANCELADA, VENCIDA}

  const DIAS_VALIDEZ: int := 7
  const PORCENTAJE_SENA: int := 5
  const SEGUNDOS_POR_DIA: int := 86400

  /** `calcularSena`: the deposit is 5 percent of the vehicle price. */
  function CalcularSena(precioVehiculo: real): (sena: real)
    ensures sena * 20.0 == precioVehiculo
    ensures 0.0 <= precioVehiculo ==> 0.0 <= sena <= precioVehiculo
    ensures precioVehiculo - sena == precioVehiculo * 0.95
  {
    precioVehiculo * (PORCENTAJE_SENA as real / 100.0)
  }

  /** Strict comparison of the status with the literal `ACTIVA`. */
  predicate EstaActiva(r: Reserva)
    ensures EstaActiva(r) <==> r.estado == ACTIVA
    ensures EstaActiva(r) ==> r.estado in ESTADOS
  {
    r.estado == ACTIVA
  }

  /** Expired once the clock has passed the expiration time; the stored status plays no part. */
  predicate EstaVencida(r: Reserva, ahora: int)
    ensures EstaVencida(r, ahora) <==> r.fechaExpiracion < ahora
  {
    r.fechaExpiracion < ahora
  }

  /** What a successful `crear` returns. */
  datatype ReservaCreada = ReservaCreada(reservaId: int, montoSena: real, fechaExpiracion: int)

  /**
   * `crear(clienteId, vehiculoId)` at time `ahora`: a missing or non-available vehicle fails
   * with every table unchanged; otherwise one ACTIVA reservation is inserted under the next
   * id, with the 5 percent deposit and an expiration 7 days later, and the vehicle becomes
   * RESERVADO.
   */
  function CrearStep(t: Tables, clienteId: int, vehiculoId: int, ahora: int): (s: Step<ReservaCreada>)
    ensures s.result.Fail? <==> vehiculoId !in t.vehiculos || t.vehiculos[vehiculoId].estado != DISPONIBLE
    ensures s.result.Fail? ==> s.result.error == VehiculoNoDisponibleParaReserva && s.tables == t
    ensures s.result.Ok? ==>
      var v := t.vehiculos[vehiculoId];
      var creada := s.result.value;
      && creada.reservaId == t.nextReservaId
      && creada.montoSena == CalcularSena(v.precio)
      && creada.fechaExpiracion == ahora + 7 * 86400
      && s.tables.reservas.Keys == t.reservas.Keys + {creada.reservaId}
      && s.tables.reservas[creada.reservaId]
         == Reserva(clienteId, vehiculoId, creada.fechaExpiracion, ACTIVA, creada.montoSena, ahora)
      && (forall id :: id in t.reservas && id != creada.reservaId ==> s.tables.reservas[id] == t.reservas[id])
      && s.tables.vehiculos.Keys == t.vehiculos.Keys
      && s.tables.vehiculos[vehiculoId] == v.(estado := RESERVADO)
      && (forall id :: id in t.vehiculos && id != vehiculoId ==> s.tables.vehiculos[id] == t.vehiculos[id])
      && s.tables.nextReservaId == t.nextReservaId + 1
      && s.tables == t.(reservas := s.tables.reservas, vehiculos := s.tables.vehiculos,
                        nextReservaId := s.tables.nextReservaId)
  {
    if vehiculoId !in t.vehiculos || !EstaDisponible(t.vehiculos[vehiculoId]) then
      Step(t, Fail(VehiculoNoDisponibleParaReserva))
    else
      var v := t.vehiculos[vehiculoId];
      var id := t.nextReservaId;
      var sena := CalcularSena(v.precio);
      var vence := ahora + DIAS_VALIDEZ * SEGUNDOS_POR_DIA;
      var t' := t.(reservas := t.reservas[id := Reserva(clienteId, vehiculoId, vence, ACTIVA, sena, ahora)],
                   vehiculos := ActualizarEstadoEn(t.vehiculos, vehiculoId, RESERVADO),
                   nextReservaId := id + 1);
      Step(t', Ok(ReservaCreada(id, sena, vence)))
  }

  /** `crear`, inside one transaction; the failure is raised before anything is written. */
  method Crear(db: Database, clienteId: int, vehiculoId: int, ahora: int) returns (r: Outcome<ReservaCreada>)
    modifies db
    ensures Step(db.State(), r) == CrearStep(old(db.State()), clienteId, vehiculoId, ahora)
  {
    if vehiculoId !in db.vehiculos || !EstaDisponible(db.vehiculos[vehiculoId]) {
      return Fail(VehiculoNoDisponibleParaReserva);
    }
    var vehiculo := db.vehiculos[vehiculoId];
    var montoSena := CalcularSena(vehiculo.precio);
    var fechaExpiracion := ahora + DIAS_VALIDEZ * SEGUNDOS_POR_DIA;
    var reservaId := db.nextReservaId;
    db.reservas := db.reservas[reservaId := Reserva(clienteId, vehiculoId, fechaExpiracion, ACTIVA, montoSena, ahora)];
    db.nextReservaId := reservaId + 1;
    vehiculo := ActualizarEstado(db, vehiculoId, vehiculo, RESERVADO);
    r := Ok(ReservaCreada(reservaId, montoSena, fechaExpiracion));
  }

  /**
   * `cancelar` on the loaded reservation `reservaId`: a non-ACTIVA reservation fails with no
   * change; otherwise it becomes CANCELADA, its vehicle becomes DISPONIBLE, and the refund
   * is its deposit. A reservation whose vehicle row is gone aborts without committing.
   */
  function CancelarStep(t: Tables, reservaId: int): (s: Step<real>)
    requires reservaId in t.reservas
    ensures var r := t.reservas[reservaId];
      s.result.Ok? <==> r.estado == ACTIVA && r.vehiculoId in t.vehiculos
    ensures t.reservas[reservaId].estado != ACTIVA ==> s == Step(t, Fail(ReservaNoCancelable))
    ensures var r := t.reservas[reservaId];
      r.estado == ACTIVA && r.vehiculoId !in t.vehiculos ==> s == Step(t, Fail(VehiculoDeReservaInexistente))
    ensures s.result.Fail? ==> s.tables == t
    ensures s.result.Ok? ==>
      var r := t.reservas[reservaId];
      && s.result.value == r.montoSena
      && s.tables.reservas == t.reservas[reservaId := r.(estado := CANCELADA)]
      && s.tables.vehiculos.Keys == t.vehiculos.Keys
      && s.tables.vehiculos[r.vehiculoId] == t.vehiculos[r.vehiculoId].(estado := DISPONIBLE)
      && (forall id :: id in t.vehiculos && id != r.vehiculoId ==> s.tables.vehiculos[id] == t.vehiculos[id])
      && s.tables == t.(reservas := s.tables.reservas, vehiculos := s.tables.vehiculos)
  {
    var r := t.reservas[reservaId];
    if !EstaActiva(r) then Step(t, Fail(ReservaNoCancelable))
    else if r.vehiculoId !in t.vehiculos then Step(t, Fail(VehiculoDeReservaInexistente))
    else
      Step(t.(reservas := t.reservas[reservaId := r.(estado := CANCELADA)],
              vehiculos := ActualizarEstadoEn(t.vehiculos, r.vehiculoId, DISPONIBLE)),
           Ok(r.montoSena))
  }

  /**
   * `cancelar`, inside one transaction. The status update is written before the vehicle
   * is looked up; when the vehicle is missing the transaction is never committed, so the
   * update is undone.
   */
  method Cancelar(db: Database, reservaId: int) returns (r: Outcome<real>)
    requires reservaId in db.reservas
    modifies db
    ensures Step(db.State(), r) == CancelarStep(old(db.State()), reservaId)
  {
    var reserva := db.reservas[reservaId];
    if !EstaActiva(reserva) {
      return Fail(ReservaNoCancelable);
    }
    var antes := db.reservas;
    db.reservas := db.reservas[reservaId := reserva.(estado := CANCELADA)];
    if reserva.vehiculoId !in db.vehiculos {
      db.reservas := antes;
      return Fail(VehiculoDeReservaInexistente);
    }
    var vehiculo := db.vehiculos[reserva.vehiculoId];
    vehiculo := ActualizarEstado(db, reserva.vehiculoId, vehiculo, DISPONIBLE);
    r := Ok(reserva.montoSena);
  }

  /**
   * `completar`: the row with that id becomes COMPLETADA whatever its status was; no
   * vehicle and no other reservation changes (an absent id matches no row).
   */
  function CompletarStep(t: Tables, reservaId: int): (t': Tables)
    ensures t'.reservas.Keys == t.reservas.Keys
    ensures reservaId in t.reservas ==> t'.reservas[reservaId] == t.reservas[reservaId].(estado := COMPLETADA)
    ensures forall id :: id in t.reservas && id != reservaId ==> t'.reservas[id] == t.reservas[id]
    ensures t' == t.(reservas := t'.reservas)
  {
    if reservaId in t.reservas then
      t.(reservas := t.reservas[reservaId := t.reservas[reservaId].(estado := COMPLETADA)])
    else t
  }

  /** `completar`: a single unconditional update, always reported as done. */
  method Completar(db: Database, reservaId: int) returns (ok: bool)
    modifies db
    ensures ok
    ensures db.State() == CompletarStep(old(db.State()), reservaId)
  {
    if reservaId in db.reservas {
      db.reservas := db.reservas[reservaId := db.reservas[reservaId].(estado := COMPLETADA)];
    }
    ok := true;
  }

  /** A row of `conVehiculo`: the reservation joined with its vehicle's display columns. */
  datatype ReservaConVehiculo = ReservaConVehiculo(
    id: int, reserva: Reserva, marca: string, modelo: string, anio: int, precioVehiculo: real)

  /** `ORDER BY r.created_at DESC`. */
  predicate MasReciente(a: ReservaConVehiculo, b: ReservaConVehiculo)
  {
    a.reserva.createdAt >= b.reserva.createdAt
  }

  lemma MasRecienteEsPreorden()
    ensures Ordering.TotalPreorder(MasReciente)
  {
    forall a: ReservaConVehiculo, b: ReservaConVehiculo ensures MasReciente(a, b) || MasReciente(b, a) {
    }
    forall a: ReservaConVehiculo, b: ReservaConVehiculo, c: ReservaConVehiculo | MasReciente(a, b) && MasReciente(b, c) ensures MasReciente(a, c) {
    }
  }

  /** The reservations of client `clienteId` that the inner join keeps. */
  predicate DeClienteConVehiculo(t: Tables, clienteId: int, id: int)
  {
    id in t.reservas && t.reservas[id].clienteId == clienteId && t.reservas[id].vehiculoId in t.vehiculos
  }

  /** The joined row of reservation `id`. */
  function FilaConVehiculo(t: Tables, id: int): ReservaConVehiculo
    requires id in t.reservas && t.reservas[id].vehiculoId in t.vehiculos
  {
    var res := t.reservas[id];
    var v := t.vehiculos[res.vehiculoId];
    ReservaConVehiculo(id, res, v.marca, v.modelo, v.anio, v.precio)
  }

  /** The joined rows of that client's reservations, in no order. */
  ghost function FilasConVehiculo(t: Tables, clienteId: int): (s: set<ReservaConVehiculo>)
    ensures forall f :: f in s ==> DeClienteConVehiculo(t, clienteId, f.id) && f == FilaConVehiculo(t, f.id)
    ensures forall id :: DeClienteConVehiculo(t, clienteId, id) ==> FilaConVehiculo(t, id) in s
  {
    set id | id in t.reservas && DeClienteConVehiculo(t, clienteId, id) :: FilaConVehiculo(t, id)
  }

  /** A duplicate-free, newest-first layout of those rows lists each reservation once. */
  lemma ConVehiculoOrdenadas(t: Tables, clienteId: int, r: seq<ReservaConVehiculo>)
    requires forall x :: x in r <==> x in FilasConVehiculo(t, clienteId)
    requires forall i, j :: 0 <= i < j < |r| ==> r[i] != r[j]
    requires Ordering.SortedBy(r, MasReciente)
    ensures forall i :: 0 <= i < |r| ==>
      DeClienteConVehiculo(t, clienteId, r[i].id) && r[i] == FilaConVehiculo(t, r[i].id)
    ensures forall id :: DeClienteConVehiculo(t, clienteId, id) ==>
      exists i :: 0 <= i < |r| && r[i].id == id
    ensures forall i, j :: 0 <= i < j < |r| ==> r[i].id != r[j].id
    ensures forall i, j :: 0 <= i < j < |r| ==> r[i].reserva.createdAt >= r[j].reserva.createdAt
  {
    var filas := FilasConVehiculo(t, clienteId);
    forall i | 0 <= i < |r|
      ensures DeClienteConVehiculo(t, clienteId, r[i].id) && r[i] == FilaConVehiculo(t, r[i].id)
    {
      assert r[i] in filas;
    }
    forall i, j | 0 <= i < j < |r| ensures r[i].id != r[j].id && r[i].reserva.createdAt >= r[j].reserva.createdAt {
      assert r[i] in filas && r[j] in filas;
      assert MasReciente(r[i], r[j]);
    }
    forall id | DeClienteConVehiculo(t, clienteId, id) ensures exists i :: 0 <= i < |r| && r[i].id == id {
      assert FilaConVehiculo(t, id) in r;
    }
  }

  /**
   * `conVehiculo(clienteId)`: that client's reservations whose vehicle row exists (an inner
   * join), each with its vehicle's columns, newest first.
   */
  ghost function ConVehiculo(t: Tables, clienteId: int): (r: seq<ReservaConVehiculo>)
    ensures forall i :: 0 <= i < |r| ==>
      DeClienteConVehiculo(t, clienteId, r[i].id) && r[i] == FilaConVehiculo(t, r[i].id)
    ensures forall id :: DeClienteConVehiculo(t, clienteId, id) ==>
      exists i :: 0 <= i < |r| && r[i].id == id
    ensures forall i, j :: 0 <= i < j < |r| ==> r[i].id != r[j].id
    ensures forall i, j :: 0 <= i < j < |r| ==> r[i].reserva.createdAt >= r[j].reserva.createdAt
  {
    MasRecienteEsPreorden();
    var r := Ordering.Ordered(FilasConVehiculo(t, clienteId), MasReciente);
    ConVehiculoOrdenadas(t, clienteId, r);
    r
  }
}
