/**
 * What the reservation and sale workflow keeps true of the store, and how its operations
 * compose: reserving then cancelling, reserving then buying, repeating an operation. Two
 * lemmas at the end show the cases the sale does not guard against.
 */
module Coherencia {
  import opened Wrappers
  import opened Schema
  import Vehiculos
  import Reservas
  import Ventas

  /** An ACTIVA reservation on vehicle `v`. */
  ghost predicate ActivaSobre(t: Tables, id: int, v: int)
  {
    id in t.reservas && t.reservas[id].estado == Reservas.ACTIVA && t.reservas[id].vehiculoId == v
  }

  /** Only declared statuses occur. */
  ghost predicate EstadosDeclarados(t: Tables)
  {
    && (forall id :: id in t.vehiculos ==> t.vehiculos[id].estado in Vehiculos.ESTADOS)
    && (forall id :: id in t.reservas ==> t.reservas[id].estado in Reservas.ESTADOS)
  }

  /** Every reservation and every sale points at an existing vehicle. */
  ghost predicate ReferenciasExisten(t: Tables)
  {
    && (forall id :: id in t.reservas ==> t.reservas[id].vehiculoId in t.vehiculos)
    && (forall id :: id in t.ventas ==> t.ventas[id].vehiculoId in t.vehiculos)
  }

  /** An ACTIVA reservation holds its vehicle RESERVADO. */
  ghost predicate ActivasReservan(t: Tables)
  {
    forall id :: id in t.reservas && t.reservas[id].estado == Reservas.ACTIVA ==>
      t.reservas[id].vehiculoId in t.vehiculos
      && t.vehiculos[t.reservas[id].vehiculoId].estado == Vehiculos.RESERVADO
  }

  /** At most one ACTIVA reservation per vehicle. */
  ghost predicate UnaActivaPorVehiculo(t: Tables)
  {
    forall a, b, v :: ActivaSobre(t, a, v) && ActivaSobre(t, b, v) ==> a == b
  }

  /** Every sold vehicle is VENDIDO. */
  ghost predicate VendidosMarcados(t: Tables)
  {
    forall id :: id in t.ventas ==>
      t.ventas[id].vehiculoId in t.vehiculos
      && t.vehiculos[t.ventas[id].vehiculoId].estado == Vehiculos.VENDIDO
  }

  /**
   * The store as the workflow expects it: ids below their counters, declared statuses only,
   * every reservation and sale pointing at an existing vehicle, at most one ACTIVA
   * reservation per vehicle and only on a RESERVADO vehicle, and every sold vehicle VENDIDO.
   */
  ghost predicate Coherente(t: Tables)
  {
    && IdsBelowCounters(t)
    && EstadosDeclarados(t)
    && ReferenciasExisten(t)
    && ActivasReservan(t)
    && UnaActivaPorVehiculo(t)
    && VendidosMarcados(t)
  }

  /** An empty store is coherent whatever its counters. */
  lemma VacioEsCoherente(t: Tables)
    requires t.vehiculos == map[] && t.reservas == map[] && t.ventas == map[]
    ensures Coherente(t)
  {
    assert forall a, v :: !ActivaSobre(t, a, v);
  }

  /** `crear` keeps the store coherent. */
  lemma CrearPreserva(t: Tables, clienteId: int, vehiculoId: int, ahora: int)
    requires Coherente(t)
    ensures Coherente(Reservas.CrearStep(t, clienteId, vehiculoId, ahora).tables)
  {
    var s := Reservas.CrearStep(t, clienteId, vehiculoId, ahora);
    if s.result.Ok? {
      CrearPreservaActivas(t, clienteId, vehiculoId, ahora);
      CrearPreservaVendidos(t, clienteId, vehiculoId, ahora);
    }
  }

  lemma CrearPreservaActivas(t: Tables, clienteId: int, vehiculoId: int, ahora: int)
    requires Coherente(t)
    requires Reservas.CrearStep(t, clienteId, vehiculoId, ahora).result.Ok?
    ensures ActivasReservan(Reservas.CrearStep(t, clienteId, vehiculoId, ahora).tables)
    ensures UnaActivaPorVehiculo(Reservas.CrearStep(t, clienteId, vehiculoId, ahora).tables)
  {
    var t' := Reservas.CrearStep(t, clienteId, vehiculoId, ahora).tables;
    var nuevo := t.nextReservaId;
    assert nuevo !in t.reservas;
    assert forall id :: id in t.reservas && t.reservas[id].estado == Reservas.ACTIVA ==>
      t.reservas[id].vehiculoId != vehiculoId;
    forall a, b, v | ActivaSobre(t', a, v) && ActivaSobre(t', b, v) ensures a == b {
      if a != nuevo && b != nuevo {
        assert ActivaSobre(t, a, v) && ActivaSobre(t, b, v);
      }
    }
  }

  lemma CrearPreservaVendidos(t: Tables, clienteId: int, vehiculoId: int, ahora: int)
    requires Coherente(t)
    requires Reservas.CrearStep(t, clienteId, vehiculoId, ahora).result.Ok?
    ensures VendidosMarcados(Reservas.CrearStep(t, clienteId, vehiculoId, ahora).tables)
  {
    var t' := Reservas.CrearStep(t, clienteId, vehiculoId, ahora).tables;
    forall id | id in t'.ventas
      ensures t'.ventas[id].vehiculoId in t'.vehiculos
              && t'.vehiculos[t'.ventas[id].vehiculoId].estado == Vehiculos.VENDIDO
    {
      assert t.ventas[id].vehiculoId != vehiculoId;
    }
  }

  /** `cancelar` keeps the store coherent. */
  lemma CancelarPreserva(t: Tables, reservaId: int)
    requires Coherente(t)
    requires reservaId in t.reservas
    ensures Coherente(Reservas.CancelarStep(t, reservaId).tables)
  {
    var s := Reservas.CancelarStep(t, reservaId);
    if s.result.Ok? {
      var t' := s.tables;
      var r := t.reservas[reservaId];
      assert ActivaSobre(t, reservaId, r.vehiculoId);
      forall id | id in t'.reservas && t'.reservas[id].estado == Reservas.ACTIVA
        ensures t'.reservas[id].vehiculoId in t'.vehiculos
                && t'.vehiculos[t'.reservas[id].vehiculoId].estado == Vehiculos.RESERVADO
      {
        assert id != reservaId;
        assert ActivaSobre(t, id, t.reservas[id].vehiculoId);
      }
      forall a, b, v | ActivaSobre(t', a, v) && ActivaSobre(t', b, v) ensures a == b {
        assert ActivaSobre(t, a, v) && ActivaSobre(t, b, v);
      }
      forall id | id in t'.ventas
        ensures t'.ventas[id].vehiculoId in t'.vehiculos
                && t'.vehiculos[t'.ventas[id].vehiculoId].estado == Vehiculos.VENDIDO
      {
        assert t.ventas[id].vehiculoId != r.vehiculoId;
      }
    }
  }

  /**
   * `realizar` keeps the store coherent when every ACTIVA reservation of the vehicle sold is
   * the one passed (with an id `if ($reservaId)` accepts).
   */
  lemma RealizarPreserva(t: Tables, clienteId: int, vendedorId: int, vehiculoId: int, metodoPago: string,
                         reservaId: Option<int>, ahora: int)
    requires Coherente(t)
    requires forall id :: ActivaSobre(t, id, vehiculoId) ==> reservaId == Some(id) && id != 0
    ensures Coherente(Ventas.RealizarStep(t, clienteId, vendedorId, vehiculoId, metodoPago, reservaId, ahora).tables)
  {
    var s := Ventas.RealizarStep(t, clienteId, vendedorId, vehiculoId, metodoPago, reservaId, ahora);
    if s.result.Ok? {
      RealizarPreservaReservas(t, clienteId, vendedorId, vehiculoId, metodoPago, reservaId, ahora);
      RealizarPreservaVendidos(t, clienteId, vendedorId, vehiculoId, metodoPago, reservaId, ahora);
    }
  }

  lemma RealizarPreservaReservas(t: Tables, clienteId: int, vendedorId: int, vehiculoId: int, metodoPago: string,
                                 reservaId: Option<int>, ahora: int)
    requires Coherente(t)
    requires forall id :: ActivaSobre(t, id, vehiculoId) ==> reservaId == Some(id) && id != 0
    requires Ventas.RealizarStep(t, clienteId, vendedorId, vehiculoId, metodoPago, reservaId, ahora).result.Ok?
    ensures var t' := Ventas.RealizarStep(t, clienteId, vendedorId, vehiculoId, metodoPago, reservaId, ahora).tables;
      EstadosDeclarados(t') && ActivasReservan(t') && UnaActivaPorVehiculo(t')
  {
    var t' := Ventas.RealizarStep(t, clienteId, vendedorId, vehiculoId, metodoPago, reservaId, ahora).tables;
    assert forall id :: id in t'.reservas ==> id in t.reservas;
    assert forall id :: id in t'.reservas && t'.reservas[id].estado == Reservas.ACTIVA ==>
      t.reservas[id] == t'.reservas[id];
    forall id | id in t'.reservas && t'.reservas[id].estado == Reservas.ACTIVA
      ensures t'.reservas[id].vehiculoId in t'.vehiculos
              && t'.vehiculos[t'.reservas[id].vehiculoId].estado == Vehiculos.RESERVADO
    {
      assert ActivaSobre(t, id, t.reservas[id].vehiculoId);
    }
    forall a, b, v | ActivaSobre(t', a, v) && ActivaSobre(t', b, v) ensures a == b {
      assert ActivaSobre(t, a, v) && ActivaSobre(t, b, v);
    }
  }

  lemma RealizarPreservaVendidos(t: Tables, clienteId: int, vendedorId: int, vehiculoId: int, metodoPago: string,
                                 reservaId: Option<int>, ahora: int)
    requires Coherente(t)
    requires Ventas.RealizarStep(t, clienteId, vendedorId, vehiculoId, metodoPago, reservaId, ahora).result.Ok?
    ensures var t' := Ventas.RealizarStep(t, clienteId, vendedorId, vehiculoId, metodoPago, reservaId, ahora).tables;
      IdsBelowCounters(t') && ReferenciasExisten(t') && VendidosMarcados(t')
  {
    var t' := Ventas.RealizarStep(t, clienteId, vendedorId, vehiculoId, metodoPago, reservaId, ahora).tables;
    var nueva := t.nextVentaId;
    assert nueva !in t.ventas;
    forall id | id in t'.ventas
      ensures t'.ventas[id].vehiculoId in t'.vehiculos
              && t'.vehiculos[t'.ventas[id].vehiculoId].estado == Vehiculos.VENDIDO
    {
      if id != nueva {
        assert t.vehiculos[t.ventas[id].vehiculoId].estado == Vehiculos.VENDIDO;
      }
    }
  }

  /** In a coherent store, `cancelar` succeeds exactly on ACTIVA reservations. */
  lemma CancelarExitoSiActiva(t: Tables, reservaId: int)
    requires Coherente(t)
    requires reservaId in t.reservas
    ensures Reservas.CancelarStep(t, reservaId).result.Ok? <==> Reservas.EstaActiva(t.reservas[reservaId])
    ensures !Reservas.EstaActiva(t.reservas[reservaId]) ==>
      Reservas.CancelarStep(t, reservaId).result == Fail(ReservaNoCancelable)
  {
    assert t.reservas[reservaId].vehiculoId in t.vehiculos;
  }

  /** A cancelled reservation cannot be cancelled again. */
  lemma CancelarDosVecesFalla(t: Tables, reservaId: int)
    requires reservaId in t.reservas
    requires Reservas.CancelarStep(t, reservaId).result.Ok?
    ensures var t' := Reservas.CancelarStep(t, reservaId).tables;
      reservaId in t'.reservas
      && Reservas.CancelarStep(t', reservaId) == Step(t', Fail(ReservaNoCancelable))
  {
    var t' := Reservas.CancelarStep(t, reservaId).tables;
    assert t'.reservas[reservaId].estado == Reservas.CANCELADA;
  }

  /**
   * Reserving and then cancelling refunds exactly the deposit and gives back the vehicles
   * table as it was; the reservation stays on record as CANCELADA.
   */
  lemma CrearLuegoCancelar(t: Tables, clienteId: int, vehiculoId: int, ahora: int)
    requires IdsBelowCounters(t)
    requires Reservas.CrearStep(t, clienteId, vehiculoId, ahora).result.Ok?
    ensures var s1 := Reservas.CrearStep(t, clienteId, vehiculoId, ahora);
      var id := s1.result.value.reservaId;
      && id in s1.tables.reservas
      && var s2 := Reservas.CancelarStep(s1.tables, id);
         && s2.result == Ok(s1.result.value.montoSena)
         && s2.result.value == Reservas.CalcularSena(t.vehiculos[vehiculoId].precio)
         && s2.tables.vehiculos == t.vehiculos
         && s2.tables.reservas.Keys == t.reservas.Keys + {id}
         && s2.tables.reservas[id].estado == Reservas.CANCELADA
         && (forall k :: k in t.reservas ==> s2.tables.reservas[k] == t.reservas[k])
  {
    var s1 := Reservas.CrearStep(t, clienteId, vehiculoId, ahora);
    var id := s1.result.value.reservaId;
    var s2 := Reservas.CancelarStep(s1.tables, id);
    assert id !in t.reservas;
    assert s1.tables.reservas[id].estado == Reservas.ACTIVA;
    assert s2.tables.vehiculos[vehiculoId] == t.vehiculos[vehiculoId];
    assert s2.tables.vehiculos == t.vehiculos;
  }

  /** `crear` adds exactly one reservation row, under a fresh id. */
  lemma CrearAgregaUnaReserva(t: Tables, clienteId: int, vehiculoId: int, ahora: int)
    requires IdsBelowCounters(t)
    requires Reservas.CrearStep(t, clienteId, vehiculoId, ahora).result.Ok?
    ensures var s := Reservas.CrearStep(t, clienteId, vehiculoId, ahora);
      && s.result.value.reservaId !in t.reservas
      && |s.tables.reservas| == |t.reservas| + 1
      && IdsBelowCounters(s.tables)
  {
    var s := Reservas.CrearStep(t, clienteId, vehiculoId, ahora);
    var id := s.result.value.reservaId;
    assert id !in t.reservas;
    assert s.tables.reservas.Keys == t.reservas.Keys + {id};
    assert |t.reservas.Keys + {id}| == |t.reservas.Keys| + 1;
  }

  /** A reservation made at `ahora` is not expired up to 7 days later, and is right after. */
  lemma ValidaSieteDias(t: Tables, clienteId: int, vehiculoId: int, ahora: int, luego: int)
    requires Reservas.CrearStep(t, clienteId, vehiculoId, ahora).result.Ok?
    ensures var s := Reservas.CrearStep(t, clienteId, vehiculoId, ahora);
      var r := s.tables.reservas[s.result.value.reservaId];
      && (luego <= ahora + 604800 ==> !Reservas.EstaVencida(r, luego))
      && (luego > ahora + 604800 ==> Reservas.EstaVencida(r, luego))
  {
  }

  /** A vehicle sold successfully cannot be sold again. */
  lemma RealizarDosVecesFalla(t: Tables, c1: int, vd1: int, vehiculoId: int, m1: string, r1: Option<int>, h1: int,
                              c2: int, vd2: int, m2: string, r2: Option<int>, h2: int)
    requires Ventas.RealizarStep(t, c1, vd1, vehiculoId, m1, r1, h1).result.Ok?
    ensures var t' := Ventas.RealizarStep(t, c1, vd1, vehiculoId, m1, r1, h1).tables;
      Ventas.RealizarStep(t', c2, vd2, vehiculoId, m2, r2, h2) == Step(t', Fail(VehiculoNoDisponibleParaVenta))
  {
    var t' := Ventas.RealizarStep(t, c1, vd1, vehiculoId, m1, r1, h1).tables;
    assert t'.vehiculos[vehiculoId].estado == Vehiculos.VENDIDO;
  }

  /**
   * Reserving and then buying against that reservation: the buyer pays 95 percent of the
   * price, the seller earns 5 percent of the full price, the reservation is COMPLETADA and
   * the vehicle VENDIDO.
   */
  lemma ReservarYComprar(t: Tables, clienteId: int, vehiculoId: int, ahora: int,
                         vendedorId: int, metodoPago: string, luego: int)
    requires Reservas.CrearStep(t, clienteId, vehiculoId, ahora).result.Ok?
    requires t.nextReservaId != 0
    requires vendedorId in t.vendedores
    ensures var s1 := Reservas.CrearStep(t, clienteId, vehiculoId, ahora);
      var id := s1.result.value.reservaId;
      var s2 := Ventas.RealizarStep(s1.tables, clienteId, vendedorId, vehiculoId, metodoPago, Some(id), luego);
      var precio := t.vehiculos[vehiculoId].precio;
      && s2.result.Ok?
      && s2.result.value.precioFinal == precio * 0.95
      && s2.result.value.precioFinal + s1.result.value.montoSena == precio
      && s2.result.value.comisionVendedor == precio * 0.05
      && s2.tables.reservas[id].estado == Reservas.COMPLETADA
      && s2.tables.vehiculos[vehiculoId].estado == Vehiculos.VENDIDO
      && s2.tables.ventas[s2.result.value.ventaId].reservaId == Some(id)
  {
    var s1 := Reservas.CrearStep(t, clienteId, vehiculoId, ahora);
    var id := s1.result.value.reservaId;
    assert s1.tables.vehiculos[vehiculoId].estado == Vehiculos.RESERVADO;
    assert Ventas.ReservaAplicable(s1.tables, Some(id));
  }

  /**
   * The sale does not look for the vehicle's reservation: selling a RESERVADO vehicle
   * without passing its reservation id leaves that reservation ACTIVA on a VENDIDO
   * vehicle, and cancelling it afterwards puts the sold vehicle back to DISPONIBLE.
   */
  lemma VentaSinReservaDejaReservaActiva(t: Tables, reservaId: int, clienteId: int, vendedorId: int,
                                         metodoPago: string, ahora: int)
    requires Coherente(t)
    requires reservaId in t.reservas && Reservas.EstaActiva(t.reservas[reservaId])
    requires vendedorId in t.vendedores
    ensures var v := t.reservas[reservaId].vehiculoId;
      var s := Ventas.RealizarStep(t, clienteId, vendedorId, v, metodoPago, None, ahora);
      && s.result.Ok?
      && s.tables.reservas[reservaId].estado == Reservas.ACTIVA
      && s.tables.vehiculos[v].estado == Vehiculos.VENDIDO
      && !Coherente(s.tables)
      && var c := Reservas.CancelarStep(s.tables, reservaId);
         c.result.Ok? && c.tables.vehiculos[v].estado == Vehiculos.DISPONIBLE
         && s.result.value.ventaId in c.tables.ventas
  {
    var v := t.reservas[reservaId].vehiculoId;
    var s := Ventas.RealizarStep(t, clienteId, vendedorId, v, metodoPago, None, ahora);
    assert t.vehiculos[v].estado == Vehiculos.RESERVADO;
    assert s.tables.reservas == t.reservas;
    assert s.tables.vehiculos[v].estado != Vehiculos.RESERVADO;
  }

  /**
   * The sale does not check that the reservation is for the vehicle sold: a reservation of
   * another vehicle is completed, its deposit is taken off this price, and its own vehicle
   * stays RESERVADO.
   */
  lemma VentaConReservaAjena(t: Tables, reservaId: int, vehiculoId: int, clienteId: int, vendedorId: int,
                             metodoPago: string, ahora: int)
    requires reservaId != 0 && reservaId in t.reservas && Reservas.EstaActiva(t.reservas[reservaId])
    requires t.reservas[reservaId].vehiculoId != vehiculoId
    requires t.reservas[reservaId].vehiculoId in t.vehiculos
    requires vehiculoId in t.vehiculos && Vehiculos.EstaDisponible(t.vehiculos[vehiculoId])
    requires vendedorId in t.vendedores
    ensures var otro := t.reservas[reservaId].vehiculoId;
      var s := Ventas.RealizarStep(t, clienteId, vendedorId, vehiculoId, metodoPago, Some(reservaId), ahora);
      && s.result.Ok?
      && s.result.value.precioFinal == t.vehiculos[vehiculoId].precio - t.reservas[reservaId].montoSena
      && s.tables.reservas[reservaId].estado == Reservas.COMPLETADA
      && s.tables.vehiculos[otro] == t.vehiculos[otro]
  {
    assert Ventas.ReservaAplicable(t, Some(reservaId));
  }
}
