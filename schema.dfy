/**
 * The relational store the workflow reads and writes: the `vehiculos`, `reservas`,
 * `ventas` tables, the seller and user rows the sale queries join with, and the
 * auto-increment counters behind `lastInsertId`. Rows are typed; money is exact `real`,
 * timestamps are `int` seconds.
 */
module Schema {
  import opened Wrappers

  /** A row of `vehiculos` (the fillable columns of the vehicle model). */
  datatype Vehiculo = Vehiculo(
    marca: string,
    modelo: string,
    anio: int,
    precio: real,
    estado: string,
    tipo: string,
    kilometraje: int,
    color: string,
    descripcion: string,
    imagenUrl: string)

  /** A row of `reservas`; `createdAt` is the insertion time the listings order by. */
  datatype Reserva = Reserva(
    clienteId: int,
    vehiculoId: int,
    fechaExpiracion: int,
    estado: string,
    montoSena: real,
    createdAt: int)

  /** A row of `ventas`; `reservaId` is stored exactly as the caller passed it. */
  datatype Venta = Venta(
    clienteId: int,
    vendedorId: int,
    vehiculoId: int,
    reservaId: Option<int>,
    precioFinal: real,
    metodoPago: string,
    comisionVendedor: real,
    createdAt: int)

  /** The `vendedores` row joined to a user id (`usuarios u JOIN vendedores v`). */
  datatype VendedorRow = VendedorRow(dniVendedor: string, nombre: string, apellido: string)

  /** The name columns of `usuarios` that the sale listings concatenate. */
  datatype Usuario = Usuario(nombre: string, apellido: string)

  datatype Tables = Tables(
    vehiculos: map<int, Vehiculo>,
    reservas: map<int, Reserva>,
    ventas: map<int, Venta>,
    vendedores: map<int, VendedorRow>,
    usuarios: map<int, Usuario>,
    nextVehiculoId: int,
    nextReservaId: int,
    nextVentaId: int)

  /** Auto-increment: every stored id is below the next id the table will hand out. */
  predicate IdsBelowCounters(t: Tables)
  {
    && (forall id :: id in t.vehiculos ==> id < t.nextVehiculoId)
    && (forall id :: id in t.reservas ==> id < t.nextReservaId)
    && (forall id :: id in t.ventas ==> id < t.nextVentaId)
  }

  /** The failures the core reports, one per distinct error message of the source. */
  datatype Error =
    | VehiculoNoDisponibleParaReserva
    | ReservaNoCancelable
    | VehiculoDeReservaInexistente
    | VehiculoNoEncontrado
    | VehiculoNoDisponibleParaVenta
    | VendedorNoValido
    | DebeIniciarSesionComoCliente
    | DebeIniciarSesion
    | NoAutorizado
    | ReservaNoEncontrada
    | CotizacionNoEncontrada
    | SoloVendedores
    | VentaNoEncontrada
    | UsuarioNoEncontrado
    | ContrasenaIncorrecta
    | CamposObligatorios
    | EmailYaRegistrado
    | DniYaRegistrado
    | ErrorAlRegistrar(detalle: string)

  /** The `['success' => ..., ...]` envelope every operation returns. */
  datatype Outcome<+T> = Ok(value: T) | Fail(error: Error)

  /** A transaction's effect: the tables after it (commit or rollback) and its response. */
  datatype Step<+T> = Step(tables: Tables, result: Outcome<T>)

  /** The database connection: the same tables as mutable state. */
  class Database {
    var vehiculos: map<int, Vehiculo>
    var reservas: map<int, Reserva>
    var ventas: map<int, Venta>
    var vendedores: map<int, VendedorRow>
    var usuarios: map<int, Usuario>
    var nextVehiculoId: int
    var nextReservaId: int
    var nextVentaId: int

    constructor (t: Tables)
      ensures State() == t
    {
      vehiculos, reservas, ventas := t.vehiculos, t.reservas, t.ventas;
      vendedores, usuarios := t.vendedores, t.usuarios;
      nextVehiculoId, nextReservaId, nextVentaId := t.nextVehiculoId, t.nextReservaId, t.nextVentaId;
    }

    /** The current contents of every table. */
    function State(): Tables
      reads this
    {
      Tables(vehiculos, reservas, ventas, vendedores, usuarios,
             nextVehiculoId, nextReservaId, nextVentaId)
    }
  }
}
