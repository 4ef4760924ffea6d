# buyacar: reservation and sale workflow

This is a Dafny model of the core of the buyacar dealership backend. A client reserves an
available vehicle by paying a 5 percent deposit. The reservation is valid for seven days
and the vehicle is held as RESERVADO. The client may cancel, which refunds the deposit and
frees the vehicle. A seller sells the vehicle, which marks it VENDIDO, completes the
reservation and takes the deposit off the price. The seller earns a 5 percent commission
on the full price. Controllers guard each state-changing operation and each personal or
admin listing with the session's role and, for cancellation, with an ownership check. The
catalog and the detail views need no session. A small ORM base class keeps each record's
attributes. Its `insert` and `update`, reached through `save`, write only the fillable
attributes plus timestamps; its `create` writes every given pair.

How the model is organised:

- The database is a value, `Schema.Tables`. It holds one map per table (id to typed row)
  and the auto-increment counters.
- The class `Schema.Database` holds the same tables as mutable fields. `State()` returns
  them as a `Tables` value.
- Each transaction has two members:
  - a function `XStep(t, ...)` that returns the new tables and the outcome;
  - a method that performs the writes step by step, as the PHP does, and is proved to
    produce exactly what `XStep` describes.
- A failed transaction returns `Fail(error)` and leaves the tables as they were. The PHP
  gets this by rolling back its transaction.
- Queries that end in `ORDER BY` are ghost functions. They lay out the selected rows in an
  order the sort key allows (module `Ordering`). Ties are not resolved.
- The PHP session is the class `Auth.Sesion`, which holds the four session keys.
- PHP truthiness is modelled in module `Php`: `""` and `"0"` are falsy, and so are 0 and
  0.0.
- Money is `real`. Time is an integer number of seconds.

What the code does, in detail:

- The deposit is 5 percent of the vehicle price (app/Models/Reserva.php:23-27, 53).
- The accessory ids that `ReservaController::store` receives never reach `crear`. The call
  passes them, but `crear` has only two parameters (app/Http/Controllers/ReservaController.php:24,
  app/Models/Reserva.php:43).
- The commission is the seller's 5 percent rate applied to the full vehicle price
  (app/Models/Vendedor.php:16, 48-51; app/Models/Venta.php:47-48).
- The deposit is taken off the sale price only when the reservation passed to the sale is
  ACTIVA.
- The sale does not check that the reservation belongs to the vehicle being sold.
- Selling a RESERVADO vehicle without its reservation id leaves that reservation ACTIVA.
  Cancelling it afterwards sets the sold vehicle back to DISPONIBLE, so a vehicle can leave
  VENDIDO. The lemmas `Coherencia.VentaSinReservaDejaReservaActiva` and
  `Coherencia.VentaConReservaAjena` show both cases.
- `cancelar` on a reservation whose vehicle row is gone calls a method on null. That PHP
  Error escapes the `catch (\Exception)` block, so the transaction is never committed. The
  model returns `Fail(VehiculoDeReservaInexistente)` and leaves the tables unchanged.

## Model

| member | source | states |
|---|---|---|
| Reservas.CalcularSena | app/Models/Reserva.php:22-28 | the deposit is exactly 5 percent of the price (one twentieth), it lies between 0 and the price, and the price minus the deposit is 95 percent of it |
| Reservas.EstaActiva | app/Models/Reserva.php:30-33 | true exactly when the status is the literal ACTIVA |
| Reservas.EstaVencida | app/Models/Reserva.php:35-38 | true exactly when the expiration time is strictly before now |
| Reservas.CrearStep | app/Models/Reserva.php:43-80 | fails exactly when the vehicle is missing or not DISPONIBLE, and then changes nothing; on success it adds exactly one ACTIVA reservation under the next id, with deposit CalcularSena(price) and expiration now + 7 days, sets that vehicle (and no other) to RESERVADO, and touches no other table |
| Reservas.Crear | app/Models/Reserva.php:43-80 | the transaction's writes have exactly the effect and outcome of CrearStep |
| Reservas.CancelarStep | app/Models/Reserva.php:85-107 | succeeds exactly when the reservation is ACTIVA and its vehicle exists; a non-ACTIVA reservation fails with ReservaNoCancelable and no change; an ACTIVA one whose vehicle is gone fails with VehiculoDeReservaInexistente and no change; every failure leaves the tables as they were; success marks it CANCELADA, sets its vehicle (only) to DISPONIBLE and refunds its deposit |
| Reservas.Cancelar | app/Models/Reserva.php:85-107 | the writes, including undoing the status update when the vehicle is missing, have exactly the effect and outcome of CancelarStep |
| Reservas.CompletarStep | app/Models/Reserva.php:112-117 | that reservation becomes COMPLETADA whatever its status was; no other reservation and no other table changes |
| Reservas.Completar | app/Models/Reserva.php:112-117 | always returns true and has exactly the effect of CompletarStep |
| Reservas.ConVehiculo | app/Models/Reserva.php:122-131 | lists exactly the client's reservations whose vehicle exists, each once, with that vehicle's columns, newest first |
| Reservas.ConVehiculoOrdenadas | app/Models/Reserva.php:124-128 | a duplicate-free, newest-first layout of the joined rows gives a listing that is sound, complete and free of repeated ids |
| Ventas.RealizarStep | app/Models/Venta.php:28-85 | three failures in source order (missing vehicle, vehicle neither DISPONIBLE nor RESERVADO, unknown seller), each with no change; success exactly when all three pass; then the commission is 5 percent of the full price, the final price is the price minus the deposit of an applicable ACTIVA reservation (else the price), that reservation is completed, the sale row is inserted under the next id, and the vehicle becomes VENDIDO |
| Ventas.Realizar | app/Models/Venta.php:28-85 | the transaction's writes have exactly the effect and outcome of RealizarStep |
| Ventas.ConDetallesParametros | app/Models/Venta.php:101-105 | at most one bound parameter, none exactly when the seller id is falsy; a sale meets the bound parameters exactly when it belongs to that seller or no seller is given |
| Ventas.ConDetalles | app/Models/Venta.php:90-110 | lists exactly the sales whose vehicle, client and seller rows exist, restricted to the seller when the id is truthy, each once with its joined columns, newest first |
| Ventas.DetallesOrdenados | app/Models/Venta.php:92-107 | a duplicate-free, newest-first layout of the joined rows gives a listing that is sound, complete and free of repeated ids |
| Ventas.ComprasCliente | app/Models/Venta.php:115-124 | lists exactly the client's sales whose vehicle exists, each once with the vehicle's columns, newest first |
| Ventas.ComprasOrdenadas | app/Models/Venta.php:117-121 | a duplicate-free, newest-first layout of the joined rows gives a listing that is sound, complete and free of repeated ids |
| Vehiculos.EstaDisponible | app/Models/Vehiculo.php:34-37 | true exactly when the status is DISPONIBLE, a declared status |
| Vehiculos.EsNuevo | app/Models/Vehiculo.php:39-42 | true exactly when the mileage is 0 |
| Vehiculos.Disponibles | app/Models/Vehiculo.php:44-47 | keeps exactly the DISPONIBLE vehicles, unchanged |
| Vehiculos.Filtrar | app/Models/Vehiculo.php:49-74 | the condition list starts with estado = DISPONIBLE, and a vehicle meets all conditions exactly when it is DISPONIBLE and meets each truthy filter (brand substring, type, minimum and maximum price); with no truthy filter the list is the status condition alone |
| Vehiculos.Ejecutar | app/Models/Vehiculo.php:71-73 | lists exactly the vehicles meeting every condition, each once, ordered by brand then model |
| Vehiculos.DisponiblesEsFiltrarSinFiltros | app/Models/Vehiculo.php:44-74 | for any condition list that asks what `filtrar` asks with no filter (which `Filtrar`'s contract gives for its own output), the query returns exactly the vehicles `disponibles` returns |
| Vehiculos.ActualizarEstadoEn | app/Models/Vehiculo.php:76-82 | only that vehicle's status changes, to any given string; the set of ids stays the same |
| Vehiculos.ActualizarEstado | app/Models/Vehiculo.php:76-82 | the vehicles table changes exactly as ActualizarEstadoEn says and nothing else changes; the loaded object comes back with the new status |
| Accesorios.Disponibles | app/Models/Accesorio.php:28-33 | keeps exactly the accessories that are enabled, not deleted and in stock |
| Accesorios.PorModelo | app/Models/Accesorio.php:38-46 | every row comes from a join row of that model whose accessory exists and is offerable and carries its model price; every such join row appears |
| Accesorios.CalcularPrecioAccesorios | app/Models/Accesorio.php:51-65 | an empty selection gives 0; otherwise the total is the sum over the join table for that model and the selected ids, taken as a set; nonnegative when the prices are |
| Accesorios.SumaSinSeleccion | app/Models/Accesorio.php:51-60 | the early return for an empty selection agrees with the sum: no row matches an empty IN list |
| Accesorios.SumaNoNegativa | app/Models/Accesorio.php:56-64 | nonnegative prices sum to a nonnegative total |
| Accesorios.DuplicadosNoCuentan | app/Models/Accesorio.php:56-62 | repeating or reordering the selected ids does not change the total |
| Accesorios.NoVinculadoNoSuma | app/Models/Accesorio.php:56-60 | an id without a join row for the model adds nothing |
| Accesorios.SumaUnion | app/Models/Accesorio.php:56-60 | the total over two disjoint selections is the sum of their totals |
| Accesorios.SinFilasEsCero | app/Models/Accesorio.php:56-64 | no matching join row gives 0, the `?? 0` fallback |
| Accesorios.SumaDeUnAccesorio | app/Models/Accesorio.php:56-64 | with a unique join key, one linked accessory totals exactly its model price |
| Accesorios.Find | app/Models/Accesorio.php:67-71 | the accessory with that id exactly when it exists |
| Vendedores.Vendedor.GetComision | app/Models/Vendedor.php:43-46 | returns the rate field |
| Vendedores.Vendedor.CalcularComision | app/Models/Vendedor.php:48-51 | the commission times 100 is the amount times the rate |
| Vendedores.Vendedor.GetVentas | app/Models/Vendedor.php:90-96 | no sales without a truthy DNI; otherwise the sales recorded under that DNI |
| Vendedores.Construir | app/Models/Vendedor.php:16-36 | the rate is the 5.0 default; the DNI and names come from the vendedores row exactly when the user id is truthy and has one |
| Vendedores.Find | app/Models/Vendedor.php:53-70 | a seller exactly when the user has a vendedores row, with the default rate, that id and the row's DNI |
| Vendedores.ComisionDeVendedorEncontrado | app/Models/Vendedor.php:16-51 | every seller found charges 5 percent: the rate is 5.0 and the commission is amount × 5 / 100, between 0 and the amount |
| Coherencia.VacioEsCoherente | app/Models/Reserva.php:21 | an empty store satisfies the workflow invariant |
| Coherencia.CrearPreserva | app/Models/Reserva.php:48-66 | `crear` keeps the invariant: declared statuses, existing vehicles, an ACTIVA reservation only on a RESERVADO vehicle, at most one per vehicle, sold vehicles VENDIDO |
| Coherencia.CancelarPreserva | app/Models/Reserva.php:90-98 | `cancelar` keeps the invariant |
| Coherencia.RealizarPreserva | app/Models/Venta.php:33-71 | `realizar` keeps the invariant when the vehicle's ACTIVA reservation, if any, is the one passed |
| Coherencia.CancelarExitoSiActiva | app/Models/Reserva.php:90-98 | in a coherent store, `cancelar` succeeds exactly on ACTIVA reservations and otherwise fails with ReservaNoCancelable |
| Coherencia.CancelarDosVecesFalla | app/Models/Reserva.php:90-92 | a reservation cancelled once fails a second cancellation with no change |
| Coherencia.CrearLuegoCancelar | app/Models/Reserva.php:43-107 | reserving then cancelling refunds exactly the deposit, restores the vehicles table and keeps the reservation as CANCELADA |
| Coherencia.CrearAgregaUnaReserva | app/Models/Reserva.php:56-64 | `crear` adds one row under a fresh id and keeps ids below their counters |
| Coherencia.ValidaSieteDias | app/Models/Reserva.php:35-54 | a new reservation is not expired up to 7 days later and is expired after that |
| Coherencia.RealizarDosVecesFalla | app/Models/Venta.php:38-40 | a vehicle sold once cannot be sold again |
| Coherencia.ReservarYComprar | app/Models/Venta.php:47-56 | buying against one's own reservation costs 95 percent of the price, the deposit makes up the rest, the commission is 5 percent, the reservation is COMPLETADA and the vehicle VENDIDO |
| Coherencia.VentaSinReservaDejaReservaActiva | app/Models/Venta.php:51-56 | selling a reserved vehicle without its reservation id leaves the reservation ACTIVA, breaks the invariant, and a later cancel sets the sold vehicle to DISPONIBLE |
| Coherencia.VentaConReservaAjena | app/Models/Venta.php:51-56 | a reservation for another vehicle is completed and its deposit taken off this price, while its own vehicle stays as it was |
| ReservaController.StoreStep | app/Http/Controllers/ReservaController.php:17-25 | anyone but a CLIENTE fails with no change; a CLIENTE reserves through `crear`, always in their own name |
| ReservaController.StoreIgnoraAccesorios | app/Http/Controllers/ReservaController.php:17-24 | the selected accessory ids do not affect the outcome |
| ReservaController.Store | app/Http/Controllers/ReservaController.php:17-25 | has exactly the effect and outcome of StoreStep |
| ReservaController.MisReservas | app/Http/Controllers/ReservaController.php:30-41 | refused exactly for non-clients; otherwise `conVehiculo` of the session id, so only the caller's reservations |
| ReservaController.CancelarStep | app/Http/Controllers/ReservaController.php:46-86 | guards in order (not logged in, missing reservation, no quotation, not the owner), each with no change; an admin or the owner reaches `cancelar`, and success refunds that reservation's deposit |
| ReservaController.Cancelar | app/Http/Controllers/ReservaController.php:46-86 | has exactly the effect and outcome of CancelarStep |
| ReservaController.Show | app/Http/Controllers/ReservaController.php:91-103 | the stored reservation, or ReservaNoEncontrada |
| VentaController.StoreStep | app/Http/Controllers/VentaController.php:15-30 | anyone but a VENDEDOR fails with no change; otherwise `realizar` with the session user as seller, so every recorded sale names the caller |
| VentaController.Store | app/Http/Controllers/VentaController.php:15-30 | has exactly the effect and outcome of StoreStep |
| VentaController.MisVentas | app/Http/Controllers/VentaController.php:35-46 | refused exactly for non-sellers; otherwise `conDetalles` of the session id, so only the caller's sales |
| VentaController.MisCompras | app/Http/Controllers/VentaController.php:51-62 | refused exactly for non-clients; otherwise `comprasCliente` of the session id, so only the caller's purchases |
| VentaController.Index | app/Http/Controllers/VentaController.php:67-78 | refused exactly for non-admins; otherwise every sale with its details |
| VentaController.Show | app/Http/Controllers/VentaController.php:83-95 | the stored sale, or VentaNoEncontrada |
| VehiculoController.Index | app/Http/Controllers/VehiculoController.php:15-22 | exactly the DISPONIBLE vehicles |
| VehiculoController.Show | app/Http/Controllers/VehiculoController.php:39-51 | the stored vehicle, or VehiculoNoEncontrado |
| VehiculoController.NuevoVehiculo | app/Http/Controllers/VehiculoController.php:62-75 | the new row is DISPONIBLE, copies the given fields and defaults missing mileage to 0 and missing texts to "" |
| VehiculoController.StoreStep | app/Http/Controllers/VehiculoController.php:56-81 | anyone but an ADMINISTRADOR fails with no change; otherwise exactly one vehicle is inserted under the next id, which is returned |
| VehiculoController.Store | app/Http/Controllers/VehiculoController.php:56-81 | has exactly the effect and outcome of StoreStep |
| VehiculoController.StorePreserva | app/Http/Controllers/VehiculoController.php:56-81 | adding a vehicle keeps the workflow invariant |
| Auth.Sesion.Check | app/Http/Controllers/AuthController.php:86-89 | logged in exactly when the user id key is set |
| Auth.Sesion.Id | app/Http/Controllers/AuthController.php:117-120 | the session user id exactly when logged in |
| Auth.Sesion.User | app/Http/Controllers/AuthController.php:94-104 | nothing when logged out, otherwise the four session values |
| Auth.Sesion.HasRole | app/Http/Controllers/AuthController.php:109-112 | logged in and the stored role is exactly that role |
| Auth.Sesion.Login | app/Http/Controllers/AuthController.php:17-43 | an unknown email fails first, a wrong password next, neither touching the session; success exactly when both pass, writing the four keys and returning id, full name and role |
| Auth.Sesion.Logout | app/Http/Controllers/AuthController.php:77-81 | afterwards no key is set, so no user, no id and no role |
| Auth.Vacio | app/Http/Controllers/AuthController.php:52-53 | a non-empty field is present |
| Auth.Registro | app/Http/Controllers/AuthController.php:48-72 | each error exactly under its condition in source order (a missing field, a taken email, a taken DNI); once all three pass, the new id when registration succeeds and `ErrorAlRegistrar` with the exception's message when it throws |
| Orm.SobrescribirClaves | app/Models/Model.php:21-27 | `fill` adds exactly the keys of the given pairs |
| Orm.SobrescribirConserva | app/Models/Model.php:21-27 | `fill` leaves every attribute it is not given unchanged |
| Orm.SobrescribirUltimoGana | app/Models/Model.php:21-27 | each key takes the value of its last occurrence among the pairs |
| Orm.Modelo.constructor | app/Models/Model.php:16-19 | the new instance's attributes are the given pairs filled into an empty map |
| Orm.Modelo.Fill | app/Models/Model.php:21-27 | the loop writes each pair in turn, ending with the overwrite of the old attributes by the pairs |
| Orm.Modelo.Get | app/Models/Model.php:29-32 | the attribute, or null when absent |
| Orm.Modelo.Set | app/Models/Model.php:34-37 | that attribute takes the value, so Get returns it, and every other key reads as before |
| Orm.Modelo.ToArray | app/Models/Model.php:39-42 | the attribute map, agreeing with Get on every key |
| Orm.Tabla.Find | app/Models/Model.php:55-61 | the row with that id exactly when it exists |
| Orm.Create | app/Models/Model.php:78-88 | for the distinct keys of a PHP array, every given pair is inserted under the next id, and the returned instance is the row found there |
| Accesorios.PorModeloMultiplicidad | app/Models/Accesorio.php:38-46 | each qualifying join row of the model appears in the result exactly as many times as it occurs in the join table, duplicates included |
| Orm.Tabla.Insertar | app/Models/Model.php:83-86 | the row is stored under the next id with that id as its key, and the id is returned |
| Orm.Tabla.Actualizar | app/Models/Model.php:123-124 | only the row whose id is the key gets the new columns |
| Orm.ActualizarEn | app/Models/Model.php:123-124 | the row with that id keeps its other columns and takes the new ones; no other row changes |
| Orm.Modelo.Save | app/Models/Model.php:90-96 | updates when the key attribute is set and not null, inserts otherwise |
| Orm.Modelo.Insert | app/Models/Model.php:98-112 | writes the fillable attributes plus both timestamps under the next id, then stores that id as the key attribute |
| Orm.Modelo.Update | app/Models/Model.php:114-126 | writes the fillable attributes plus updated_at to the row of this key |
| Orm.SoloFillable | app/Models/Model.php:100 | keeps exactly the attributes whose key is fillable |
| Orm.DatosInsert | app/Models/Model.php:100-102 | the fillable attributes plus both timestamps set to now |
| Orm.DatosUpdate | app/Models/Model.php:116-117 | the fillable attributes plus updated_at set to now |
| Orm.ClavesEnOrden | app/Models/Model.php:80 | the keys of the pairs, in order |
| Orm.Repetir | app/Models/Model.php:81 | n copies of the placeholder |
| Orm.Asignaciones | app/Models/Model.php:119 | one `column = ?` per column, in order |
| Orm.InsertSqlMarcadores | app/Models/Model.php:80-83 | the INSERT text has exactly one `?` per column when no column name contains one |
| Orm.UpdateSqlMarcadores | app/Models/Model.php:119-123 | the UPDATE text has one `?` per column plus one for the key, the number of values bound |

The functions `Orm.Unir` (`implode`), `Orm.InsertSql` and `Orm.UpdateSql` (the statement
text of app/Models/Model.php:98-126) and `Vehiculos.Contiene` (`LIKE '%x%'`,
app/Models/Vehiculo.php:54-57) have no contract of their own. They are helpers of the rows
`Orm.InsertSqlMarcadores`, `Orm.UpdateSqlMarcadores` and `Vehiculos.Filtrar`, whose
contracts state what they mean.

## Left out

- app/Database.php (the PDO connection, queries and transactions) is not part of this model. A transaction appears only as "a failure leaves the tables unchanged". Failures raised by the database itself inside a transaction (a constraint violation on an INSERT or UPDATE, which the models catch, roll back and report with its message) are not modelled: `CrearStep`, `CancelarStep` and `RealizarStep` fail only for the reasons the code checks.
- api.php (routing, `session_start`, JSON encoding) is not part of this model. Its effects on how the core is reached are not modelled:
  - it never forwards accessory ids to `ReservaController::store` (api.php:97-98); the model shows that they would be ignored anyway;
  - it calls `filtrar` only when `marca` or `tipo` is non-empty (api.php:69-77), so a request with only `precio_min`/`precio_max` gets the unfiltered `index`, and the price conditions of `Vehiculos.Filtrar` are never reached through it;
  - it passes the raw query strings to the `?float` price parameters of `VehiculoController::filtrar`, so a non-numeric value such as `""` raises a TypeError there.
- public/js/app.js, the tests and the migration are not part of this model. The client-side deposit preview repeats `calcularSena`.
- Usuario and Cliente lookups (`buscarPorEmail`, `existeEmail`, `existeDni`, `registrarCliente`) and password hashing are foreign to this model. They appear as parameters: a map of accounts, two lookup predicates, the result of registering, and `verificar`.
- The ownership lookups of `ReservaController::cancelar` query columns (`nroReserva`, `idCotizacion`, `cotizaciones`) that the reservations schema does not have. They are modelled as two abstract maps (`ReservaController.Propiedad`), not as queries over the model's tables.
- `Vendedor::find` joins on `idUsuario`. The model keys sellers by user id in a `vendedores` map. `findByDni` is not modelled, because no core operation calls it.
- `Vendedores.Vendedor.GetVentas`: the sales query filters on a `dniVendedor` column that the sales table does not have, so its non-empty case takes the result of that query as a parameter.
- `Model::all`, `where`, `whereFirst` and `delete` are not modelled as separate operations. `where('estado', ...)` appears through `Vehiculos.Disponibles`.
- Ventas.NombreCompleto: `CONCAT(nombre, ' ', apellido)` is computed but has no contract.
- `VehiculoController::filtrar` only wraps `Vehiculo::filtrar`, which is modelled.
- Reading the clock becomes a parameter `ahora`. `date`/`strtotime` formatting is not modelled: 7 days is 604800 seconds and expiration compares seconds.
- Floating-point rounding is not modelled. Prices, deposits and commissions are exact reals.
- Strings compare by character code everywhere: `LIKE` is a case-sensitive substring test, `=` is exact equality and `ORDER BY` is code-point order. Collation and `%`/`_` inside the filter text are not modelled.
- `lastInsertId` returns a string, which `insert` stores as the key attribute. The model stores the integer id.
- Orm.ActualizarEn: only an integer key attribute matches a row. A key holding a string such as `"5"` matches no row in the model, whereas the database would convert it and update row 5.
- Orm: attribute and column order is not modelled. The statement text is built over the ordered key list, and the table name is shown as `t`.
- `SELECT *` rows are the typed row records. Columns outside those records, such as `updated_at`, are not modelled.
- Request fields that the controllers read without a check (`$datos['marca']` and the like) are assumed present. A missing one gives a PHP warning, and for `metodo_pago` a TypeError when it reaches the typed parameter of `realizar`; neither is modelled.
- Auth.Registro: the error keeps the registration exception's message but not the `Error al registrar: ` prefix.
- Reservas.Cancelar and Reservas.CancelarStep require the reservation to exist, because `cancelar` is a method of a loaded reservation. The controller checks this first.
- Concurrency between requests is not modelled. Each operation runs alone.
